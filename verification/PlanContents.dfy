/** What a compiled plan holds, read off its requirements. */
module PlanContents {
  import opened Wrappers
  import opened Collections
  import opened TextFacts
  import opened Sorting
  import opened CommandDescriptors
  import opened PlanConformance
  import opened PlanAdapter

  // ---- Steps ----

  /** One step a requirement asks for. */
  datatype Asked = Asked(id: string, draft: Draft)

  /**
   * The steps a requirement asks for: in selected mode its descriptor's command, else every command of its
   * mapping with its template, else the command it is itself, else none.
   */
  function AskedFor(id: string, evidence: seq<EvidenceRef>, activation: Activation): seq<Asked> {
    var found := DescriptorFor(id, evidence);
    if activation.Selected? && found.Some? then
      var d := found.value;
      [Asked(id, if Usable(d) then Draft("ci_workflow_descriptor", d.commandId, d.argv, d.targetPaths, Some(id), "")
                 else Draft("ci_workflow_descriptor", if d.commandId != "" then d.commandId else "invalid_" + id,
                            None, None, Some(id), "shape_invalid"))]
    else if MappingOf(id).Some? then
      var commands := MappingOf(id).value.commands;
      seq(|commands|, k requires 0 <= k < |commands| =>
        Asked(id, Draft("legacy_template", commands[k], Template(commands[k]), Some([]), Some(id), "")))
    else if Template(id).Some? then [Asked(id, Draft("legacy_template", id, Template(id), Some([]), None, ""))]
    else []
  }

  function Flatten<T>(parts: seq<seq<T>>): seq<T> {
    if parts == [] then [] else parts[0] + Flatten(parts[1..])
  }

  function Parts(ids: seq<string>, evidence: seq<EvidenceRef>, activation: Activation): seq<seq<Asked>> {
    seq(|ids|, i requires 0 <= i < |ids| => AskedFor(ids[i], evidence, activation))
  }

  /** What all requirements ask for, in order. */
  function AllAsked(ids: seq<string>, evidence: seq<EvidenceRef>, activation: Activation): seq<Asked> {
    Flatten(Parts(ids, evidence, activation))
  }

  /** The asked step as the plan's step at position `i`. */
  function StepFor(a: Asked, i: nat): PlannedStep {
    PlannedStep(a.id + ":" + Numeral(i), Some(i), a.draft.source, a.draft.command, a.draft.argv, a.draft.paths,
                a.draft.semantic, a.draft.status)
  }

  /** The steps are the asked ones, in order, numbered by position. */
  ghost predicate Holds(steps: seq<PlannedStep>, asked: seq<Asked>) {
    |steps| == |asked| && forall i | 0 <= i < |steps| :: steps[i] == StepFor(asked[i], i)
  }

  lemma {:induction false} AddStepHolds(c: Compiled, id: string, d: Draft, asked: seq<Asked>)
    requires Holds(c.steps, asked)
    ensures Holds(AddStep(c, id, d).steps, asked + [Asked(id, d)])
  {
  }

  lemma {:induction false} LegacyHolds(c: Compiled, id: string, commands: seq<string>, asked: seq<Asked>,
                                       more: seq<Asked>)
    requires Holds(c.steps, asked) && |more| == |commands|
    requires forall k | 0 <= k < |commands| :: more[k] == Asked(id, LegacyDraft(commands[k], Some(id)))
    ensures Holds(AddLegacyAll(c, id, commands).steps, asked + more)
    decreases |commands|
  {
    if commands == [] {
      assert asked + more == asked;
    } else {
      AddStepHolds(c, id, LegacyDraft(commands[0], Some(id)), asked);
      LegacyHolds(AddStep(c, id, LegacyDraft(commands[0], Some(id))), id, commands[1..], asked + [more[0]], more[1..]);
      assert asked + [more[0]] + more[1..] == asked + more;
    }
  }

  lemma {:induction false} OneHolds(c: Compiled, id: string, evidence: seq<EvidenceRef>, activation: Activation,
                                    asked: seq<Asked>)
    requires Holds(c.steps, asked)
    ensures Holds(CompileOne(c, id, evidence, activation).steps, asked + AskedFor(id, evidence, activation))
  {
    var more := AskedFor(id, evidence, activation);
    var found := DescriptorFor(id, evidence);
    if found.Some? {
      var recorded := c.(descriptors := File(c.descriptors, Filed(id, found.value)));
      if activation.Selected? {
        var d := found.value;
        AddStepHolds(if Usable(d) then recorded.(features := AddOnce(c.features, COMMAND_DESCRIPTOR)) else recorded,
                     id, DescriptorDraft(id, d), asked);
      } else {
        LegacyHolds(recorded, id, MappingOf(id).value.commands, asked, more);
      }
    } else if MappingOf(id).Some? {
      LegacyHolds(c, id, MappingOf(id).value.commands, asked, more);
    } else if Template(id).Some? {
      AddStepHolds(c, id, LegacyDraft(id, None), asked);
    } else {
      assert asked + more == asked;
    }
  }

  lemma {:induction false} AllHold(c: Compiled, ids: seq<string>, evidence: seq<EvidenceRef>, activation: Activation,
                                   asked: seq<Asked>)
    requires Holds(c.steps, asked)
    ensures Holds(CompileAll(c, ids, evidence, activation).steps, asked + AllAsked(ids, evidence, activation))
    decreases |ids|
  {
    if ids == [] {
      assert asked + [] == asked;
    } else {
      assert Parts(ids, evidence, activation)[1..] == Parts(ids[1..], evidence, activation);
      OneHolds(c, ids[0], evidence, activation, asked);
      AllHold(CompileOne(c, ids[0], evidence, activation), ids[1..], evidence, activation,
              asked + AskedFor(ids[0], evidence, activation));
      Regroup(asked, AskedFor(ids[0], evidence, activation), AllAsked(ids[1..], evidence, activation));
    }
  }

  /** A compiled plan's steps are exactly what its requirements ask for, requirement by requirement. */
  lemma {:induction false} PlanHoldsExactlyTheAsked(ids: seq<string>, evidence: seq<EvidenceRef>,
                                                    activation: Activation)
    ensures Holds(CompileAll(START, ids, evidence, activation).steps, AllAsked(ids, evidence, activation))
  {
    AllHold(START, ids, evidence, activation, []);
    assert [] + AllAsked(ids, evidence, activation) == AllAsked(ids, evidence, activation);
  }

  /** Each part stands together in the whole. */
  lemma {:induction false} PartStandsIn<T>(parts: seq<seq<T>>, i: nat) returns (at: nat)
    requires i < |parts|
    ensures at + |parts[i]| <= |Flatten(parts)| && Flatten(parts)[at..at + |parts[i]|] == parts[i]
  {
    var rest := Flatten(parts[1..]);
    if i == 0 {
      at := 0;
      assert (parts[0] + rest)[0..|parts[0]|] == parts[0];
    } else {
      var before := PartStandsIn(parts[1..], i - 1);
      at := |parts[0]| + before;
      SliceAfter(parts[0], rest, before, |parts[i]|);
    }
  }

  lemma SliceAfter<T>(first: seq<T>, rest: seq<T>, i: nat, n: nat)
    requires i + n <= |rest|
    ensures (first + rest)[|first| + i..|first| + i + n] == rest[i..i + n]
  {
  }

  predicate RunsTestThenBuild(steps: seq<PlannedStep>, k: int) {
    && 0 <= k < |steps| - 1
    && steps[k].commandId == "test" && steps[k].argv == Some(["npm", "test", "--"])
    && steps[k + 1].commandId == "build" && steps[k + 1].argv == Some(["npm", "run", "build", "--"])
  }

  /** A plan for test and build runs both, one after the other, with their npm scripts. */
  lemma {:induction false} TestAndBuildAreAsked(ids: seq<string>, i: nat, evidence: seq<EvidenceRef>) returns (k: nat)
    requires i < |ids| && ids[i] == "test_or_build_result"
    ensures RunsTestThenBuild(CompileAll(START, ids, evidence, Observed).steps, k)
  {
    PlanHoldsExactlyTheAsked(ids, evidence, Observed);
    var one := TestAndBuildAsk(evidence);
    k := PartStandsIn(Parts(ids, evidence, Observed), i);
    TwoStepsHeld(CompileAll(START, ids, evidence, Observed).steps, AllAsked(ids, evidence, Observed), k, one);
  }

  /** The requirements that are known, and the one of them that asks for no command. */
  lemma {:induction false} KnownRequirements(id: string, evidence: seq<EvidenceRef>)
    ensures var semantic, commands := {"test_or_build_result", "lint_result", "policy_scope_check"},
                                      {"lint", "test", "build", "typecheck"};
            && (UnmappedOf(id) == [] <==> id in semantic + commands)
            && (PolicyOf(id) != [] <==> id in semantic)
            && (AskedFor(id, evidence, Observed) != [] <==> id in semantic + commands - {"policy_scope_check"})
  {
    var m := MappingOf(id);
    if m.Some? { assert AskedFor(id, evidence, Observed) == [] <==> m.value.commands == []; }
  }

  lemma {:induction false} TestAndBuildAsk(evidence: seq<EvidenceRef>) returns (one: seq<Asked>)
    ensures one == AskedFor("test_or_build_result", evidence, Observed) && |one| == 2
    ensures one[0].draft.command == "test" && one[0].draft.argv == Some(["npm", "test", "--"])
    ensures one[1].draft.command == "build" && one[1].draft.argv == Some(["npm", "run", "build", "--"])
  {
    one := AskedFor("test_or_build_result", evidence, Observed);
  }

  lemma {:induction false} TwoStepsHeld(steps: seq<PlannedStep>, all: seq<Asked>, k: nat, one: seq<Asked>)
    requires Holds(steps, all) && |one| == 2 && k + 2 <= |all| && all[k..k + 2] == one
    ensures k < |steps| - 1
    ensures steps[k].commandId == one[0].draft.command && steps[k].argv == one[0].draft.argv
    ensures steps[k + 1].commandId == one[1].draft.command && steps[k + 1].argv == one[1].draft.argv
  {
    assert all[k..k + 2][0] == all[k] && all[k..k + 2][1] == all[k + 1];
    assert steps[k] == StepFor(all[k], k) && steps[k + 1] == StepFor(all[k + 1], k + 1);
  }

  // ---- Evidence ----

  /** The descriptor of a requirement is that of the first CI workflow reference naming it. */
  lemma {:induction false} FirstReferenceFound(semanticId: string, evidence: seq<EvidenceRef>)
    ensures match FindDescriptor(semanticId, evidence)
            case Some(d) =>
              exists i :: 0 <= i < |evidence| && Names(evidence[i], semanticId) && evidence[i].descriptor == Some(d)
                          && forall k | 0 <= k < i :: !Names(evidence[k], semanticId)
            case None => forall i | 0 <= i < |evidence| :: !Names(evidence[i], semanticId)
  {
    if evidence != [] && !Names(evidence[0], semanticId) {
      var rest := evidence[1..];
      FirstReferenceFound(semanticId, rest);
      if FindDescriptor(semanticId, rest).Some? {
        var i :| 0 <= i < |rest| && Names(rest[i], semanticId)
                 && rest[i].descriptor == FindDescriptor(semanticId, rest)
                 && forall k | 0 <= k < i :: !Names(rest[k], semanticId);
        assert evidence[i + 1] == rest[i] && forall k | 0 < k < i + 1 :: evidence[k] == rest[k - 1];
      } else {
        assert forall i | 0 < i < |evidence| :: evidence[i] == rest[i - 1];
      }
    }
  }

  predicate Names(e: EvidenceRef, semanticId: string) {
    e.kind == "ci_workflow_command" && e.descriptor.Some? && e.descriptor.value.semanticId == semanticId
  }

  /** A recorded descriptor that cannot run says so, with a reason, and carries nothing to run. */
  lemma {:induction false} UnusableIsVisible(id: string, d: Descriptor)
    ensures var filed := Filed(id, d);
            && (filed.policyStatus == "shape_invalid" <==> d.policyStatus == "shape_invalid" || ShapeReasons(d) != [])
            && (filed.policyStatus == "shape_invalid" ==>
                  && filed.shapeReasons != [] && filed.argv.None? && filed.targetPaths.None?
                  && filed.commandId == (if d.commandId != "" then d.commandId else "invalid_" + id)
                  && filed.semanticId == (if d.semanticId != "" then d.semanticId else id))
            && (filed.policyStatus != "shape_invalid" ==>
                  filed == d.(policyStatus := if d.policyStatus != "" then d.policyStatus
                                              else "pending_executor_validation"))
  {
  }

  // ---- Policies, unmapped requirements and features ----

  function PolicyOf(id: string): seq<string> {
    if MappingOf(id).Some? then [MappingOf(id).value.acceptance] else []
  }

  function UnmappedOf(id: string): seq<string> {
    if MappingOf(id).None? && Template(id).None? then [id] else []
  }

  function AllPolicies(ids: seq<string>): seq<string> {
    if ids == [] then [] else PolicyOf(ids[0]) + AllPolicies(ids[1..])
  }

  function AllUnmapped(ids: seq<string>): seq<string> {
    if ids == [] then [] else UnmappedOf(ids[0]) + AllUnmapped(ids[1..])
  }

  lemma {:induction false} LegacyKeepsRest(c: Compiled, id: string, commands: seq<string>)
    ensures var after := AddLegacyAll(c, id, commands);
            after.policies == c.policies && after.unmapped == c.unmapped && after.features == c.features
    decreases |commands|
  {
    if commands != [] {
      LegacyKeepsRest(AddStep(c, id, LegacyDraft(commands[0], Some(id))), id, commands[1..]);
    }
  }

  /** A requirement whose usable descriptor is taken as normative. */
  predicate UsesDescriptor(id: string, evidence: seq<EvidenceRef>, activation: Activation) {
    activation.Selected? && DescriptorFor(id, evidence).Some? && Usable(DescriptorFor(id, evidence).value)
  }

  lemma {:induction false} OneRest(c: Compiled, id: string, evidence: seq<EvidenceRef>, activation: Activation)
    ensures var after := CompileOne(c, id, evidence, activation);
            && after.policies == c.policies + PolicyOf(id)
            && after.unmapped == c.unmapped + UnmappedOf(id)
            && after.features == if UsesDescriptor(id, evidence, activation)
                                 then AddOnce(c.features, COMMAND_DESCRIPTOR) else c.features
  {
    var found := DescriptorFor(id, evidence);
    if found.Some? {
      var recorded := c.(descriptors := File(c.descriptors, Filed(id, found.value)));
      LegacyKeepsRest(recorded, id, MappingOf(id).value.commands);
    } else if MappingOf(id).Some? {
      LegacyKeepsRest(c, id, MappingOf(id).value.commands);
    }
  }

  lemma {:induction false} AllPoliciesAndUnmapped(c: Compiled, ids: seq<string>, evidence: seq<EvidenceRef>,
                                                  activation: Activation)
    ensures var after := CompileAll(c, ids, evidence, activation);
            after.policies == c.policies + AllPolicies(ids) && after.unmapped == c.unmapped + AllUnmapped(ids)
    decreases |ids|
  {
    if ids != [] {
      OneRest(c, ids[0], evidence, activation);
      AllPoliciesAndUnmapped(CompileOne(c, ids[0], evidence, activation), ids[1..], evidence, activation);
      Regroup(c.policies, PolicyOf(ids[0]), AllPolicies(ids[1..]));
      Regroup(c.unmapped, UnmappedOf(ids[0]), AllUnmapped(ids[1..]));
    }
  }

  lemma {:induction false} AllFeatures(c: Compiled, ids: seq<string>, evidence: seq<EvidenceRef>,
                                       activation: Activation)
    ensures forall f :: f in CompileAll(c, ids, evidence, activation).features <==>
              f in c.features || (f == COMMAND_DESCRIPTOR
                                  && exists id :: id in ids && UsesDescriptor(id, evidence, activation))
    decreases |ids|
  {
    if ids != [] {
      OneRest(c, ids[0], evidence, activation);
      AllFeatures(CompileOne(c, ids[0], evidence, activation), ids[1..], evidence, activation);
      assert forall id :: id in ids <==> id == ids[0] || id in ids[1..];
    }
  }

  /**
   * The rest of the plan: the policies of the mapped requirements joined, the requirements nobody knows,
   * the commands of its steps, and the features, of which descriptors are one exactly when some requirement
   * uses its descriptor.
   */
  lemma {:induction false} PlanRestExactly(ids: seq<string>, evidence: seq<EvidenceRef>, activation: Activation)
    ensures var plan := PlanOf(CompileAll(START, ids, evidence, activation), activation);
            && plan.acceptance == AcceptancePolicy(AllPolicies(ids))
            && plan.unmapped == AllUnmapped(ids)
            && plan.plan.schemaVersion == 2
            && (forall f :: f in plan.plan.requiredFeatures <==>
                  || f == "normative-step-reporting-v1"
                  || (f == "command-descriptor-v1"
                      && exists id :: id in ids && UsesDescriptor(id, evidence, activation)))
    ensures var c := CompileAll(START, ids, evidence, activation);
            forall k :: k in PlanOf(c, activation).commands <==> exists s :: s in c.steps && s.commandId == k
  {
    AllPoliciesAndUnmapped(START, ids, evidence, activation);
    AllFeatures(START, ids, evidence, activation);
    CompiledPlanShape(START, ids, evidence, activation);
    var c := CompileAll(START, ids, evidence, activation);
    SortKeeps(c.features);
    SortKeeps(c.executable);
    assert [] + AllPolicies(ids) == AllPolicies(ids) && [] + AllUnmapped(ids) == AllUnmapped(ids);
  }

  /** The acceptance policy names every policy, in order, joined; `all_must_pass` stands for none. */
  lemma {:induction false} AcceptanceNames(policies: seq<string>)
    ensures policies == [] ==> AcceptancePolicy(policies) == "all_must_pass"
    ensures policies != [] ==>
              exists names :: Sorted(names) && multiset(names) == multiset(policies)
                              && AcceptancePolicy(policies) == JoinWith(names, "_and_")
  {
    SortSorts(policies);
    if |policies| == 1 {
      assert Sorted(policies) && JoinWith(policies, "_and_") == policies[0];
    }
  }
}
