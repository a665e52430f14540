/** Compilation of semantic requirements into an ordered normative plan. */
module PlanAdapter {
  import opened Wrappers
  import opened Collections
  import opened TextFacts
  import opened Sorting
  import opened CommandDescriptors
  import opened PlanConformance

  const LEGACY_TEMPLATE := "legacy_template"
  const CI_WORKFLOW_DESCRIPTOR := "ci_workflow_descriptor"

  /** The fixed argv templates, the same in the planner and in the executor. */
  function Template(id: string): Option<seq<string>> {
    match id
    case "lint" => Some(["npm", "run", "lint", "--"])
    case "test" => Some(["npm", "test", "--"])
    case "build" => Some(["npm", "run", "build", "--"])
    case "typecheck" => Some(["npm", "run", "typecheck", "--"])
    case _ => None
  }

  datatype Mapping = Mapping(commands: seq<string>, acceptance: string)

  function MappingOf(id: string): Option<Mapping> {
    match id
    case "test_or_build_result" => Some(Mapping(["test", "build"], "test_or_build"))
    case "lint_result" => Some(Mapping(["lint"], "lint_pass"))
    case "policy_scope_check" => Some(Mapping([], "policy_scope_predicate"))
    case _ => None
  }

  predicate DescriptorEligible(id: string) {
    id == "lint_result" || id == "test_or_build_result"
  }

  datatype EvidenceRef = EvidenceRef(kind: string, descriptor: Option<Descriptor>)

  function FindDescriptor(semanticId: string, evidence: seq<EvidenceRef>): Option<Descriptor> {
    if evidence == [] then None
    else if evidence[0].kind == "ci_workflow_command" && evidence[0].descriptor.Some?
            && evidence[0].descriptor.value.semanticId == semanticId then evidence[0].descriptor
    else FindDescriptor(semanticId, evidence[1..])
  }

  datatype Activation = Observed | Selected

  /** What the compiler accumulates; `executable` and `features` are sets in insertion order. */
  datatype Compiled = Compiled(
    steps: seq<PlannedStep>, executable: seq<string>, descriptors: Descriptors,
    policies: seq<string>, features: seq<string>, unmapped: seq<string>)

  const STEP_REPORTING := "normative-step-reporting-v1"
  const COMMAND_DESCRIPTOR := "command-descriptor-v1"
  const START := Compiled([], [], map[], [], [STEP_REPORTING], [])

  function AddOnce(list: seq<string>, x: string): seq<string> {
    if x in list then list else list + [x]
  }

  function StepId(id: string, n: nat): string {
    id + ":" + Numeral(n)
  }

  /** A step before it is numbered. */
  datatype Draft = Draft(
    source: string, command: string, argv: Option<seq<string>>, paths: Option<seq<string>>, semantic: Option<string>,
    status: string)

  function AddStep(c: Compiled, id: string, d: Draft): Compiled {
    c.(executable := AddOnce(c.executable, d.command),
       steps := c.steps + [PlannedStep(StepId(id, |c.steps|), Some(|c.steps|), d.source, d.command, d.argv, d.paths,
                                       d.semantic, d.status)])
  }

  function LegacyDraft(command: string, semantic: Option<string>): Draft {
    Draft(LEGACY_TEMPLATE, command, Some(OrEmpty(Template(command))), Some([]), semantic, "")
  }

  function AddLegacyAll(c: Compiled, id: string, commands: seq<string>): Compiled
    decreases |commands|
  {
    if commands == [] then c else AddLegacyAll(AddStep(c, id, LegacyDraft(commands[0], Some(id))), id, commands[1..])
  }

  function AddPolicy(c: Compiled, id: string): Compiled {
    if MappingOf(id).Some? then c.(policies := c.policies + [MappingOf(id).value.acceptance]) else c
  }

  function OrElse(s: string, default: string): string {
    if s != "" then s else default
  }

  /** The rejected artifact that keeps an ill-shaped descriptor visible. */
  function RejectedArtifact(id: string, d: Descriptor, reasons: seq<string>): Descriptor {
    Descriptor(OrElse(d.commandId, "invalid_" + id), OrElse(d.semanticId, id), OrElse(d.source, "ci_workflow"),
               None, None, "", None, SHAPE_INVALID, reasons)
  }

  function CarriedReasons(d: Descriptor): seq<string> {
    if d.shapeReasons != [] then d.shapeReasons else ["descriptor shape invalid (no specific reasons carried)"]
  }

  predicate Usable(d: Descriptor) {
    d.policyStatus != SHAPE_INVALID && ShapeOk(d)
  }

  /** The form in which a requirement's descriptor is recorded. */
  function Filed(id: string, d: Descriptor): (r: Descriptor)
    ensures r.commandId != ""
  {
    if Usable(d) then d.(policyStatus := OrElse(d.policyStatus, "pending_executor_validation"))
    else RejectedArtifact(id, d, if d.policyStatus == SHAPE_INVALID then CarriedReasons(d) else ShapeReasons(d))
  }

  function File(m: Descriptors, filed: Descriptor): Descriptors {
    m[filed.commandId := filed]
  }

  /** The step of a descriptor taken as normative. */
  function DescriptorDraft(id: string, d: Descriptor): Draft {
    if Usable(d) then Draft(CI_WORKFLOW_DESCRIPTOR, d.commandId, d.argv, d.targetPaths, Some(id), "")
    else Draft(CI_WORKFLOW_DESCRIPTOR, Filed(id, d).commandId, None, None, Some(id), SHAPE_INVALID)
  }

  function AddNormative(c: Compiled, id: string, d: Descriptor): Compiled {
    AddStep(if Usable(d) then c.(features := AddOnce(c.features, COMMAND_DESCRIPTOR)) else c,
            id, DescriptorDraft(id, d))
  }

  /** One eligible requirement that has a frozen descriptor. */
  function CompileDescriptor(c: Compiled, id: string, d: Descriptor, activation: Activation): Compiled {
    var recorded := c.(descriptors := File(c.descriptors, Filed(id, d)));
    AddPolicy(
      if activation.Selected? then AddNormative(recorded, id, d)
      else if MappingOf(id).Some? then AddLegacyAll(recorded, id, MappingOf(id).value.commands)
      else recorded, id)
  }

  /** The frozen descriptor a requirement is compiled with, if any. */
  function DescriptorFor(id: string, evidence: seq<EvidenceRef>): Option<Descriptor> {
    if DescriptorEligible(id) then FindDescriptor(id, evidence) else None
  }

  function CompileOne(c: Compiled, id: string, evidence: seq<EvidenceRef>, activation: Activation): Compiled {
    var descriptor := DescriptorFor(id, evidence);
    if descriptor.Some? then CompileDescriptor(c, id, descriptor.value, activation)
    else if MappingOf(id).Some? then AddPolicy(AddLegacyAll(c, id, MappingOf(id).value.commands), id)
    else if Template(id).Some? then AddStep(c, id, LegacyDraft(id, None))
    else c.(unmapped := c.unmapped + [id])
  }

  /** All requirements in order. */
  function CompileAll(c: Compiled, ids: seq<string>, evidence: seq<EvidenceRef>, activation: Activation)
    : Compiled
    decreases |ids|
  {
    if ids == [] then c
    else CompileAll(CompileOne(c, ids[0], evidence, activation), ids[1..], evidence, activation)
  }

  /** One policy stands for itself; several are sorted and joined. */
  function AcceptancePolicy(policies: seq<string>): string {
    if |policies| == 0 then "all_must_pass"
    else if |policies| == 1 then policies[0]
    else JoinWith(Sort(policies), "_and_")
  }

  function CanonicalAll(descriptors: Descriptors): Descriptors {
    map k | k in descriptors :: Canonical(descriptors[k])
  }

  datatype CompiledPlan = CompiledPlan(
    commands: seq<string>, acceptance: string, unmapped: seq<string>, descriptors: Descriptors, plan: Plan,
    activation: Activation)

  /** The plan as the compiler returns it. */
  function PlanOf(c: Compiled, activation: Activation): CompiledPlan {
    CompiledPlan(Sort(c.executable), AcceptancePolicy(c.policies), c.unmapped, CanonicalAll(c.descriptors),
                 Plan(2, Some(c.steps), Sort(c.features)), activation)
  }

  // ---- Descriptors are filed by their own ids ----

  /** Every recorded descriptor stands under its own command id. */
  ghost predicate FiledByOwnId(c: Compiled) {
    forall k | k in c.descriptors :: c.descriptors[k].commandId == k && k != ""
  }

  lemma {:induction false} AddLegacyAllKeeps(c: Compiled, id: string, commands: seq<string>)
    ensures AddLegacyAll(c, id, commands).descriptors == c.descriptors
    decreases |commands|
  {
    if commands != [] { AddLegacyAllKeeps(AddStep(c, id, LegacyDraft(commands[0], Some(id))), id, commands[1..]); }
  }

  lemma {:induction false} CompileOneRecords(c: Compiled, id: string, evidence: seq<EvidenceRef>,
                                             activation: Activation)
    ensures CompileOne(c, id, evidence, activation).descriptors == FileOne(c.descriptors, id, evidence)
  {
    if MappingOf(id).Some? {
      AddLegacyAllKeeps(c, id, MappingOf(id).value.commands);
      var d := DescriptorFor(id, evidence);
      if d.Some? {
        AddLegacyAllKeeps(c.(descriptors := File(c.descriptors, Filed(id, d.value))), id, MappingOf(id).value.commands);
      }
    }
  }

  /** What a requirement files, if it has a descriptor. */
  function FiledFor(id: string, evidence: seq<EvidenceRef>): Option<Descriptor> {
    var d := DescriptorFor(id, evidence);
    if d.Some? then Some(Filed(id, d.value)) else None
  }

  function FileOne(m: Descriptors, id: string, evidence: seq<EvidenceRef>): Descriptors {
    var filed := FiledFor(id, evidence);
    if filed.Some? then File(m, filed.value) else m
  }

  function FileAll(m: Descriptors, ids: seq<string>, evidence: seq<EvidenceRef>): Descriptors
    decreases |ids|
  {
    if ids == [] then m else FileAll(FileOne(m, ids[0], evidence), ids[1..], evidence)
  }

  lemma {:induction false} CompileAllRecords(c: Compiled, ids: seq<string>, evidence: seq<EvidenceRef>,
                                             activation: Activation)
    ensures CompileAll(c, ids, evidence, activation).descriptors == FileAll(c.descriptors, ids, evidence)
    decreases |ids|
  {
    if ids != [] {
      CompileOneRecords(c, ids[0], evidence, activation);
      CompileAllRecords(CompileOne(c, ids[0], evidence, activation), ids[1..], evidence, activation);
    }
  }

  /** An entry is there before, or some requirement filed it; and what is filed under an id stays filled. */
  lemma {:induction false} EntryIsFiled(m: Descriptors, ids: seq<string>, evidence: seq<EvidenceRef>, k: string)
    ensures k in m ==> k in FileAll(m, ids, evidence)
    ensures k in FileAll(m, ids, evidence) ==>
              || (k in m && FileAll(m, ids, evidence)[k] == m[k])
              || exists id :: id in ids && FiledFor(id, evidence) == Some(FileAll(m, ids, evidence)[k])
    ensures forall id | id in ids && FiledFor(id, evidence).Some? && FiledFor(id, evidence).value.commandId == k ::
              k in FileAll(m, ids, evidence)
              && exists b :: b in ids && FiledFor(b, evidence) == Some(FileAll(m, ids, evidence)[k])
    decreases |ids|
  {
    if ids != [] {
      assert ids == [ids[0]] + ids[1..];
      EntryIsFiled(FileOne(m, ids[0], evidence), ids[1..], evidence, k);
    }
  }

  /** A requirement's descriptor is recorded in its filed form. */
  predicate Recorded(m: Descriptors, id: string, evidence: seq<EvidenceRef>) {
    var filed := FiledFor(id, evidence);
    filed.Some? ==> filed.value.commandId in m && m[filed.value.commandId] == filed.value
  }

  /** Two requirements file different artifacts under one command id. */
  predicate Clash(a: string, b: string, evidence: seq<EvidenceRef>) {
    var x, y := FiledFor(a, evidence), FiledFor(b, evidence);
    x.Some? && y.Some? && x.value.commandId == y.value.commandId && x != y
  }

  /**
   * Every descriptor found for a requirement survives into the plan if and only if no two requirements
   * file different artifacts under one id; a clash is not refused, it drops one of them.
   */
  lemma {:induction false} EvidenceSurvivesExactly(ids: seq<string>, evidence: seq<EvidenceRef>, activation: Activation)
    ensures var m := CompileAll(START, ids, evidence, activation).descriptors;
            (forall id | id in ids :: Recorded(m, id, evidence))
            <==> (forall a, b | a in ids && b in ids :: !Clash(a, b, evidence))
  {
    var m := CompileAll(START, ids, evidence, activation).descriptors;
    CompileAllRecords(START, ids, evidence, activation);
    if forall a, b | a in ids && b in ids :: !Clash(a, b, evidence) {
      forall id | id in ids ensures Recorded(m, id, evidence) {
        var filed := FiledFor(id, evidence);
        if filed.Some? {
          var k := filed.value.commandId;
          EntryIsFiled(map[], ids, evidence, k);
          var b :| b in ids && FiledFor(b, evidence) == Some(m[k]);
          EntryNamesItself(map[], ids, evidence, k);
          assert !Clash(id, b, evidence);
        }
      }
    }
    if forall id | id in ids :: Recorded(m, id, evidence) {
      forall a, b | a in ids && b in ids ensures !Clash(a, b, evidence) {
        assert Recorded(m, a, evidence) && Recorded(m, b, evidence);
      }
    }
  }

  lemma {:induction false} EntryNamesItself(m: Descriptors, ids: seq<string>, evidence: seq<EvidenceRef>, k: string)
    requires (k in m ==> m[k].commandId == k) && k in FileAll(m, ids, evidence)
    ensures FileAll(m, ids, evidence)[k].commandId == k
    decreases |ids|
  {
    if ids != [] {
      EntryNamesItself(FileOne(m, ids[0], evidence), ids[1..], evidence, k);
    }
  }

  lemma {:induction false} EachFound(a: EvidenceRef, b: EvidenceRef)
    requires a.kind == b.kind == "ci_workflow_command" && a.descriptor.Some? && b.descriptor.Some?
    requires a.descriptor.value.semanticId != b.descriptor.value.semanticId
    ensures FindDescriptor(a.descriptor.value.semanticId, [a, b]) == a.descriptor
    ensures FindDescriptor(b.descriptor.value.semanticId, [a, b]) == b.descriptor
  {
    assert [a, b][1..] == [b];
  }

  /** Two well-shaped descriptors with one id and different arguments: the first is gone, and nothing is refused. */
  lemma {:induction false} LaterDescriptorReplaces(first: Descriptor, second: Descriptor, activation: Activation)
    requires Usable(first) && Usable(second) && first.commandId == second.commandId && first.argv != second.argv
    requires first.semanticId == "lint_result" && second.semanticId == "test_or_build_result"
    ensures var evidence := [EvidenceRef("ci_workflow_command", Some(first)),
                             EvidenceRef("ci_workflow_command", Some(second))];
            var c := CompileAll(START, ["lint_result", "test_or_build_result"], evidence, activation);
            && c.descriptors == map[second.commandId := Filed("test_or_build_result", second)]
            && !Conflict(c.descriptors) && !Recorded(c.descriptors, "lint_result", evidence)
  {
    var ids := ["lint_result", "test_or_build_result"];
    var evidence := [EvidenceRef("ci_workflow_command", Some(first)), EvidenceRef("ci_workflow_command", Some(second))];
    EachFound(evidence[0], evidence[1]);
    CompileAllRecords(START, ids, evidence, activation);
    assert ids[1..] == ["test_or_build_result"] && ids[1..][1..] == [];
    var m := FileOne(map[], "lint_result", evidence);
    assert FileAll(map[], ids, evidence) == FileAll(m, ids[1..], evidence)
           == FileOne(m, "test_or_build_result", evidence);
  }

  lemma {:induction false} CompiledByOwnId(ids: seq<string>, evidence: seq<EvidenceRef>, activation: Activation)
    ensures FiledByOwnId(CompileAll(START, ids, evidence, activation))
  {
    var c := CompileAll(START, ids, evidence, activation);
    CompileAllRecords(START, ids, evidence, activation);
    forall k | k in c.descriptors ensures c.descriptors[k].commandId == k && k != "" {
      EntryNamesItself(map[], ids, evidence, k);
      EntryIsFiled(map[], ids, evidence, k);
    }
  }

  /** Descriptors filed by their own ids can never conflict: canonicalization never throws here. */
  lemma FiledNeverConflict(c: Compiled)
    requires FiledByOwnId(c)
    ensures !Conflict(c.descriptors)
  {
  }

  // ---- The compiler ----

  method CompileValidationPlan(ids: seq<string>, evidence: seq<EvidenceRef>, activation: Activation)
    returns (r: Option<CompiledPlan>)
    ensures r == Some(PlanOf(CompileAll(START, ids, evidence, activation), activation))
  {
    var c := START;
    var stepSeq := 0;
    for i := 0 to |ids|
      invariant CompileAll(START, ids, evidence, activation) == CompileAll(c, ids[i..], evidence, activation)
      invariant stepSeq == |c.steps|
    {
      assert ids[i..][1..] == ids[i + 1..];
      c, stepSeq := CompileRequirement(c, stepSeq, ids[i], evidence, activation);
    }
    CompiledByOwnId(ids, evidence, activation);
    FiledNeverConflict(c);
    var descriptors := CanonicalizePlan(c.descriptors);
    if descriptors.None? {
      return None;
    }
    assert descriptors.value == CanonicalAll(c.descriptors);
    return Some(CompiledPlan(Sort(c.executable), AcceptancePolicy(c.policies), c.unmapped, descriptors.value,
                             Plan(2, Some(c.steps), Sort(c.features)), activation));
  }

  /** The body of the compilation loop for one requirement. */
  method CompileRequirement(before: Compiled, seqBefore: nat, id: string, evidence: seq<EvidenceRef>,
                            activation: Activation)
    returns (c: Compiled, stepSeq: nat)
    requires seqBefore == |before.steps|
    ensures c == CompileOne(before, id, evidence, activation) && stepSeq == |c.steps|
  {
    c, stepSeq := before, seqBefore;
    if DescriptorEligible(id) {
      var found := FindDescriptor(id, evidence);
      if found.Some? {
        c, stepSeq := CompileWithDescriptor(c, stepSeq, id, found.value, activation);
        return;
      }
    }
    if MappingOf(id).Some? {
      c, stepSeq := PushLegacy(c, stepSeq, id, MappingOf(id).value.commands);
      c := c.(policies := c.policies + [MappingOf(id).value.acceptance]);
      return;
    }
    if Template(id).Some? {
      c, stepSeq := PushStep(c, stepSeq, id, LegacyDraft(id, None));
      return;
    }
    c := c.(unmapped := c.unmapped + [id]);
  }

  method CompileWithDescriptor(before: Compiled, seqBefore: nat, id: string, d: Descriptor, activation: Activation)
    returns (c: Compiled, stepSeq: nat)
    requires seqBefore == |before.steps|
    ensures c == CompileDescriptor(before, id, d, activation) && stepSeq == |c.steps|
  {
    c, stepSeq := before, seqBefore;
    var valid := false;
    var filed := d;
    if d.policyStatus == SHAPE_INVALID {
      filed := RejectedArtifact(id, d, CarriedReasons(d));
    } else {
      var reasons := ValidateDescriptorShape(d);
      if reasons == [] {
        valid := true;
        filed := d.(policyStatus := OrElse(d.policyStatus, "pending_executor_validation"));
      } else {
        filed := RejectedArtifact(id, d, reasons);
      }
    }
    assert filed == Filed(id, d) && valid == Usable(d);
    c := c.(descriptors := c.descriptors[filed.commandId := filed]);
    if activation.Selected? {
      if valid {
        c := c.(features := AddOnce(c.features, COMMAND_DESCRIPTOR));
      }
      c, stepSeq := PushStep(c, stepSeq, id, DescriptorDraft(id, d));
    } else if MappingOf(id).Some? {
      c, stepSeq := PushLegacy(c, stepSeq, id, MappingOf(id).value.commands);
    }
    c := AddPolicy(c, id);
  }

  method PushLegacy(before: Compiled, seqBefore: nat, id: string, commands: seq<string>)
    returns (c: Compiled, stepSeq: nat)
    requires seqBefore == |before.steps|
    ensures c == AddLegacyAll(before, id, commands) && stepSeq == |c.steps|
  {
    c, stepSeq := before, seqBefore;
    for i := 0 to |commands|
      invariant AddLegacyAll(before, id, commands) == AddLegacyAll(c, id, commands[i..]) && stepSeq == |c.steps|
    {
      c, stepSeq := PushStep(c, stepSeq, id, LegacyDraft(commands[i], Some(id)));
    }
  }

  /** One pushed step: the id takes the running number, the sequence the position. */
  method PushStep(before: Compiled, seqBefore: nat, id: string, d: Draft) returns (c: Compiled, stepSeq: nat)
    requires seqBefore == |before.steps|
    ensures c == AddStep(before, id, d) && stepSeq == |c.steps|
  {
    var step := PlannedStep(StepId(id, seqBefore), Some(|before.steps|), d.source, d.command, d.argv, d.paths,
                            d.semantic, d.status);
    var executable := before.executable;
    if d.command !in executable {
      executable := executable + [d.command];
    }
    c := before.(executable := executable, steps := before.steps + [step]);
    stepSeq := seqBefore + 1;
  }

  // ---- What every compiled plan satisfies ----

  /** Steps are numbered by position, in their ids too, and name a command. */
  ghost predicate Numbered(steps: seq<PlannedStep>) {
    forall i | 0 <= i < |steps| ::
      && steps[i].sequence == Some(i) && steps[i].commandId != ""
      && exists id: string :: steps[i].stepId == StepId(id, i)
  }

  /** A step of the fixed templates. */
  predicate IsLegacyStep(s: PlannedStep) {
    s.commandSource == LEGACY_TEMPLATE && s.argv == Template(s.commandId) && s.argv.Some? && s.targetPaths == Some([])
  }

  /** A step taken from a descriptor. */
  predicate IsDescriptorStep(s: PlannedStep) {
    s.commandSource == CI_WORKFLOW_DESCRIPTOR
  }

  ghost predicate AllLegacy(steps: seq<PlannedStep>) {
    forall i | 0 <= i < |steps| :: IsLegacyStep(steps[i])
  }

  /** Numbered steps of the two known kinds, whose commands are the executable ones, each listed once. */
  ghost predicate WellCompiled(c: Compiled) {
    && Numbered(c.steps)
    && (forall i | 0 <= i < |c.steps| :: IsLegacyStep(c.steps[i]) || IsDescriptorStep(c.steps[i]))
    && Distinct(c.executable)
    && forall k :: k in c.executable <==> exists i :: 0 <= i < |c.steps| && c.steps[i].commandId == k
  }

  predicate GoodDraft(d: Draft) {
    d.command != "" && (d.source == CI_WORKFLOW_DESCRIPTOR || LegacyGood(d))
  }

  predicate LegacyGood(d: Draft) {
    d.source == LEGACY_TEMPLATE && d.argv == Template(d.command) && d.argv.Some? && d.paths == Some([])
  }

  lemma {:induction false} AddStepWell(c: Compiled, id: string, d: Draft)
    requires WellCompiled(c) && GoodDraft(d)
    ensures WellCompiled(AddStep(c, id, d))
    ensures AllLegacy(c.steps) && LegacyGood(d) ==> AllLegacy(AddStep(c, id, d).steps)
  {
    var after := AddStep(c, id, d);
    var n := |c.steps|;
    assert after.steps[n].stepId == StepId(id, n) && after.steps[n].commandId == d.command;
    forall k ensures k in after.executable <==> exists i :: 0 <= i < |after.steps| && after.steps[i].commandId == k {
      if i :| 0 <= i < n && c.steps[i].commandId == k {
        assert after.steps[i].commandId == k;
      }
      if i :| 0 <= i < |after.steps| && after.steps[i].commandId == k {
        assert i < n ==> c.steps[i].commandId == k;
      }
    }
  }

  lemma {:induction false} LegacyStepsWell(c: Compiled, id: string, commands: seq<string>)
    requires WellCompiled(c) && forall i | 0 <= i < |commands| :: Template(commands[i]).Some?
    ensures WellCompiled(AddLegacyAll(c, id, commands))
    ensures AllLegacy(c.steps) ==> AllLegacy(AddLegacyAll(c, id, commands).steps)
    decreases |commands|
  {
    if commands != [] {
      AddStepWell(c, id, LegacyDraft(commands[0], Some(id)));
      LegacyStepsWell(AddStep(c, id, LegacyDraft(commands[0], Some(id))), id, commands[1..]);
    }
  }

  lemma {:induction false} CompileDescriptorWell(c: Compiled, id: string, d: Descriptor, activation: Activation)
    requires WellCompiled(c)
    ensures WellCompiled(CompileDescriptor(c, id, d, activation))
    ensures activation.Observed? && AllLegacy(c.steps) ==> AllLegacy(CompileDescriptor(c, id, d, activation).steps)
  {
    var recorded := c.(descriptors := File(c.descriptors, Filed(id, d)));
    if activation.Selected? {
      AddStepWell(if Usable(d) then recorded.(features := AddOnce(c.features, COMMAND_DESCRIPTOR)) else recorded,
                  id, DescriptorDraft(id, d));
    } else if MappingOf(id).Some? {
      LegacyStepsWell(recorded, id, MappingOf(id).value.commands);
    }
  }

  lemma {:induction false} CompileOneWell(c: Compiled, id: string, evidence: seq<EvidenceRef>, activation: Activation)
    requires WellCompiled(c)
    ensures WellCompiled(CompileOne(c, id, evidence, activation))
    ensures activation.Observed? && AllLegacy(c.steps) ==> AllLegacy(CompileOne(c, id, evidence, activation).steps)
  {
    var descriptor := DescriptorFor(id, evidence);
    if descriptor.Some? {
      CompileDescriptorWell(c, id, descriptor.value, activation);
    } else if MappingOf(id).Some? {
      LegacyStepsWell(c, id, MappingOf(id).value.commands);
    } else if Template(id).Some? {
      AddStepWell(c, id, LegacyDraft(id, None));
    }
  }

  /**
   * Every compiled plan is numbered in order, holds steps of the two known kinds and lists exactly their
   * commands, each once; in observed mode it holds template steps only.
   */
  lemma {:induction false} CompiledPlanShape(c: Compiled, ids: seq<string>, evidence: seq<EvidenceRef>,
                                             activation: Activation)
    requires WellCompiled(c)
    ensures WellCompiled(CompileAll(c, ids, evidence, activation))
    ensures activation.Observed? && AllLegacy(c.steps) ==> AllLegacy(CompileAll(c, ids, evidence, activation).steps)
    decreases |ids|
  {
    if ids != [] {
      CompileOneWell(c, ids[0], evidence, activation);
      CompiledPlanShape(CompileOne(c, ids[0], evidence, activation), ids[1..], evidence, activation);
    }
  }

  /** The acceptance policy does not depend on the order of the requirements. */
  lemma {:induction false} AcceptanceOrderBlind(a: seq<string>, b: seq<string>)
    requires multiset(a) == multiset(b)
    ensures AcceptancePolicy(a) == AcceptancePolicy(b)
  {
    SortExact(a, b);
    assert |a| == |multiset(a)| == |multiset(b)| == |b|;
    if |a| == 1 {
      assert a[0] in multiset(b);
    }
  }

  /** Step ids never repeat, even when commands do. */
  lemma {:induction false} NumberedIdsDistinct(steps: seq<PlannedStep>)
    requires Numbered(steps)
    ensures Distinct(PlannedIds(steps))
  {
    forall i, j | 0 <= i < j < |steps| ensures steps[i].stepId != steps[j].stepId {
      var p: string :| steps[i].stepId == StepId(p, i);
      var q: string :| steps[j].stepId == StepId(q, j);
      if p + ":" + Numeral(i) == q + ":" + Numeral(j) {
        TaggedNumeralInjective(p, i, q, j);
      }
    }
  }
}
