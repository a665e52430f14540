/** Plan, dispatch, echo and comparison put together. */
module PlanExecution {
  import opened Wrappers
  import opened Collections
  import opened CommandDescriptors
  import opened PlanConformance
  import opened PlanAdapter
  import opened ValidatorRunner

  // ---- Dispatch ----

  function SequenceOf(s: PlannedStep): int {
    if s.sequence.Some? then s.sequence.value else 0
  }

  /** The stable sort by sequence number. */
  function InsertStep(s: PlannedStep, sorted: seq<PlannedStep>): seq<PlannedStep> {
    if sorted == [] || SequenceOf(s) <= SequenceOf(sorted[0]) then [s] + sorted
    else [sorted[0]] + InsertStep(s, sorted[1..])
  }

  function BySequence(steps: seq<PlannedStep>): seq<PlannedStep> {
    if steps == [] then [] else InsertStep(steps[0], BySequence(steps[1..]))
  }

  function CommandIds(steps: seq<PlannedStep>): (r: seq<string>)
    ensures |r| == |steps| && forall i | 0 <= i < |r| :: r[i] == steps[i].commandId
  {
    if steps == [] then [] else [steps[0].commandId] + CommandIds(steps[1..])
  }

  function NonEmpty(ids: seq<string>): seq<string> {
    if ids == [] then [] else (if ids[0] != "" then [ids[0]] else []) + NonEmpty(ids[1..])
  }

  function DispatchCommands(steps: seq<PlannedStep>): seq<string> {
    NonEmpty(CommandIds(BySequence(steps)))
  }

  lemma {:induction false} InOrderStays(steps: seq<PlannedStep>)
    requires forall i, j | 0 <= i < j < |steps| :: SequenceOf(steps[i]) <= SequenceOf(steps[j])
    ensures BySequence(steps) == steps
  {
    if steps != [] {
      InOrderStays(steps[1..]);
      assert steps == [steps[0]] + steps[1..];
      if |steps| > 1 { assert SequenceOf(steps[0]) <= SequenceOf(steps[1]); }
    }
  }

  lemma {:induction false} NoneDropped(ids: seq<string>)
    requires forall i | 0 <= i < |ids| :: ids[i] != ""
    ensures NonEmpty(ids) == ids
  {
    if ids != [] {
      NoneDropped(ids[1..]);
      assert ids == [ids[0]] + ids[1..];
    }
  }

  /** A compiled plan is dispatched command by command in plan order. */
  lemma {:induction false} DispatchIsPlanOrder(steps: seq<PlannedStep>)
    requires Numbered(steps)
    ensures DispatchCommands(steps) == CommandIds(steps)
  {
    InOrderStays(steps);
    NoneDropped(CommandIds(steps));
  }

  // ---- One step run through the executor ----

  /** The executor, given this plan step's command, does what the step says. */
  ghost predicate RunsAsPlanned(s: PlannedStep, descriptors: Descriptors, run: RunOutcome) {
    if s.commandId in descriptors then
      var d := descriptors[s.commandId];
      && d.policyStatus != SHAPE_INVALID && PolicyAccepts(d) && run.started
      && s.commandSource == CI_WORKFLOW_DESCRIPTOR
      && (s.argv.Some? ==> s.argv == d.argv)
      && (ComparesPaths(s) ==> multiset(Trimmed(s.targetPaths.value)) == multiset(Trimmed(d.targetPaths.value)))
    else
      && Template(s.commandId).Some? && run.started
      && s.commandSource == LEGACY_TEMPLATE
      && (s.argv.Some? ==> s.argv == Template(s.commandId))
      && !ComparesPaths(s)
  }

  lemma {:induction false} TrimmedSize(paths: seq<string>)
    requires paths != []
    ensures multiset(Trimmed(paths)) != multiset([])
  {
    assert Trimmed(paths)[0] in multiset(Trimmed(paths));
  }

  /** Apart from the id, the reported step matches the planned one exactly when it ran as planned. */
  lemma {:induction false} ReportedMatches(s: PlannedStep, descriptors: Descriptors, steps: seq<PlannedStep>,
                                           run: RunOutcome)
    requires s.commandId != "" && (s.commandSource == LEGACY_TEMPLATE || s.commandSource == CI_WORKFLOW_DESCRIPTOR)
    ensures var e := Projected(ResultOf(s.commandId, descriptors, steps, run));
            StepMatches(s, e) <==> s.stepId == e.stepId && RunsAsPlanned(s, descriptors, run)
  {
    if ComparesPaths(s) && s.commandId !in descriptors {
      TrimmedSize(s.targetPaths.value);
    }
  }

  lemma ReportedId(command: string, descriptors: Descriptors, steps: seq<PlannedStep>, run: RunOutcome)
    requires command != ""
    ensures var e := Projected(ResultOf(command, descriptors, steps, run)); e.stepId == EchoedId(steps, command) != ""
  {
  }

  /** The id echoed for a step's command: its own, unless a later step shares the command. */
  lemma {:induction false} EchoIsLastSharer(steps: seq<PlannedStep>, i: nat)
    requires i < |steps| && forall s | s in steps :: s.stepId != "" && s.commandId != ""
    ensures exists j :: i <= j < |steps| && steps[j].commandId == steps[i].commandId
                        && EchoedId(steps, steps[i].commandId) == steps[j].stepId
                        && forall k | j < k < |steps| :: steps[k].commandId != steps[i].commandId
  {
    var n := |steps| - 1;
    var command := steps[i].commandId;
    if steps[n].commandId != command {
      EchoIsLastSharer(steps[..n], i);
      var j := EchoOneMore(steps, i);
    }
  }

  /** A last step with another command changes nothing. */
  lemma {:induction false} EchoOneMore(steps: seq<PlannedStep>, i: nat) returns (j: nat)
    requires steps != [] && i < |steps| - 1 && steps[|steps| - 1].commandId != steps[i].commandId
    requires var front := steps[..|steps| - 1];
             exists j :: i <= j < |front| && front[j].commandId == front[i].commandId
                         && EchoedId(front, front[i].commandId) == front[j].stepId
                         && forall k | j < k < |front| :: front[k].commandId != front[i].commandId
    ensures i <= j < |steps| && steps[j].commandId == steps[i].commandId
            && EchoedId(steps, steps[i].commandId) == steps[j].stepId
            && forall k | j < k < |steps| :: steps[k].commandId != steps[i].commandId
  {
    var front := steps[..|steps| - 1];
    j :| i <= j < |front| && front[j].commandId == front[i].commandId
         && EchoedId(front, front[i].commandId) == front[j].stepId
         && forall k | j < k < |front| :: front[k].commandId != front[i].commandId;
    assert forall k | 0 <= k < |front| :: steps[k] == front[k];
  }

  // ---- End to end ----

  ghost predicate KnownSources(steps: seq<PlannedStep>) {
    forall i | 0 <= i < |steps| ::
      steps[i].commandSource == LEGACY_TEMPLATE || steps[i].commandSource == CI_WORKFLOW_DESCRIPTOR
  }

  lemma {:induction false} NumberedIdsNonEmpty(steps: seq<PlannedStep>)
    requires Numbered(steps)
    ensures forall s | s in steps :: s.stepId != "" && s.commandId != ""
  {
    forall i | 0 <= i < |steps| ensures steps[i].stepId != "" {
      var id: string :| steps[i].stepId == StepId(id, i);
      assert |steps[i].stepId| >= 1;
    }
  }

  ghost predicate AllStarted(runs: seq<RunOutcome>) {
    forall i | 0 <= i < |runs| :: runs[i].started
  }

  /** What the executor reports for the dispatched commands. */
  function Reported(commands: seq<string>, steps: seq<PlannedStep>, descriptors: Descriptors, runs: seq<RunOutcome>)
    : (r: seq<ExecutedStep>)
    requires |runs| == |commands|
    ensures |r| == |commands|
    ensures forall i | 0 <= i < |r| :: r[i] == Projected(ResultOf(commands[i], descriptors, steps, runs[i]))
  {
    Projection(Results(commands, descriptors, steps, runs))
  }

  /** The relation derived from plan and report. */
  function RelationOf(steps: seq<PlannedStep>, executed: seq<ExecutedStep>): Relation {
    Compare(Plan(2, Some(steps), []), Some(Evidence(Some(executed), None))).relation
  }

  /** What was reported of step `i` matches it: its own id came back and it ran as planned. */
  ghost predicate CameBack(steps: seq<PlannedStep>, descriptors: Descriptors, runs: seq<RunOutcome>, i: nat)
    requires |runs| == |steps| && i < |steps|
  {
    steps[i].stepId == EchoedId(steps, steps[i].commandId) && RunsAsPlanned(steps[i], descriptors, runs[i])
  }

  lemma {:induction false} ReportedStepwise(steps: seq<PlannedStep>, descriptors: Descriptors, runs: seq<RunOutcome>,
                                            executed: seq<ExecutedStep>)
    requires (forall s | s in steps :: s.commandId != "") && KnownSources(steps) && |runs| == |steps|
    requires executed == Reported(CommandIds(steps), steps, descriptors, runs)
    ensures forall e | e in executed :: e.stepId != ""
    ensures forall i | 0 <= i < |steps| :: StepMatches(steps[i], executed[i]) <==> CameBack(steps, descriptors, runs, i)
  {
    forall i | 0 <= i < |steps|
      ensures executed[i].stepId != ""
      ensures StepMatches(steps[i], executed[i]) <==> CameBack(steps, descriptors, runs, i)
    {
      var command := steps[i].commandId;
      assert CommandIds(steps)[i] == command && command != "";
      ReportedId(command, descriptors, steps, runs[i]);
      ReportedMatches(steps[i], descriptors, steps, runs[i]);
    }
  }

  lemma {:induction false} CompleteEvidence(steps: seq<PlannedStep>, executed: seq<ExecutedStep>)
    requires steps != [] && |executed| == |steps| && forall e | e in executed :: e.stepId != ""
    ensures RelationOf(steps, executed) == Derive(steps, executed, true, true).relation
  {
  }

  /**
   * A numbered plan dispatched in its order is found exact if and only if it is not empty, no two of
   * its steps share a command, and every step ran as planned: the echo map keeps one id per command.
   */
  lemma {:induction false} DispatchedExactly(steps: seq<PlannedStep>, descriptors: Descriptors, runs: seq<RunOutcome>)
    requires Numbered(steps) && KnownSources(steps) && |runs| == |steps|
    ensures |DispatchCommands(steps)| == |steps|
    ensures RelationOf(steps, Reported(DispatchCommands(steps), steps, descriptors, runs)) == Exact <==>
            && steps != [] && Distinct(CommandIds(steps))
            && forall i | 0 <= i < |steps| :: RunsAsPlanned(steps[i], descriptors, runs[i])
  {
    DispatchIsPlanOrder(steps);
    var executed := Reported(CommandIds(steps), steps, descriptors, runs);
    NumberedIdsNonEmpty(steps);
    ReportedStepwise(steps, descriptors, runs, executed);
    if steps != [] {
      CompleteEvidence(steps, executed);
      NumberedIdsDistinct(steps);
      ExactIsPointwise(steps, executed, true, true);
      EchoesDistinct(steps);
      AllCameBack(steps, descriptors, runs);
    }
  }

  lemma {:induction false} AllCameBack(steps: seq<PlannedStep>, descriptors: Descriptors, runs: seq<RunOutcome>)
    requires |runs| == |steps|
    ensures (forall i | 0 <= i < |steps| :: CameBack(steps, descriptors, runs, i)) <==>
            && (forall i | 0 <= i < |steps| :: steps[i].stepId == EchoedId(steps, steps[i].commandId))
            && (forall i | 0 <= i < |steps| :: RunsAsPlanned(steps[i], descriptors, runs[i]))
  {
    if forall i | 0 <= i < |steps| :: CameBack(steps, descriptors, runs, i) {
      forall i | 0 <= i < |steps|
        ensures steps[i].stepId == EchoedId(steps, steps[i].commandId) && RunsAsPlanned(steps[i], descriptors, runs[i])
      {
        assert CameBack(steps, descriptors, runs, i);
      }
    }
  }

  lemma {:induction false} DistinctEchoes(steps: seq<PlannedStep>, i: nat)
    requires Distinct(CommandIds(steps)) && i < |steps| && forall s | s in steps :: s.stepId != "" && s.commandId != ""
    ensures steps[i].stepId == EchoedId(steps, steps[i].commandId)
  {
    EchoIsLastSharer(steps, i);
    var j :| i <= j < |steps| && steps[j].commandId == steps[i].commandId
      && EchoedId(steps, steps[i].commandId) == steps[j].stepId;
    assert CommandIds(steps)[i] == CommandIds(steps)[j];
  }

  /** Every step's own id is echoed exactly when no two steps share a command. */
  lemma {:induction false} EchoesDistinct(steps: seq<PlannedStep>)
    requires Distinct(PlannedIds(steps)) && forall s | s in steps :: s.stepId != "" && s.commandId != ""
    ensures (forall i | 0 <= i < |steps| :: steps[i].stepId == EchoedId(steps, steps[i].commandId))
            <==> Distinct(CommandIds(steps))
  {
    if Distinct(CommandIds(steps)) {
      forall i | 0 <= i < |steps| ensures steps[i].stepId == EchoedId(steps, steps[i].commandId) {
        DistinctEchoes(steps, i);
      }
    }
    if forall i | 0 <= i < |steps| :: steps[i].stepId == EchoedId(steps, steps[i].commandId) {
      forall i, j | 0 <= i < j < |steps| ensures CommandIds(steps)[i] != CommandIds(steps)[j] {
        assert PlannedIds(steps)[i] != PlannedIds(steps)[j];
      }
    }
  }

  /** A compiled plan, in either activation mode, meets what dispatch and comparison ask of a plan. */
  lemma {:induction false} CompiledDispatches(ids: seq<string>, evidence: seq<EvidenceRef>, activation: Activation)
    ensures var steps := CompileAll(START, ids, evidence, activation).steps;
            Numbered(steps) && KnownSources(steps) && DispatchCommands(steps) == CommandIds(steps)
  {
    CompiledPlanShape(START, ids, evidence, activation);
    DispatchIsPlanOrder(CompileAll(START, ids, evidence, activation).steps);
  }

  /**
   * In observed mode, with no descriptor filed under a dispatched command and every command started,
   * a compiled plan is found exact if and only if it is not empty and its commands are pairwise distinct.
   */
  lemma {:induction false} ObservedPlanExact(ids: seq<string>, evidence: seq<EvidenceRef>, runs: seq<RunOutcome>)
    requires var c := CompileAll(START, ids, evidence, Observed);
             && |runs| == |c.steps| && AllStarted(runs)
             && forall i | 0 <= i < |c.steps| :: c.steps[i].commandId !in c.descriptors
    ensures var c := CompileAll(START, ids, evidence, Observed);
            && |DispatchCommands(c.steps)| == |c.steps|
            && (RelationOf(c.steps, Reported(DispatchCommands(c.steps), c.steps, CanonicalAll(c.descriptors), runs))
                == Exact
                <==> c.steps != [] && Distinct(CommandIds(c.steps)))
  {
    var c := CompileAll(START, ids, evidence, Observed);
    CompiledPlanShape(START, ids, evidence, Observed);
    CompiledDispatches(ids, evidence, Observed);
    forall i | 0 <= i < |c.steps| ensures RunsAsPlanned(c.steps[i], CanonicalAll(c.descriptors), runs[i]) {
      assert IsLegacyStep(c.steps[i]);
    }
    DispatchedExactly(c.steps, CanonicalAll(c.descriptors), runs);
  }

  /** Asking for a requirement and for one of its commands by name shares a command: never exact. */
  lemma {:induction false} LintTwiceDiverges(runs: seq<RunOutcome>)
    requires |runs| == 2 && AllStarted(runs)
    ensures var c := CompileAll(START, ["lint_result", "lint"], [], Observed);
            && |DispatchCommands(c.steps)| == 2
            && RelationOf(c.steps, Reported(DispatchCommands(c.steps), c.steps, map[], runs)) != Exact
  {
    var ids := ["lint_result", "lint"];
    var c1 := CompileOne(START, "lint_result", [], Observed);
    assert ["lint"][1..] == [];
    assert |c1.steps| == 1 && c1.steps[0].commandId == "lint";
    assert ids[1..] == ["lint"];
    var c2 := CompileOne(c1, "lint", [], Observed);
    assert |c2.steps| == 2 && c2.steps[0].commandId == c2.steps[1].commandId;
    assert CompileAll(START, ids, [], Observed) == CompileAll(c1, ["lint"], [], Observed) == c2;
    CompiledDispatches(ids, [], Observed);
    DispatchedExactly(c2.steps, map[], runs);
    assert CommandIds(c2.steps)[0] == CommandIds(c2.steps)[1];
  }
}
