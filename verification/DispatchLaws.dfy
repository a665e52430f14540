/** What is dispatched, and what the two backends conclude and report. */
module DispatchLaws {
  import opened Wrappers
  import opened CommandDescriptors
  import opened PlanConformance
  import opened PlanAdapter
  import opened ValidatorRunner
  import opened PlanExecution

  // ---- Dispatch of any plan ----

  ghost predicate InSequence(steps: seq<PlannedStep>) {
    forall i, j | 0 <= i < j < |steps| :: SequenceOf(steps[i]) <= SequenceOf(steps[j])
  }

  lemma {:induction false} InsertKeepsSteps(s: PlannedStep, sorted: seq<PlannedStep>)
    ensures multiset(InsertStep(s, sorted)) == multiset{s} + multiset(sorted)
  {
    if sorted != [] && SequenceOf(sorted[0]) < SequenceOf(s) {
      InsertKeepsSteps(s, sorted[1..]);
      assert sorted == [sorted[0]] + sorted[1..];
    }
  }

  lemma {:induction false} InsertInSequence(s: PlannedStep, sorted: seq<PlannedStep>)
    requires InSequence(sorted)
    ensures InSequence(InsertStep(s, sorted))
  {
    if sorted != [] && SequenceOf(sorted[0]) < SequenceOf(s) {
      var rest := InsertStep(s, sorted[1..]);
      InsertInSequence(s, sorted[1..]);
      InsertKeepsSteps(s, sorted[1..]);
      forall j | 0 <= j < |rest| ensures SequenceOf(sorted[0]) <= SequenceOf(rest[j]) {
        assert rest[j] in multiset(rest);
        assert rest[j] == s || rest[j] in sorted[1..];
      }
    }
  }

  /** Steps are tried by ascending sequence number, a missing one counting as zero, and none is lost. */
  lemma {:induction false} DispatchSorts(steps: seq<PlannedStep>)
    ensures InSequence(BySequence(steps)) && multiset(BySequence(steps)) == multiset(steps)
  {
    if steps != [] {
      DispatchSorts(steps[1..]);
      InsertInSequence(steps[0], BySequence(steps[1..]));
      InsertKeepsSteps(steps[0], BySequence(steps[1..]));
      assert steps == [steps[0]] + steps[1..];
    }
  }

  function WithSequence(steps: seq<PlannedStep>, n: int): seq<PlannedStep> {
    if steps == [] then []
    else (if SequenceOf(steps[0]) == n then [steps[0]] else []) + WithSequence(steps[1..], n)
  }

  lemma {:induction false} InsertStable(s: PlannedStep, sorted: seq<PlannedStep>, n: int)
    requires InSequence(sorted)
    ensures WithSequence(InsertStep(s, sorted), n) == (if SequenceOf(s) == n then [s] else []) + WithSequence(sorted, n)
  {
    if sorted != [] && SequenceOf(sorted[0]) < SequenceOf(s) {
      InsertStable(s, sorted[1..], n);
      if SequenceOf(s) == n {
        assert SequenceOf(sorted[0]) != n;
        assert [] + ([s] + WithSequence(sorted[1..], n)) == [s] + WithSequence(sorted[1..], n);
      }
    }
  }

  /** Steps that share a number keep the order in which the plan lists them. */
  lemma {:induction false} DispatchIsStable(steps: seq<PlannedStep>, n: int)
    ensures WithSequence(BySequence(steps), n) == WithSequence(steps, n)
  {
    if steps != [] {
      DispatchIsStable(steps[1..], n);
      DispatchSorts(steps[1..]);
      InsertStable(steps[0], BySequence(steps[1..]), n);
    }
  }

  /** The commands of the sorted steps are dispatched, empty ones left out. */
  lemma {:induction false} OnlyEmptyDropped(ids: seq<string>)
    ensures "" !in NonEmpty(ids)
    ensures forall id | id != "" :: multiset(NonEmpty(ids))[id] == multiset(ids)[id]
  {
    if ids != [] {
      OnlyEmptyDropped(ids[1..]);
      assert ids == [ids[0]] + ids[1..];
    }
  }

  // ---- The Docker backend ----

  /** There the last failure is reported, null if any status is. */
  lemma {:induction false} DockerAggregateIs(so_far: Option<int>, statuses: seq<Option<int>>)
    ensures var a := DockerAggregateAll(so_far, statuses);
            && (a.None? <==> so_far.None? || None in statuses)
            && (a.Some? ==>
                  || (a == so_far && forall i | 0 <= i < |statuses| :: statuses[i] == Some(0))
                  || (a != Some(0) && exists i :: 0 <= i < |statuses| && statuses[i] == a
                                                  && forall k | i < k < |statuses| :: statuses[k] == Some(0)))
    decreases |statuses|
  {
    if statuses != [] {
      var n := |statuses| - 1;
      var front := statuses[..n];
      DockerAggregateIs(so_far, front);
      DockerAggregatePush(so_far, front, statuses[n]);
      assert statuses == front + [statuses[n]];
      if DockerAggregateAll(so_far, statuses).Some? && statuses[n] == Some(0) {
        assert forall i | 0 <= i < n :: statuses[i] == front[i];
        if i :| 0 <= i < |front| && front[i] == DockerAggregateAll(so_far, front) && front[i] != Some(0)
                && forall k | i < k < |front| :: front[k] == Some(0) {
          assert statuses[i] == front[i] && forall k | i < k < |statuses| :: statuses[k] == Some(0);
        }
      }
    }
  }

  /** A null status is inconclusive, a failure fails, and success passes on a production image only. */
  lemma {:induction false} DockerVerdictIs(statuses: seq<Option<int>>, testFixture: bool)
    ensures DockerConcluded(statuses, testFixture) ==
            if exists i :: 0 <= i < |statuses| && statuses[i] == None then Inconclusive
            else if exists i :: 0 <= i < |statuses| && statuses[i] != Some(0) then Fail
            else if testFixture then Inconclusive
            else Pass
  {
    if None !in statuses {
      DockerAggregateZero(Some(0), statuses);
    }
  }

  /** What Docker reports for a step matches the plan exactly when it is a template step that started. */
  lemma {:induction false} DockerReportedMatches(s: PlannedStep, steps: seq<PlannedStep>, run: RunOutcome)
    requires s.commandId != "" && s.commandSource == LEGACY_TEMPLATE
    requires StepFor(steps, s.commandId) == Some(s) && s.stepId != ""
    ensures var e := DockerProjected(DockerResultOf(s.commandId, steps, run));
            StepMatches(s, e) <==>
              && (Template(s.commandId).None? || run.started)
              && (s.argv.Some? ==> s.argv.value == OrEmpty(Template(s.commandId)))
              && !ComparesPaths(s)
  {
    if ComparesPaths(s) {
      TrimmedSize(s.targetPaths.value);
    }
  }

  /** What ran is reported as it ended, by either backend, and the rest as not having ended. */
  lemma {:induction false} OutcomesReported(commands: seq<string>, descriptors: Descriptors, steps: seq<PlannedStep>,
                                            runs: seq<RunOutcome>, i: nat)
    requires |runs| == |commands| && i < |commands|
    ensures var e, id := Projection(Results(commands, descriptors, steps, runs))[i], commands[i];
            if id in descriptors
            then if descriptors[id].policyStatus != "shape_invalid" && PolicyAccepts(descriptors[id])
                 then e.exitStatus == runs[i].code && e.started == runs[i].started && e.timedOut == runs[i].timedOut
                 else e.exitStatus.None? && e.rejected
            else if Template(id).Some?
            then e.exitStatus == runs[i].code && e.started == runs[i].started && e.timedOut == runs[i].timedOut
            else e.exitStatus.None? && !e.timedOut
    ensures var r, id := DockerResults(commands, steps, runs)[i], commands[i];
            var e := DockerProjected(r);
            if Template(id).Some?
            then e.exitStatus == runs[i].code && e.started == runs[i].started && e.timedOut == runs[i].timedOut
            else e.exitStatus.None? && !e.timedOut
  {
  }

  // ---- Descriptors that may not run ----

  /** Whatever the containers report, a run that dispatches an unacceptable descriptor fails. */
  lemma {:induction false} RejectedDescriptorFails(commands: seq<string>, descriptors: Descriptors,
                                                   steps: seq<PlannedStep>, runs: seq<RunOutcome>, i: nat)
    requires |runs| == |commands| && i < |commands| && commands[i] in descriptors
    requires var d := descriptors[commands[i]]; d.policyStatus == "shape_invalid" || !PolicyAccepts(d)
    ensures var results := Results(commands, descriptors, steps, runs);
            && Concluded(results, AggregateAll(Some(0), Statuses(results))) == Fail
            && results[i].exitStatus.None? && Projected(results[i]).rejected
  {
    var results := Results(commands, descriptors, steps, runs);
    VerdictIs(results);
    assert results[i].rejected;
  }
}
