/** The executor's command loop: what it runs, echoes and concludes. */
module ValidatorRunner {
  import opened Wrappers
  import opened Collections
  import opened CommandDescriptors
  import opened PlanConformance
  import opened PlanAdapter

  /** What a container run reports; the runner cannot choose it. */
  datatype RunOutcome = RunOutcome(code: Option<int>, started: bool, timedOut: bool)

  datatype CommandResult = CommandResult(
    command: string, stepId: string, commandSource: string,
    executedArgv: Option<seq<string>>, targetPaths: Option<seq<string>>,
    exitStatus: Option<int>, rejected: bool, started: bool, timedOut: bool)

  datatype Verdict = Pass | Fail | Inconclusive

  // ---- The loop, as functions ----

  /** The last step with this command id, as the metadata map answers. */
  function StepFor(steps: seq<PlannedStep>, command: string): (r: Option<PlannedStep>)
    ensures r.Some? ==> r.value in steps && r.value.commandId == command
    ensures r.None? ==> forall s | s in steps :: s.commandId != command
  {
    if steps == [] then None
    else if steps[|steps| - 1].commandId == command then Some(steps[|steps| - 1])
    else StepFor(steps[..|steps| - 1], command)
  }

  function EchoedId(steps: seq<PlannedStep>, command: string): string {
    var step := StepFor(steps, command);
    if step.Some? then OrElse(step.value.stepId, command) else command
  }

  /** The result of one dispatched command. */
  function ResultOf(command: string, descriptors: Descriptors, steps: seq<PlannedStep>,
                    run: RunOutcome): CommandResult {
    var id := EchoedId(steps, command);
    if command in descriptors then
      var d := descriptors[command];
      if d.policyStatus == SHAPE_INVALID then
        CommandResult(command, id, CI_WORKFLOW_DESCRIPTOR, Some([]), Some([]), None, true, true, false)
      else if !PolicyAccepts(d) then
        CommandResult(command, id, CI_WORKFLOW_DESCRIPTOR, OrEmptyList(d.argv), OrEmptyList(d.targetPaths), None, true,
                      true, false)
      else
        CommandResult(command, id, CI_WORKFLOW_DESCRIPTOR, d.argv, OrEmptyList(d.targetPaths), run.code, false,
                      run.started, run.timedOut)
    else if Template(command).None? then
      CommandResult(command, id, "", None, None, None, false, true, false)
    else
      CommandResult(command, id, LEGACY_TEMPLATE, Template(command), Some([]), run.code, false, run.started,
                    run.timedOut)
  }

  function Results(commands: seq<string>, descriptors: Descriptors, steps: seq<PlannedStep>, runs: seq<RunOutcome>)
    : (r: seq<CommandResult>)
    requires |runs| == |commands|
    ensures |r| == |commands|
    ensures forall i | 0 <= i < |r| :: r[i] == ResultOf(commands[i], descriptors, steps, runs[i])
  {
    if commands == [] then []
    else
      var n := |commands| - 1;
      Results(commands[..n], descriptors, steps, runs[..n]) + [ResultOf(commands[n], descriptors, steps, runs[n])]
  }

  function Statuses(results: seq<CommandResult>): (r: seq<Option<int>>)
    ensures |r| == |results| && forall i | 0 <= i < |r| :: r[i] == results[i].exitStatus
  {
    if results == [] then [] else [results[0].exitStatus] + Statuses(results[1..])
  }

  /** One step of the aggregate: null sticks, then the first failure does. */
  function Aggregate(so_far: Option<int>, status: Option<int>): Option<int> {
    if status.None? then None else if so_far == Some(0) && status.value != 0 then status else so_far
  }

  function AggregateAll(so_far: Option<int>, statuses: seq<Option<int>>): Option<int>
    decreases |statuses|
  {
    if statuses == [] then so_far else AggregateAll(Aggregate(so_far, statuses[0]), statuses[1..])
  }

  function Concluded(results: seq<CommandResult>, aggregate: Option<int>): Verdict {
    if exists i :: 0 <= i < |results| && results[i].rejected then Fail
    else if exists i :: 0 <= i < |results| && results[i].exitStatus.None? then Inconclusive
    else if aggregate == Some(0) then Pass
    else Fail
  }

  function Projected(cr: CommandResult): ExecutedStep {
    ExecutedStep(OrElse(cr.stepId, cr.command), cr.commandSource, cr.executedArgv, cr.targetPaths, cr.exitStatus,
                 cr.rejected, cr.started, cr.timedOut)
  }

  function Projection(results: seq<CommandResult>): (r: seq<ExecutedStep>)
    ensures |r| == |results| && forall i | 0 <= i < |r| :: r[i] == Projected(results[i])
  {
    if results == [] then [] else [Projected(results[0])] + Projection(results[1..])
  }

  // ---- The loop ----

  method RunCommands(commands: seq<string>, descriptors: Descriptors, steps: seq<PlannedStep>, runs: seq<RunOutcome>)
    returns (results: seq<CommandResult>, aggregate: Option<int>, overall: Verdict, executed: seq<ExecutedStep>)
    requires |runs| == |commands|
    ensures results == Results(commands, descriptors, steps, runs)
    ensures aggregate == AggregateAll(Some(0), Statuses(results))
    ensures overall == Concluded(results, aggregate)
    ensures executed == Projection(results)
  {
    results := [];
    aggregate := Some(0);
    var stepMeta := BuildStepMeta(steps);
    for i := 0 to |commands|
      invariant results == Results(commands[..i], descriptors, steps, runs[..i])
      invariant aggregate == AggregateAll(Some(0), Statuses(results))
    {
      var result := RunEchoing(commands[i], stepMeta, steps, descriptors, runs[i]);
      OneMoreResult(commands, descriptors, steps, runs, i);
      StatusesPush(results, result);
      if result.exitStatus.None? {
        aggregate := None;
      } else if aggregate == Some(0) && result.exitStatus.value != 0 {
        aggregate := result.exitStatus;
      }
      results := results + [result];
    }
    assert commands[..|commands|] == commands && runs[..|runs|] == runs;
    overall := Concluded(results, aggregate);
    executed := Projection(results);
  }

  lemma {:induction false} StatusesPush(results: seq<CommandResult>, result: CommandResult)
    ensures AggregateAll(Some(0), Statuses(results + [result]))
            == Aggregate(AggregateAll(Some(0), Statuses(results)), result.exitStatus)
  {
    AggregatePush(Some(0), Statuses(results), result.exitStatus);
    assert Statuses(results + [result]) == Statuses(results) + [result.exitStatus];
  }

  lemma {:induction false} OneMoreResult(commands: seq<string>, descriptors: Descriptors, steps: seq<PlannedStep>,
                                         runs: seq<RunOutcome>, i: nat)
    requires |runs| == |commands| && i < |commands|
    ensures Results(commands[..i + 1], descriptors, steps, runs[..i + 1])
            == Results(commands[..i], descriptors, steps, runs[..i])
              + [ResultOf(commands[i], descriptors, steps, runs[i])]
  {
    assert commands[..i + 1][..i] == commands[..i] && runs[..i + 1][..i] == runs[..i];
  }

  /** Runs a command under the step id the metadata map holds for it. */
  method RunEchoing(command: string, stepMeta: map<string, PlannedStep>, ghost steps: seq<PlannedStep>,
                    descriptors: Descriptors, run: RunOutcome) returns (result: CommandResult)
    requires StepFor(steps, command) == Lookup(stepMeta, command)
    ensures result == ResultOf(command, descriptors, steps, run)
  {
    var id := if command in stepMeta then OrElse(stepMeta[command].stepId, command) else command;
    result := RunOne(command, id, descriptors, run);
    assert id == EchoedId(steps, command);
  }

  method BuildStepMeta(steps: seq<PlannedStep>) returns (meta: map<string, PlannedStep>)
    ensures forall command :: StepFor(steps, command) == Lookup(meta, command)
  {
    meta := map[];
    for i := 0 to |steps|
      invariant forall command :: StepFor(steps[..i], command) == Lookup(meta, command)
    {
      assert steps[..i + 1][..i] == steps[..i];
      meta := meta[steps[i].commandId := steps[i]];
    }
    assert steps[..|steps|] == steps;
  }

  method RunOne(command: string, id: string, descriptors: Descriptors, run: RunOutcome) returns (result: CommandResult)
    ensures forall steps | id == EchoedId(steps, command) :: result == ResultOf(command, descriptors, steps, run)
  {
    if command in descriptors {
      var d := descriptors[command];
      if d.policyStatus == SHAPE_INVALID {
        return CommandResult(command, id, CI_WORKFLOW_DESCRIPTOR, Some([]), Some([]), None, true, true, false);
      }
      var reasons := EnforceDescriptorPolicy(d);
      if reasons != [] {
        return CommandResult(command, id, CI_WORKFLOW_DESCRIPTOR, OrEmptyList(d.argv), OrEmptyList(d.targetPaths), None,
                             true, true, false);
      }
      return CommandResult(command, id, CI_WORKFLOW_DESCRIPTOR, d.argv, OrEmptyList(d.targetPaths), run.code, false,
                           run.started, run.timedOut);
    }
    var argv := Template(command);
    if argv.None? {
      return CommandResult(command, id, "", None, None, None, false, true, false);
    }
    return CommandResult(command, id, LEGACY_TEMPLATE, argv, Some([]), run.code, false, run.started, run.timedOut);
  }

  // ---- The aggregate and the verdict ----

  lemma {:induction false} AggregatePush(so_far: Option<int>, statuses: seq<Option<int>>, last: Option<int>)
    ensures AggregateAll(so_far, statuses + [last]) == Aggregate(AggregateAll(so_far, statuses), last)
    decreases |statuses|
  {
    if statuses == [] {
      assert statuses + [last] == [last] && [last][1..] == [];
    } else {
      assert (statuses + [last])[1..] == statuses[1..] + [last];
      AggregatePush(Aggregate(so_far, statuses[0]), statuses[1..], last);
    }
  }

  /** The first non-zero status, 0 if there is none. */
  function FirstFailure(statuses: seq<Option<int>>): int
    requires forall s | s in statuses :: s.Some?
  {
    if statuses == [] then 0 else if statuses[0].value != 0 then statuses[0].value else FirstFailure(statuses[1..])
  }

  /** The aggregate is null if any status is, else the first non-zero status, else zero. */
  lemma {:induction false} AggregateIs(so_far: Option<int>, statuses: seq<Option<int>>)
    ensures AggregateAll(so_far, statuses) ==
            if None in statuses || so_far.None? then None
            else if so_far.value != 0 then so_far
            else Some(FirstFailure(statuses))
    decreases |statuses|
  {
    if statuses != [] {
      assert statuses == [statuses[0]] + statuses[1..];
      AggregateIs(Aggregate(so_far, statuses[0]), statuses[1..]);
    }
  }

  lemma {:induction false} FirstFailureZero(statuses: seq<Option<int>>)
    requires forall s | s in statuses :: s.Some?
    ensures FirstFailure(statuses) == 0 <==> forall i | 0 <= i < |statuses| :: statuses[i] == Some(0)
  {
    if statuses != [] {
      assert statuses[0].Some?;
      FirstFailureZero(statuses[1..]);
      if statuses[0] == Some(0) && forall i | 0 <= i < |statuses[1..]| :: statuses[1..][i] == Some(0) {
        assert forall i | 0 < i < |statuses| :: statuses[i] == statuses[1..][i - 1];
      }
      if forall i | 0 <= i < |statuses| :: statuses[i] == Some(0) {
        assert forall i | 0 <= i < |statuses[1..]| :: statuses[1..][i] == statuses[i + 1];
      }
    }
  }

  /** The verdict as a function of the whole run. */
  lemma {:induction false} VerdictIs(results: seq<CommandResult>)
    ensures Concluded(results, AggregateAll(Some(0), Statuses(results))) ==
            if exists i :: 0 <= i < |results| && results[i].rejected then Fail
            else if exists i :: 0 <= i < |results| && results[i].exitStatus.None? then Inconclusive
            else if forall i | 0 <= i < |results| :: results[i].exitStatus == Some(0) then Pass
            else Fail
  {
    var statuses := Statuses(results);
    AggregateIs(Some(0), statuses);
    if forall i | 0 <= i < |results| :: results[i].exitStatus.Some? {
      FirstFailureZero(statuses);
    }
  }

  // ---- The Docker backend's loop ----

  /** There a later failure overwrites an earlier one. */
  function DockerAggregate(so_far: Option<int>, status: Option<int>): Option<int> {
    if status.None? then None else if status.value != 0 && so_far.Some? then status else so_far
  }

  function DockerAggregateAll(so_far: Option<int>, statuses: seq<Option<int>>): Option<int>
    decreases |statuses|
  {
    if statuses == [] then so_far else DockerAggregateAll(DockerAggregate(so_far, statuses[0]), statuses[1..])
  }

  function DockerConcluded(statuses: seq<Option<int>>, testFixture: bool): Verdict {
    if None in statuses then Inconclusive
    else if DockerAggregateAll(Some(0), statuses) == Some(0) then (if testFixture then Inconclusive else Pass)
    else Fail
  }

  /** There is no descriptor path, and the plan's own source is echoed. */
  function DockerResultOf(command: string, steps: seq<PlannedStep>, run: RunOutcome): CommandResult {
    var step, id, argv := StepFor(steps, command), EchoedId(steps, command), Template(command);
    if argv.None? then CommandResult(command, id, "", None, None, None, false, true, false)
    else CommandResult(command, id, OrElse(if step.Some? then step.value.commandSource else "", LEGACY_TEMPLATE),
                       argv, None, run.code, false, run.started, run.timedOut)
  }

  function DockerResults(commands: seq<string>, steps: seq<PlannedStep>, runs: seq<RunOutcome>): (r: seq<CommandResult>)
    requires |runs| == |commands|
    ensures |r| == |commands| && forall i | 0 <= i < |r| :: r[i] == DockerResultOf(commands[i], steps, runs[i])
  {
    if commands == [] then []
    else
      var n := |commands| - 1;
      DockerResults(commands[..n], steps, runs[..n]) + [DockerResultOf(commands[n], steps, runs[n])]
  }

  function DockerProjected(cr: CommandResult): ExecutedStep {
    ExecutedStep(OrElse(cr.stepId, cr.command), OrElse(cr.commandSource, LEGACY_TEMPLATE), cr.executedArgv,
                 None, cr.exitStatus, false, cr.started, cr.timedOut)
  }

  function DockerProjection(results: seq<CommandResult>): seq<ExecutedStep> {
    if results == [] then [] else [DockerProjected(results[0])] + DockerProjection(results[1..])
  }

  method RunDockerCommands(commands: seq<string>, steps: seq<PlannedStep>, runs: seq<RunOutcome>, testFixture: bool)
    returns (results: seq<CommandResult>, aggregate: Option<int>, overall: Verdict, executed: seq<ExecutedStep>)
    requires |runs| == |commands|
    ensures results == DockerResults(commands, steps, runs)
    ensures aggregate == DockerAggregateAll(Some(0), Statuses(results))
    ensures overall == DockerConcluded(Statuses(results), testFixture)
    ensures executed == DockerProjection(results)
  {
    results := [];
    aggregate := Some(0);
    var stepMeta := BuildStepMeta(steps);
    for i := 0 to |commands|
      invariant results == DockerResults(commands[..i], steps, runs[..i])
      invariant aggregate == DockerAggregateAll(Some(0), Statuses(results))
    {
      var result := RunInDocker(commands[i], stepMeta, steps, runs[i]);
      OneMoreDockerResult(commands, steps, runs, i);
      DockerStatusesPush(results, result);
      if result.exitStatus.None? {
        aggregate := None;
      } else if result.exitStatus.value != 0 && aggregate.Some? {
        aggregate := result.exitStatus;
      }
      results := results + [result];
    }
    assert commands[..|commands|] == commands && runs[..|runs|] == runs;
    overall := ConcludeDocker(Statuses(results), aggregate, testFixture);
    executed := DockerProjection(results);
  }

  method ConcludeDocker(statuses: seq<Option<int>>, aggregate: Option<int>, testFixture: bool)
    returns (overall: Verdict)
    requires aggregate == DockerAggregateAll(Some(0), statuses)
    ensures overall == DockerConcluded(statuses, testFixture)
  {
    if None in statuses {
      return Inconclusive;
    }
    if aggregate == Some(0) {
      return if testFixture then Inconclusive else Pass;
    }
    return Fail;
  }

  method RunInDocker(command: string, stepMeta: map<string, PlannedStep>, ghost steps: seq<PlannedStep>,
                     run: RunOutcome)
    returns (result: CommandResult)
    requires StepFor(steps, command) == Lookup(stepMeta, command)
    ensures result == DockerResultOf(command, steps, run)
  {
    var id := if command in stepMeta then OrElse(stepMeta[command].stepId, command) else command;
    var argv := Template(command);
    if argv.None? {
      return CommandResult(command, id, "", None, None, None, false, true, false);
    }
    var source := if command in stepMeta then stepMeta[command].commandSource else "";
    return CommandResult(command, id, OrElse(source, LEGACY_TEMPLATE), argv, None, run.code, false, run.started,
                         run.timedOut);
  }

  lemma {:induction false} DockerAggregatePush(so_far: Option<int>, statuses: seq<Option<int>>, last: Option<int>)
    ensures DockerAggregateAll(so_far, statuses + [last]) == DockerAggregate(DockerAggregateAll(so_far, statuses), last)
    decreases |statuses|
  {
    if statuses == [] {
      assert statuses + [last] == [last] && [last][1..] == [];
    } else {
      assert (statuses + [last])[1..] == statuses[1..] + [last];
      DockerAggregatePush(DockerAggregate(so_far, statuses[0]), statuses[1..], last);
    }
  }

  lemma {:induction false} DockerStatusesPush(results: seq<CommandResult>, result: CommandResult)
    ensures DockerAggregateAll(Some(0), Statuses(results + [result]))
            == DockerAggregate(DockerAggregateAll(Some(0), Statuses(results)), result.exitStatus)
  {
    DockerAggregatePush(Some(0), Statuses(results), result.exitStatus);
    assert Statuses(results + [result]) == Statuses(results) + [result.exitStatus];
  }

  lemma {:induction false} OneMoreDockerResult(commands: seq<string>, steps: seq<PlannedStep>, runs: seq<RunOutcome>,
                                               i: nat)
    requires |runs| == |commands| && i < |commands|
    ensures DockerResults(commands[..i + 1], steps, runs[..i + 1])
            == DockerResults(commands[..i], steps, runs[..i]) + [DockerResultOf(commands[i], steps, runs[i])]
  {
    assert commands[..i + 1][..i] == commands[..i] && runs[..i + 1][..i] == runs[..i];
  }

  lemma {:induction false} DockerAggregateZero(so_far: Option<int>, statuses: seq<Option<int>>)
    requires so_far.Some? && None !in statuses
    ensures DockerAggregateAll(so_far, statuses).Some?
    ensures DockerAggregateAll(so_far, statuses) == Some(0) <==>
            so_far == Some(0) && forall i | 0 <= i < |statuses| :: statuses[i] == Some(0)
    decreases |statuses|
  {
    if statuses != [] {
      assert statuses == [statuses[0]] + statuses[1..];
      DockerAggregateZero(DockerAggregate(so_far, statuses[0]), statuses[1..]);
      assert forall i | 0 < i < |statuses| :: statuses[i] == statuses[1..][i - 1];
    }
  }

  lemma {:induction false} UnrejectedAgree(results: seq<CommandResult>)
    requires forall i | 0 <= i < |results| :: !results[i].rejected
    ensures DockerConcluded(Statuses(results), false) == Concluded(results, AggregateAll(Some(0), Statuses(results)))
  {
    var statuses := Statuses(results);
    VerdictIs(results);
    if None in statuses {
      var i :| 0 <= i < |statuses| && statuses[i].None?;
      assert results[i].exitStatus.None?;
    } else {
      DockerAggregateZero(Some(0), statuses);
    }
  }

  /** On a run without descriptors and with a production image both backends reach the same verdict. */
  lemma {:induction false} BackendsAgree(commands: seq<string>, steps: seq<PlannedStep>, runs: seq<RunOutcome>)
    requires |runs| == |commands|
    ensures var results := Results(commands, map[], steps, runs);
            DockerConcluded(Statuses(DockerResults(commands, steps, runs)), false)
            == Concluded(results, AggregateAll(Some(0), Statuses(results)))
  {
    var results, docker := Results(commands, map[], steps, runs), DockerResults(commands, steps, runs);
    forall i | 0 <= i < |results| ensures !results[i].rejected && results[i].exitStatus == docker[i].exitStatus {}
    assert Statuses(results) == Statuses(docker);
    UnrejectedAgree(results);
  }
}
