/** The shutdown orchestrator as a machine over the events of one process, up to the first exit. */
module GracefulShutdown {
  import opened Wrappers
  import opened Collections

  /** How a resource's closing call behaves at the moment it is made. */
  datatype Behaviour = Throws | Returns | Promises

  datatype Resources = Resources(server: Behaviour, workers: seq<Behaviour>, db: Behaviour, redis: Behaviour)

  datatype Step = CloseServer | CloseWorkers | EndDb | QuitRedis | Complete

  datatype Call = ServerClose | WorkerClose(worker: nat) | DbEnd | RedisQuit

  datatype Signal = SIGTERM | SIGINT | UncaughtException | UnhandledRejection

  /** `Settles(false)` is a rejection of whatever the orchestrator is waiting for. */
  datatype Event = Trigger(signal: Signal) | Settles(fulfilled: bool) | DeadlinePasses

  predicate IsCrash(s: Signal) {
    s.UncaughtException? || s.UnhandledRejection?
  }

  /**
   * `runs` counts executions of the cleanup body; `rejects` says whether the awaited promise can still
   * reject.
   */
  datatype State = State(
    runs: nat, crash: bool, step: Step, rejects: bool, timerArmed: bool, calls: seq<Call>, warned: seq<Step>,
    exitCode: Option<int>)

  const INITIAL := State(0, false, CloseServer, false, false, [], [], None)

  function NextStep(s: Step): Step {
    match s
    case CloseServer => CloseWorkers
    case CloseWorkers => EndDb
    case EndDb => QuitRedis
    case QuitRedis => Complete
    case Complete => Complete
  }

  /** The workers closed before the first one that throws, and that one. */
  function WorkerCalls(workers: seq<Behaviour>, first: nat): seq<Call>
    requires first <= |workers|
    decreases |workers| - first
  {
    if first == |workers| then []
    else if workers[first].Throws? then [WorkerClose(first)]
    else [WorkerClose(first)] + WorkerCalls(workers, first + 1)
  }

  function StepCalls(r: Resources, s: Step): seq<Call> {
    match s
    case CloseServer => [ServerClose]
    case CloseWorkers => WorkerCalls(r.workers, 0)
    case EndDb => [DbEnd]
    case QuitRedis => [RedisQuit]
    case Complete => []
  }

  /** How a step's function comes back to the wrapper; the server's own failures are swallowed inside it. */
  function StepBehaviour(r: Resources, s: Step): Behaviour {
    match s
    case CloseServer => Returns
    case CloseWorkers => if Throws in r.workers then Throws else Promises
    case EndDb => r.db
    case QuitRedis => r.redis
    case Complete => Returns
  }

  /** Starts a step inside the containing wrapper. */
  function Begin(r: Resources, s: State, step: Step): State {
    var behaviour := StepBehaviour(r, step);
    s.(step := step, calls := s.calls + StepCalls(r, step), rejects := behaviour.Promises?,
       warned := if behaviour.Throws? then s.warned + [step] else s.warned)
  }

  function Next(r: Resources, s: State, e: Event): State {
    if s.exitCode.Some? then s
    else match e
      case Trigger(signal) =>
        if s.runs > 0 then s
        else Begin(r, s.(runs := 1, crash := IsCrash(signal), timerArmed := true), CloseServer)
      case Settles(fulfilled) =>
        if s.runs == 0 then s
        else
          var contained := if !fulfilled && s.rejects then s.(warned := s.warned + [s.step]) else s;
          var next := NextStep(s.step);
          if next == Complete
          then contained.(step := Complete, rejects := false, timerArmed := false,
                          exitCode := Some(if s.crash then 1 else 0))
          else Begin(r, contained, next)
      case DeadlinePasses =>
        if s.timerArmed then s.(exitCode := Some(1)) else s
  }

  function Run(r: Resources, s: State, events: seq<Event>): State
    decreases |events|
  {
    if events == [] then s else Run(r, Next(r, s, events[0]), events[1..])
  }

  lemma {:induction false} RunSplits(r: Resources, s: State, a: seq<Event>, b: seq<Event>)
    ensures Run(r, s, a + b) == Run(r, Run(r, s, a), b)
    decreases |a|
  {
    if a == [] {
      assert a + b == b;
    } else {
      assert (a + b)[1..] == a[1..] + b;
      RunSplits(r, Next(r, s, a[0]), a[1..], b);
    }
  }

  // ---- The orchestrator object ----

  class Orchestrator {
    const resources: Resources
    var runs: nat
    var crash: bool
    var step: Step
    var rejects: bool
    var timerArmed: bool
    var calls: seq<Call>
    var warned: seq<Step>
    var exitCode: Option<int>

    ghost function Snapshot(): State
      reads this
    {
      State(runs, crash, step, rejects, timerArmed, calls, warned, exitCode)
    }

    constructor (r: Resources)
      ensures resources == r && Snapshot() == INITIAL
    {
      resources := r;
      runs, crash, step, rejects, timerArmed := 0, false, CloseServer, false, false;
      calls, warned, exitCode := [], [], None;
    }

    /** Calls `close` on the workers in turn; a throw leaves the rest uncalled. */
    method CloseEachWorker() returns (threw: bool)
      modifies `calls
      ensures calls == old(calls) + WorkerCalls(resources.workers, 0)
      ensures threw == (Throws in resources.workers)
    {
      var workers := resources.workers;
      for i := 0 to |workers|
        invariant calls + WorkerCalls(workers, i) == old(calls) + WorkerCalls(workers, 0)
        invariant Throws !in workers[..i]
      {
        assert workers[..i + 1] == workers[..i] + [workers[i]];
        ghost var before := calls;
        ghost var rest := WorkerCalls(workers, i + 1);
        calls := calls + [WorkerClose(i)];
        if workers[i].Throws? {
          return true;
        }
        assert before + ([WorkerClose(i)] + rest) == calls + rest;
      }
      assert workers[..|workers|] == workers;
      return false;
    }

    /** The wrapper around a step: a throw or, later, a rejection is logged and goes no further. */
    method BeginStep(next: Step)
      modifies this
      ensures Snapshot() == Begin(resources, old(Snapshot()), next)
    {
      var behaviour: Behaviour;
      match next {
        case CloseServer =>
          calls := calls + [ServerClose];
          behaviour := Returns;
        case CloseWorkers =>
          var threw := CloseEachWorker();
          behaviour := if threw then Throws else Promises;
        case EndDb =>
          calls := calls + [DbEnd];
          behaviour := resources.db;
        case QuitRedis =>
          calls := calls + [RedisQuit];
          behaviour := resources.redis;
        case Complete =>
          behaviour := Returns;
      }
      step := next;
      rejects := behaviour.Promises?;
      if behaviour.Throws? {
        warned := warned + [next];
      }
    }

    /** `shutdown(signal)`: everyone after the first caller shares the run in flight. */
    method Shutdown(signal: Signal)
      requires exitCode.None?
      modifies this
      ensures Snapshot() == Next(resources, old(Snapshot()), Trigger(signal))
    {
      if runs == 0 {
        runs := 1;
        crash := IsCrash(signal);
        timerArmed := true;
        BeginStep(CloseServer);
      }
    }

    method Settle(fulfilled: bool)
      requires exitCode.None?
      modifies this
      ensures Snapshot() == Next(resources, old(Snapshot()), Settles(fulfilled))
    {
      if runs == 0 {
        return;
      }
      if !fulfilled && rejects {
        warned := warned + [step];
      }
      if NextStep(step) == Complete {
        step := Complete;
        rejects := false;
        timerArmed := false;
        exitCode := Some(if crash then 1 else 0);
      } else {
        BeginStep(NextStep(step));
      }
    }

    method Deadline()
      requires exitCode.None?
      modifies this
      ensures Snapshot() == Next(resources, old(Snapshot()), DeadlinePasses)
    {
      if timerArmed {
        exitCode := Some(1);
      }
    }
  }

  // ---- Every interleaving ----

  predicate HasTrigger(events: seq<Event>) {
    exists i | 0 <= i < |events| :: events[i].Trigger?
  }

  /** The events before the deadline passes. */
  function InTime(events: seq<Event>): seq<Event> {
    if events == [] || events[0].DeadlinePasses? then [] else [events[0]] + InTime(events[1..])
  }

  function Settled(events: seq<Event>): nat {
    if events == [] then 0 else (if events[0].Settles? then 1 else 0) + Settled(events[1..])
  }

  function Remaining(s: Step): nat {
    match s
    case CloseServer => 4
    case CloseWorkers => 3
    case EndDb => 2
    case QuitRedis => 1
    case Complete => 0
  }

  lemma {:induction false} ExitIsFinal(r: Resources, s: State, events: seq<Event>)
    requires s.exitCode.Some?
    ensures Run(r, s, events) == s
    decreases |events|
  {
    if events != [] {
      ExitIsFinal(r, s, events[1..]);
    }
  }

  lemma {:induction false} QuietWithoutTrigger(r: Resources, events: seq<Event>)
    requires !HasTrigger(events)
    ensures Run(r, INITIAL, events) == INITIAL
    decreases |events|
  {
    if events != [] {
      assert !events[0].Trigger?;
      forall i | 0 <= i < |events[1..]| ensures !events[1..][i].Trigger? {
        assert !events[i + 1].Trigger?;
      }
      QuietWithoutTrigger(r, events[1..]);
    }
  }

  predicate Underway(s: State) {
    s.runs == 1 && s.timerArmed && s.exitCode.None? && s.step != Complete
  }

  /** The exit code of a shutdown with `remaining` steps to go. */
  function ExitAfter(crash: bool, remaining: nat, events: seq<Event>): Option<int> {
    if Settled(InTime(events)) >= remaining then Some(if crash then 1 else 0)
    else if |InTime(events)| < |events| then Some(1)
    else None
  }

  lemma {:induction false} UnderwayExits(r: Resources, s: State, events: seq<Event>)
    requires Underway(s)
    ensures Run(r, s, events).exitCode == ExitAfter(s.crash, Remaining(s.step), events)
    decreases |events|
  {
    if events != [] {
      var next := Next(r, s, events[0]);
      if events[0].DeadlinePasses? {
        ExitIsFinal(r, next, events[1..]);
      } else {
        assert InTime(events)[1..] == InTime(events[1..]);
        if next.exitCode.Some? {
          ExitIsFinal(r, next, events[1..]);
        } else {
          UnderwayExits(r, next, events[1..]);
        }
      }
    }
  }

  /**
   * One shutdown per process: the first trigger alone decides. The process exits 0 exactly when that
   * trigger was no crash and four steps settled before the deadline, and 1 exactly when it was a crash
   * and they settled, or the deadline came first; later triggers and failing steps change nothing.
   */
  lemma {:induction false} ExitExactly(r: Resources, before: seq<Event>, signal: Signal, after: seq<Event>)
    requires !HasTrigger(before)
    ensures Run(r, INITIAL, before + [Trigger(signal)] + after).exitCode
            == ExitAfter(signal == UncaughtException || signal == UnhandledRejection, 4, after)
  {
    FirstTrigger(r, before, signal, after);
    UnderwayExits(r, Next(r, INITIAL, Trigger(signal)), after);
  }

  lemma {:induction false} FirstTrigger(r: Resources, before: seq<Event>, signal: Signal, after: seq<Event>)
    requires !HasTrigger(before)
    ensures Run(r, INITIAL, before + [Trigger(signal)] + after) == Run(r, Next(r, INITIAL, Trigger(signal)), after)
  {
    RunSplits(r, INITIAL, before + [Trigger(signal)], after);
    RunSplits(r, INITIAL, before, [Trigger(signal)]);
    QuietWithoutTrigger(r, before);
    assert Run(r, INITIAL, [Trigger(signal)]) == Run(r, Next(r, INITIAL, Trigger(signal)), []);
  }

  // ---- Cleanup runs once ----

  /** Every call made by the time `step` has begun. */
  function CallsThrough(r: Resources, step: Step): seq<Call> {
    match step
    case CloseServer => [ServerClose]
    case CloseWorkers => [ServerClose] + StepCalls(r, CloseWorkers)
    case EndDb => [ServerClose] + StepCalls(r, CloseWorkers) + StepCalls(r, EndDb)
    case _ => [ServerClose] + StepCalls(r, CloseWorkers) + StepCalls(r, EndDb) + StepCalls(r, QuitRedis)
  }

  predicate CallsMatch(r: Resources, s: State) {
    if s.runs == 0 then s == INITIAL
    else s.runs == 1 && s.calls == CallsThrough(r, s.step) && (s.exitCode.None? ==> s.step != Complete)
  }

  lemma {:induction false} StepKeepsCalls(r: Resources, s: State, e: Event)
    requires CallsMatch(r, s)
    ensures CallsMatch(r, Next(r, s, e))
  {
    assert [] + [ServerClose] == [ServerClose];
  }

  lemma {:induction false} RunKeepsCalls(r: Resources, s: State, events: seq<Event>)
    requires CallsMatch(r, s)
    ensures CallsMatch(r, Run(r, s, events))
    decreases |events|
  {
    if events != [] {
      StepKeepsCalls(r, s, events[0]);
      RunKeepsCalls(r, Next(r, s, events[0]), events[1..]);
    }
  }

  lemma {:induction false} WorkerCallsAscend(workers: seq<Behaviour>, first: nat)
    requires first <= |workers|
    ensures forall i | 0 <= i < |WorkerCalls(workers, first)| ::
            WorkerCalls(workers, first)[i] == WorkerClose(first + i)
    decreases |workers| - first
  {
    if first < |workers| && !workers[first].Throws? {
      WorkerCallsAscend(workers, first + 1);
    }
  }

  /** The cleanup body runs once if anything triggers it, in order, and closes no resource twice. */
  lemma {:induction false} CleanupOnce(r: Resources, events: seq<Event>)
    ensures var s := Run(r, INITIAL, events);
            && s.runs == (if HasTrigger(events) then 1 else 0)
            && s.calls == (if s.runs == 0 then [] else CallsThrough(r, s.step))
            && Distinct(s.calls)
  {
    RunKeepsCalls(r, INITIAL, events);
    WorkerCallsAscend(r.workers, 0);
    if HasTrigger(events) {
      TriggeredRuns(r, INITIAL, events);
    } else {
      QuietWithoutTrigger(r, events);
    }
  }

  /** How far the workers are closed: all of them, or up to the first whose closing throws. */
  predicate ClosedUpTo(workers: seq<Behaviour>, n: nat) {
    && n <= |workers|
    && (forall i | 0 <= i < n - 1 :: !workers[i].Throws?)
    && (n < |workers| ==> n > 0 && workers[n - 1].Throws?)
  }

  /** The whole cleanup: server, workers in turn, database, redis. */
  function WholeCleanup(n: nat): seq<Call> {
    [ServerClose] + seq(n, i requires 0 <= i < n => WorkerClose(i)) + [DbEnd, RedisQuit]
  }

  lemma {:induction false} WorkerCallsStop(workers: seq<Behaviour>, first: nat) returns (n: nat)
    requires first <= |workers|
    ensures first <= n <= |workers| && |WorkerCalls(workers, first)| == n - first
    ensures forall i | first <= i < n - 1 :: !workers[i].Throws?
    ensures n < |workers| ==> n > first && workers[n - 1].Throws?
    decreases |workers| - first
  {
    if first == |workers| {
      n := first;
    } else if workers[first].Throws? {
      n := first + 1;
    } else {
      n := WorkerCallsStop(workers, first + 1);
    }
  }

  /** Whatever happens, the calls made are the beginning of the whole cleanup, and all of it once it completed. */
  lemma {:induction false} CleanupCalls(r: Resources, events: seq<Event>) returns (n: nat)
    ensures ClosedUpTo(r.workers, n)
    ensures var s := Run(r, INITIAL, events);
            s.calls <= WholeCleanup(n) && (s.runs > 0 && s.step == Complete ==> s.calls == WholeCleanup(n))
  {
    RunKeepsCalls(r, INITIAL, events);
    n := WorkerCallsStop(r.workers, 0);
    WorkerCallsAscend(r.workers, 0);
    var closed := WorkerCalls(r.workers, 0);
    assert closed == seq(n, i requires 0 <= i < n => WorkerClose(i));
    assert [ServerClose] + closed + [DbEnd] + [RedisQuit] == WholeCleanup(n);
  }

  lemma {:induction false} TriggeredRuns(r: Resources, s: State, events: seq<Event>)
    requires CallsMatch(r, s) && (s.runs == 1 || HasTrigger(events))
    ensures Run(r, s, events).runs == 1
    decreases |events|
  {
    if events != [] {
      StepKeepsCalls(r, s, events[0]);
      if s.runs == 0 && !events[0].Trigger? {
        var i :| 0 <= i < |events| && events[i].Trigger?;
        assert events[1..][i - 1].Trigger?;
      }
      TriggeredRuns(r, Next(r, s, events[0]), events[1..]);
    }
  }

  // ---- Failures are contained ----

  predicate SameShape(a: Event, b: Event) {
    a == b || (a.Settles? && b.Settles?)
  }

  /** Alike but for what was logged and what may still reject. */
  predicate AlikeStates(s: State, t: State) {
    s.(rejects := t.rejects, warned := t.warned) == t
  }

  /**
   * Runs that differ only in which promises reject, and in how db and redis fail, make the same calls
   * and end the same way: a failing step is logged and goes no further.
   */
  lemma {:induction false} FailuresContained(r: Resources, q: Resources, s: State, t: State, a: seq<Event>,
                                             b: seq<Event>)
    requires r.workers == q.workers && AlikeStates(s, t)
    requires |a| == |b| && forall i | 0 <= i < |a| :: SameShape(a[i], b[i])
    ensures AlikeStates(Run(r, s, a), Run(q, t, b))
    decreases |a|
  {
    if a != [] {
      assert SameShape(a[0], b[0]);
      assert AlikeStates(Next(r, s, a[0]), Next(q, t, b[0]));
      FailuresContained(r, q, Next(r, s, a[0]), Next(q, t, b[0]), a[1..], b[1..]);
    }
  }

  /** Whether a step failed: by throwing when called, or by rejecting when awaited. */
  function Failure(r: Resources, step: Step, fulfilled: bool): seq<Step> {
    var behaviour := StepBehaviour(r, step);
    if behaviour.Throws? || (behaviour.Promises? && !fulfilled) then [step] else []
  }

  /** The failures of the steps from `step` on; a step still awaited has failed only if it threw. */
  function Failures(r: Resources, step: Step, outcomes: seq<bool>): seq<Step>
    decreases |outcomes|
  {
    if step == Complete then []
    else if outcomes == [] then Failure(r, step, true)
    else Failure(r, step, outcomes[0]) + Failures(r, NextStep(step), outcomes[1..])
  }

  /** How the awaited promises settled, in order. */
  function Outcomes(events: seq<Event>): seq<bool> {
    if events == [] then []
    else if events[0].Settles? then [events[0].fulfilled] + Outcomes(events[1..])
    else Outcomes(events[1..])
  }

  predicate LogsSoFar(r: Resources, s: State, logged: seq<Step>) {
    s.rejects == StepBehaviour(r, s.step).Promises? && s.warned == logged + Failure(r, s.step, true)
  }

  lemma {:induction false} SettlingLogs(r: Resources, s: State, logged: seq<Step>, fulfilled: bool)
    requires Underway(s) && LogsSoFar(r, s, logged)
    ensures var next := Next(r, s, Settles(fulfilled));
            var now := logged + Failure(r, s.step, fulfilled);
            if NextStep(s.step) == Complete then next.exitCode.Some? && next.warned == now
            else Underway(next) && next.step == NextStep(s.step) && LogsSoFar(r, next, now)
  {
    assert logged + [] == logged;
    var now := logged + Failure(r, s.step, fulfilled);
    assert now + [] == now;
  }

  /** Up to the deadline the log holds exactly the failures, in step order. */
  lemma {:induction false} EveryFailureLogged(r: Resources, s: State, logged: seq<Step>, events: seq<Event>)
    requires Underway(s) && LogsSoFar(r, s, logged)
    requires forall i | 0 <= i < |events| :: !events[i].DeadlinePasses?
    ensures Run(r, s, events).warned == logged + Failures(r, s.step, Outcomes(events))
    decreases |events|
  {
    if events != [] {
      var next := Next(r, s, events[0]);
      if events[0].Settles? {
        var fulfilled := events[0].fulfilled;
        SettlingLogs(r, s, logged, fulfilled);
        assert Outcomes(events)[1..] == Outcomes(events[1..]);
        if NextStep(s.step) == Complete {
          ExitIsFinal(r, next, events[1..]);
          assert Failure(r, s.step, fulfilled) + [] == Failure(r, s.step, fulfilled);
        } else {
          EveryFailureLogged(r, next, logged + Failure(r, s.step, fulfilled), events[1..]);
          Regroup(logged, Failure(r, s.step, fulfilled), Failures(r, NextStep(s.step), Outcomes(events[1..])));
        }
      } else {
        assert events[0].Trigger? && next == s;
        EveryFailureLogged(r, s, logged, events[1..]);
      }
    }
  }

  /** From the trigger on, what was logged by the deadline is what failed. */
  lemma {:induction false} LogIsFailures(r: Resources, before: seq<Event>, signal: Signal, after: seq<Event>)
    requires !HasTrigger(before) && forall i | 0 <= i < |after| :: !after[i].DeadlinePasses?
    ensures Run(r, INITIAL, before + [Trigger(signal)] + after).warned == Failures(r, CloseServer, Outcomes(after))
  {
    FirstTrigger(r, before, signal, after);
    EveryFailureLogged(r, Next(r, INITIAL, Trigger(signal)), [], after);
    assert [] + Failures(r, CloseServer, Outcomes(after)) == Failures(r, CloseServer, Outcomes(after));
  }
}
