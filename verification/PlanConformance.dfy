/** The relation between a normative plan and the evidence of what was executed. */
module PlanConformance {
  import opened Wrappers
  import opened Collections
  import opened Sorting

  datatype PlannedStep = PlannedStep(
    stepId: string, sequence: Option<int>, commandSource: string, commandId: string,
    argv: Option<seq<string>>, targetPaths: Option<seq<string>>, semantic: Option<string>, policyStatus: string)

  /** A missing or non-string step id is the empty string; absent lists are `None`. */
  datatype ExecutedStep = ExecutedStep(
    stepId: string, commandSource: string, executedArgv: Option<seq<string>>, targetPaths: Option<seq<string>>,
    exitStatus: Option<int>, rejected: bool, started: bool, timedOut: bool)

  datatype Relation = Exact | NoExecution | Divergent | Unverifiable

  datatype Reason =
    | InsufficientEvidence
    | EmptyPlanNoExecution | ExtraExecutionNoPlan
    | ExecutionAttemptedNoSteps | NothingExecuted
    | OmittedSteps | ExtraSteps
    | DuplicatePlannedIds | DuplicateExecutedIds
    | MissingExecutedStep(id: string)
    | CommandSourceMismatch(id: string)
    | ArgvLengthMismatch(id: string) | ArgvMismatch(id: string, arg: nat)
    | TargetPathsMismatch(id: string)
    | SequenceMismatch(id: string, planned: int, actual: int)
    | StepRejected(id: string) | StepNotStarted(id: string)
    | UnknownExecutedStep(id: string)

  datatype Conformance = Conformance(relation: Relation, reasons: seq<Reason>)

  // ---- Normalization ----

  datatype Plan = Plan(schemaVersion: int, normativeSteps: Option<seq<PlannedStep>>, requiredFeatures: seq<string>)

  datatype Evidence = Evidence(executedSteps: Option<seq<ExecutedStep>>, reason: Option<string>)

  function NormativeSteps(plan: Plan): (seq<PlannedStep>, bool) {
    match plan.normativeSteps
    case None => ([], false)
    case Some(steps) => (steps, plan.schemaVersion == 2)
  }

  datatype Normalized = Normalized(steps: seq<ExecutedStep>, evidenceComplete: bool, attempted: bool)

  function ExecutedSteps(evidence: Option<Evidence>): Normalized {
    if evidence.None? || evidence.value.executedSteps.None? then Normalized([], false, false)
    else
      var steps := evidence.value.executedSteps.value;
      if steps == [] then
        var reason := evidence.value.reason;
        Normalized([], true,
                   reason.Some? && reason.value != "" && reason.value != "executor_service_url_not_configured")
      else Normalized(steps, forall s | s in steps :: s.stepId != "", true)
  }

  /** `paths`, each without its trailing slashes, sorted. */
  function TrimSlashes(p: string): string {
    if p != "" && p[|p| - 1] == '/' then TrimSlashes(p[..|p| - 1]) else p
  }

  function Trimmed(paths: seq<string>): (r: seq<string>)
    ensures |r| == |paths|
  {
    if paths == [] then [] else [TrimSlashes(paths[0])] + Trimmed(paths[1..])
  }

  function NormalizePaths(paths: Option<seq<string>>): seq<string> {
    if paths.None? then [] else Sort(Trimmed(paths.value))
  }

  function OrEmpty(list: Option<seq<string>>): seq<string> {
    if list.None? then [] else list.value
  }

  // ---- The comparison, as a function ----

  function PlannedIds(steps: seq<PlannedStep>): (ids: seq<string>)
    ensures |ids| == |steps| && forall i | 0 <= i < |ids| :: ids[i] == steps[i].stepId
  {
    if steps == [] then [] else [steps[0].stepId] + PlannedIds(steps[1..])
  }

  function ExecutedIds(steps: seq<ExecutedStep>): (ids: seq<string>)
    ensures |ids| == |steps| && forall i | 0 <= i < |ids| :: ids[i] == steps[i].stepId
  {
    if steps == [] then [] else [steps[0].stepId] + ExecutedIds(steps[1..])
  }

  /** The last position of `id`, as a map filled in order answers. */
  function LastIndex(ids: seq<string>, id: string): (r: Option<nat>)
    ensures r.Some? ==> r.value < |ids| && ids[r.value] == id && forall k | r.value < k < |ids| :: ids[k] != id
    ensures r.None? ==> id !in ids
  {
    if ids == [] then None
    else if ids[|ids| - 1] == id then Some(|ids| - 1)
    else LastIndex(ids[..|ids| - 1], id)
  }

  /** The first position where two equally long argument lists differ. */
  function FirstDifference(a: seq<string>, b: seq<string>, i: nat): (r: Option<nat>)
    requires |a| == |b| && i <= |a|
    ensures r.None? <==> a[i..] == b[i..]
    decreases |a| - i
  {
    if i == |a| then None
    else if a[i] != b[i] then Some(i)
    else
      var rest := FirstDifference(a, b, i + 1);
      assert a[i..] == [a[i]] + a[i + 1..] && b[i..] == [b[i]] + b[i + 1..];
      rest
  }

  function ArgvReason(id: string, planned: seq<string>, executed: seq<string>): Option<Reason> {
    if |planned| != |executed| then Some(ArgvLengthMismatch(id))
    else
      match FirstDifference(planned, executed, 0)
      case None => None
      case Some(i) => Some(ArgvMismatch(id, i))
  }

  predicate ComparesPaths(p: PlannedStep) {
    p.targetPaths.Some? && p.targetPaths.value != []
  }

  /** Why planned step `p` does not match executed step `e` at position `at`, if it does not. */
  function PairReason(p: PlannedStep, e: ExecutedStep, at: nat): Option<Reason> {
    var id := p.stepId;
    var argv := if p.argv.Some? then ArgvReason(id, p.argv.value, OrEmpty(e.executedArgv)) else None;
    if p.commandSource != e.commandSource then Some(CommandSourceMismatch(id))
    else if argv.Some? then argv
    else if ComparesPaths(p) && NormalizePaths(p.targetPaths) != NormalizePaths(e.targetPaths) then
      Some(TargetPathsMismatch(id))
    else if p.sequence.Some? && at != p.sequence.value then Some(SequenceMismatch(id, p.sequence.value, at))
    else if e.rejected then Some(StepRejected(id))
    else if !e.started then Some(StepNotStarted(id))
    else None
  }

  function StepReason(p: PlannedStep, executed: seq<ExecutedStep>): Option<Reason> {
    match LastIndex(ExecutedIds(executed), p.stepId)
    case None => Some(MissingExecutedStep(p.stepId))
    case Some(at) => PairReason(p, executed[at], at)
  }

  function FirstStepReason(planned: seq<PlannedStep>, executed: seq<ExecutedStep>): Option<Reason> {
    if planned == [] then None
    else
      var reason := StepReason(planned[0], executed);
      if reason.Some? then reason else FirstStepReason(planned[1..], executed)
  }

  function FirstUnknown(planned: seq<PlannedStep>, executed: seq<ExecutedStep>): Option<Reason> {
    if executed == [] then None
    else if executed[0].stepId !in PlannedIds(planned) then Some(UnknownExecutedStep(executed[0].stepId))
    else FirstUnknown(planned, executed[1..])
  }

  function Derive(planned: seq<PlannedStep>, executed: seq<ExecutedStep>, attempted: bool,
                  complete: bool): Conformance {
    if !complete then Conformance(Unverifiable, [InsufficientEvidence])
    else if planned == [] then
      if executed == [] then Conformance(NoExecution, [EmptyPlanNoExecution])
      else Conformance(Divergent, [ExtraExecutionNoPlan])
    else if executed == [] then
      Conformance(NoExecution, [if attempted then ExecutionAttemptedNoSteps else NothingExecuted])
    else if |planned| != |executed| then
      Conformance(Divergent, [if |executed| < |planned| then OmittedSteps else ExtraSteps])
    else if !Distinct(PlannedIds(planned)) then Conformance(Divergent, [DuplicatePlannedIds])
    else if !Distinct(ExecutedIds(executed)) then Conformance(Divergent, [DuplicateExecutedIds])
    else
      var mismatch := FirstStepReason(planned, executed);
      var unknown := FirstUnknown(planned, executed);
      if mismatch.Some? then Conformance(Divergent, [mismatch.value])
      else if unknown.Some? then Conformance(Divergent, [unknown.value])
      else Conformance(Exact, [])
  }

  /** What the runner derives and the receipt gate derives again. */
  function Compare(plan: Plan, evidence: Option<Evidence>): Conformance {
    var (steps, planComplete) := NormativeSteps(plan);
    var executed := ExecutedSteps(evidence);
    Derive(steps, executed.steps, executed.attempted, planComplete && executed.evidenceComplete)
  }

  // ---- The comparison, as the loops compute it ----

  ghost predicate Repeated(ids: seq<string>, id: string) {
    exists i, j :: 0 <= i < j < |ids| && ids[i] == id && ids[j] == id
  }

  lemma {:induction false} OneMoreId(ids: seq<string>, n: nat)
    requires n < |ids|
    ensures ids[..n + 1] == ids[..n] + [ids[n]]
    ensures forall d :: Repeated(ids[..n + 1], d) <==> Repeated(ids[..n], d) || (d == ids[n] && d in ids[..n])
  {
    var front, more := ids[..n], ids[..n + 1];
    forall d ensures Repeated(more, d) <==> Repeated(front, d) || (d == ids[n] && d in front) {
      if Repeated(front, d) {
        var i, j :| 0 <= i < j < n && front[i] == d && front[j] == d;
        assert more[i] == d && more[j] == d;
      }
      if d == ids[n] && d in front {
        var i :| 0 <= i < n && front[i] == d;
        assert more[i] == d && more[n] == d;
      }
      if Repeated(more, d) {
        var i, j :| 0 <= i < j < n + 1 && more[i] == d && more[j] == d;
        assert front[i] == d && (j < n ==> front[j] == d);
      }
    }
  }

  method FindDuplicates(ids: seq<string>) returns (dupes: set<string>)
    ensures dupes == {} <==> Distinct(ids)
    ensures forall d :: d in dupes <==> Repeated(ids, d)
  {
    var seen: set<string> := {};
    dupes := {};
    for i := 0 to |ids|
      invariant seen == set k | 0 <= k < i :: ids[k]
      invariant dupes == {} <==> Distinct(ids[..i])
      invariant forall d :: d in dupes <==> Repeated(ids[..i], d)
    {
      OneMoreId(ids, i);
      if ids[i] in seen {
        var k :| 0 <= k < i && ids[k] == ids[i];
        assert ids[..i + 1][k] == ids[..i + 1][i];
        dupes := dupes + {ids[i]};
      }
      seen := seen + {ids[i]};
    }
    assert ids[..|ids|] == ids;
  }

  method DerivePlanExecutionRelation(planned: seq<PlannedStep>, executed: seq<ExecutedStep>, attempted: bool,
                                     complete: bool)
    returns (r: Conformance)
    ensures r == Derive(planned, executed, attempted, complete)
  {
    if !complete {
      return Conformance(Unverifiable, [InsufficientEvidence]);
    }
    if |planned| == 0 {
      return if |executed| == 0 then Conformance(NoExecution, [EmptyPlanNoExecution])
             else Conformance(Divergent, [ExtraExecutionNoPlan]);
    }
    if |executed| == 0 {
      return Conformance(NoExecution, [if attempted then ExecutionAttemptedNoSteps else NothingExecuted]);
    }
    if |planned| != |executed| {
      return Conformance(Divergent, [if |executed| < |planned| then OmittedSteps else ExtraSteps]);
    }
    var plannedDupes := FindDuplicates(PlannedIds(planned));
    if plannedDupes != {} {
      return Conformance(Divergent, [DuplicatePlannedIds]);
    }
    var executedDupes := FindDuplicates(ExecutedIds(executed));
    if executedDupes != {} {
      return Conformance(Divergent, [DuplicateExecutedIds]);
    }
    var positions := IndexById(ExecutedIds(executed));
    for i := 0 to |planned|
      invariant FirstStepReason(planned, executed) == FirstStepReason(planned[i..], executed)
    {
      var reason := CompareStep(planned[i], executed, positions);
      if reason.Some? {
        return Conformance(Divergent, [reason.value]);
      }
    }
    for i := 0 to |executed|
      invariant FirstUnknown(planned, executed) == FirstUnknown(planned, executed[i..])
    {
      if executed[i].stepId !in PlannedIds(planned) {
        return Conformance(Divergent, [UnknownExecutedStep(executed[i].stepId)]);
      }
    }
    return Conformance(Exact, []);
  }

  /** A map from id to position, filled in order: the last entry wins. */
  method IndexById(ids: seq<string>) returns (positions: map<string, nat>)
    ensures forall id :: LastIndex(ids, id) == if id in positions then Some(positions[id]) else None
  {
    positions := map[];
    for i := 0 to |ids|
      invariant forall id :: LastIndex(ids[..i], id) == if id in positions then Some(positions[id]) else None
    {
      assert ids[..i + 1][..i] == ids[..i];
      positions := positions[ids[i] := i];
    }
    assert ids[..|ids|] == ids;
  }

  method CompareStep(p: PlannedStep, executed: seq<ExecutedStep>, positions: map<string, nat>)
    returns (reason: Option<Reason>)
    requires forall id :: LastIndex(ExecutedIds(executed), id) == if id in positions then Some(positions[id]) else None
    ensures reason == StepReason(p, executed)
  {
    assert LastIndex(ExecutedIds(executed), p.stepId)
        == if p.stepId in positions then Some(positions[p.stepId]) else None;
    if p.stepId !in positions {
      return Some(MissingExecutedStep(p.stepId));
    }
    var at := positions[p.stepId];
    var e := executed[at];
    if p.commandSource != e.commandSource {
      return Some(CommandSourceMismatch(p.stepId));
    }
    if p.argv.Some? {
      reason := CompareArgv(p.stepId, p.argv.value, OrEmpty(e.executedArgv));
      if reason.Some? {
        return;
      }
    }
    if ComparesPaths(p) && NormalizePaths(p.targetPaths) != NormalizePaths(e.targetPaths) {
      return Some(TargetPathsMismatch(p.stepId));
    }
    if p.sequence.Some? && at != p.sequence.value {
      return Some(SequenceMismatch(p.stepId, p.sequence.value, at));
    }
    if e.rejected {
      return Some(StepRejected(p.stepId));
    }
    if !e.started {
      return Some(StepNotStarted(p.stepId));
    }
    return None;
  }

  method CompareArgv(id: string, planned: seq<string>, executed: seq<string>) returns (reason: Option<Reason>)
    ensures reason == ArgvReason(id, planned, executed)
  {
    if |planned| != |executed| {
      return Some(ArgvLengthMismatch(id));
    }
    for i := 0 to |planned|
      invariant FirstDifference(planned, executed, 0) == FirstDifference(planned, executed, i)
    {
      if planned[i] != executed[i] {
        return Some(ArgvMismatch(id, i));
      }
    }
    return None;
  }

  // ---- What exact means ----

  /** A planned step and an executed step agree: same command, same arguments, same targets, really run. */
  ghost predicate StepMatches(p: PlannedStep, e: ExecutedStep) {
    && p.stepId == e.stepId
    && p.commandSource == e.commandSource
    && (p.argv.Some? ==> OrEmpty(e.executedArgv) == p.argv.value)
    && (ComparesPaths(p) ==> multiset(Trimmed(p.targetPaths.value)) == multiset(Trimmed(OrEmpty(e.targetPaths))))
    && !e.rejected && e.started
  }

  lemma {:induction false} ArgvExact(id: string, planned: seq<string>, executed: seq<string>)
    ensures ArgvReason(id, planned, executed).None? <==> planned == executed
  {
    if |planned| == |executed| {
      assert planned[0..] == planned && executed[0..] == executed;
    }
  }

  lemma {:induction false} PathsExact(p: PlannedStep, e: ExecutedStep)
    requires ComparesPaths(p)
    ensures NormalizePaths(p.targetPaths) == NormalizePaths(e.targetPaths) <==>
            multiset(Trimmed(p.targetPaths.value)) == multiset(Trimmed(OrEmpty(e.targetPaths)))
  {
    SortExact(Trimmed(p.targetPaths.value), Trimmed(OrEmpty(e.targetPaths)));
    assert NormalizePaths(e.targetPaths) == Sort(Trimmed(OrEmpty(e.targetPaths)));
  }

  /** The chain of checks finds nothing exactly when each of them does. */
  lemma {:induction false} PairChecks(p: PlannedStep, e: ExecutedStep, at: nat)
    ensures PairReason(p, e, at).None? <==>
            && p.commandSource == e.commandSource
            && (p.argv.Some? ==> ArgvReason(p.stepId, p.argv.value, OrEmpty(e.executedArgv)).None?)
            && (ComparesPaths(p) ==> NormalizePaths(p.targetPaths) == NormalizePaths(e.targetPaths))
            && (p.sequence.Some? ==> p.sequence.value == at)
            && !e.rejected && e.started
  {
  }

  lemma {:induction false} PairExact(p: PlannedStep, e: ExecutedStep, at: nat)
    requires p.stepId == e.stepId
    ensures PairReason(p, e, at).None? <==> StepMatches(p, e) && (p.sequence.Some? ==> p.sequence.value == at)
  {
    if p.argv.Some? { ArgvExact(p.stepId, p.argv.value, OrEmpty(e.executedArgv)); }
    if ComparesPaths(p) { PathsExact(p, e); }
    PairChecks(p, e, at);
  }

  /** `p` is matched by an executed step standing where `p`'s sequence number says. */
  ghost predicate Matched(p: PlannedStep, executed: seq<ExecutedStep>) {
    exists j :: 0 <= j < |executed| && StepMatches(p, executed[j]) && (p.sequence.Some? ==> p.sequence.value == j)
  }

  lemma {:induction false} NoStepReason(planned: seq<PlannedStep>, executed: seq<ExecutedStep>)
    ensures FirstStepReason(planned, executed).None? <==>
            forall i | 0 <= i < |planned| :: StepReason(planned[i], executed).None?
  {
    if planned != [] {
      NoStepReason(planned[1..], executed);
      assert forall i | 0 < i < |planned| :: planned[i] == planned[1..][i - 1];
    }
  }

  lemma {:induction false} NoUnknown(planned: seq<PlannedStep>, executed: seq<ExecutedStep>)
    ensures FirstUnknown(planned, executed).None? <==>
            forall i | 0 <= i < |executed| :: executed[i].stepId in PlannedIds(planned)
  {
    if executed != [] {
      NoUnknown(planned, executed[1..]);
      assert forall i | 0 < i < |executed| :: executed[i] == executed[1..][i - 1];
    }
  }

  function ToSet(ids: seq<string>): set<string> {
    set id | id in ids
  }

  lemma {:induction false} SetSize(ids: seq<string>)
    ensures |ToSet(ids)| <= |ids| && (Distinct(ids) ==> |ToSet(ids)| == |ids|)
  {
    if ids != [] {
      SetSize(ids[1..]);
      assert ids == [ids[0]] + ids[1..];
      assert ToSet(ids) == ToSet(ids[1..]) + {ids[0]};
    }
  }

  lemma {:induction false} FullSubset(a: set<string>, b: set<string>)
    requires a <= b && |b| <= |a|
    ensures a == b
  {
    if x :| x in b && x !in a {
      assert a <= b - {x};
      SubsetSize(a, b - {x});
    }
  }

  lemma {:induction false} SubsetSize(a: set<string>, b: set<string>)
    requires a <= b
    ensures |a| <= |b|
  {
    if x :| x in a { SubsetSize(a - {x}, b - {x}); }
  }

  lemma {:induction false} Pigeonhole(p: seq<string>, e: seq<string>)
    requires |p| == |e| && Distinct(p) && forall i | 0 <= i < |p| :: p[i] in e
    ensures forall i | 0 <= i < |e| :: e[i] in p
  {
    SetSize(p);
    SetSize(e);
    FullSubset(ToSet(p), ToSet(e));
    forall i | 0 <= i < |e| ensures e[i] in p { assert e[i] in ToSet(e); }
  }

  /** The final loop over executed steps can never find a stranger: as many distinct ids, all matched. */
  lemma {:induction false} UnknownNeverFires(planned: seq<PlannedStep>, executed: seq<ExecutedStep>)
    requires |planned| == |executed| && Distinct(PlannedIds(planned)) && FirstStepReason(planned, executed).None?
    ensures FirstUnknown(planned, executed).None?
  {
    NoStepReason(planned, executed);
    NoUnknown(planned, executed);
    var p, e := PlannedIds(planned), ExecutedIds(executed);
    forall i | 0 <= i < |p| ensures p[i] in e { assert StepReason(planned[i], executed).None?; }
    Pigeonhole(p, e);
    assert forall i | 0 <= i < |e| :: e[i] == executed[i].stepId;
  }

  /** Exact: complete evidence, as many steps as planned, and each planned step matched where its sequence says. */
  lemma {:induction false} ExactMeansMatched(planned: seq<PlannedStep>, executed: seq<ExecutedStep>, attempted: bool,
                                             complete: bool)
    ensures Derive(planned, executed, attempted, complete).relation == Exact <==>
            && complete && |planned| == |executed| > 0
            && Distinct(PlannedIds(planned)) && Distinct(ExecutedIds(executed))
            && forall i | 0 <= i < |planned| :: Matched(planned[i], executed)
  {
    if complete && |planned| == |executed| > 0 && Distinct(PlannedIds(planned)) && Distinct(ExecutedIds(executed)) {
      if FirstStepReason(planned, executed).None? { UnknownNeverFires(planned, executed); }
      AllMatched(planned, executed);
    }
  }

  lemma {:induction false} AllMatched(planned: seq<PlannedStep>, executed: seq<ExecutedStep>)
    requires Distinct(ExecutedIds(executed))
    ensures FirstStepReason(planned, executed).None? <==> forall i | 0 <= i < |planned| :: Matched(planned[i], executed)
  {
    NoStepReason(planned, executed);
    forall i | 0 <= i < |planned| ensures StepReason(planned[i], executed).None? <==> Matched(planned[i], executed) {
      StepExact(planned[i], executed);
    }
  }

  lemma {:induction false} StepExact(p: PlannedStep, executed: seq<ExecutedStep>)
    requires Distinct(ExecutedIds(executed))
    ensures StepReason(p, executed).None? <==> Matched(p, executed)
  {
    var at := LastIndex(ExecutedIds(executed), p.stepId);
    if at.Some? {
      PairExact(p, executed[at.value], at.value);
    }
    if j :| 0 <= j < |executed| && StepMatches(p, executed[j]) && (p.sequence.Some? ==> p.sequence.value == j) {
      assert ExecutedIds(executed)[j] == p.stepId;
      assert at == Some(j);
    }
  }

  /** For a plan numbered in order the map-based comparison is position by position. */
  lemma {:induction false} ExactIsPointwise(planned: seq<PlannedStep>, executed: seq<ExecutedStep>, attempted: bool,
                                            complete: bool)
    requires forall i | 0 <= i < |planned| :: planned[i].sequence == Some(i)
    ensures Derive(planned, executed, attempted, complete).relation == Exact <==>
            && complete && |planned| == |executed| > 0 && Distinct(PlannedIds(planned))
            && forall i | 0 <= i < |planned| :: StepMatches(planned[i], executed[i])
  {
    ExactMeansMatched(planned, executed, attempted, complete);
    if |planned| == |executed| && (forall i | 0 <= i < |planned| :: Matched(planned[i], executed)) {
      forall i | 0 <= i < |planned| ensures StepMatches(planned[i], executed[i]) {
        assert Matched(planned[i], executed);
      }
    }
    if |planned| == |executed| && forall i | 0 <= i < |planned| :: StepMatches(planned[i], executed[i]) {
      assert PlannedIds(planned) == ExecutedIds(executed);
    }
  }
}
