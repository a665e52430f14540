/** What the comparison of plan and execution says about raw paths, evidence and reasons. */
module ConformanceLaws {
  import opened Wrappers
  import opened Collections
  import opened PlanConformance

  // ---- Paths ----

  /** Normalizing a path cuts the slashes at its end and nothing else. */
  lemma {:induction false} TrimCutsSlashes(p: string)
    ensures var n := |TrimSlashes(p)|;
            && n <= |p| && TrimSlashes(p) == p[..n]
            && (forall k | n <= k < |p| :: p[k] == '/')
            && (n > 0 ==> p[n - 1] != '/')
  {
    if p != "" && p[|p| - 1] == '/' {
      TrimCutsSlashes(p[..|p| - 1]);
    }
  }

  /** So two paths compare equal exactly when they are equal up to slashes at the end. */
  lemma {:induction false} SlashesIrrelevant(p: string, slashes: string)
    requires forall c | c in slashes :: c == '/'
    ensures TrimSlashes(p + slashes) == TrimSlashes(p)
  {
    if slashes == "" {
      assert p + slashes == p;
    } else {
      var n := |slashes| - 1;
      assert slashes[n] in slashes && forall c | c in slashes[..n] :: c in slashes;
      assert (p + slashes)[..|p| + n] == p + slashes[..n];
      SlashesIrrelevant(p, slashes[..n]);
    }
  }

  predicate EndsInSlash(p: string) {
    p != "" && p[|p| - 1] == '/'
  }

  lemma {:induction false} TrimmedAt(paths: seq<string>, i: nat)
    requires i < |paths|
    ensures Trimmed(paths)[i] == TrimSlashes(paths[i])
  {
    if i > 0 { TrimmedAt(paths[1..], i - 1); }
  }

  lemma {:induction false} NothingToTrim(paths: seq<string>)
    requires forall p | p in paths :: !EndsInSlash(p)
    ensures Trimmed(paths) == paths
  {
    forall i | 0 <= i < |paths| ensures Trimmed(paths)[i] == paths[i] {
      TrimmedAt(paths, i);
      assert paths[i] in paths;
    }
  }

  /** An exact relation means that every step with target paths was run on exactly those paths. */
  lemma {:induction false} ExactRanOnPlannedPaths(planned: seq<PlannedStep>, executed: seq<ExecutedStep>,
                                                  attempted: bool, complete: bool, p: PlannedStep)
    requires Derive(planned, executed, attempted, complete).relation == Exact
    requires p in planned && p.targetPaths.Some? && p.targetPaths.value != []
    requires forall path | path in p.targetPaths.value :: !EndsInSlash(path)
    requires forall e, path | e in executed && e.targetPaths.Some? && path in e.targetPaths.value :: !EndsInSlash(path)
    ensures exists e :: e in executed && e.stepId == p.stepId && e.targetPaths.Some?
                        && multiset(p.targetPaths.value) == multiset(e.targetPaths.value)
  {
    ExactMeansMatched(planned, executed, attempted, complete);
    var i :| 0 <= i < |planned| && planned[i] == p;
    assert Matched(planned[i], executed);
    var j :| 0 <= j < |executed| && StepMatches(p, executed[j]);
    assert executed[j] in executed;
    SamePaths(p, executed[j]);
  }

  lemma {:induction false} SamePaths(p: PlannedStep, e: ExecutedStep)
    requires StepMatches(p, e) && p.targetPaths.Some? && p.targetPaths.value != []
    requires forall path | path in p.targetPaths.value :: !EndsInSlash(path)
    requires forall path | e.targetPaths.Some? && path in e.targetPaths.value :: !EndsInSlash(path)
    ensures e.targetPaths.Some? && multiset(p.targetPaths.value) == multiset(e.targetPaths.value)
  {
    NothingToTrim(p.targetPaths.value);
    NothingToTrim(OrEmpty(e.targetPaths));
    assert p.targetPaths.value[0] in multiset(OrEmpty(e.targetPaths));
  }

  /** A plan with one path and a run on another are told apart, whatever else agrees. */
  lemma {:induction false} OtherPathDiverges(p: PlannedStep, e: ExecutedStep, a: string, b: string)
    requires p.targetPaths == Some([a]) && e.targetPaths == Some([b]) && a != b && !EndsInSlash(a) && !EndsInSlash(b)
    ensures Derive([p], [e], true, true).relation != Exact
  {
    assert a in multiset([a]) && a !in multiset([b]);
    if Derive([p], [e], true, true).relation == Exact {
      ExactRanOnPlannedPaths([p], [e], true, true, p);
    }
  }

  // ---- Evidence ----

  /** Both sides are complete: a plan of the current schema with steps listed, and executed steps that all have ids. */
  predicate Complete(plan: Plan, evidence: Option<Evidence>) {
    && plan.normativeSteps.Some? && plan.schemaVersion == 2
    && evidence.Some? && evidence.value.executedSteps.Some?
    && forall s | s in evidence.value.executedSteps.value :: s.stepId != ""
  }

  /** The relation from plan and evidence: what each of the four values says. */
  lemma {:induction false} RelationExactly(plan: Plan, evidence: Option<Evidence>)
    ensures var relation := Compare(plan, evidence).relation;
            && (relation == Unverifiable <==> !Complete(plan, evidence))
            && (relation == NoExecution <==> Complete(plan, evidence) && evidence.value.executedSteps.value == [])
            && (relation == Exact <==>
                  && Complete(plan, evidence)
                  && var planned, executed := plan.normativeSteps.value, evidence.value.executedSteps.value;
                     && |planned| == |executed| > 0
                     && Distinct(PlannedIds(planned)) && Distinct(ExecutedIds(executed))
                     && forall i | 0 <= i < |planned| :: Matched(planned[i], executed))
  {
    var (steps, planComplete) := NormativeSteps(plan);
    var executed := ExecutedSteps(evidence);
    ExactMeansMatched(steps, executed.steps, executed.attempted, planComplete && executed.evidenceComplete);
  }

  // ---- Reasons ----

  /** The reason for a divergence on a step is that of the first planned step that does not match. */
  lemma {:induction false} FirstMismatchReported(planned: seq<PlannedStep>, executed: seq<ExecutedStep>)
    ensures match FirstStepReason(planned, executed)
            case None => forall i | 0 <= i < |planned| :: StepReason(planned[i], executed).None?
            case Some(reason) =>
              exists i :: 0 <= i < |planned| && StepReason(planned[i], executed) == Some(reason)
                          && forall k | 0 <= k < i :: StepReason(planned[k], executed).None?
  {
    NoStepReason(planned, executed);
    if planned != [] && StepReason(planned[0], executed).None? && FirstStepReason(planned, executed).Some? {
      var rest := planned[1..];
      FirstMismatchReported(rest, executed);
      var i :| 0 <= i < |rest| && StepReason(rest[i], executed) == FirstStepReason(rest, executed)
               && forall k | 0 <= k < i :: StepReason(rest[k], executed).None?;
      assert planned[i + 1] == rest[i] && forall k | 0 < k < i + 1 :: planned[k] == rest[k - 1];
    }
  }

  /** Each reason names the planned step and is true of it and the step it was compared with. */
  lemma {:induction false} ReasonIsTrue(p: PlannedStep, e: ExecutedStep, at: nat)
    ensures match PairReason(p, e, at)
            case None => true
            case Some(reason) =>
              match reason
              case CommandSourceMismatch(id) => id == p.stepId && p.commandSource != e.commandSource
              case ArgvLengthMismatch(id) =>
                id == p.stepId && p.argv.Some? && |p.argv.value| != |OrEmpty(e.executedArgv)|
              case ArgvMismatch(id, k) =>
                && id == p.stepId && p.argv.Some?
                && k < |p.argv.value| == |OrEmpty(e.executedArgv)|
                && p.argv.value[k] != e.executedArgv.value[k] && p.argv.value[..k] == e.executedArgv.value[..k]
              case TargetPathsMismatch(id) => id == p.stepId && p.targetPaths.Some? && p.targetPaths != e.targetPaths
              case SequenceMismatch(id, planned, actual) =>
                id == p.stepId && p.sequence == Some(planned) && actual == at != planned
              case StepRejected(id) => id == p.stepId && e.rejected
              case StepNotStarted(id) => id == p.stepId && !e.started
              case _ => false
  {
    if p.argv.Some? && |p.argv.value| == |OrEmpty(e.executedArgv)| {
      DifferenceIsFirst(p.argv.value, OrEmpty(e.executedArgv), 0);
    }
  }

  lemma {:induction false} DifferenceIsFirst(a: seq<string>, b: seq<string>, i: nat)
    requires |a| == |b| && i <= |a| && a[..i] == b[..i]
    ensures match FirstDifference(a, b, i)
            case None => a == b
            case Some(k) => k < |a| && a[k] != b[k] && a[..k] == b[..k]
    decreases |a| - i
  {
    if i < |a| && a[i] == b[i] {
      assert a[..i + 1] == a[..i] + [a[i]] && b[..i + 1] == b[..i] + [b[i]];
      DifferenceIsFirst(a, b, i + 1);
    } else if i == |a| {
      assert a == a[..i] && b == b[..i];
    }
  }
}
