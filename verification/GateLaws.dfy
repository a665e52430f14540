/** What the runner's verdict and the receipt gate decide, condition by condition. */
module GateLaws {
  import opened Wrappers
  import opened Collections
  import opened PlanConformance
  import opened ValidatorRunner
  import opened ReceiptGate

  // ---- The verdict ----

  /** What must hold for a backend's verdict to be believed. */
  ghost predicate Believable(b: Backend, reachable: bool, image: Image, plan: Plan, exec: ExecResult) {
    && true !in exec.timeouts
    && Compare(plan, EvidenceOf(exec)).relation == Exact
    && (forall f | f in plan.requiredFeatures :: f in b.features)
    && b.supportsPass && b.kind != LocalProcess && reachable
    && image.ref != "" && image.digest != "" && image.pinned == Some(image.digest)
  }

  /**
   * The verdict is the backend's own if that is believable, and inconclusive otherwise; a pass whose report
   * could not be stored is inconclusive too.
   */
  lemma {:induction false} VerdictExactly(b: Backend, reachable: bool, image: Image, plan: Plan, exec: ExecResult,
                                          stores: bool)
    ensures Verified(b, reachable, image, plan, exec, stores).overall ==
            if !Believable(b, reachable, image, plan, exec) then Inconclusive
            else if exec.overall == Pass && exec.reportHash != "" && exec.reportRef != "" && !stores then Inconclusive
            else exec.overall
  {
    EligibleExactly(RunnerInput(b, reachable, image, plan, exec));
    ExactIsComplete(plan, exec);
  }

  lemma {:induction false} ExactIsComplete(plan: Plan, exec: ExecResult)
    ensures Compare(plan, EvidenceOf(exec)).relation == Exact ==>
              EvidenceComplete(plan, EvidenceOf(exec)) && plan.schemaVersion == 2
  {
    ExactHasCompleteEvidence(plan, exec);
  }

  /** The receipt records the verdict, the relation found, the steps executed and who executed them. */
  lemma {:induction false} ReceiptRecords(b: Backend, reachable: bool, image: Image, plan: Plan, exec: ExecResult,
                                          stores: bool)
    ensures var run := Verified(b, reachable, image, plan, exec, stores);
            var r := run.receipt;
            && r.status == run.overall
            && r.relation == Some(Compare(plan, EvidenceOf(exec)).relation)
            && r.executedSteps == Some(OrNone(exec.executedSteps))
            && r.backendId == b.id && r.kind == Some(b.kind) && r.features == Some(b.features)
            && r.imageRef == image.ref && r.imageDigest == image.digest && r.imagePinned == image.pinned.Some?
            && (run.stored <==> exec.reportHash != "" && exec.reportRef != "" && stores)
            && (exec.overall == Pass && exec.reportHash != "" && exec.reportRef != "" && !stores ==>
                  r.reportHash == "" && r.reportRef == "" && !r.passCapable)
  {
  }

  function OrNone(steps: Option<seq<ExecutedStep>>): seq<ExecutedStep> {
    if steps.Some? then steps.value else []
  }

  // ---- Reasons ----

  lemma {:induction false} MissingExactly(required: seq<string>, features: seq<string>, r: EligibilityReason)
    ensures r in MissingFeatures(required, features)
            <==> r.FeatureMissing? && r.feature in required && r.feature !in features
  {
    if required != [] {
      MissingExactly(required[1..], features, r);
      assert required == [required[0]] + required[1..];
    }
  }

  /** Each reason is given exactly when what it says is so. */
  lemma {:induction false} ReasonsExactly(i: EligibilityInput, r: EligibilityReason)
    ensures r in EligibilityReasons(i) <==>
            match r
            case NotExact(relation) => relation == i.relation != Exact
            case FeatureMissing(f) => f in i.required && f !in i.features
            case BackendNotPassCapable => !i.passCapable
            case BackendNotReachable => !i.reachable
            case ImageIdentityInvalid => !i.imageValid
            case ReportIntegrityInvalid => !i.reportValid
            case EvidenceIncomplete => !i.evidenceComplete
            case SchemaNotSupported => !i.schemaSupported
  {
    MissingExactly(i.required, i.features, r);
    var s0 := OneIf(i.relation != Exact, NotExact(i.relation)) + MissingFeatures(i.required, i.features);
    var s1 := Appended(s0, !i.passCapable, BackendNotPassCapable, r);
    var s2 := Appended(s1, !i.reachable, BackendNotReachable, r);
    var s3 := Appended(s2, !i.imageValid, ImageIdentityInvalid, r);
    var s4 := Appended(s3, !i.reportValid, ReportIntegrityInvalid, r);
    var s5 := Appended(s4, !i.evidenceComplete, EvidenceIncomplete, r);
    var s6 := Appended(s5, !i.schemaSupported, SchemaNotSupported, r);
    assert s6 == EligibilityReasons(i);
  }

  lemma {:induction false} Appended<T>(s: seq<T>, condition: bool, x: T, r: T) returns (more: seq<T>)
    ensures more == s + OneIf(condition, x) && (r in more <==> r in s || (condition && r == x))
  {
    more := s + OneIf(condition, x);
  }

  // ---- The gate ----

  /** What the gate asks of any receipt. */
  predicate WellBound(r: Receipt) {
    && r.kind.Some? && r.kind != Some(LocalProcess) && r.passCapable
    && r.imageRef != "" && r.imagePinned && r.imageDigest != "" && r.status == Pass
    && (r.backendId == "executor-service" ==> r.reportRef != "" && r.reportHash != "")
  }

  lemma {:induction false} BindingsAre(r: Receipt)
    ensures CheckBindings(r).Ok? <==> WellBound(r)
  {
  }

  /** Without a plan the gate accepts a well-bound receipt exactly when no other relation than exact is recorded. */
  lemma {:induction false} GateWithoutPlan(r: Receipt, raw: Option<Evidence>)
    ensures Gate(r, None, raw).Ok? <==> WellBound(r) && (r.relation.None? || r.relation == Some(Exact))
  {
    BindingsAre(r);
  }

  /**
   * With a plan it accepts exactly when the relation is recorded as exact and, where there is evidence,
   * recomputes to exact, there is evidence, and every required feature is recorded.
   */
  lemma {:induction false} GateWithPlan(r: Receipt, plan: Plan, raw: Option<Evidence>)
    ensures Gate(r, Some(plan), raw).Ok? <==>
            && WellBound(r)
            && r.relation == Some(Exact)
            && (raw.Some? || r.executedSteps.Some?)
            && Compare(plan, if raw.Some? then raw else Some(Evidence(r.executedSteps, None))).relation == Exact
            && r.features.Some? && (forall f | f in plan.requiredFeatures :: f in r.features.value)
            && plan.schemaVersion == 2
  {
    BindingsAre(r);
    if r.relation.Some? && r.features.Some? {
      EligibleExactly(GateInput(r, plan, raw));
    }
  }

  /** The separate conformance check looks at the relation alone. */
  lemma {:induction false} ConformanceIs(r: Receipt, plan: Plan, raw: Option<Evidence>)
    ensures ConformanceCheck(r, plan, raw).Ok? <==>
            && Compare(plan, if raw.Some? then raw else Some(Evidence(r.executedSteps, None))).relation == Exact
            && (r.relation.None? || r.relation == Some(Exact))
  {
  }
}
