/** Eligibility, the runner's verdict and receipt, and the gate that checks the receipt again. */
module ReceiptGate {
  import opened Wrappers
  import opened Collections
  import opened Sorting
  import opened PlanConformance
  import opened PlanAdapter
  import opened ValidatorRunner
  import opened PlanExecution
  import opened CommandDescriptors

  // ---- Result eligibility ----

  datatype EligibilityReason =
    | NotExact(relation: Relation)
    | FeatureMissing(feature: string)
    | BackendNotPassCapable | BackendNotReachable | ImageIdentityInvalid
    | ReportIntegrityInvalid | EvidenceIncomplete | SchemaNotSupported

  datatype EligibilityInput = EligibilityInput(
    relation: Relation, required: seq<string>, features: seq<string>,
    passCapable: bool, reachable: bool, imageValid: bool, reportValid: bool, evidenceComplete: bool,
    schemaSupported: bool)

  function MissingFeatures(required: seq<string>, features: seq<string>): seq<EligibilityReason> {
    if required == [] then []
    else
      (if required[0] in features then [] else [FeatureMissing(required[0])])
      + MissingFeatures(required[1..], features)
  }

  function EligibilityReasons(i: EligibilityInput): seq<EligibilityReason> {
    OneIf(i.relation != Exact, NotExact(i.relation)) + MissingFeatures(i.required, i.features)
    + OneIf(!i.passCapable, BackendNotPassCapable) + OneIf(!i.reachable, BackendNotReachable)
    + OneIf(!i.imageValid, ImageIdentityInvalid) + OneIf(!i.reportValid, ReportIntegrityInvalid)
    + OneIf(!i.evidenceComplete, EvidenceIncomplete) + OneIf(!i.schemaSupported, SchemaNotSupported)
  }

  method PushMissingFeatures(before: seq<EligibilityReason>, required: seq<string>, features: seq<string>)
    returns (reasons: seq<EligibilityReason>)
    ensures reasons == before + MissingFeatures(required, features)
  {
    reasons := before;
    for k := 0 to |required|
      invariant reasons + MissingFeatures(required[k..], features) == before + MissingFeatures(required, features)
    {
      ghost var pushed := reasons;
      ghost var rest := MissingFeatures(required[k + 1..], features);
      assert required[k..][0] == required[k] && required[k..][1..] == required[k + 1..];
      if required[k] !in features {
        reasons := reasons + [FeatureMissing(required[k])];
        assert reasons + rest == pushed + ([FeatureMissing(required[k])] + rest);
      } else {
        assert [] + rest == rest;
      }
    }
    assert required[|required|..] == [];
  }

  method DeriveResultEligibility(i: EligibilityInput) returns (eligible: bool, reasons: seq<EligibilityReason>)
    ensures reasons == EligibilityReasons(i) && eligible == (reasons == [])
  {
    reasons := PushIf([], i.relation != Exact, NotExact(i.relation));
    assert [] + OneIf(i.relation != Exact, NotExact(i.relation)) == OneIf(i.relation != Exact, NotExact(i.relation));
    reasons := PushMissingFeatures(reasons, i.required, i.features);
    reasons := PushIf(reasons, !i.passCapable, BackendNotPassCapable);
    reasons := PushIf(reasons, !i.reachable, BackendNotReachable);
    reasons := PushIf(reasons, !i.imageValid, ImageIdentityInvalid);
    reasons := PushIf(reasons, !i.reportValid, ReportIntegrityInvalid);
    reasons := PushIf(reasons, !i.evidenceComplete, EvidenceIncomplete);
    reasons := PushIf(reasons, !i.schemaSupported, SchemaNotSupported);
    eligible := |reasons| == 0;
  }

  function Eligible(i: EligibilityInput): bool {
    EligibilityReasons(i) == []
  }

  lemma {:induction false} NoMissingFeatures(required: seq<string>, features: seq<string>)
    ensures MissingFeatures(required, features) == [] <==> forall f | f in required :: f in features
  {
    if required != [] {
      NoMissingFeatures(required[1..], features);
      assert required == [required[0]] + required[1..];
    }
  }

  /** Eligible exactly when all eight conditions hold. */
  lemma {:induction false} EligibleExactly(i: EligibilityInput)
    ensures Eligible(i) <==>
            && i.relation == Exact && (forall f | f in i.required :: f in i.features)
            && i.passCapable && i.reachable && i.imageValid && i.reportValid && i.evidenceComplete && i.schemaSupported
  {
    NoMissingFeatures(i.required, i.features);
  }

  function MapOutcome(eligible: bool, overall: Verdict, hasTimeout: bool): Verdict {
    if hasTimeout || !eligible then Inconclusive else overall
  }

  // ---- The runner ----

  datatype ExecutorKind = LocalProcess | ContainerRuntime | DelegatedRun

  datatype Backend = Backend(id: string, kind: ExecutorKind, supportsPass: bool, features: seq<string>)

  const EXECUTOR_SERVICE := "executor-service"

  /** The configured image; `pinned` is the image-reference parser, `None` for a reference without a digest. */
  datatype Image = Image(ref: string, digest: string, pinned: Option<string>)

  predicate IdentityComplete(image: Image) {
    image.ref != "" && image.digest != "" && image.pinned == Some(image.digest)
  }

  predicate BackendPassCapable(kind: ExecutorKind, reachable: bool) {
    kind != LocalProcess && reachable
  }

  datatype ExecResult = ExecResult(
    overall: Verdict, timeouts: seq<bool>, executedSteps: Option<seq<ExecutedStep>>, reason: Option<string>,
    reportHash: string, reportRef: string)

  datatype Receipt = Receipt(
    backendId: string, kind: Option<ExecutorKind>, passCapable: bool, imageRef: string, imagePinned: bool,
    imageDigest: string, status: Verdict, reportHash: string, reportRef: string,
    relation: Option<Relation>, executedSteps: Option<seq<ExecutedStep>>, features: Option<seq<string>>)

  datatype Run = Run(overall: Verdict, receipt: Receipt, stored: bool)

  function EvidenceOf(exec: ExecResult): Option<Evidence> {
    Some(Evidence(exec.executedSteps, exec.reason))
  }

  function PassCapable(b: Backend, reachable: bool, image: Image): bool {
    b.supportsPass && BackendPassCapable(b.kind, reachable) && IdentityComplete(image)
  }

  predicate EvidenceComplete(plan: Plan, evidence: Option<Evidence>) {
    NormativeSteps(plan).1 && ExecutedSteps(evidence).evidenceComplete
  }

  function RunnerInput(b: Backend, reachable: bool, image: Image, plan: Plan, exec: ExecResult): EligibilityInput {
    EligibilityInput(Compare(plan, EvidenceOf(exec)).relation, plan.requiredFeatures, b.features,
                     PassCapable(b, reachable, image), reachable, IdentityComplete(image), true,
                     EvidenceComplete(plan, EvidenceOf(exec)), plan.schemaVersion == 2)
  }

  function Mapped(b: Backend, reachable: bool, image: Image, plan: Plan, exec: ExecResult): Verdict {
    MapOutcome(Eligible(RunnerInput(b, reachable, image, plan, exec)), exec.overall, true in exec.timeouts)
  }

  /** The receipt as built: absent step lists are recorded as empty ones. */
  function BuildReceipt(b: Backend, passCapable: bool, image: Image, status: Verdict, exec: ExecResult,
                        relation: Relation): Receipt {
    Receipt(b.id, Some(b.kind), passCapable, image.ref, image.pinned.Some?, image.digest,
            status, exec.reportHash, exec.reportRef,
            Some(relation), Some(if exec.executedSteps.Some? then exec.executedSteps.value else []), Some(b.features))
  }

  predicate HasReport(exec: ExecResult) {
    exec.reportHash != "" && exec.reportRef != ""
  }

  const NOTHING_RUN := ExecResult(Inconclusive, [], Some([]), None, "", "")

  /**
   * When the patch does not apply nothing runs: no execution is on record, inconclusive, whatever the
   * backend could do.
   */
  function Unapplied(b: Backend, reachable: bool, image: Image): Run {
    Run(Inconclusive,
        Receipt(b.id, Some(b.kind), PassCapable(b, reachable, image), image.ref, image.pinned.Some?, image.digest,
                Inconclusive, "", "", Some(NoExecution), Some([]), Some(b.features)),
        false)
  }

  /** From applied patch and backend result to verdict and receipt; `stores` is whether persisting works. */
  method RunSandboxVerification(b: Backend, reachable: bool, image: Image, plan: Plan, applied: bool, exec: ExecResult,
                                stores: bool)
    returns (r: Run)
    ensures !applied ==> r == Unapplied(b, reachable, image)
    ensures applied ==> r == Verified(b, reachable, image, plan, exec, stores)
  {
    var passCapable := PassCapable(b, reachable, image);
    if !applied {
      return Run(Inconclusive, BuildReceipt(b, passCapable, image, Inconclusive, NOTHING_RUN, NoExecution), false);
    }
    var result := exec;
    var conformance := Compare(plan, EvidenceOf(result));
    var eligible, _ := DeriveResultEligibility(RunnerInput(b, reachable, image, plan, result));
    var mapped := MapOutcome(eligible, result.overall, true in result.timeouts);
    var receipt := BuildReceipt(b, passCapable, image, mapped, result, conformance.relation);
    var downgraded := false;
    var stored := false;
    if HasReport(result) {
      if stores {
        stored := true;
      } else if result.overall == Pass {
        result := result.(overall := Inconclusive, reason := Some("executor_report_persistence_failed"),
                          reportHash := "", reportRef := "");
        downgraded := true;
      }
    }
    if downgraded {
      return Run(Inconclusive, BuildReceipt(b, false, image, Inconclusive, result, conformance.relation), stored);
    }
    return Run(mapped, receipt, stored);
  }

  function Verified(b: Backend, reachable: bool, image: Image, plan: Plan, exec: ExecResult, stores: bool): Run {
    var relation := Compare(plan, EvidenceOf(exec)).relation;
    if HasReport(exec) && !stores && exec.overall == Pass then
      Run(Inconclusive,
          BuildReceipt(b, false, image, Inconclusive, exec.(reportHash := "", reportRef := ""), relation),
          false)
    else
      var mapped := Mapped(b, reachable, image, plan, exec);
      Run(mapped,
          BuildReceipt(b, PassCapable(b, reachable, image), image, mapped, exec, relation),
          HasReport(exec) && stores)
  }

  // ---- The gate ----

  datatype GateError =
    | MissingKind | LocalProcessKind | NotPassCapable
    | MissingImageRef | ImageNotPinned | MissingImageDigest | StatusNotPass
    | MissingReportRef | MissingReportHash | RecomputedNotExact | RelationMismatch | StoredNotExact
    | MissingFeatureSnapshot | MissingRelation | NotEligible

  function CheckThat(condition: bool, error: GateError): Result<(), GateError> {
    if condition then Ok(()) else Err(error)
  }

  /** What the gate recomputes from: the raw report if there is one, the receipt's steps otherwise. */
  function GateEvidence(r: Receipt, raw: Option<Evidence>): Option<Evidence> {
    if raw.Some? then raw
    else if r.executedSteps.Some? then Some(Evidence(r.executedSteps, None))
    else None
  }

  function CheckBindings(r: Receipt): Result<(), GateError> {
    var _ :- CheckThat(r.kind.Some?, MissingKind);
    var _ :- CheckThat(r.kind.value != LocalProcess, LocalProcessKind);
    var _ :- CheckThat(r.passCapable, NotPassCapable);
    var _ :- CheckThat(r.imageRef != "", MissingImageRef);
    var _ :- CheckThat(r.imagePinned, ImageNotPinned);
    var _ :- CheckThat(r.imageDigest != "", MissingImageDigest);
    var _ :- CheckThat(r.status == Pass, StatusNotPass);
    var _ :- CheckThat(r.backendId == EXECUTOR_SERVICE ==> r.reportRef != "", MissingReportRef);
    CheckThat(r.backendId == EXECUTOR_SERVICE ==> r.reportHash != "", MissingReportHash)
  }

  function CheckRelation(r: Receipt, plan: Option<Plan>, raw: Option<Evidence>): Result<(), GateError> {
    var evidence := GateEvidence(r, raw);
    if plan.Some? && evidence.Some? then
      var recomputed := Compare(plan.value, evidence).relation;
      var _ :- CheckThat(recomputed == Exact, RecomputedNotExact);
      CheckThat(r.relation.Some? ==> r.relation.value == recomputed, RelationMismatch)
    else CheckThat(r.relation.Some? ==> r.relation.value == Exact, StoredNotExact)
  }

  function GateInput(r: Receipt, plan: Plan, raw: Option<Evidence>): EligibilityInput
    requires r.relation.Some? && r.features.Some?
  {
    EligibilityInput(r.relation.value, plan.requiredFeatures, r.features.value, r.passCapable, true,
                     r.imageRef != "" && r.imageDigest != "",
                     r.backendId != EXECUTOR_SERVICE || (r.reportHash != "" && r.reportRef != ""),
                     r.executedSteps.Some? || raw.Some?, plan.schemaVersion == 2)
  }

  function CheckEligibility(r: Receipt, plan: Option<Plan>, raw: Option<Evidence>): Result<(), GateError> {
    if plan.None? then Ok(())
    else
      var _ :- CheckThat(r.features.Some?, MissingFeatureSnapshot);
      var _ :- CheckThat(r.relation.Some?, MissingRelation);
      CheckThat(Eligible(GateInput(r, plan.value, raw)), NotEligible)
  }

  /** `validateGap1ValidatorBindings`. */
  function Gate(r: Receipt, plan: Option<Plan>, raw: Option<Evidence>): Result<(), GateError> {
    var _ :- CheckBindings(r);
    var _ :- CheckRelation(r, plan, raw);
    CheckEligibility(r, plan, raw)
  }

  /** `validatePlanExecutionConformance`: the relation alone, recomputed. */
  function ConformanceCheck(r: Receipt, plan: Plan, raw: Option<Evidence>): Result<(), GateError> {
    var recomputed := Compare(plan, if raw.Some? then raw else Some(Evidence(r.executedSteps, None))).relation;
    var _ :- CheckThat(recomputed == Exact, RecomputedNotExact);
    CheckThat(r.relation.Some? ==> r.relation.value == recomputed, RelationMismatch)
  }

  // ---- Builder and verifier agree ----

  /** The runner passes exactly when everything that pass claims is so. */
  lemma {:induction false} PassExactly(b: Backend, reachable: bool, image: Image, plan: Plan, exec: ExecResult,
                                       stores: bool)
    ensures Verified(b, reachable, image, plan, exec, stores).overall == Pass <==>
            && exec.overall == Pass && true !in exec.timeouts
            && Compare(plan, EvidenceOf(exec)).relation == Exact
            && (forall f | f in plan.requiredFeatures :: f in b.features)
            && b.supportsPass && b.kind != LocalProcess && reachable && IdentityComplete(image)
            && EvidenceComplete(plan, EvidenceOf(exec)) && plan.schemaVersion == 2
            && (HasReport(exec) ==> stores)
  {
    EligibleExactly(RunnerInput(b, reachable, image, plan, exec));
  }

  /** A report's hash and reference are in a passing receipt only if the report was stored. */
  lemma {:induction false} PassReportStored(b: Backend, reachable: bool, image: Image, plan: Plan, exec: ExecResult,
                                            stores: bool)
    requires Verified(b, reachable, image, plan, exec, stores).overall == Pass
    ensures var run := Verified(b, reachable, image, plan, exec, stores);
            run.receipt.reportHash != "" && run.receipt.reportRef != "" ==> run.stored
  {
    PassExactly(b, reachable, image, plan, exec, stores);
  }

  /** An exact relation needs steps; then only they matter, not the reason beside them. */
  lemma {:induction false} ExactNeedsSteps(plan: Plan, steps: Option<seq<ExecutedStep>>, reason: Option<string>,
                                           other: Option<string>)
    requires Compare(plan, Some(Evidence(steps, reason))).relation == Exact
    ensures steps.Some? && steps.value != []
    ensures Compare(plan, Some(Evidence(steps, other))).relation == Exact
  {
    var (planned, complete) := NormativeSteps(plan);
    var n := ExecutedSteps(Some(Evidence(steps, reason)));
    ExactMeansMatched(planned, n.steps, n.attempted, complete && n.evidenceComplete);
  }

  /** A passing run's receipt, field by field. */
  predicate IsPassReceipt(r: Receipt, b: Backend, exec: ExecResult) {
    && r.backendId == b.id && r.kind == Some(b.kind) && b.kind != LocalProcess && r.passCapable
    && r.imageRef != "" && r.imagePinned && r.imageDigest != "" && r.status == Pass
    && r.reportHash == exec.reportHash && r.reportRef == exec.reportRef
    && r.relation == Some(Exact) && r.executedSteps.Some? && r.executedSteps == exec.executedSteps
    && r.features == Some(b.features)
  }

  lemma {:induction false} PassReceiptFields(b: Backend, reachable: bool, image: Image, plan: Plan, exec: ExecResult,
                                             stores: bool)
    requires Verified(b, reachable, image, plan, exec, stores).overall == Pass
    ensures IsPassReceipt(Verified(b, reachable, image, plan, exec, stores).receipt, b, exec)
  {
    PassExactly(b, reachable, image, plan, exec, stores);
    ExactNeedsSteps(plan, exec.executedSteps, exec.reason, None);
  }

  lemma {:induction false} BindingsExactly(r: Receipt, b: Backend, exec: ExecResult)
    requires IsPassReceipt(r, b, exec)
    ensures CheckBindings(r).Ok? <==> (b.id == EXECUTOR_SERVICE ==> HasReport(exec))
  {
  }

  lemma {:induction false} RelationRechecks(r: Receipt, b: Backend, exec: ExecResult, plan: Plan, raw: Option<Evidence>)
    requires IsPassReceipt(r, b, exec) && (raw == None || raw == EvidenceOf(exec))
    requires Compare(plan, EvidenceOf(exec)).relation == Exact
    ensures CheckRelation(r, Some(plan), raw).Ok?
  {
    ExactNeedsSteps(plan, exec.executedSteps, exec.reason, None);
    assert Compare(plan, GateEvidence(r, raw)).relation == Exact;
  }

  lemma {:induction false} EligibilityRechecks(r: Receipt, b: Backend, exec: ExecResult, plan: Plan,
                                               raw: Option<Evidence>)
    requires IsPassReceipt(r, b, exec) && (b.id == EXECUTOR_SERVICE ==> HasReport(exec))
    requires plan.schemaVersion == 2 && forall f | f in plan.requiredFeatures :: f in b.features
    ensures CheckEligibility(r, Some(plan), raw).Ok?
  {
    EligibleExactly(GateInput(r, plan, raw));
  }

  /**
   * The gate, given the same plan and either the raw report or nothing, accepts a passing receipt
   * exactly when an executor-service receipt carries both report hash and reference.
   */
  lemma {:induction false} GateAcceptsPassExactly(b: Backend, reachable: bool, image: Image, plan: Plan,
                                                  exec: ExecResult, stores: bool, raw: Option<Evidence>)
    requires Verified(b, reachable, image, plan, exec, stores).overall == Pass
    requires raw == None || raw == EvidenceOf(exec)
    ensures var receipt := Verified(b, reachable, image, plan, exec, stores).receipt;
            Gate(receipt, Some(plan), raw).Ok? <==> (b.id == EXECUTOR_SERVICE ==> HasReport(exec))
  {
    var receipt := Verified(b, reachable, image, plan, exec, stores).receipt;
    PassReceiptFields(b, reachable, image, plan, exec, stores);
    PassExactly(b, reachable, image, plan, exec, stores);
    BindingsExactly(receipt, b, exec);
    RelationRechecks(receipt, b, exec, plan, raw);
    if b.id == EXECUTOR_SERVICE ==> HasReport(exec) {
      EligibilityRechecks(receipt, b, exec, plan, raw);
    }
  }

  /** Whatever the gate accepts with a plan recomputes to exact, whoever wrote the receipt. */
  lemma {:induction false} GateAcceptsOnlyExact(r: Receipt, plan: Plan, raw: Option<Evidence>)
    requires Gate(r, Some(plan), raw).Ok?
    ensures Compare(plan, GateEvidence(r, raw)).relation == Exact && r.relation == Some(Exact) && r.status == Pass
    ensures r.features.Some? && forall f | f in plan.requiredFeatures :: f in r.features.value
    ensures r.kind.Some? && r.kind.value != LocalProcess && r.passCapable && r.imagePinned && plan.schemaVersion == 2
    ensures r.backendId == EXECUTOR_SERVICE ==> r.reportHash != "" && r.reportRef != ""
    ensures ConformanceCheck(r, plan, raw).Ok?
  {
    if r.features.Some? && r.relation.Some? {
      EligibleExactly(GateInput(r, plan, raw));
    }
  }

  // ---- The whole protocol ----

  function Timeouts(results: seq<CommandResult>): (r: seq<bool>)
    ensures |r| == |results| && forall i | 0 <= i < |r| :: r[i] == results[i].timedOut
  {
    if results == [] then [] else [results[0].timedOut] + Timeouts(results[1..])
  }

  /** What the executor service sends back for a plan's commands; `hash` and `ref` name its report. */
  function ServiceResult(descriptors: Descriptors, steps: seq<PlannedStep>, runs: seq<RunOutcome>, hash: string,
                         ref: string): ExecResult
    requires |runs| == |DispatchCommands(steps)|
  {
    var results := Results(DispatchCommands(steps), descriptors, steps, runs);
    var overall := Concluded(results, AggregateAll(Some(0), Statuses(results)));
    ExecResult(overall, Timeouts(results), Some(Projection(results)),
               if overall == Inconclusive then Some("execution_incomplete") else None, hash, ref)
  }

  /** The step ran as planned and succeeded in time. */
  ghost predicate Succeeds(s: PlannedStep, descriptors: Descriptors, run: RunOutcome) {
    RunsAsPlanned(s, descriptors, run) && run.code == Some(0) && !run.timedOut
  }

  /** A step that ran as planned returns its run's own status and is not rejected. */
  lemma {:induction false} PlannedRunReturns(s: PlannedStep, steps: seq<PlannedStep>, descriptors: Descriptors,
                                             run: RunOutcome)
    requires RunsAsPlanned(s, descriptors, run)
    ensures var r := ResultOf(s.commandId, descriptors, steps, run);
            !r.rejected && r.exitStatus == run.code && r.timedOut == run.timedOut
  {
  }

  ghost predicate AllSucceed(steps: seq<PlannedStep>, descriptors: Descriptors, runs: seq<RunOutcome>)
    requires |runs| == |steps|
  {
    forall i | 0 <= i < |steps| :: Succeeds(steps[i], descriptors, runs[i])
  }

  ghost predicate AllAsPlanned(steps: seq<PlannedStep>, descriptors: Descriptors, runs: seq<RunOutcome>)
    requires |runs| == |steps|
  {
    forall i | 0 <= i < |steps| :: RunsAsPlanned(steps[i], descriptors, runs[i])
  }

  lemma {:induction false} PassedResults(results: seq<CommandResult>)
    ensures (Concluded(results, AggregateAll(Some(0), Statuses(results))) == Pass && true !in Timeouts(results))
            <==> forall i | 0 <= i < |results| ::
              !results[i].rejected && results[i].exitStatus == Some(0) && !results[i].timedOut
  {
    VerdictIs(results);
    assert true !in Timeouts(results) <==> forall i | 0 <= i < |results| :: !Timeouts(results)[i];
  }

  /** For steps that ran as planned, a pass without timeouts means that every one of them succeeded. */
  lemma {:induction false} CleanRun(steps: seq<PlannedStep>, descriptors: Descriptors, runs: seq<RunOutcome>)
    requires |runs| == |steps| && AllAsPlanned(steps, descriptors, runs)
    ensures var results := Results(CommandIds(steps), descriptors, steps, runs);
            (Concluded(results, AggregateAll(Some(0), Statuses(results))) == Pass && true !in Timeouts(results))
            <==> AllSucceed(steps, descriptors, runs)
  {
    var results := Results(CommandIds(steps), descriptors, steps, runs);
    PassedResults(results);
    forall i | 0 <= i < |steps|
      ensures (!results[i].rejected && results[i].exitStatus == Some(0) && !results[i].timedOut)
              <==> Succeeds(steps[i], descriptors, runs[i])
    {
      assert RunsAsPlanned(steps[i], descriptors, runs[i]);
      PlannedRunReturns(steps[i], steps, descriptors, runs[i]);
    }
  }

  /** The relation does not depend on features or on the reason beside the steps. */
  lemma {:induction false} RelationIsThatOfSteps(steps: seq<PlannedStep>, required: seq<string>,
                                                 executed: seq<ExecutedStep>, reason: Option<string>)
    ensures Compare(Plan(2, Some(steps), required), Some(Evidence(Some(executed), reason))).relation == Exact
            <==> RelationOf(steps, executed) == Exact
  {
    var plan, bare := Plan(2, Some(steps), required), Plan(2, Some(steps), []);
    assert NormativeSteps(plan) == NormativeSteps(bare);
    if Compare(plan, Some(Evidence(Some(executed), reason))).relation == Exact {
      ExactNeedsSteps(plan, Some(executed), reason, None);
    }
    if RelationOf(steps, executed) == Exact {
      ExactNeedsSteps(bare, Some(executed), None, reason);
    }
  }

  /** A plan whose steps share a command never passes, whatever its commands return. */
  lemma {:induction false} SharedCommandNeverPasses(b: Backend, reachable: bool, image: Image, steps: seq<PlannedStep>,
                                                    required: seq<string>, descriptors: Descriptors,
                                                    runs: seq<RunOutcome>, exec: ExecResult, stores: bool)
    requires Numbered(steps) && KnownSources(steps) && |runs| == |DispatchCommands(steps)| == |steps|
    requires exec.executedSteps == Some(Reported(DispatchCommands(steps), steps, descriptors, runs))
    requires !Distinct(CommandIds(steps))
    ensures Verified(b, reachable, image, Plan(2, Some(steps), required), exec, stores).overall != Pass
  {
    PassExactly(b, reachable, image, Plan(2, Some(steps), required), exec, stores);
    RelationIsThatOfSteps(steps, required, exec.executedSteps.value, exec.reason);
    DispatchedExactly(steps, descriptors, runs);
  }

  lemma {:induction false} ExactHasCompleteEvidence(plan: Plan, exec: ExecResult)
    ensures Compare(plan, EvidenceOf(exec)).relation == Exact ==>
            EvidenceComplete(plan, EvidenceOf(exec)) && plan.schemaVersion == 2
  {
  }

  /** What else a pass needs: a fit backend and image, and a stored report if there is one. */
  predicate FitForPass(b: Backend, reachable: bool, image: Image, required: seq<string>, hash: string, ref: string,
                       stores: bool) {
    && (forall f | f in required :: f in b.features)
    && b.supportsPass && b.kind != LocalProcess && reachable && IdentityComplete(image)
    && (hash != "" && ref != "" ==> stores)
  }

  lemma {:induction false} ServicePassesExactly(b: Backend, reachable: bool, image: Image, steps: seq<PlannedStep>,
                                                required: seq<string>, descriptors: Descriptors, runs: seq<RunOutcome>,
                                                hash: string, ref: string, stores: bool)
    requires |runs| == |DispatchCommands(steps)|
    ensures var exec := ServiceResult(descriptors, steps, runs, hash, ref);
            Verified(b, reachable, image, Plan(2, Some(steps), required), exec, stores).overall == Pass <==>
            && exec.overall == Pass && true !in exec.timeouts
            && RelationOf(steps, Reported(DispatchCommands(steps), steps, descriptors, runs)) == Exact
            && FitForPass(b, reachable, image, required, hash, ref, stores)
  {
    var plan, exec := Plan(2, Some(steps), required), ServiceResult(descriptors, steps, runs, hash, ref);
    PassExactly(b, reachable, image, plan, exec, stores);
    RelationIsThatOfSteps(steps, required, exec.executedSteps.value, exec.reason);
    ExactHasCompleteEvidence(plan, exec);
  }

  lemma {:induction false} DispatchedPlanPassesExactly(b: Backend, reachable: bool, image: Image,
                                                       steps: seq<PlannedStep>, required: seq<string>,
                                                       descriptors: Descriptors, runs: seq<RunOutcome>,
                                                       hash: string, ref: string, stores: bool)
    requires Numbered(steps) && KnownSources(steps) && |runs| == |steps|
    ensures |DispatchCommands(steps)| == |steps|
    ensures Verified(b, reachable, image, Plan(2, Some(steps), required),
                     ServiceResult(descriptors, steps, runs, hash, ref), stores).overall == Pass
            <==> steps != [] && Distinct(CommandIds(steps)) && AllSucceed(steps, descriptors, runs)
                 && FitForPass(b, reachable, image, required, hash, ref, stores)
  {
    DispatchIsPlanOrder(steps);
    ServicePassesExactly(b, reachable, image, steps, required, descriptors, runs, hash, ref, stores);
    DispatchedExactly(steps, descriptors, runs);
    SuccessIsAsPlanned(steps, descriptors, runs);
    if AllAsPlanned(steps, descriptors, runs) {
      CleanRun(steps, descriptors, runs);
    }
  }

  lemma {:induction false} SuccessIsAsPlanned(steps: seq<PlannedStep>, descriptors: Descriptors, runs: seq<RunOutcome>)
    requires |runs| == |steps|
    ensures AllSucceed(steps, descriptors, runs) ==> AllAsPlanned(steps, descriptors, runs)
  {
    if AllSucceed(steps, descriptors, runs) {
      forall i | 0 <= i < |steps| ensures RunsAsPlanned(steps[i], descriptors, runs[i]) {
        assert Succeeds(steps[i], descriptors, runs[i]);
      }
    }
  }

  /**
   * The protocol's claim end to end: requirements compiled in either mode, dispatched, run and compared
   * give a pass if and only if there is something to run, no two steps share a command, every step ran as
   * planned and succeeded in time, and backend, image and storage are fit for a pass.
   */
  lemma {:induction false} CompiledPlanPassesExactly(b: Backend, reachable: bool, image: Image, ids: seq<string>,
                                                     evidence: seq<EvidenceRef>, activation: Activation,
                                                     runs: seq<RunOutcome>, hash: string, ref: string, stores: bool)
    requires |runs| == |CompileAll(START, ids, evidence, activation).steps|
    ensures var c := CompileAll(START, ids, evidence, activation);
            var compiled := PlanOf(c, activation);
            && |DispatchCommands(c.steps)| == |runs|
            && (Verified(b, reachable, image, compiled.plan,
                         ServiceResult(compiled.descriptors, c.steps, runs, hash, ref), stores).overall == Pass
                <==> c.steps != [] && Distinct(CommandIds(c.steps)) && AllSucceed(c.steps, compiled.descriptors, runs)
                     && FitForPass(b, reachable, image, c.features, hash, ref, stores))
  {
    var c := CompileAll(START, ids, evidence, activation);
    CompiledDispatches(ids, evidence, activation);
    DispatchedPlanPassesExactly(b, reachable, image, c.steps, Sort(c.features), CanonicalAll(c.descriptors), runs,
                                hash, ref, stores);
    SortKeeps(c.features);
  }
}
