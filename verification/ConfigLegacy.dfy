/** The older single-document parser, and when the layered resolver agrees with it. */
module ConfigLegacy {
  import opened Wrappers
  import opened Collections
  import opened JsonPointer
  import opened ConfigTree
  import opened ConfigResolve

  /** The assignment-based merge: only an object meeting an object recurses. */
  function DeepMerge(target: Fields, source: Fields): Fields
    decreases Obj(source), 0
  {
    map k | k in target.Keys + source.Keys && (k in target || !IsDangerousConfigKey(k)) ::
      if k in source && !IsDangerousConfigKey(k) then DeepValue(Lookup(target, k), source[k]) else target[k]
  }

  function DeepValue(prior: Option<Json>, next: Json): Json
    decreases next, 1
  {
    if next.Obj? && prior.Some? && prior.value.Obj? then Obj(DeepMerge(prior.value.fields, next.fields)) else next
  }

  /** The configuration the legacy parser returns, its `_explicitKeys` aside. */
  function LegacyConfig(defaults: Fields, parsed: Fields): Fields {
    var merged := DeepMerge(defaults, parsed);
    if GATES in parsed && parsed[GATES].Obj? && DEFAULT !in parsed[GATES].fields then Prune(merged, GATE) else merged
  }

  method MergeDeep(target: Fields, source: Fields) returns (merged: Fields)
    ensures merged == DeepMerge(target, source)
    decreases Obj(source), 0
  {
    merged := target;
    ghost var done: set<string> := {};
    var todo := source.Keys;
    NoDeepKeyYet(target, source);
    while todo != {}
      invariant todo + done == source.Keys && todo !! done
      invariant merged == DeepMerge(target, Only(source, done))
      decreases |todo|
    {
      var key :| key in todo;
      todo := todo - {key};
      OneMoreDeepField(target, source, done, key);
      if !IsDangerousConfigKey(key) {
        var node := DeepNode(Lookup(merged, key), source[key]);
        merged := merged[key := node];
      }
      done := done + {key};
    }
    assert Only(source, done) == source;
  }

  method DeepNode(prior: Option<Json>, next: Json) returns (node: Json)
    ensures node == DeepValue(prior, next)
    decreases next, 1
  {
    if next.Obj? && prior.Some? && prior.value.Obj? {
      var fields := MergeDeep(prior.value.fields, next.fields);
      node := Obj(fields);
    } else {
      node := next;
    }
  }

  lemma NoDeepKeyYet(target: Fields, source: Fields)
    ensures DeepMerge(target, Only(source, {})) == target
  {
  }

  lemma OneMoreDeepField(target: Fields, source: Fields, done: set<string>, key: string)
    requires key in source && key !in done
    ensures var merged := DeepMerge(target, Only(source, done));
            DeepMerge(target, Only(source, done + {key})) ==
            if IsDangerousConfigKey(key) then merged
            else merged[key := DeepValue(Lookup(target, key), source[key])]
    ensures Lookup(DeepMerge(target, Only(source, done)), key) == Lookup(target, key)
  {
  }

  method ParseConfig(defaults: Fields, parsed: Fields) returns (config: Fields, explicitKeys: set<string>)
    ensures config == LegacyConfig(defaults, parsed) && explicitKeys == parsed.Keys
  {
    config := MergeDeep(defaults, parsed);
    explicitKeys := parsed.Keys;
    if GATES in parsed && parsed[GATES].Obj? {
      if DEFAULT !in parsed[GATES].fields {
        GatesStayObjects(defaults, parsed);
        PruneTwoSteps(config, GATES, DEFAULT);
        config := config[GATES := Obj(config[GATES].fields - {DEFAULT})];
      }
    }
  }

  lemma GatesStayObjects(defaults: Fields, parsed: Fields)
    requires GATES in parsed && parsed[GATES].Obj?
    ensures GATES in DeepMerge(defaults, parsed) && DeepMerge(defaults, parsed)[GATES].Obj?
  {
  }

  lemma {:induction false} PruneTwoSteps(fields: Fields, a: string, b: string)
    requires a in fields && fields[a].Obj?
    ensures Prune(fields, [a, b]) == fields[a := Obj(fields[a].fields - {b})]
  {
    assert [a, b][1..] == [b];
  }

  // ---- Agreement ----

  /** No object key of the tree is dangerous (what validation rejects at any depth). */
  predicate IsSafe(v: Json) {
    v.Obj? ==> forall k | k in v.fields :: !IsDangerousConfigKey(k) && IsSafe(v.fields[k])
  }

  /** An object that replaces a non-object arrives unchanged when it has nothing to skip. */
  lemma {:induction false} SafeArrivesWhole(prior: Option<Json>, next: Json)
    requires IsSafe(next) && !(prior.Some? && prior.value.Obj?)
    ensures MergeValue(prior, next) == next
    decreases next
  {
    if next.Obj? {
      forall k | k in next.fields ensures MergeValue(None, next.fields[k]) == next.fields[k] {
        SafeArrivesWhole(None, next.fields[k]);
      }
      assert Merge(map[], next.fields) == next.fields;
    }
  }

  lemma {:induction false} MergesAgree(target: Fields, source: Fields)
    requires IsSafe(Obj(source))
    ensures DeepMerge(target, source) == Merge(target, source)
    decreases Obj(source)
  {
    forall k | k in source
      ensures DeepValue(Lookup(target, k), source[k]) == MergeValue(Lookup(target, k), source[k])
    {
      if source[k].Obj? && k in target && target[k].Obj? {
        assert Obj(source[k].fields) == source[k];
        MergesAgree(target[k].fields, source[k].fields);
      } else if source[k].Obj? {
        SafeArrivesWhole(Lookup(target, k), source[k]);
      }
    }
  }

  predicate HasNoMetadata(fields: Fields) {
    forall k | k in fields :: !IsMetadataKey(k)
  }

  /** What validation and the caller guarantee of a parsed document. */
  predicate IsValidated(parsed: Fields) {
    && IsSafe(Obj(parsed)) && HasNoMetadata(parsed)
    && (GATES in parsed ==> parsed[GATES].Obj?)
  }

  /** The document sets gates without naming the default one. */
  predicate DropsGate(parsed: Fields) {
    GATES in parsed && parsed[GATES].Obj? && DEFAULT !in parsed[GATES].fields
  }

  /** The defaults carry a default gate no leaf of which is recorded in the provenance. */
  ghost predicate GateUnrecorded(defaults: Fields) {
    FieldAt(defaults, GATE).Some? && !HoldsLeaf(defaults, GATE)
  }

  ghost predicate HoldsLeaf(config: Fields, q: Path) {
    exists p: Path :: q <= p && FieldAt(config, p).Some? && !FieldAt(config, p).value.Obj? && !HasMetadataKey(p)
  }

  /** Nothing at or below the gate is touched by a document that does not name it. */
  lemma {:induction false} GateUntouched(defaults: Fields, parsed: Fields, p: Path)
    requires DropsGate(parsed) && GATE <= p
    ensures SuppliedAt(Obj(parsed), p).None? && FieldAt(Merge(defaults, parsed), p) == FieldAt(defaults, p)
  {
    EffectMeaning(Some(Obj(defaults)), Obj(parsed), p);
    var rest := p[1..];
    assert p[0] == GATES && rest[0] == DEFAULT;
    assert EffectAt(Some(Obj(defaults)), Obj(parsed), p) == EffectAt(Lookup(defaults, GATES), parsed[GATES], rest);
    if GATES in defaults && !defaults[GATES].Obj? {
      assert NodeAt(defaults[GATES], rest).None?;
    }
  }

  lemma {:induction false} NamedGateIsSupplied(parsed: Fields)
    requires GATES in parsed && parsed[GATES].Obj? && DEFAULT in parsed[GATES].fields
    ensures SuppliedAt(Obj(parsed), GATE).Some?
  {
    TwoStepNode(parsed, GATES, DEFAULT);
    assert !IsDangerousConfigKey(GATES) && !IsDangerousConfigKey(DEFAULT);
  }

  /** The resolver drops the gate exactly when the legacy parser does and a leaf of it was recorded. */
  lemma {:induction false} GateDecision(defaults: Fields, parsed: Fields)
    requires IsValidated(parsed)
    ensures var merged, layers := Merge(defaults, parsed), LayersOf(defaults, None, Some(parsed), None);
            (if SuppliesGates(Some(parsed)) then WithoutBuiltIn(merged, layers, GATE) else merged)
            == if DropsGate(parsed) && HoldsLeaf(defaults, GATE) then Prune(merged, GATE) else merged
  {
    var merged, layers := Merge(defaults, parsed), LayersOf(defaults, None, Some(parsed), None);
    assert layers == [Layer(Defaults, defaults)] + [Layer(Repo, parsed)];
    TopSupplierPush([Layer(Defaults, defaults)], Layer(Repo, parsed), GATE);
    if DropsGate(parsed) {
      forall p: Path | GATE <= p ensures FieldAt(merged, p) == FieldAt(defaults, p) {
        GateUntouched(defaults, parsed, p);
      }
      GateUntouched(defaults, parsed, GATE);
      assert TopSupplier(layers, GATE) == TopSupplier([Layer(Defaults, defaults)], GATE);
      assert IsBuiltIn(merged, layers, GATE) <==> HoldsLeaf(defaults, GATE);
      if HoldsLeaf(defaults, GATE) {
        var p: Path :| GATE <= p && FieldAt(defaults, p).Some?;
        SupplyGoesUp(Obj(defaults), GATE, p);
      }
    } else if GATES in parsed {
      NamedGateIsSupplied(parsed);
    }
  }

  /**
   * One validated document as the only repository layer resolves to the legacy configuration,
   * unless it drops a default gate that left no trace in the provenance of the defaults.
   */
  lemma {:induction false} ResolversAgreeExactly(defaults: Fields, parsed: Fields)
    requires IsValidated(parsed) && HasNoMetadata(defaults)
    ensures EffectiveConfig(defaults, None, Some(parsed), None) == LegacyConfig(defaults, parsed)
            <==> !(DropsGate(parsed) && GateUnrecorded(defaults))
  {
    var merged := Merge(defaults, parsed);
    MergesAgree(defaults, parsed);
    GateDecision(defaults, parsed);
    assert HasNoMetadata(merged) && StripMetadata(merged) == merged;
    if DropsGate(parsed) {
      PruneTwoSteps(merged, GATES, DEFAULT);
      assert StripMetadata(Prune(merged, GATE)) == Prune(merged, GATE);
      GateUntouched(defaults, parsed, GATE);
      TwoStepNode(merged, GATES, DEFAULT);
      if FieldAt(defaults, GATE).None? {
        assert merged[GATES].fields - {DEFAULT} == merged[GATES].fields;
      } else {
        assert DEFAULT in merged[GATES].fields && DEFAULT !in Prune(merged, GATE)[GATES].fields;
      }
    }
  }

  /** The built-in gate of the shipped defaults. */
  const BUILT_IN_GATES: Json := Obj(map[DEFAULT := Obj(map[
    "conditions" := Arr([
      Obj(map["metric" := Str("ci_failure_rate_7d"), "operator" := Str("<"), "threshold" := Number("0.3")]),
      Obj(map["metric" := Str("triage_coverage"), "operator" := Str(">="), "threshold" := Number("0.5")]),
      Obj(map["metric" := Str("readiness_score"), "operator" := Str(">="), "threshold" := Number("40")])]),
    "block_on_fail" := Bool(true)])])

  /** With the shipped gate the two resolvers agree on every validated document. */
  lemma {:induction false} ResolversAgreeOnShippedGate(defaults: Fields, parsed: Fields)
    requires IsValidated(parsed) && HasNoMetadata(defaults)
    requires GATES in defaults && defaults[GATES] == BUILT_IN_GATES
    ensures EffectiveConfig(defaults, None, Some(parsed), None) == LegacyConfig(defaults, parsed)
  {
    ResolversAgreeExactly(defaults, parsed);
    var leaf: Path := GATE + ["block_on_fail"];
    assert leaf[1..] == [DEFAULT, "block_on_fail"] && leaf[1..][1..] == ["block_on_fail"] && leaf[1..][1..][1..] == [];
    var gate := BUILT_IN_GATES.fields[DEFAULT];
    assert NodeAt(gate, ["block_on_fail"]) == Some(Bool(true));
    assert NodeAt(BUILT_IN_GATES, leaf[1..]) == Some(Bool(true));
    assert FieldAt(defaults, leaf) == Some(Bool(true));
    assert GATE <= leaf && HoldsLeaf(defaults, GATE);
  }
}
