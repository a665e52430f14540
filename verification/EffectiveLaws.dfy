/** What the effective configuration holds, in terms of the documents it was resolved from. */
module EffectiveLaws {
  import opened Wrappers
  import opened Collections
  import opened JsonPointer
  import opened ConfigTree
  import opened ConfigResolve
  import opened ConfigLegacy

  // ---- Which document decides ----

  /** The document supplies a node at `p`: no key on the way is one the merge refuses to read. */
  predicate Supplies(values: Option<Fields>, p: Path) {
    values.Some? && NodeAt(Obj(values.value), p).Some?
    && "__proto__" !in p && "constructor" !in p && "prototype" !in p
  }

  lemma {:induction false} SuppliesExactly(values: Fields, p: Path)
    ensures Supplies(Some(values), p) <==> SuppliedAt(Obj(values), p).Some?
  {
    assert IsClean(p) <==> "__proto__" !in p && "constructor" !in p && "prototype" !in p;
  }

  /** Governed over repository over organisation over defaults. */
  lemma {:induction false} PrecedenceOrder(defaults: Fields, org: Option<Fields>, repo: Option<Fields>,
                                           governed: Option<Fields>, p: Path)
    ensures TopSupplier(LayersOf(defaults, org, repo, governed), p) ==
            if Supplies(governed, p) then Some(Layer(Governed, governed.value))
            else if Supplies(repo, p) then Some(Layer(Repo, repo.value))
            else if Supplies(org, p) then Some(Layer(Org, org.value))
            else if FieldAt(defaults, p).Some? then Some(Layer(Defaults, defaults))
            else None
  {
    var base := [Layer(Defaults, defaults)];
    assert base[..0] == [];
    OneLayerMore(base, Org, org, p);
    OneLayerMore(base + LayerList(Org, org), Repo, repo, p);
    OneLayerMore(base + LayerList(Org, org) + LayerList(Repo, repo), Governed, governed, p);
  }

  lemma {:induction false} OneLayerMore(layers: seq<Layer>, name: LayerName, values: Option<Fields>, p: Path)
    requires !name.Defaults?
    ensures TopSupplier(layers + LayerList(name, values), p) ==
            if Supplies(values, p) then Some(Layer(name, values.value)) else TopSupplier(layers, p)
  {
    if values.Some? {
      TopSupplierPush(layers, Layer(name, values.value), p);
      SuppliesExactly(values.value, p);
    } else {
      assert layers + LayerList(name, values) == layers;
    }
  }

  /** Nothing the document supplies above `p` is a scalar or an array. */
  ghost predicate OpenAbove(values: Option<Fields>, p: Path) {
    forall q: Path | q < p && Supplies(values, q) :: NodeAt(Obj(values.value), q).value.Obj?
  }

  /** A merge then adds the nodes of the document and loses none. */
  lemma {:induction false} MergeAddsNodes(target: Fields, values: Option<Fields>, p: Path)
    requires OpenAbove(values, p)
    ensures FieldAt(MergeOptional(target, values), p).Some? <==> FieldAt(target, p).Some? || Supplies(values, p)
  {
    if values.Some? {
      EffectMeaning(Some(Obj(target)), Obj(values.value), p);
      SuppliesExactly(values.value, p);
      if EffectAt(Some(Obj(target)), Obj(values.value), p) == Clear {
        ClearedWasAbsent(Some(Obj(target)), Obj(values.value), p);
      }
    }
  }

  lemma {:induction false} ClearedWasAbsent(prior: Option<Json>, next: Json, p: Path)
    requires EffectAt(prior, next, p) == Clear
    requires forall q: Path | q < p && SuppliedAt(next, q).Some? :: SuppliedAt(next, q).value.Obj?
    ensures prior.None? || NodeAt(prior.value, p).None?
    decreases |p|
  {
    assert SuppliedAt(next, []) == Some(next) && [] < p;
    if p[0] in next.fields && !IsDangerousConfigKey(p[0]) {
      forall q: Path | q < p[1..] && SuppliedAt(next.fields[p[0]], q).Some?
        ensures SuppliedAt(next.fields[p[0]], q).value.Obj?
      {
        var longer := [p[0]] + q;
        assert longer[1..] == q && longer < p;
        assert IsClean(longer);
        assert SuppliedAt(next, longer) == SuppliedAt(next.fields[p[0]], q);
      }
      ClearedWasAbsent(Lookup(ObjectFields(prior), p[0]), next.fields[p[0]], p[1..]);
    }
  }

  /** Where no document puts a scalar or array above it, a node is there exactly when some document supplies it. */
  lemma {:induction false} MergedNodes(defaults: Fields, org: Option<Fields>, repo: Option<Fields>,
                                       governed: Option<Fields>, p: Path)
    requires OpenAbove(org, p) && OpenAbove(repo, p) && OpenAbove(governed, p)
    ensures FieldAt(MergedConfig(defaults, org, repo, governed), p).Some?
            <==> FieldAt(defaults, p).Some? || Supplies(org, p) || Supplies(repo, p) || Supplies(governed, p)
  {
    MergeAddsNodes(defaults, org, p);
    MergeAddsNodes(MergeOptional(defaults, org), repo, p);
    MergeAddsNodes(MergeOptional(MergeOptional(defaults, org), repo), governed, p);
  }

  // ---- The default gate ----

  predicate NamesGates(values: Option<Fields>) {
    values.Some? && "quality_gates" in values.value
  }

  predicate NamesDefaultGate(values: Option<Fields>) {
    NamesGates(values) && values.value["quality_gates"].Obj? && "default" in values.value["quality_gates"].fields
  }

  lemma {:induction false} GateSuppliers(values: Option<Fields>)
    ensures Supplies(values, ["quality_gates", "default"]) <==> NamesDefaultGate(values)
  {
    if values.Some? {
      TwoStepNode(values.value, "quality_gates", "default");
    }
  }

  /**
   * Whatever the layers: the default gate is missing from the result exactly when the merge left none, or
   * the organisation or the repository names gates, no document names the default one, and a leaf of it
   * was recorded.
   */
  lemma {:induction false} GateAbsentExactly(defaults: Fields, org: Option<Fields>, repo: Option<Fields>,
                                             governed: Option<Fields>)
    ensures var merged := MergedConfig(defaults, org, repo, governed);
            FieldAt(EffectiveConfig(defaults, org, repo, governed), ["quality_gates", "default"]).None?
            <==> || FieldAt(merged, ["quality_gates", "default"]).None?
                 || (&& (NamesGates(org) || NamesGates(repo))
                     && !NamesDefaultGate(org) && !NamesDefaultGate(repo) && !NamesDefaultGate(governed)
                     && HoldsLeaf(merged, ["quality_gates", "default"]))
  {
    var merged := MergedConfig(defaults, org, repo, governed);
    var q: Path := ["quality_gates", "default"];
    PrecedenceOrder(defaults, org, repo, governed, q);
    GateSuppliers(org);
    GateSuppliers(repo);
    GateSuppliers(governed);
    StrippedNode(merged, q);
    if FieldAt(merged, q).Some? {
      PruneNodes(merged, q, q);
      StrippedNode(Prune(merged, q), q);
    }
  }

  /** Metadata keys hide nothing else. */
  lemma {:induction false} StrippedNode(config: Fields, p: Path)
    requires p != [] && p[0] != "_meta" && p[0] != "_explicitKeys" && p[0] != "_hasFile"
    ensures FieldAt(StripMetadata(config), p) == FieldAt(config, p)
  {
  }

  /** Everything else is as merged: only the gate and the three metadata keys can be missing. */
  lemma {:induction false} ElsewhereAsMerged(defaults: Fields, org: Option<Fields>, repo: Option<Fields>,
                                             governed: Option<Fields>, p: Path)
    requires p != []
    ensures var node := FieldAt(MergedConfig(defaults, org, repo, governed), p);
            var kept := FieldAt(EffectiveConfig(defaults, org, repo, governed), p);
            if p[0] == "_meta" || p[0] == "_explicitKeys" || p[0] == "_hasFile" then kept.None?
            else if !(["quality_gates", "default"] <= p) then
              && (kept.Some? <==> node.Some?)
              && (node.Some? ==> SameKind(kept.value, node.value) && SameKind(node.value, kept.value))
            else kept == node || kept.None?
  {
    var merged := MergedConfig(defaults, org, repo, governed);
    if p[0] != "_meta" && p[0] != "_explicitKeys" && p[0] != "_hasFile" {
      StrippedNode(merged, p);
      StrippedNode(Prune(merged, GATE), p);
      PruneNodes(merged, GATE, p);
    }
  }

  // ---- A single document, in either slot ----

  lemma {:induction false} SlotIrrelevant(defaults: Fields, parsed: Fields)
    ensures EffectiveConfig(defaults, Some(parsed), None, None) == EffectiveConfig(defaults, None, Some(parsed), None)
  {
    PrecedenceOrder(defaults, Some(parsed), None, None, GATE);
    PrecedenceOrder(defaults, None, Some(parsed), None, GATE);
  }

  /** The agreement with the older parser holds for an organisation's document under the same condition. */
  lemma {:induction false} OrgAgreesExactly(defaults: Fields, parsed: Fields)
    requires IsValidated(parsed) && HasNoMetadata(defaults)
    ensures EffectiveConfig(defaults, Some(parsed), None, None) == LegacyConfig(defaults, parsed)
            <==> !(DropsGate(parsed) && GateUnrecorded(defaults))
  {
    SlotIrrelevant(defaults, parsed);
    ResolversAgreeExactly(defaults, parsed);
  }

  // ---- Keys that are never read ----

  /** Both merges pass over the three polluting keys and take every other one. */
  lemma {:induction false} PollutingKeysNeverRead(target: Fields, source: Fields, key: string)
    ensures key == "__proto__" || key == "constructor" || key == "prototype" ==>
              && Lookup(Merge(target, source), key) == Lookup(target, key)
              && Lookup(DeepMerge(target, source), key) == Lookup(target, key)
    ensures key in source && key != "__proto__" && key != "constructor" && key != "prototype" ==>
              && key in Merge(target, source) && SameKind(Merge(target, source)[key], source[key])
              && key in DeepMerge(target, source) && SameKind(DeepMerge(target, source)[key], source[key])
  {
  }
}
