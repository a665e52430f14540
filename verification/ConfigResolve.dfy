/** Layered resolution: the mutable resolver and the exactness of its provenance. */
module ConfigResolve {
  import opened Wrappers
  import opened Collections
  import opened JsonPointer
  import opened ConfigTree

  datatype LayerName = Defaults | Org | Repo | Governed

  datatype Layer = Layer(name: LayerName, values: Fields)

  type Provenance = map<string, LayerName>

  predicate IsMetadataKey(key: string) {
    key == "_meta" || key == "_explicitKeys" || key == "_hasFile"
  }

  predicate HasMetadataKey(p: Path) {
    exists k :: 0 <= k < |p| && IsMetadataKey(p[k])
  }

  const GATES := "quality_gates"
  const DEFAULT := "default"
  const GATE: Path := [GATES, DEFAULT]

  // ---- What provenance should say ----

  function OwnerIn(provenance: Provenance, p: Path): Option<LayerName> {
    if Pointer(p) in provenance then Some(provenance[Pointer(p)]) else None
  }

  ghost predicate WellKeyed(provenance: Provenance) {
    forall key | key in provenance :: exists p: Path :: p != [] && Pointer(p) == key
  }

  function SuppliedBy(l: Layer, p: Path): Option<Json> {
    if l.name.Defaults? then FieldAt(l.values, p) else SuppliedAt(Obj(l.values), p)
  }

  /** The highest layer that supplies a node at `p`. */
  function TopSupplier(layers: seq<Layer>, p: Path): (r: Option<Layer>)
    ensures r.Some? ==> r.value in layers && SuppliedBy(r.value, p).Some?
  {
    if layers == [] then None
    else if SuppliedBy(layers[|layers| - 1], p).Some? then Some(layers[|layers| - 1])
    else TopSupplier(layers[..|layers| - 1], p)
  }

  /**
   * The entry at `p` as a function of the tree and the layers alone: the highest supplier of an
   * existing node, the defaults layer owning only leaves outside metadata-named keys.
   */
  function ExpectedOwner(config: Fields, layers: seq<Layer>, p: Path): Option<LayerName> {
    var node, top := FieldAt(config, p), TopSupplier(layers, p);
    if p == [] || node.None? || top.None? then None
    else if !top.value.name.Defaults? then Some(top.value.name)
    else if !node.value.Obj? && !HasMetadataKey(p) then Some(Defaults)
    else None
  }

  /** Every node of the tree is one its highest supplier supplies: the same leaf, or both objects. */
  ghost predicate Faithful(config: Fields, layers: seq<Layer>) {
    forall p: Path | p != [] && FieldAt(config, p).Some? ::
      && TopSupplier(layers, p).Some?
      && SameKind(FieldAt(config, p).value, SuppliedBy(TopSupplier(layers, p).value, p).value)
  }

  ghost predicate Exact(config: Fields, provenance: Provenance, layers: seq<Layer>) {
    && WellKeyed(provenance)
    && Faithful(config, layers)
    && forall p: Path :: OwnerIn(provenance, p) == ExpectedOwner(config, layers, p)
  }

  ghost predicate WellLayered(layers: seq<Layer>) {
    layers != [] && layers[0].name.Defaults? && forall k | 0 < k < |layers| :: !layers[k].name.Defaults?
  }

  // ---- Clearing ----

  function Without(provenance: Provenance, prefix: string): Provenance {
    map key | key in provenance && !AtOrBelow(key, prefix) :: provenance[key]
  }

  lemma {:induction false} WithoutOwner(provenance: Provenance, q: Path, p: Path)
    ensures OwnerIn(Without(provenance, Pointer(q)), p) == if q <= p then None else OwnerIn(provenance, p)
  {
    AtOrBelowExact(p, q);
  }

  // ---- The effect of a merge on every entry ----

  ghost function Affected(e: Effect, layer: LayerName, before: Option<LayerName>): Option<LayerName> {
    match e
    case Keep => before
    case Clear => None
    case Claim => Some(layer)
  }

  /** The entry at `p` after `source` at `base` was merged onto `target`. */
  ghost function OwnerAfter(before: Provenance, base: Path, target: Fields, source: Fields, layer: LayerName, p: Path)
    : Option<LayerName>
  {
    if base < p && p[|base|] in source && !IsDangerousConfigKey(p[|base|]) then
      var key := p[|base|];
      Affected(EffectAt(Lookup(target, key), source[key], p[|base| + 1..]), layer, OwnerIn(before, p))
    else OwnerIn(before, p)
  }

  ghost predicate Merged(before: Provenance, after: Provenance, base: Path, target: Fields, source: Fields,
                         layer: LayerName) {
    && (WellKeyed(before) ==> WellKeyed(after))
    && forall p: Path :: OwnerIn(after, p) == OwnerAfter(before, base, target, source, layer, p)
  }

  function Only(source: Fields, keys: set<string>): Fields {
    map key | key in source && key in keys :: source[key]
  }

  /** One more key merged extends the effect to that key and leaves the others as they were. */
  lemma {:induction false} OneMoreKey(before: Provenance, mid: Provenance, after: Provenance, base: Path,
                                      target: Fields, source: Fields, done: set<string>, key: string, layer: LayerName)
    requires key in source && key !in done
    requires Merged(before, mid, base, target, Only(source, done), layer)
    requires Merged(mid, after, base, target, map[key := source[key]], layer)
    ensures Merged(before, after, base, target, Only(source, done + {key}), layer)
  {
    forall p: Path
      ensures OwnerIn(after, p) == OwnerAfter(before, base, target, Only(source, done + {key}), layer, p)
    {
      assert OwnerIn(mid, p) == OwnerAfter(before, base, target, Only(source, done), layer, p);
      assert OwnerIn(after, p) == OwnerAfter(mid, base, target, map[key := source[key]], layer, p);
    }
  }

  /** Where a path stands towards the child `base + [key]`. */
  lemma ChildCases(base: Path, key: string, p: Path)
    ensures var child := base + [key];
            && (child <= p <==> base < p && p[|base|] == key)
            && (child < p ==> p[|base| + 1..] != [] && p[|base| + 1..][0] == p[|child|]
                              && p[|base| + 1..][1..] == p[|child| + 1..])
            && (p == child ==> p[|base| + 1..] == [])
            && (child <= p ==> p == child || child < p)
            && (Pointer(p) == Pointer(child) ==> p == child)
  {
    var child := base + [key];
    if Pointer(p) == Pointer(child) { PointerInjective(p, child); }
    if child <= p { assert p[..|base|] == child[..|base|] == base && p[|base|] == child[|base|]; }
    if base < p && p[|base|] == key { assert p[..|base| + 1] == child; }
    if child <= p && |p| == |child| { assert p == child; }
  }

  /** Below a node that was no object nothing is kept. */
  lemma {:induction false} NothingKept(prior: Option<Json>, next: Json, p: Path)
    requires !(prior.Some? && prior.value.Obj?)
    ensures !EffectAt(prior, next, p).Keep?
    decreases |p|
  {
    if p != [] && next.Obj? && p[0] in next.fields {
      NothingKept(Lookup(ObjectFields(prior), p[0]), next.fields[p[0]], p[1..]);
    }
  }

  /** The entries a merge below `key` starts from: those below a node that was no object are cleared. */
  ghost function ChildStart(before: Provenance, base: Path, target: Fields, key: string): Provenance {
    if Lookup(target, key).Some? && target[key].Obj? then before else Without(before, Pointer(base + [key]))
  }

  /** Merging the fields of an object below `key` and claiming its node is the effect of that object. */
  lemma {:induction false} ObjectKey(before: Provenance, inner: Provenance, base: Path, target: Fields, key: string,
                                     value: Json, layer: LayerName)
    requires value.Obj? && !IsDangerousConfigKey(key)
    requires Merged(ChildStart(before, base, target, key), inner, base + [key], ObjectFields(Lookup(target, key)),
                    value.fields, layer)
    ensures Merged(before, inner[Pointer(base + [key]) := layer], base, target, map[key := value], layer)
  {
    var start := ChildStart(before, base, target, key);
    forall p: Path
      ensures OwnerIn(inner[Pointer(base + [key]) := layer], p)
              == OwnerAfter(before, base, target, map[key := value], layer, p)
    {
      assert OwnerIn(inner, p)
          == OwnerAfter(start, base + [key], ObjectFields(Lookup(target, key)), value.fields, layer, p);
      ObjectKeyAt(before, inner, base, target, key, value, layer, p);
    }
  }

  /** The same for the entry of one path. */
  lemma {:induction false} ObjectKeyAt(before: Provenance, inner: Provenance, base: Path, target: Fields, key: string,
                                       value: Json, layer: LayerName, p: Path)
    requires value.Obj? && !IsDangerousConfigKey(key)
    requires OwnerIn(inner, p) == OwnerAfter(ChildStart(before, base, target, key), base + [key],
                                             ObjectFields(Lookup(target, key)), value.fields, layer, p)
    ensures OwnerIn(inner[Pointer(base + [key]) := layer], p)
            == OwnerAfter(before, base, target, map[key := value], layer, p)
  {
    ChildCases(base, key, p);
    WithoutOwner(before, base + [key], p);
    if base + [key] < p {
      ObjectKeyBelow(before, ChildStart(before, base, target, key), base, target, key, value, layer, p);
    }
  }

  lemma {:induction false} ObjectKeyBelow(before: Provenance, start: Provenance, base: Path, target: Fields,
                                          key: string, value: Json, layer: LayerName, p: Path)
    requires value.Obj? && !IsDangerousConfigKey(key) && base + [key] < p
    requires OwnerIn(start, p) == if key in target && target[key].Obj? then OwnerIn(before, p) else None
    ensures OwnerAfter(start, base + [key], ObjectFields(Lookup(target, key)), value.fields, layer, p)
            == OwnerAfter(before, base, target, map[key := value], layer, p)
  {
    ChildCases(base, key, p);
    if !(key in target && target[key].Obj?) {
      NothingKept(Lookup(target, key), value, p[|base| + 1..]);
    }
  }

  /** A scalar or array clears what was below its key and claims the node. */
  lemma {:induction false} ScalarKey(before: Provenance, base: Path, target: Fields, key: string, value: Json,
                                     layer: LayerName)
    requires !value.Obj? && !IsDangerousConfigKey(key)
    ensures Merged(before, Without(before, Pointer(base + [key]))[Pointer(base + [key]) := layer],
                   base, target, map[key := value], layer)
  {
    var child := base + [key];
    var after := Without(before, Pointer(child))[Pointer(child) := layer];
    forall p: Path
      ensures OwnerIn(after, p) == OwnerAfter(before, base, target, map[key := value], layer, p)
    {
      ChildCases(base, key, p);
      WithoutOwner(before, child, p);
    }
  }

  lemma DangerousKey(before: Provenance, base: Path, target: Fields, key: string, value: Json, layer: LayerName)
    requires IsDangerousConfigKey(key)
    ensures Merged(before, before, base, target, map[key := value], layer)
  {
  }

  lemma OneMoreField(target: Fields, source: Fields, done: set<string>, key: string)
    requires key in source && key !in done
    ensures var merged := Merge(target, Only(source, done));
            Merge(target, Only(source, done + {key})) ==
            if IsDangerousConfigKey(key) then merged
            else merged[key := MergeValue(Lookup(target, key), source[key])]
    ensures Lookup(Merge(target, Only(source, done)), key) == Lookup(target, key)
  {
  }

  lemma NoKeyYet(before: Provenance, base: Path, target: Fields, source: Fields, layer: LayerName)
    ensures Merge(target, Only(source, {})) == target
    ensures Merged(before, before, base, target, Only(source, {}), layer)
  {
  }

  // ---- Exactness is kept ----

  lemma TopSupplierPush(layers: seq<Layer>, l: Layer, p: Path)
    ensures TopSupplier(layers + [l], p) == if SuppliedBy(l, p).Some? then Some(l) else TopSupplier(layers, p)
  {
    assert (layers + [l])[..|layers|] == layers;
  }

  /** Merging one more layer keeps the tree faithful and the provenance exact. */
  lemma {:induction false} MergeExact(config: Fields, before: Provenance, after: Provenance, layers: seq<Layer>,
                                      l: Layer)
    requires Exact(config, before, layers) && !l.name.Defaults?
    requires Merged(before, after, [], config, l.values, l.name)
    ensures Exact(Merge(config, l.values), after, layers + [l])
  {
    var merged := Merge(config, l.values);
    forall p: Path
      ensures OwnerIn(after, p) == ExpectedOwner(merged, layers + [l], p)
      ensures p != [] && FieldAt(merged, p).Some? ==>
                && TopSupplier(layers + [l], p).Some?
                && SameKind(FieldAt(merged, p).value, SuppliedBy(TopSupplier(layers + [l], p).value, p).value)
    {
      TopSupplierPush(layers, l, p);
      assert OwnerIn(after, p) == OwnerAfter(before, [], config, l.values, l.name, p);
      assert OwnerIn(before, p) == ExpectedOwner(config, layers, p);
      if p != [] {
        EffectMeaning(Some(Obj(config)), Obj(l.values), p);
        assert OwnerAfter(before, [], config, l.values, l.name, p) ==
               Affected(EffectAt(Some(Obj(config)), Obj(l.values), p), l.name, OwnerIn(before, p));
      }
    }
  }

  /** A tree without the node at `q`. */
  function Prune(fields: Fields, q: Path): Fields
    requires q != []
    decreases |q|
  {
    if |q| == 1 then fields - {q[0]}
    else if q[0] in fields && fields[q[0]].Obj? then fields[q[0] := Obj(Prune(fields[q[0]].fields, q[1..]))]
    else fields
  }

  /** Pruning removes the nodes at and below `q` and nothing else. */
  lemma {:induction false} PruneNodes(fields: Fields, q: Path, p: Path)
    requires q != [] && p != []
    ensures var node, kept := FieldAt(fields, p), FieldAt(Prune(fields, q), p);
            if q <= p then kept.None?
            else
              && (kept.Some? <==> node.Some?)
              && (node.Some? ==> SameKind(kept.value, node.value) && SameKind(node.value, kept.value))
    decreases |q|
  {
    var below := p[1..];
    if p[0] == q[0] {
      assert q <= p <==> q[1..] <= below;
      if |q| == 1 {
        assert q <= p;
      } else if q[0] in fields && fields[q[0]].Obj? {
        var inner := fields[q[0]].fields;
        if below != [] { PruneNodes(inner, q[1..], below); }
        assert FieldAt(fields, p) == FieldAt(inner, below);
        assert FieldAt(Prune(fields, q), p) == FieldAt(Prune(inner, q[1..]), below);
      } else if q[0] in fields {
        assert below != [] ==> NodeAt(fields[q[0]], below).None?;
      }
    } else if p[0] in fields {
      assert FieldAt(Prune(fields, q), p) == NodeAt(fields[p[0]], below);
    }
  }

  /** Removing a subtree from the tree and its entries from the provenance keeps both in step. */
  lemma {:induction false} PruneExact(config: Fields, provenance: Provenance, layers: seq<Layer>, q: Path)
    requires Exact(config, provenance, layers) && q != []
    ensures Exact(Prune(config, q), Without(provenance, Pointer(q)), layers)
  {
    forall p: Path
      ensures OwnerIn(Without(provenance, Pointer(q)), p) == ExpectedOwner(Prune(config, q), layers, p)
      ensures p != [] && FieldAt(Prune(config, q), p).Some? ==>
                && TopSupplier(layers, p).Some?
                && SameKind(FieldAt(Prune(config, q), p).value, SuppliedBy(TopSupplier(layers, p).value, p).value)
    {
      WithoutOwner(provenance, q, p);
      assert OwnerIn(provenance, p) == ExpectedOwner(config, layers, p);
      if p != [] { PruneNodes(config, q, p); }
    }
  }

  // ---- The default gate ----

  lemma {:induction false} SupplyGoesUp(v: Json, q: Path, p: Path)
    requires q <= p && NodeAt(v, p).Some?
    ensures NodeAt(v, q).Some?
  {
    if q != [] {
      assert q[0] == p[0] && q[1..] <= p[1..];
      SupplyGoesUp(v.fields[p[0]], q[1..], p[1..]);
    }
  }

  /** A layer above the defaults that supplies anything at or below `q` supplies `q`. */
  lemma {:induction false} TopSupplierGoesUp(layers: seq<Layer>, q: Path, p: Path)
    requires q <= p && TopSupplier(layers, p).Some? && !TopSupplier(layers, p).value.name.Defaults?
             && WellLayered(layers)
    ensures TopSupplier(layers, q).Some? && !TopSupplier(layers, q).value.name.Defaults?
    decreases |layers|
  {
    var last := layers[|layers| - 1];
    if SuppliedBy(last, p).Some? {
      assert TopSupplier(layers, p).value == last;
      SupplyGoesUp(Obj(last.values), q, p);
      assert IsClean(q);
    } else if |layers| > 1 {
      TopSupplierGoesUp(layers[..|layers| - 1], q, p);
      if SuppliedBy(last, q).Some? { assert !last.name.Defaults?; }
    }
  }

  function EntriesAt(provenance: Provenance, prefix: string): set<string> {
    set key | key in provenance && AtOrBelow(key, prefix)
  }

  predicate WhollyFromDefaults(provenance: Provenance, prefix: string) {
    var entries := EntriesAt(provenance, prefix);
    entries != {} && forall key | key in entries :: provenance[key].Defaults?
  }

  /** Node `q` is the defaults' own: no layer above supplies it, and it holds a recordable leaf. */
  ghost predicate IsBuiltIn(config: Fields, layers: seq<Layer>, q: Path) {
    && (TopSupplier(layers, q).Some? ==> TopSupplier(layers, q).value.name.Defaults?)
    && exists p: Path :: q <= p && FieldAt(config, p).Some? && !FieldAt(config, p).value.Obj? && !HasMetadataKey(p)
  }

  /** The resolver's test on provenance strings decides who supplied the gate. */
  lemma {:induction false} OwnershipTestExact(config: Fields, provenance: Provenance, layers: seq<Layer>, q: Path)
    requires Exact(config, provenance, layers) && WellLayered(layers) && q != [] && FieldAt(config, q).Some?
    ensures WhollyFromDefaults(provenance, Pointer(q)) <==> IsBuiltIn(config, layers, q)
  {
    var entries := EntriesAt(provenance, Pointer(q));
    if WhollyFromDefaults(provenance, Pointer(q)) {
      var key :| key in entries;
      var p: Path :| p != [] && Pointer(p) == key;
      AtOrBelowExact(p, q);
      assert OwnerIn(provenance, p) == ExpectedOwner(config, layers, p);
      assert OwnerIn(provenance, q) == ExpectedOwner(config, layers, q);
      AtOrBelowExact(q, q);
      assert Pointer(q) in provenance ==> Pointer(q) in entries;
    }
    if IsBuiltIn(config, layers, q) {
      BuiltInEntries(config, provenance, layers, q);
    }
  }

  lemma {:induction false} BuiltInEntries(config: Fields, provenance: Provenance, layers: seq<Layer>, q: Path)
    requires Exact(config, provenance, layers) && WellLayered(layers) && q != []
    requires IsBuiltIn(config, layers, q)
    ensures WhollyFromDefaults(provenance, Pointer(q))
  {
    var leaf: Path :| q <= leaf && FieldAt(config, leaf).Some? && !FieldAt(config, leaf).value.Obj?
      && !HasMetadataKey(leaf);
    AtOrBelowExact(leaf, q);
    assert OwnerIn(provenance, leaf) == ExpectedOwner(config, layers, leaf);
    if !TopSupplier(layers, leaf).value.name.Defaults? { TopSupplierGoesUp(layers, q, leaf); }
    assert Pointer(leaf) in EntriesAt(provenance, Pointer(q));
    forall key | key in EntriesAt(provenance, Pointer(q))
      ensures provenance[key].Defaults?
    {
      var p: Path :| p != [] && Pointer(p) == key;
      AtOrBelowExact(p, q);
      assert OwnerIn(provenance, p) == ExpectedOwner(config, layers, p);
      if !provenance[key].Defaults? { TopSupplierGoesUp(layers, q, p); }
    }
  }

  // ---- The defaults' own entries ----

  /** A leaf the defaults layer records: no object, under no metadata-named key. */
  ghost predicate RecordedLeaf(v: Json, p: Path) {
    NodeAt(v, p).Some? && !NodeAt(v, p).value.Obj? && !HasMetadataKey(p)
  }

  ghost predicate ListsLeaves(out: seq<string>, base: Path, v: Json) {
    && (forall p: Path | RecordedLeaf(v, p) :: Pointer(base + p) in out)
    && (forall s | s in out :: exists p: Path :: RecordedLeaf(v, p) && Pointer(base + p) == s)
  }

  lemma {:induction false} LeafStep(v: Json, key: string, base: Path, below: seq<string>)
    requires v.Obj? && key in v.fields && !IsMetadataKey(key) && ListsLeaves(below, base + [key], v.fields[key])
    ensures forall p: Path | RecordedLeaf(v, p) && p != [] && p[0] == key :: Pointer(base + p) in below
    ensures forall s | s in below :: exists p: Path :: RecordedLeaf(v, p) && Pointer(base + p) == s
  {
    forall p: Path | RecordedLeaf(v, p) && p != [] && p[0] == key
      ensures Pointer(base + p) in below
    {
      assert RecordedLeaf(v.fields[key], p[1..]) by {
        assert forall k | 0 <= k < |p[1..]| :: p[1..][k] == p[k + 1];
      }
      assert base + [key] + p[1..] == base + p;
    }
    forall s | s in below
      ensures exists p: Path :: RecordedLeaf(v, p) && Pointer(base + p) == s
    {
      var q: Path :| RecordedLeaf(v.fields[key], q) && Pointer(base + [key] + q) == s;
      LeafUp(v, key, q);
      assert base + ([key] + q) == base + [key] + q;
    }
  }

  lemma {:induction false} LeafUp(v: Json, key: string, q: Path)
    requires v.Obj? && key in v.fields && !IsMetadataKey(key) && RecordedLeaf(v.fields[key], q)
    ensures RecordedLeaf(v, [key] + q)
  {
    var p := [key] + q;
    assert p[1..] == q;
    assert forall k | 0 < k < |p| :: p[k] == q[k - 1];
  }

  lemma {:induction false} MetadataHidesLeaves(v: Json, p: Path)
    requires RecordedLeaf(v, p) && v.Obj?
    ensures p != [] && p[0] in v.fields && !IsMetadataKey(p[0])
  {
    assert p != [] && IsMetadataKey(p[0]) ==> HasMetadataKey(p);
  }

  /** The entries of the defaults layer alone are exact for the defaults. */
  lemma {:induction false} DefaultsExact(defaults: Fields, out: seq<string>, provenance: Provenance)
    requires ListsLeaves(out, [], Obj(defaults))
    requires provenance == map s | s in out :: Defaults
    ensures Exact(defaults, provenance, [Layer(Defaults, defaults)])
  {
    var layers := [Layer(Defaults, defaults)];
    forall p: Path
      ensures OwnerIn(provenance, p) == ExpectedOwner(defaults, layers, p)
      ensures p != [] && FieldAt(defaults, p).Some? ==> TopSupplier(layers, p) == Some(layers[0])
    {
      assert [] + p == p;
      if Pointer(p) in out {
        var q: Path :| RecordedLeaf(Obj(defaults), q) && Pointer([] + q) == Pointer(p);
        assert [] + q == q;
        PointerInjective(p, q);
      }
    }
    forall key | key in provenance
      ensures exists p: Path :: p != [] && Pointer(p) == key
    {
      var q: Path :| RecordedLeaf(Obj(defaults), q) && Pointer([] + q) == key;
      assert [] + q == q && q != [];
    }
  }

  // ---- The effective configuration ----

  function LayerList(name: LayerName, values: Option<Fields>): seq<Layer> {
    if values.Some? then [Layer(name, values.value)] else []
  }

  function LayersOf(defaults: Fields, org: Option<Fields>, repo: Option<Fields>, governed: Option<Fields>)
    : (layers: seq<Layer>)
    ensures WellLayered(layers)
  {
    [Layer(Defaults, defaults)] + LayerList(Org, org) + LayerList(Repo, repo) + LayerList(Governed, governed)
  }

  function MergeOptional(config: Fields, values: Option<Fields>): Fields {
    if values.Some? then Merge(config, values.value) else config
  }

  /** The top-level keys a layer's document names. */
  function KeysOf(values: Option<Fields>): set<string> {
    if values.Some? then values.value.Keys else {}
  }

  function SuppliesGates(values: Option<Fields>): bool {
    values.Some? && GATES in values.value
  }

  function StripMetadata(config: Fields): Fields {
    config - {"_meta", "_explicitKeys", "_hasFile"}
  }

  function MergedConfig(defaults: Fields, org: Option<Fields>, repo: Option<Fields>, governed: Option<Fields>): Fields {
    MergeOptional(MergeOptional(MergeOptional(defaults, org), repo), governed)
  }

  ghost function WithoutBuiltIn(config: Fields, layers: seq<Layer>, q: Path): Fields
    requires q != []
  {
    if FieldAt(config, q).Some? && IsBuiltIn(config, layers, q) then Prune(config, q) else config
  }

  /** The effective configuration, without any mention of provenance. */
  ghost function EffectiveConfig(defaults: Fields, org: Option<Fields>, repo: Option<Fields>,
                                 governed: Option<Fields>): Fields {
    var merged := MergedConfig(defaults, org, repo, governed);
    StripMetadata(
      if SuppliesGates(org) || SuppliesGates(repo)
      then WithoutBuiltIn(merged, LayersOf(defaults, org, repo, governed), GATE)
      else merged)
  }

  /**
   * What exactness gives a consumer that walks provenance: entries name existing nodes and the
   * highest layer supplying them, with its value; every leaf is covered, save the defaults' own
   * leaves under metadata-named keys.
   */
  lemma {:induction false} ProvenanceIsExact(config: Fields, provenance: Provenance, layers: seq<Layer>)
    requires Exact(config, provenance, layers)
    ensures forall key | key in provenance ::
              exists p: Path :: p != [] && Pointer(p) == key && FieldAt(config, p).Some? && TopSupplier(layers, p).Some?
                                && TopSupplier(layers, p).value.name == provenance[key]
                                && SameKind(FieldAt(config, p).value, SuppliedBy(TopSupplier(layers, p).value, p).value)
    ensures forall p: Path | p != [] && FieldAt(config, p).Some? && !FieldAt(config, p).value.Obj? ::
              OwnerIn(provenance, p).Some? <==> !(TopSupplier(layers, p).value.name.Defaults? && HasMetadataKey(p))
  {
    forall key | key in provenance
      ensures exists p: Path :: p != [] && Pointer(p) == key && FieldAt(config, p).Some? && TopSupplier(layers, p).Some?
                                && TopSupplier(layers, p).value.name == provenance[key]
                                && SameKind(FieldAt(config, p).value, SuppliedBy(TopSupplier(layers, p).value, p).value)
    {
      var p: Path :| p != [] && Pointer(p) == key;
      assert OwnerIn(provenance, p) == ExpectedOwner(config, layers, p);
    }
    forall p: Path | p != [] && FieldAt(config, p).Some? && !FieldAt(config, p).value.Obj?
      ensures OwnerIn(provenance, p).Some? <==> !(TopSupplier(layers, p).value.name.Defaults? && HasMetadataKey(p))
    {
      assert OwnerIn(provenance, p) == ExpectedOwner(config, layers, p);
    }
  }

  predicate IsPlain(token: string) {
    '~' !in token && '/' !in token
  }

  lemma {:induction false} PlainEscape(token: string)
    requires IsPlain(token)
    ensures EscapeToken(token) == token
  {
    if token != "" {
      assert token == [token[0]] + token[1..];
      PlainEscape(token[1..]);
      EscapeStep(token);
    }
  }

  /** Pointers of plain keys are the keys with slashes, as the resolver writes them. */
  lemma {:induction false} PlainPointers(a: string, b: string)
    requires IsPlain(a) && IsPlain(b)
    ensures Pointer([a]) == "/" + a && Pointer([a, b]) == "/" + a + "/" + b
  {
    PlainEscape(a);
    PlainEscape(b);
    assert [a][1..] == [] && [a, b][1..] == [b] && [b][1..] == [];
    assert Pointer([b]) == "/" + b;
  }

  lemma {:induction false} TwoStepNode(config: Fields, a: string, b: string)
    ensures FieldAt(config, [a, b]).Some? <==> a in config && config[a].Obj? && b in config[a].fields
    ensures FieldAt(config, [a, b]).Some? ==> Prune(config, [a, b]) == config[a := Obj(config[a].fields - {b})]
  {
    assert [a, b][1..] == [b] && [b][1..] == [];
    assert FieldAt(config, [a, b]) == if a in config then NodeAt(config[a], [b]) else None;
    if a in config {
      assert NodeAt(config[a], [b]).Some? <==> config[a].Obj? && b in config[a].fields;
    }
  }

  lemma GateIsPlain()
    ensures IsPlain(GATES) && IsPlain(DEFAULT)
  {
  }

  lemma MinusEntries(provenance: Provenance, prefix: string)
    ensures provenance - EntriesAt(provenance, prefix) == Without(provenance, prefix)
  {
  }

  // ---- The resolver ----

  class Resolution {
    var config: Fields
    var provenance: Provenance
    var explicitKeys: set<string>

    constructor (defaults: Fields)
      ensures config == defaults && provenance == map[] && explicitKeys == {}
    {
      config := defaults;
      provenance := map[];
      explicitKeys := {};
    }

    /** Resolution of all layers, in precedence order. */
    method Resolve(org: Option<Fields>, repo: Option<Fields>, governed: Option<Fields>)
      requires provenance == map[] && explicitKeys == {}
      modifies this
      ensures config == EffectiveConfig(old(config), org, repo, governed)
      ensures forall key :: key in explicitKeys <==>
                (org.Some? && key in org.value) || (repo.Some? && key in repo.value)
      ensures Exact(config, provenance, LayersOf(old(config), org, repo, governed))
    {
      ghost var layers := LayersOf(config, org, repo, governed);
      MergeLayers(org, repo, governed);
      if SuppliesGates(org) || SuppliesGates(repo) {
        StripDefaultGate(layers);
      }
      StripMetadataKeys(layers);
    }

    method MergeLayers(org: Option<Fields>, repo: Option<Fields>, governed: Option<Fields>)
      requires provenance == map[] && explicitKeys == {}
      modifies this
      ensures config == MergedConfig(old(config), org, repo, governed)
      ensures explicitKeys == KeysOf(org) + KeysOf(repo)
      ensures Exact(config, provenance, LayersOf(old(config), org, repo, governed))
    {
      MarkDefaults();
      ghost var layers := [Layer(Defaults, config)];
      MergeLayer(Org, org, layers);
      explicitKeys := explicitKeys + KeysOf(org);
      MergeLayer(Repo, repo, layers + LayerList(Org, org));
      explicitKeys := explicitKeys + KeysOf(repo);
      MergeLayer(Governed, governed, layers + LayerList(Org, org) + LayerList(Repo, repo));
    }

    /** Every leaf of the defaults is recorded as theirs. */
    method MarkDefaults()
      requires provenance == map[]
      modifies this`provenance
      ensures Exact(config, provenance, [Layer(Defaults, config)])
    {
      var out := LeafPointers(Obj(config), "", []);
      for i := 0 to |out|
        invariant provenance == map s | s in out[..i] :: Defaults
      {
        provenance := provenance[out[i] := Defaults];
        assert out[..i + 1] == out[..i] + [out[i]];
      }
      assert out[..|out|] == out;
      DefaultsExact(config, out, provenance);
    }

    method LeafPointers(value: Json, path: string, ghost base: Path) returns (out: seq<string>)
      requires path == Pointer(base)
      ensures ListsLeaves(out, base, value)
      decreases value
    {
      out := [];
      if !value.Obj? {
        assert base + [] == base;
        assert forall p: Path | RecordedLeaf(value, p) :: p == [];
        assert RecordedLeaf(value, []);
        return [path];
      }
      var todo := value.fields.Keys;
      while todo != {}
        invariant todo <= value.fields.Keys
        invariant forall p: Path | RecordedLeaf(value, p) && p != [] && p[0] !in todo :: Pointer(base + p) in out
        invariant forall s | s in out :: exists p: Path :: RecordedLeaf(value, p) && Pointer(base + p) == s
        decreases |todo|
      {
        var key :| key in todo;
        todo := todo - {key};
        if !IsMetadataKey(key) {
          PointerAppend(base, key);
          var below := LeafPointers(value.fields[key], path + "/" + EscapeToken(key), base + [key]);
          LeafStep(value, key, base, below);
          out := out + below;
        } else {
          forall p: Path | RecordedLeaf(value, p) ensures p != [] && p[0] != key { MetadataHidesLeaves(value, p); }
        }
      }
      forall p: Path | RecordedLeaf(value, p) ensures p != [] { MetadataHidesLeaves(value, p); }
    }

    method MergeLayer(name: LayerName, values: Option<Fields>, ghost layers: seq<Layer>)
      requires Exact(config, provenance, layers) && !name.Defaults?
      modifies this`config, this`provenance
      ensures config == MergeOptional(old(config), values)
      ensures Exact(config, provenance, layers + LayerList(name, values))
    {
      if values.Some? {
        var merged := MergeSparse(config, values.value, [], "", name);
        MergeExact(config, old(provenance), provenance, layers, Layer(name, values.value));
        config := merged;
      } else {
        assert layers + LayerList(name, values) == layers;
      }
    }

    /** The built-in gate is dropped only while every entry at or below it is the defaults'. */
    method StripDefaultGate(ghost layers: seq<Layer>)
      requires Exact(config, provenance, layers) && WellLayered(layers)
      modifies this`config, this`provenance
      ensures Exact(config, provenance, layers)
      ensures config == WithoutBuiltIn(old(config), layers, GATE)
    {
      GateIsPlain();
      DropIfBuiltIn(GATES, DEFAULT, layers);
    }

    method DropIfBuiltIn(outer: string, inner: string, ghost layers: seq<Layer>)
      requires Exact(config, provenance, layers) && WellLayered(layers) && IsPlain(outer) && IsPlain(inner)
      modifies this`config, this`provenance
      ensures Exact(config, provenance, layers)
      ensures config == WithoutBuiltIn(old(config), layers, [outer, inner])
    {
      TwoStepNode(config, outer, inner);
      if outer in config && config[outer].Obj? && inner in config[outer].fields {
        var prefix := "/" + outer + "/" + inner;
        PlainPointers(outer, inner);
        OwnershipTestExact(config, provenance, layers, [outer, inner]);
        if WhollyFromDefaults(provenance, prefix) {
          DropNode(outer, inner, prefix, layers);
        }
      }
    }

    method DropNode(outer: string, inner: string, prefix: string, ghost layers: seq<Layer>)
      requires Exact(config, provenance, layers) && prefix == Pointer([outer, inner])
      requires outer in config && config[outer].Obj? && inner in config[outer].fields
      modifies this`config, this`provenance
      ensures Exact(config, provenance, layers)
      ensures config == Prune(old(config), [outer, inner])
    {
      TwoStepNode(config, outer, inner);
      PruneExact(config, provenance, layers, [outer, inner]);
      MinusEntries(provenance, prefix);
      config := config[outer := Obj(config[outer].fields - {inner})];
      provenance := provenance - EntriesAt(provenance, prefix);
    }

    /** Procedural metadata never takes part in the effective configuration. */
    method StripMetadataKeys(ghost layers: seq<Layer>)
      requires Exact(config, provenance, layers)
      modifies this`config, this`provenance
      ensures Exact(config, provenance, layers) && config == StripMetadata(old(config))
    {
      StripKey("_meta", layers);
      StripKey("_explicitKeys", layers);
      StripKey("_hasFile", layers);
    }

    method StripKey(key: string, ghost layers: seq<Layer>)
      requires Exact(config, provenance, layers) && IsPlain(key)
      modifies this`config, this`provenance
      ensures Exact(config, provenance, layers) && config == old(config) - {key}
    {
      PlainPointers(key, key);
      PruneExact(config, provenance, layers, [key]);
      config := config - {key};
      ClearProvenanceBelow("/" + key);
    }

    method ClearProvenanceBelow(prefix: string)
      modifies this`provenance
      ensures provenance == Without(old(provenance), prefix)
    {
      var todo := provenance.Keys;
      while todo != {}
        invariant todo <= old(provenance).Keys
        invariant provenance == map key | key in old(provenance) && (key in todo || !AtOrBelow(key, prefix)) ::
                  old(provenance)[key]
        decreases |todo|
      {
        var pointer :| pointer in todo;
        todo := todo - {pointer};
        if AtOrBelow(pointer, prefix) {
          provenance := provenance - {pointer};
        }
      }
    }

    /** The merge loop over a layer's keys, in whatever order they come. */
    method MergeSparse(target: Fields, source: Fields, ghost base: Path, path: string, layer: LayerName)
      returns (merged: Fields)
      requires path == Pointer(base)
      modifies this`provenance
      ensures merged == Merge(target, source)
      ensures Merged(old(provenance), provenance, base, target, source, layer)
      decreases Obj(source), 0
    {
      merged := target;
      ghost var done: set<string> := {};
      var todo := source.Keys;
      NoKeyYet(provenance, base, target, source, layer);
      while todo != {}
        invariant todo + done == source.Keys && todo !! done
        invariant merged == Merge(target, Only(source, done))
        invariant Merged(old(provenance), provenance, base, target, Only(source, done), layer)
        decreases |todo|
      {
        var key :| key in todo;
        todo := todo - {key};
        ghost var mid := provenance;
        OneMoreField(target, source, done, key);
        merged := MergeKey(target, merged, key, source[key], base, path, layer);
        OneMoreKey(old(provenance), mid, provenance, base, target, source, done, key, layer);
        done := done + {key};
      }
      assert Only(source, done) == source;
    }

    /** One key of the merge loop: recurse into an object, replace anything else. */
    method MergeKey(ghost target: Fields, merged: Fields, key: string, value: Json, ghost base: Path, path: string,
                    layer: LayerName)
      returns (result: Fields)
      requires path == Pointer(base) && Lookup(merged, key) == Lookup(target, key)
      modifies this`provenance
      ensures result == if IsDangerousConfigKey(key) then merged
                        else merged[key := MergeValue(Lookup(target, key), value)]
      ensures Merged(old(provenance), provenance, base, target, map[key := value], layer)
      decreases value, 1
    {
      if IsDangerousConfigKey(key) {
        DangerousKey(provenance, base, target, key, value, layer);
        return merged;
      }
      var pointer := path + "/" + EscapeToken(key);
      PointerAppend(base, key);
      if value.Obj? {
        var below: Fields := map[];
        if key in merged && merged[key].Obj? {
          below := merged[key].fields;
        } else {
          ClearProvenanceBelow(pointer);
        }
        var fields := MergeSparse(below, value.fields, base + [key], pointer, layer);
        result := merged[key := Obj(fields)];
        ObjectKey(old(provenance), provenance, base, target, key, value, layer);
      } else {
        ClearProvenanceBelow(pointer);
        result := merged[key := value];
        ScalarKey(old(provenance), base, target, key, value, layer);
      }
      provenance := provenance[pointer := layer];
    }
  }
}
