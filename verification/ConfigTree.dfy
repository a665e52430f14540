/** Configuration values and the sparse merge, as a function on trees. */
module ConfigTree {
  import opened Wrappers
  import opened Collections
  import opened JsonPointer

  datatype Json =
    | Null
    | Bool(flag: bool)
    | Number(text: string)   // identified by its canonical decimal text
    | Str(text: string)
    | Arr(items: seq<Json>)
    | Obj(fields: map<string, Json>)

  type Fields = map<string, Json>

  predicate IsDangerousConfigKey(key: string) {
    key == "__proto__" || key == "constructor" || key == "prototype"
  }

  function ObjectFields(v: Option<Json>): Fields {
    if v.Some? && v.value.Obj? then v.value.fields else map[]
  }

  // ---- Nodes of a tree ----

  /** The node of `v` at path `p`, if there is one. */
  function NodeAt(v: Json, p: Path): Option<Json> {
    if p == [] then Some(v)
    else if v.Obj? && p[0] in v.fields then NodeAt(v.fields[p[0]], p[1..])
    else None
  }

  function FieldAt(fields: Fields, p: Path): Option<Json> {
    NodeAt(Obj(fields), p)
  }

  predicate IsClean(p: Path) {
    forall k | 0 <= k < |p| :: !IsDangerousConfigKey(p[k])
  }

  /** The node a layer supplies: what its sparse tree holds, dangerous keys never being read. */
  function SuppliedAt(v: Json, p: Path): Option<Json> {
    if IsClean(p) then NodeAt(v, p) else None
  }

  // ---- The merge ----

  /** `next` merged onto the node (if any) it meets. */
  function MergeValue(prior: Option<Json>, next: Json): Json
    decreases next, 1
  {
    if next.Obj? then Obj(Merge(ObjectFields(prior), next.fields)) else next
  }

  /** Sparse `source` merged onto `target`: absent keys inherit, objects recurse, all else replaces. */
  function Merge(target: Fields, source: Fields): Fields
    decreases Obj(source), 0
  {
    map k | k in target.Keys + source.Keys && (k in target || !IsDangerousConfigKey(k)) ::
      if k in source && !IsDangerousConfigKey(k) then MergeValue(Lookup(target, k), source[k]) else target[k]
  }

  // ---- What a merge does to the provenance of one path ----

  datatype Effect = Keep | Clear | Claim

  /** The effect on the entry at `p` below a node `prior` that is overridden by `next`. */
  function EffectAt(prior: Option<Json>, next: Json, p: Path): Effect
    decreases |p|
  {
    if p == [] then Claim
    else if !next.Obj? then Clear
    else if p[0] in next.fields && !IsDangerousConfigKey(p[0]) then
      EffectAt(Lookup(ObjectFields(prior), p[0]), next.fields[p[0]], p[1..])
    else if prior.Some? && prior.value.Obj? then Keep
    else Clear
  }

  /**
   * What each effect says of the merged tree: a claimed node is one the source supplies,
   * a cleared one is gone, a kept one is as it was; only claimed nodes are supplied.
   */
  lemma {:induction false} EffectMeaning(prior: Option<Json>, next: Json, p: Path)
    ensures var merged := NodeAt(MergeValue(prior, next), p);
            match EffectAt(prior, next, p)
            case Claim =>
              SuppliedAt(next, p).Some? && merged.Some? && SameKind(merged.value, SuppliedAt(next, p).value)
            case Clear => SuppliedAt(next, p).None? && merged.None?
            case Keep => SuppliedAt(next, p).None? && prior.Some? && merged == NodeAt(prior.value, p)
    decreases |p|
  {
    if p != [] && next.Obj? {
      assert IsClean(p) <==> !IsDangerousConfigKey(p[0]) && IsClean(p[1..]);
      if p[0] in next.fields && !IsDangerousConfigKey(p[0]) {
        EffectMeaning(Lookup(ObjectFields(prior), p[0]), next.fields[p[0]], p[1..]);
      }
    }
  }

  /** Two nodes agree up to what is inside objects: both objects, or equal. */
  predicate SameKind(a: Json, b: Json) {
    if a.Obj? then b.Obj? else a == b
  }
}
