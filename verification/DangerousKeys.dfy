/** The explicit-stack search for prototype-polluting keys over a possibly cyclic object graph. */
module DangerousKeys {
  import opened Collections
  import opened ConfigTree

  /** Identity of a heap object. */
  type Ref = nat

  datatype Slot = Primitive | Object(ref: Ref)

  /** An object as the walker sees it: an array's items or a record's own enumerable keys. */
  datatype Shape =
    | ArrayOf(items: seq<Slot>)
    | RecordOf(fields: seq<(string, Slot)>)

  type Heap = map<Ref, Shape>

  ghost predicate Closed(heap: Heap) {
    forall r, c | r in heap && Child(heap[r], c) :: c in heap
  }

  /** `c` is referenced directly by an object of this shape. */
  predicate Child(shape: Shape, c: Ref) {
    match shape
    case ArrayOf(items) => Object(c) in items
    case RecordOf(fields) => exists i :: 0 <= i < |fields| && fields[i].1 == Object(c)
  }

  predicate OwnsDangerousKey(shape: Shape) {
    shape.RecordOf? && exists i :: 0 <= i < |shape.fields| && IsDangerousConfigKey(shape.fields[i].0)
  }

  /** The denied keys are these three; items of an array are never keys. */
  lemma {:induction false} DangerousKeyExactly(shape: Shape)
    ensures OwnsDangerousKey(shape) <==>
            && shape.RecordOf?
            && exists i :: 0 <= i < |shape.fields| && shape.fields[i].0 in {"__proto__", "constructor", "prototype"}
  {
  }

  /** A path of references in the heap. */
  ghost predicate IsPath(heap: Heap, path: seq<Ref>) {
    && path != []
    && (forall i | 0 <= i < |path| :: path[i] in heap)
    && forall i | 0 < i < |path| :: Child(heap[path[i - 1]], path[i])
  }

  ghost predicate Reachable(heap: Heap, root: Ref, r: Ref) {
    exists path: seq<Ref> :: IsPath(heap, path) && path[0] == root && path[|path| - 1] == r
  }

  lemma ReachableStep(heap: Heap, root: Ref, r: Ref, c: Ref)
    requires Closed(heap) && Reachable(heap, root, r) && Child(heap[r], c)
    ensures Reachable(heap, root, c)
  {
    var path: seq<Ref> :| IsPath(heap, path) && path[0] == root && path[|path| - 1] == r;
    var longer := path + [c];
    assert IsPath(heap, longer) && longer[0] == root && longer[|longer| - 1] == c;
  }

  /** A set holding the root and, with any object, its children holds everything reachable. */
  lemma {:induction false} ClosedSetHoldsReachable(heap: Heap, seen: set<Ref>, path: seq<Ref>)
    requires IsPath(heap, path) && path[0] in seen
    requires forall r, c | r in seen && r in heap && Child(heap[r], c) :: c in seen
    ensures path[|path| - 1] in seen
    decreases |path|
  {
    if |path| > 1 {
      assert Child(heap[path[0]], path[1]);
      ClosedSetHoldsReachable(heap, seen, path[1..]);
    }
  }

  /**
   * True exactly when some object reachable from the root owns a dangerous key, however the
   * graph shares or cycles; `expanded` lists the objects whose keys were read, each once.
   */
  method ContainsDangerousKey(heap: Heap, root: Slot) returns (found: bool, ghost expanded: seq<Ref>)
    requires Closed(heap) && (root.Object? ==> root.ref in heap)
    ensures found <==> root.Object? && exists r ::
            r in heap && Reachable(heap, root.ref, r) && OwnsDangerousKey(heap[r])
    ensures Distinct(expanded)
    ensures forall r | r in expanded :: root.Object? && Reachable(heap, root.ref, r)
  {
    expanded := [];
    if root.Primitive? {
      return false, expanded;
    }
    var seen: set<Ref> := {};
    var stack := [root.ref];
    assert IsPath(heap, [root.ref]);
    while stack != []
      invariant seen <= heap.Keys && (forall r | r in stack :: r in heap && Reachable(heap, root.ref, r))
      invariant root.ref in seen || root.ref in stack
      invariant forall r | r in seen :: !OwnsDangerousKey(heap[r])
      invariant forall r, c | r in seen && Child(heap[r], c) :: c in seen || c in stack
      invariant forall r :: r in seen <==> r in expanded
      invariant Distinct(expanded)
      invariant forall r | r in expanded :: Reachable(heap, root.ref, r)
      decreases heap.Keys - seen, |stack|
    {
      var value := stack[|stack| - 1];
      ghost var before := stack;
      stack := stack[..|stack| - 1];
      if value in seen {
        assert forall r | r in before :: r in stack || r == value;
        continue;
      }
      seen := seen + {value};
      expanded := expanded + [value];
      var dangerous, children := ReadObject(heap[value]);
      if dangerous {
        return true, expanded;
      }
      forall r | r in children ensures r in heap && Reachable(heap, root.ref, r) {
        ReachableStep(heap, root.ref, value, r);
      }
      assert forall r | r in before :: r in stack || r == value;
      stack := stack + children;
    }
    forall r | r in heap && Reachable(heap, root.ref, r) ensures !OwnsDangerousKey(heap[r]) {
      var path: seq<Ref> :| IsPath(heap, path) && path[0] == root.ref && path[|path| - 1] == r;
      ClosedSetHoldsReachable(heap, seen, path);
    }
    return false, expanded;
  }

  /** One object's keys, read until a dangerous one is met, and the objects to push. */
  method ReadObject(shape: Shape) returns (dangerous: bool, children: seq<Ref>)
    ensures dangerous <==> OwnsDangerousKey(shape)
    ensures forall c | c in children :: Child(shape, c)
    ensures !dangerous ==> forall c | Child(shape, c) :: c in children
  {
    children := [];
    match shape
    case ArrayOf(items) =>
      for i := 0 to |items|
        invariant forall c | c in children :: Object(c) in items
        invariant forall c | Object(c) in items[..i] :: c in children
      {
        if items[i].Object? {
          children := children + [items[i].ref];
        }
      }
      assert items[..|items|] == items;
      return false, children;
    case RecordOf(fields) =>
      for i := 0 to |fields|
        invariant forall c | c in children :: Child(shape, c)
        invariant forall k | 0 <= k < i :: fields[k].1.Object? ==> fields[k].1.ref in children
        invariant forall k | 0 <= k < i :: !IsDangerousConfigKey(fields[k].0)
      {
        if IsDangerousConfigKey(fields[i].0) {
          return true, children;
        }
        if fields[i].1.Object? {
          children := children + [fields[i].1.ref];
        }
      }
      return false, children;
  }
}
