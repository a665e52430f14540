/** Facts about sequences and maps that several modules share. */
module Collections {
  import opened Wrappers

  predicate Distinct<T(==)>(s: seq<T>) {
    forall i, j | 0 <= i < j < |s| :: s[i] != s[j]
  }

  function Lookup<K, V>(m: map<K, V>, key: K): Option<V> {
    if key in m then Some(m[key]) else None
  }

  function OneIf<T>(condition: bool, x: T): seq<T> {
    if condition then [x] else []
  }

  method PushIf<T>(before: seq<T>, condition: bool, x: T) returns (s: seq<T>)
    ensures s == before + OneIf(condition, x)
  {
    s := before;
    if condition {
      s := s + [x];
    }
  }

  lemma Regroup<T>(a: seq<T>, b: seq<T>, c: seq<T>)
    ensures (a + b) + c == a + (b + c)
  {
  }

  lemma SameMembers<T>(a: seq<T>, b: seq<T>)
    requires multiset(a) == multiset(b)
    ensures forall x :: x in a <==> x in b
  {
    forall x ensures x in a <==> x in b {
      assert x in multiset(a) <==> x in multiset(b);
    }
  }
}
