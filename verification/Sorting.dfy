/** The default string sort: by characters, and determined by the multiset of its input. */
module Sorting {

  /** Lexicographic order. */
  predicate Le(a: string, b: string) {
    a == "" || (b != "" && (a[0] < b[0] || (a[0] == b[0] && Le(a[1..], b[1..]))))
  }

  /** A prefix comes first, else the smaller character at the first difference decides. */
  lemma {:induction false} LeIsLexicographic(a: string, b: string)
    ensures Le(a, b) <==> a <= b || exists k :: 0 <= k < |a| && k < |b| && a[..k] == b[..k] && a[k] < b[k]
  {
    if a != "" && b != "" {
      LeIsLexicographic(a[1..], b[1..]);
      assert a == [a[0]] + a[1..] && b == [b[0]] + b[1..];
      if a[0] < b[0] {
        assert a[..0] == b[..0];
      }
      if k :| 0 <= k < |a[1..]| && k < |b[1..]| && a[1..][..k] == b[1..][..k] && a[1..][k] < b[1..][k] && a[0] == b[0] {
        assert a[..k + 1] == [a[0]] + a[1..][..k] && b[..k + 1] == [b[0]] + b[1..][..k];
      }
      if k :| 0 < k < |a| && k < |b| && a[..k] == b[..k] && a[k] < b[k] {
        assert a[0] == a[..k][0] == b[0];
        assert a[1..][..k - 1] == a[..k][1..] && b[1..][..k - 1] == b[..k][1..];
        assert a[1..][k - 1] < b[1..][k - 1];
      }
    }
  }

  lemma {:induction false} LeTotal(a: string, b: string)
    ensures Le(a, b) || Le(b, a)
    ensures Le(a, b) && Le(b, a) ==> a == b
  {
    if a != "" && b != "" {
      LeTotal(a[1..], b[1..]);
      if a[0] == b[0] && a[1..] == b[1..] { assert a == [a[0]] + a[1..] == b; }
    }
  }

  lemma {:induction false} LeTransitive(a: string, b: string, c: string)
    requires Le(a, b) && Le(b, c)
    ensures Le(a, c)
  {
    if a != "" && a[0] == b[0] && b[0] == c[0] { LeTransitive(a[1..], b[1..], c[1..]); }
  }

  ghost predicate Sorted(s: seq<string>) {
    forall i, j | 0 <= i < j < |s| :: Le(s[i], s[j])
  }

  function Insert(x: string, s: seq<string>): seq<string> {
    if s == [] || Le(x, s[0]) then [x] + s else [s[0]] + Insert(x, s[1..])
  }

  function Sort(s: seq<string>): seq<string> {
    if s == [] then [] else Insert(s[0], Sort(s[1..]))
  }

  lemma {:induction false} InsertSorted(x: string, s: seq<string>)
    requires Sorted(s)
    ensures Sorted(Insert(x, s)) && multiset(Insert(x, s)) == multiset(s) + multiset{x}
  {
    if s == [] {
    } else if Le(x, s[0]) {
      forall j | 0 <= j < |s| ensures Le(x, s[j]) { if j > 0 { LeTransitive(x, s[0], s[j]); } }
    } else {
      LeTotal(x, s[0]);
      InsertSorted(x, s[1..]);
      var rest := Insert(x, s[1..]);
      assert s == [s[0]] + s[1..];
      forall j | 0 <= j < |rest| ensures Le(s[0], rest[j]) {
        assert rest[j] in multiset(rest);
        assert rest[j] == x || rest[j] in s[1..];
      }
    }
  }

  /** Sorting yields a sorted permutation. */
  lemma {:induction false} SortSorts(s: seq<string>)
    ensures Sorted(Sort(s)) && multiset(Sort(s)) == multiset(s) && |Sort(s)| == |s|
  {
    if s != [] {
      SortSorts(s[1..]);
      InsertSorted(s[0], Sort(s[1..]));
      assert s == [s[0]] + s[1..];
    }
    assert |multiset(Sort(s))| == |multiset(s)|;
  }

  lemma SortKeeps(s: seq<string>)
    ensures forall x :: x in Sort(s) <==> x in s
  {
    SortSorts(s);
    forall x ensures x in Sort(s) <==> x in s {
      assert x in Sort(s) <==> x in multiset(Sort(s));
      assert x in s <==> x in multiset(s);
    }
  }

  lemma {:induction false} LeastFirst(a: seq<string>, b: seq<string>)
    requires a != [] && Sorted(b) && multiset(a) == multiset(b)
    ensures b != [] && Le(b[0], a[0])
  {
    assert a[0] in multiset(b);
    var i :| 0 <= i < |b| && b[i] == a[0];
    if i == 0 { LeTotal(a[0], a[0]); }
  }

  lemma TailMultiset(s: seq<string>)
    requires s != []
    ensures multiset(s[1..]) == multiset(s) - multiset{s[0]}
  {
    assert s == [s[0]] + s[1..];
  }

  lemma {:induction false} SortedUnique(a: seq<string>, b: seq<string>)
    requires Sorted(a) && Sorted(b) && multiset(a) == multiset(b)
    ensures a == b
  {
    if a == [] {
      assert |multiset(b)| == 0;
    } else {
      LeastFirst(a, b);
      LeastFirst(b, a);
      LeTotal(a[0], b[0]);
      TailMultiset(a);
      TailMultiset(b);
      SortedUnique(a[1..], b[1..]);
      assert a == [a[0]] + a[1..] && b == [b[0]] + b[1..];
    }
  }

  /** Two lists sort alike exactly when they hold the same elements equally often. */
  lemma {:induction false} SortExact(a: seq<string>, b: seq<string>)
    ensures Sort(a) == Sort(b) <==> multiset(a) == multiset(b)
  {
    SortSorts(a);
    SortSorts(b);
    if multiset(a) == multiset(b) { SortedUnique(Sort(a), Sort(b)); }
  }
}
