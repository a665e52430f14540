/** Decimal numerals and other string facts shared by several modules. */
module TextFacts {

  /** `part` stands in `s` at position `i`. */
  ghost predicate At<T>(s: seq<T>, i: nat, part: seq<T>)
    ensures At(s, i, part) && part != [] ==> i + |part| <= |s|
    decreases |part|
  {
    part == [] || (i < |s| && s[i] == part[0] && At(s, i + 1, part[1..]))
  }

  /** A concatenation stands where its parts stand one after the other. */
  lemma {:induction false} AtSplit<T>(s: seq<T>, i: nat, a: seq<T>, b: seq<T>)
    requires At(s, i, a + b)
    ensures At(s, i, a) && At(s, i + |a|, b)
    decreases |a|
  {
    if a == [] {
      assert a + b == b;
    } else {
      assert (a + b)[1..] == a[1..] + b;
      AtSplit(s, i + 1, a[1..], b);
    }
  }

  lemma {:induction false} AtElement<T>(s: seq<T>, i: nat, part: seq<T>, k: nat)
    requires At(s, i, part) && k < |part|
    ensures i + k < |s| && s[i + k] == part[k]
    decreases k
  {
    if k > 0 { AtElement(s, i + 1, part[1..], k - 1); }
  }

  lemma {:induction false} AtSlice<T>(s: seq<T>, i: nat, part: seq<T>)
    requires At(s, i, part) && i <= |s|
    ensures i + |part| <= |s| && s[i..i + |part|] == part
  {
    forall k | 0 <= k < |part| ensures s[i + k] == part[k] { AtElement(s, i, part, k); }
  }

  lemma {:induction false} SuffixAt<T>(s: seq<T>, i: nat)
    requires i <= |s|
    ensures At(s, i, s[i..])
    decreases |s| - i
  {
    if i < |s| { SuffixAt(s, i + 1); }
  }

  lemma AtParts<T>(s: seq<T>, i: nat, a: seq<T>, b: seq<T>, c: seq<T>, d: seq<T>, e: seq<T>)
    requires At(s, i, a + b + c + d + e)
    ensures At(s, i, a) && At(s, i + |a|, b) && At(s, i + |a| + |b|, c) && At(s, i + |a| + |b| + |c|, d)
            && At(s, i + |a| + |b| + |c| + |d|, e)
  {
    AtSplit(s, i, a + b + c + d, e);
    AtSplit(s, i, a + b + c, d);
    AtSplit(s, i, a + b, c);
    AtSplit(s, i, a, b);
  }

  /** The pieces of `s` between occurrences of `separator`; never empty. */
  function SplitOn(s: string, separator: char): (pieces: seq<string>)
    ensures pieces != [] && forall p | p in pieces :: separator !in p
  {
    if s == "" then [""]
    else
      var rest := SplitOn(s[1..], separator);
      if s[0] == separator then [""] + rest
      else
        assert rest[0] in rest && forall p | p in rest[1..] :: p in rest;
        [[s[0]] + rest[0]] + rest[1..]
  }

  function JoinWith(parts: seq<string>, separator: string): string {
    if parts == [] then ""
    else if |parts| == 1 then parts[0]
    else parts[0] + separator + JoinWith(parts[1..], separator)
  }

  predicate IsDigit(c: char) { '0' <= c <= '9' }

  function DigitValue(c: char): (v: nat)
    requires IsDigit(c)
    ensures v < 10
  {
    c as int - '0' as int
  }

  function DigitChar(v: nat): (c: char)
    requires v < 10
    ensures IsDigit(c) && DigitValue(c) == v
  {
    ('0' as int + v) as char
  }

  predicate AllDigits(s: string) {
    forall c | c in s :: IsDigit(c)
  }

  /** The value of a digit string, most significant digit first. */
  function NumeralValue(s: string): nat
    requires AllDigits(s)
  {
    if s == "" then 0 else 10 * NumeralValue(s[..|s| - 1]) + DigitValue(s[|s| - 1])
  }

  /** The decimal numeral of a natural number, without leading zeros. */
  function Numeral(n: nat): (s: string)
    ensures s != "" && AllDigits(s) && NumeralValue(s) == n
  {
    if n < 10 then
      assert [DigitChar(n)][..0] == "";
      [DigitChar(n)]
    else
      var front := Numeral(n / 10);
      assert (front + [DigitChar(n % 10)])[..|front|] == front;
      front + [DigitChar(n % 10)]
  }

  lemma ColonFreeTail(p: string, digits: string)
    requires AllDigits(digits)
    ensures var s := p + ":" + digits; s[|p|] == ':' && forall k | |p| < k < |s| :: s[k] != ':'
  {
    var s := p + ":" + digits;
    forall k | |p| < k < |s| ensures s[k] != ':' {
      assert s[k] == digits[k - |p| - 1] && s[k] in digits;
    }
  }

  /** A prefix, a colon and a numeral: the numeral can be read back, since digits hold no colon. */
  lemma TaggedNumeralInjective(p: string, m: nat, q: string, n: nat)
    requires p + ":" + Numeral(m) == q + ":" + Numeral(n)
    ensures m == n
  {
    var s := p + ":" + Numeral(m);
    ColonFreeTail(p, Numeral(m));
    ColonFreeTail(q, Numeral(n));
    assert |p| == |q|;
    assert Numeral(m) == s[|p| + 1..] == Numeral(n);
    assert NumeralValue(Numeral(m)) == m;
  }
}
