/** JSON pointers (RFC 6901) as the provenance map keys them. */
module JsonPointer {

  type Path = seq<string>

  /** Every occurrence of `c` in `s` replaced by `w`. */
  function ReplaceAll(s: string, c: char, w: string): string {
    if s == "" then "" else (if s[0] == c then w else [s[0]]) + ReplaceAll(s[1..], c, w)
  }

  /** A reference token, escaped as section 3 of RFC 6901 says: tilde first, then slash. */
  function EscapeToken(token: string): string {
    ReplaceAll(ReplaceAll(token, '~', "~0"), '/', "~1")
  }

  /** The reader's side: `~1` is a slash and `~0` a tilde. */
  function UnescapeToken(s: string): string {
    if |s| >= 2 && s[0] == '~' && s[1] == '0' then "~" + UnescapeToken(s[2..])
    else if |s| >= 2 && s[0] == '~' && s[1] == '1' then "/" + UnescapeToken(s[2..])
    else if s == "" then ""
    else [s[0]] + UnescapeToken(s[1..])
  }

  function Pointer(p: Path): string {
    if p == [] then "" else "/" + (EscapeToken(p[0]) + Pointer(p[1..]))
  }

  /** The test of the clearing loop: the entry is the prefix or continues it with a slash. */
  predicate AtOrBelow(pointer: string, prefix: string) {
    pointer == prefix || prefix + "/" <= pointer
  }

  lemma {:induction false} EscapeStep(token: string)
    requires token != ""
    ensures EscapeToken(token) ==
            (if token[0] == '~' then "~0" else if token[0] == '/' then "~1" else [token[0]]) + EscapeToken(token[1..])
  {
    var rest := ReplaceAll(token[1..], '~', "~0");
    if token[0] == '~' {
      assert ReplaceAll(token, '~', "~0") == "~0" + rest;
      assert ("~0" + rest)[1..] == "0" + rest && ("0" + rest)[1..] == rest;
      assert ReplaceAll("~0" + rest, '/', "~1") == "~" + ("0" + ReplaceAll(rest, '/', "~1"));
    } else {
      assert ReplaceAll(token, '~', "~0") == [token[0]] + rest;
      assert ([token[0]] + rest)[1..] == rest;
    }
  }

  /** Escaping can be undone, so different tokens never share an escaped form; and it leaves no slash. */
  lemma {:induction false} EscapeRoundTrip(token: string)
    ensures UnescapeToken(EscapeToken(token)) == token
    ensures '/' !in EscapeToken(token)
  {
    if token != "" {
      EscapeRoundTrip(token[1..]);
      EscapeStep(token);
      var rest := EscapeToken(token[1..]);
      if token[0] == '~' {
        assert ("~0" + rest)[2..] == rest;
      } else if token[0] == '/' {
        assert ("~1" + rest)[2..] == rest;
      } else {
        assert ([token[0]] + rest)[1..] == rest;
      }
      assert token == [token[0]] + token[1..];
    }
  }

  lemma {:induction false} PrefixStep(s: string, t: string)
    requires s != "" && t != ""
    ensures s <= t <==> s[0] == t[0] && s[1..] <= t[1..]
  {
    if s[0] == t[0] && s[1..] <= t[1..] {
      assert s == [s[0]] + s[1..] && t == [t[0]] + t[1..];
    }
  }

  /** Two slash-free heads with slash-led tails: one text begins the other only part by part. */
  lemma {:induction false} HeadsAgree(a: string, x: string, b: string, y: string)
    requires '/' !in a && '/' !in b && x != "" && x[0] == '/' && (y == "" || y[0] == '/')
    ensures a + x <= b + y <==> a == b && x <= y
    decreases |a|
  {
    assert a == "" ==> a + x == x;
    assert b == "" ==> b + y == y;
    if b + y != "" {
      PrefixStep(a + x, b + y);
    }
    if a != "" && b != "" {
      assert (a + x)[1..] == a[1..] + x && (b + y)[1..] == b[1..] + y;
      HeadsAgree(a[1..], x, b[1..], y);
      assert a == [a[0]] + a[1..] && b == [b[0]] + b[1..];
    }
  }

  lemma {:induction false} PointerShape(p: Path)
    ensures p != [] ==> Pointer(p) != "" && Pointer(p)[0] == '/'
  {
  }

  /** `q`'s pointer followed by a slash begins `p`'s pointer exactly when `p` is strictly below `q`. */
  lemma {:induction false} BelowExact(p: Path, q: Path)
    ensures Pointer(q) + "/" <= Pointer(p) <==> q < p
    decreases |q|
  {
    PointerShape(p);
    if q == [] {
      assert Pointer(q) + "/" == "/";
    } else if p != [] {
      BelowStep(p, q);
      BelowExact(p[1..], q[1..]);
      assert q < p <==> q[0] == p[0] && q[1..] < p[1..];
    }
  }

  lemma {:induction false} SlashBoth(s: string, t: string)
    ensures "/" + s <= "/" + t <==> s <= t
  {
    PrefixStep("/" + s, "/" + t);
    assert ("/" + s)[1..] == s && ("/" + t)[1..] == t;
  }

  lemma {:induction false} BelowStep(p: Path, q: Path)
    requires p != [] && q != []
    ensures Pointer(q) + "/" <= Pointer(p) <==>
            q[0] == p[0] && Pointer(q[1..]) + "/" <= Pointer(p[1..])
  {
    var a, x, b, y := EscapeToken(q[0]), Pointer(q[1..]) + "/", EscapeToken(p[0]), Pointer(p[1..]);
    TokensAgree(q[0], x, p[0], y) by { PointerShape(p[1..]); PointerShape(q[1..]); }
    assert Pointer(q) + "/" == "/" + (a + x);
    SlashBoth(a + x, b + y);
  }

  lemma {:induction false} TokensAgree(t: string, x: string, u: string, y: string)
    requires x != "" && x[0] == '/' && (y == "" || y[0] == '/')
    ensures EscapeToken(t) + x <= EscapeToken(u) + y <==> t == u && x <= y
  {
    EscapeRoundTrip(t);
    EscapeRoundTrip(u);
    HeadsAgree(EscapeToken(t), x, EscapeToken(u), y);
  }

  lemma {:induction false} PointerInjective(p: Path, q: Path)
    requires Pointer(p) == Pointer(q)
    ensures p == q
  {
    var child := p + [""];
    PointerAppend(p, "");
    BelowExact(child, p);
    BelowExact(child, q);
    var child' := q + [""];
    PointerAppend(q, "");
    BelowExact(child', p);
    assert q < child && p < child';
    assert |p| == |q| && child[..|q|] == q;
  }

  lemma {:induction false} PointerAppend(p: Path, token: string)
    ensures Pointer(p + [token]) == Pointer(p) + "/" + EscapeToken(token)
  {
    if p == [] {
      assert (p + [token])[1..] == [];
    } else {
      assert (p + [token])[1..] == p[1..] + [token];
      PointerAppend(p[1..], token);
    }
  }

  /** The clearing loop's string test means "at or below" on paths (section 4 of RFC 6901). */
  lemma {:induction false} AtOrBelowExact(p: Path, q: Path)
    ensures AtOrBelow(Pointer(p), Pointer(q)) <==> q <= p
  {
    BelowExact(p, q);
    if Pointer(p) == Pointer(q) { PointerInjective(p, q); }
    if q <= p && !(q < p) { assert p == q; }
  }
}
