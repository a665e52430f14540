/** Glob patterns compiled to regular expressions, and what the expressions accept. */
module Glob {
  import opened Wrappers

  // ---- Regular expressions: syntax read from text, and meaning ----

  datatype Regex =
    | Empty
    | Chr(c: char)
    | Dot              // any character but a line terminator
    | NotSlash         // [^/]
    | Star(body: Regex)
    | Opt(body: Regex)
    | Cat(first: Regex, rest: Regex)

  predicate IsLineTerminator(c: char) {
    c == '\n' || c == '\r' || c == '\U{2028}' || c == '\U{2029}'
  }

  /** The whole of `s` is matched. */
  ghost predicate Matches(r: Regex, s: string)
    decreases r, |s|
  {
    match r
    case Empty => s == ""
    case Chr(c) => s == [c]
    case Dot => |s| == 1 && !IsLineTerminator(s[0])
    case NotSlash => |s| == 1 && s[0] != '/'
    case Star(body) => s == "" || exists k | 0 < k <= |s| :: Matches(body, s[..k]) && Matches(r, s[k..])
    case Opt(body) => s == "" || Matches(body, s)
    case Cat(first, rest) => exists k | 0 <= k <= |s| :: Matches(first, s[..k]) && Matches(rest, s[k..])
  }

  predicate IsMeta(c: char) {
    c in ".*+?^${}()|[]\\"
  }

  /** Reading regular-expression text: a sequence of items, ended by the text or a parenthesis. */
  function ReadSequence(s: string): (r: Option<(Regex, string)>)
    ensures r.Some? ==> |r.value.1| <= |s|
    decreases |s|, 2
  {
    if s == "" || s[0] == ')' then Some((Empty, s))
    else
      var (item, more) :- ReadItem(s);
      var (items, rest) :- ReadSequence(more);
      Some((Cat(item, items), rest))
  }

  /** An atom and the quantifier that may follow it. */
  function ReadItem(s: string): (r: Option<(Regex, string)>)
    requires s != ""
    ensures r.Some? ==> |r.value.1| < |s|
    decreases |s|, 1
  {
    var (atom, rest) :- ReadAtom(s);
    Some(if "*" <= rest then (Star(atom), rest[1..])
         else if "?" <= rest then (Opt(atom), rest[1..])
         else (atom, rest))
  }

  function ReadAtom(s: string): (r: Option<(Regex, string)>)
    requires s != ""
    ensures r.Some? ==> |r.value.1| < |s|
    decreases |s|, 0
  {
    if s[0] == '\\' then if |s| > 1 && IsMeta(s[1]) then Some((Chr(s[1]), s[2..])) else None
    else if s[0] == '.' then Some((Dot, s[1..]))
    else if "[^/]" <= s then Some((NotSlash, s[4..]))
    else if "(?:" <= s then
      var (body, rest) :- ReadSequence(s[3..]);
      if ")" <= rest then Some((body, rest[1..])) else None
    else if IsMeta(s[0]) then None
    else Some((Chr(s[0]), s[1..]))
  }

  /** `new RegExp("^" + regex + "$").test(str)`. */
  ghost predicate Test(regex: string, s: string) {
    var read := ReadSequence(regex);
    read.Some? && read.value.1 == "" && Matches(read.value.0, s)
  }

  // ---- The compiler ----

  function EscapeRegex(c: char): string {
    if IsMeta(c) then ['\\', c] else [c]
  }

  /** The text for the pattern element at the front, and the pattern after it. */
  function Element(pattern: string): (r: (string, string))
    requires pattern != ""
    ensures |r.1| < |pattern|
  {
    if "**/" <= pattern then ("(?:.*/)?", pattern[3..])
    else if "**" <= pattern then (".*", pattern[2..])
    else if pattern[0] == '*' then ("[^/]*", pattern[1..])
    else if pattern[0] == '?' then ("[^/]", pattern[1..])
    else (EscapeRegex(pattern[0]), pattern[1..])
  }

  function Compile(pattern: string): string
    decreases |pattern|
  {
    if pattern == "" then "" else Element(pattern).0 + Compile(Element(pattern).1)
  }

  method CompileGlob(pattern: string) returns (regex: string)
    ensures regex == Compile(pattern)
  {
    regex := "";
    var i := 0;
    while i < |pattern|
      invariant 0 <= i <= |pattern|
      invariant regex + Compile(pattern[i..]) == Compile(pattern)
    {
      ElementAt(pattern, i);
      CompileStep(regex, pattern[i..]);
      if pattern[i] == '*' && i + 1 < |pattern| && pattern[i + 1] == '*' {
        if i + 2 < |pattern| && pattern[i + 2] == '/' {
          regex := regex + "(?:.*/)?";
          i := i + 3;
        } else {
          regex := regex + ".*";
          i := i + 2;
        }
      } else if pattern[i] == '*' {
        regex := regex + "[^/]*";
        i := i + 1;
      } else if pattern[i] == '?' {
        regex := regex + "[^/]";
        i := i + 1;
      } else {
        regex := regex + EscapeRegex(pattern[i]);
        i := i + 1;
      }
    }
    assert pattern[i..] == "";
  }

  /** Looking ahead by index is looking at the front of the remaining pattern. */
  lemma ElementAt(pattern: string, i: nat)
    requires i < |pattern|
    ensures var starred := pattern[i] == '*' && i + 1 < |pattern| && pattern[i + 1] == '*';
            Element(pattern[i..]) ==
            if starred && i + 2 < |pattern| && pattern[i + 2] == '/' then ("(?:.*/)?", pattern[i + 3..])
            else if starred then (".*", pattern[i + 2..])
            else if pattern[i] == '*' then ("[^/]*", pattern[i + 1..])
            else if pattern[i] == '?' then ("[^/]", pattern[i + 1..])
            else (EscapeRegex(pattern[i]), pattern[i + 1..])
  {
    var rest := pattern[i..];
    assert "**" <= rest <==> pattern[i] == '*' && i + 1 < |pattern| && pattern[i + 1] == '*' by {
      if |rest| >= 2 { assert rest[..2] == [pattern[i], pattern[i + 1]]; }
    }
    assert "**/" <= rest <==> "**" <= rest && i + 2 < |pattern| && pattern[i + 2] == '/' by {
      if |rest| >= 3 {
        assert rest[..2] == [pattern[i], pattern[i + 1]];
        assert rest[..3] == [pattern[i], pattern[i + 1], pattern[i + 2]];
      }
    }
  }

  lemma CompileStep(regex: string, rest: string)
    requires rest != ""
    ensures regex + Element(rest).0 + Compile(Element(rest).1) == regex + Compile(rest)
  {
  }

  // ---- Direct meaning of a pattern ----

  predicate OneLine(s: string) {
    forall k | 0 <= k < |s| :: !IsLineTerminator(s[k])
  }

  /** Which strings a pattern stands for, read off the pattern itself. */
  ghost predicate GlobMatch(pattern: string, s: string)
    decreases |pattern|
  {
    if pattern == "" then s == ""
    else if "**/" <= pattern then
      || GlobMatch(pattern[3..], s)
      || exists k | 0 <= k < |s| :: s[k] == '/' && OneLine(s[..k]) && GlobMatch(pattern[3..], s[k + 1..])
    else if "**" <= pattern then
      exists k | 0 <= k <= |s| :: OneLine(s[..k]) && GlobMatch(pattern[2..], s[k..])
    else if pattern[0] == '*' then
      exists k | 0 <= k <= |s| :: '/' !in s[..k] && GlobMatch(pattern[1..], s[k..])
    else if pattern[0] == '?' then
      s != "" && s[0] != '/' && GlobMatch(pattern[1..], s[1..])
    else
      s != "" && s[0] == pattern[0] && GlobMatch(pattern[1..], s[1..])
  }

  // ---- The compiler preserves meaning ----

  const ANY := Star(Dot)
  const SEGMENT := Star(NotSlash)
  const DIRECTORIES := Opt(Cat(ANY, Cat(Chr('/'), Empty)))

  /** The expression the front element of a pattern is read as. */
  function ElementRegex(pattern: string): Regex
    requires pattern != ""
  {
    if "**/" <= pattern then DIRECTORIES
    else if "**" <= pattern then ANY
    else if pattern[0] == '*' then SEGMENT
    else if pattern[0] == '?' then NotSlash
    else Chr(pattern[0])
  }

  function PatternRegex(pattern: string): Regex
    decreases |pattern|
  {
    if pattern == "" then Empty else Cat(ElementRegex(pattern), PatternRegex(Element(pattern).1))
  }

  /** Compiled text never starts with a quantifier or a closing parenthesis. */
  lemma CompiledStart(pattern: string)
    ensures Compile(pattern) != "" ==> Compile(pattern)[0] !in "*?)"
    ensures pattern != "" ==> Compile(pattern) != ""
  {
    if pattern != "" {
      var e := Element(pattern).0;
      assert e != "" && Compile(pattern)[0] == e[0];
    }
  }

  /** A literal character, escaped or not, is read back as itself. */
  lemma ReadLiteral(c: char, rest: string)
    requires c != '*' && c != '?' && (rest != "" ==> rest[0] !in "*?)")
    ensures ReadItem(EscapeRegex(c) + rest) == Some((Chr(c), rest))
  {
    var s := EscapeRegex(c) + rest;
    if IsMeta(c) {
      assert s[0] == '\\' && s[1] == c && s[2..] == rest;
    } else {
      assert s[0] == c && s[1..] == rest;
      assert "[^/]"[0] == '[' && "(?:"[0] == '(';
    }
  }

  lemma ReadStarred(atom: string, body: Regex, rest: string)
    requires atom != "" && ReadAtom(atom + ("*" + rest)) == Some((body, "*" + rest))
    ensures ReadItem(atom + ("*" + rest)) == Some((Star(body), rest))
  {
    assert ("*" + rest)[1..] == rest && "*" <= "*" + rest;
  }

  lemma ReadAny(rest: string)
    ensures ReadItem(".*" + rest) == Some((ANY, rest))
  {
    assert ".*" + rest == "." + ("*" + rest) && ("." + ("*" + rest))[1..] == "*" + rest;
    ReadStarred(".", Dot, rest);
  }

  lemma ReadNotSlash(rest: string)
    ensures ReadAtom("[^/]" + rest) == Some((NotSlash, rest))
  {
    var s := "[^/]" + rest;
    assert "[^/]" <= s && s[4..] == rest;
  }

  lemma ReadSegment(rest: string)
    ensures ReadItem("[^/]*" + rest) == Some((SEGMENT, rest))
  {
    ReadNotSlash("*" + rest);
    ReadStarred("[^/]", NotSlash, rest);
    assert "[^/]*" + rest == "[^/]" + ("*" + rest);
  }

  lemma ReadGroupBody(close: string)
    requires close != "" && close[0] == ')'
    ensures ReadSequence(".*" + ("/" + close)) == Some((Cat(ANY, Cat(Chr('/'), Empty)), close))
  {
    ReadLiteralBeforeParen(close);
    ReadAny("/" + close);
    assert ReadSequence(close) == Some((Empty, close));
  }

  lemma ReadDirectories(rest: string)
    ensures ReadItem("(?:.*/)?" + rest) == Some((DIRECTORIES, rest))
  {
    var close := ")" + ("?" + rest);
    var s := "(?:.*/)?" + rest;
    ReadGroupBody(close);
    assert "[^/]"[0] == '[' && s[0] == '(';
    assert "(?:" <= s && s[3..] == ".*" + ("/" + close);
    assert close[1..] == "?" + rest && ")" <= close;
    assert ReadAtom(s) == Some((Cat(ANY, Cat(Chr('/'), Empty)), "?" + rest));
    assert "*"[0] == '*' && ("?" + rest)[0] == '?' && ("?" + rest)[1..] == rest;
  }

  lemma ReadLiteralBeforeParen(close: string)
    requires close != "" && close[0] == ')'
    ensures ReadItem("/" + close) == Some((Chr('/'), close))
  {
    var s := "/" + close;
    assert s[0] == '/' && s[1..] == close;
    assert "*"[0] == '*' && "?"[0] == '?';
  }

  /** The text of one element is read back as that element. */
  lemma ReadElement(pattern: string, rest: string)
    requires pattern != "" && (rest != "" ==> rest[0] !in "*?)")
    ensures ReadItem(Element(pattern).0 + rest) == Some((ElementRegex(pattern), rest))
  {
    if "**/" <= pattern {
      ReadDirectories(rest);
    } else if "**" <= pattern {
      ReadAny(rest);
    } else if pattern[0] == '*' {
      ReadSegment(rest);
    } else if pattern[0] == '?' {
      ReadNotSlash(rest);
      assert "*"[0] == '*' && "?"[0] == '?';
    } else {
      ReadLiteral(pattern[0], rest);
    }
  }

  /** The compiled text is the text of the pattern's expression: escaping leaves nothing to misread. */
  lemma {:induction false} CompiledReads(pattern: string)
    ensures ReadSequence(Compile(pattern)) == Some((PatternRegex(pattern), ""))
    decreases |pattern|
  {
    if pattern != "" {
      var rest := Element(pattern).1;
      CompiledReads(rest);
      CompiledStart(rest);
      CompiledStart(pattern);
      ReadElement(pattern, Compile(rest));
    }
  }

  lemma {:induction false} AnyMatches(s: string)
    ensures Matches(ANY, s) <==> OneLine(s)
    decreases |s|
  {
    if OneLine(s) && s != "" {
      AnyMatches(s[1..]);
      assert Matches(Dot, s[..1]) && Matches(ANY, s[1..]);
    }
    if Matches(ANY, s) && s != "" {
      var k :| 0 < k <= |s| && Matches(Dot, s[..k]) && Matches(ANY, s[k..]);
      AnyMatches(s[k..]);
      assert k == 1 && s[0] == s[..k][0];
      forall i | 0 <= i < |s| ensures !IsLineTerminator(s[i]) { if i > 0 { assert s[i] == s[k..][i - 1]; } }
    }
  }

  lemma {:induction false} SegmentMatches(s: string)
    ensures Matches(SEGMENT, s) <==> '/' !in s
    decreases |s|
  {
    if '/' !in s && s != "" {
      SegmentMatches(s[1..]);
      assert Matches(NotSlash, s[..1]) && Matches(SEGMENT, s[1..]);
    }
    if Matches(SEGMENT, s) && s != "" {
      var k :| 0 < k <= |s| && Matches(NotSlash, s[..k]) && Matches(SEGMENT, s[k..]);
      SegmentMatches(s[k..]);
      assert k == 1 && s[0] == s[..k][0] && s == [s[0]] + s[1..];
    }
  }

  /** `(?:.*` + `/)?` accepts the empty string and whatever ends in its last slash. */
  lemma {:induction false} DirectoriesMatch(s: string)
    ensures Matches(DIRECTORIES, s) <==> s == "" || (s[|s| - 1] == '/' && OneLine(s[..|s| - 1]))
  {
    var tail := Cat(Chr('/'), Empty);
    forall t: string ensures Matches(tail, t) <==> t == "/" {
      if Matches(tail, t) {
        var k :| 0 <= k <= |t| && Matches(Chr('/'), t[..k]) && Matches(Empty, t[k..]);
        assert t == t[..k] + t[k..];
      }
      if t == "/" { assert t[..1] == "/" && t[1..] == ""; }
    }
    if s != "" {
      var n := |s| - 1;
      if s[n] == '/' && OneLine(s[..n]) {
        AnyMatches(s[..n]);
        assert s[n..] == "/";
        assert Matches(Cat(ANY, tail), s);
      }
      if Matches(Cat(ANY, tail), s) {
        var k :| 0 <= k <= |s| && Matches(ANY, s[..k]) && Matches(tail, s[k..]);
        AnyMatches(s[..k]);
        assert k == n && s[k] == s[k..][0];
      }
    }
  }

  /** The compiled expression accepts exactly what the pattern stands for. */
  lemma {:induction false} PatternMeaning(pattern: string, s: string)
    ensures Matches(PatternRegex(pattern), s) <==> GlobMatch(pattern, s)
    decreases |pattern|
  {
    if pattern != "" {
      var first, rest := ElementRegex(pattern), Element(pattern).1;
      forall k | 0 <= k <= |s|
        ensures Matches(PatternRegex(rest), s[k..]) <==> GlobMatch(rest, s[k..])
      {
        PatternMeaning(rest, s[k..]);
      }
      assert Matches(PatternRegex(pattern), s) <==>
             exists k | 0 <= k <= |s| :: Matches(first, s[..k]) && GlobMatch(rest, s[k..]);
      if "**/" <= pattern {
        DirectoriesElement(rest, s);
      } else if "**" <= pattern {
        forall k | 0 <= k <= |s| { AnyMatches(s[..k]); }
      } else if pattern[0] == '*' {
        forall k | 0 <= k <= |s| { SegmentMatches(s[..k]); }
      } else {
        OneCharElement(first, rest, s);
      }
    }
  }

  lemma {:induction false} DirectoriesElement(rest: string, s: string)
    ensures (exists k | 0 <= k <= |s| :: Matches(DIRECTORIES, s[..k]) && GlobMatch(rest, s[k..])) <==>
            || GlobMatch(rest, s)
            || exists k | 0 <= k < |s| :: s[k] == '/' && OneLine(s[..k]) && GlobMatch(rest, s[k + 1..])
  {
    if k :| 0 <= k <= |s| && Matches(DIRECTORIES, s[..k]) && GlobMatch(rest, s[k..]) {
      DirectoriesMatch(s[..k]);
      if k == 0 {
        assert s[k..] == s;
      } else {
        assert s[..k][..k - 1] == s[..k - 1] && s[k - 1] == s[..k][k - 1] && s[k - 1 + 1..] == s[k..];
      }
    }
    if GlobMatch(rest, s) {
      DirectoriesMatch("");
      assert s[..0] == "" && s[0..] == s;
    }
    if k :| 0 <= k < |s| && s[k] == '/' && OneLine(s[..k]) && GlobMatch(rest, s[k + 1..]) {
      DirectoriesMatch(s[..k + 1]);
      assert s[..k + 1][..k] == s[..k] && s[..k + 1][k] == s[k];
      assert Matches(DIRECTORIES, s[..k + 1]);
    }
  }

  lemma {:induction false} OneCharElement(first: Regex, rest: string, s: string)
    requires first.NotSlash? || first.Chr?
    ensures (exists k | 0 <= k <= |s| :: Matches(first, s[..k]) && GlobMatch(rest, s[k..])) <==>
            s != "" && (if first.Chr? then s[0] == first.c else s[0] != '/') && GlobMatch(rest, s[1..])
  {
    if s != "" {
      assert s[..1] == [s[0]];
    }
    if k :| 0 <= k <= |s| && Matches(first, s[..k]) && GlobMatch(rest, s[k..]) {
      assert k == 1;
    }
  }

  /** `matchGlob` decides the direct meaning, for every pattern and every string. */
  lemma {:induction false} MatchGlobExact(pattern: string, s: string)
    ensures Test(Compile(pattern), s) <==> GlobMatch(pattern, s)
  {
    CompiledReads(pattern);
    PatternMeaning(pattern, s);
  }

  /** The documented meaning: a double star crosses anything at all. */
  ghost predicate PathMatch(pattern: string, s: string)
    decreases |pattern|
  {
    if pattern == "" then s == ""
    else if "**/" <= pattern then
      PathMatch(pattern[3..], s) || exists k | 0 <= k < |s| :: s[k] == '/' && PathMatch(pattern[3..], s[k + 1..])
    else if "**" <= pattern then exists k | 0 <= k <= |s| :: PathMatch(pattern[2..], s[k..])
    else if pattern[0] == '*' then exists k | 0 <= k <= |s| :: '/' !in s[..k] && PathMatch(pattern[1..], s[k..])
    else if pattern[0] == '?' then s != "" && s[0] != '/' && PathMatch(pattern[1..], s[1..])
    else s != "" && s[0] == pattern[0] && PathMatch(pattern[1..], s[1..])
  }

  lemma {:induction false} OneLineMeaning(pattern: string, s: string)
    requires OneLine(s)
    ensures GlobMatch(pattern, s) <==> PathMatch(pattern, s)
    decreases |pattern|
  {
    if pattern != "" {
      forall k | 0 <= k <= |s|
        ensures GlobMatch(Element(pattern).1, s[k..]) <==> PathMatch(Element(pattern).1, s[k..])
      {
        OneLineMeaning(Element(pattern).1, s[k..]);
      }
      assert s[0..] == s;
    }
  }

  /** On every path without a line terminator the compiled glob has its documented meaning. */
  lemma {:induction false} MatchGlobOnPaths(pattern: string, path: string)
    requires OneLine(path)
    ensures Test(Compile(pattern), path) <==> PathMatch(pattern, path)
  {
    MatchGlobExact(pattern, path);
    OneLineMeaning(pattern, path);
  }

  /** And only on those: a string with a line terminator is one `**` stands for and does not accept. */
  lemma {:induction false} DocumentedExactly(s: string)
    ensures (forall pattern :: Test(Compile(pattern), s) <==> PathMatch(pattern, s)) <==> OneLine(s)
  {
    if OneLine(s) {
      forall pattern ensures Test(Compile(pattern), s) <==> PathMatch(pattern, s) {
        MatchGlobOnPaths(pattern, s);
      }
    } else {
      var pattern := "**";
      MatchGlobExact(pattern, s);
      assert pattern[2..] == "" && "**" <= pattern;
      assert PathMatch("", s[|s|..]);
      assert PathMatch(pattern, s);
      forall k | 0 <= k <= |s| && GlobMatch(pattern[2..], s[k..]) ensures s[..k] == s {
        assert k == |s|;
      }
      assert !GlobMatch(pattern, s);
    }
  }
}
