/** What the lexer reads, character class by character class. */
module LexerLaws {
  import opened Wrappers
  import opened TextFacts
  import opened ExprSyntax
  import opened ExprLexer
  import opened ExprRoundTrip

  // ---- White space ----

  /** White space and line terminators of ECMAScript. */
  const BLANKS := "\t\n\U{0B}\U{0C}\r \U{A0}\U{1680}\U{2000}\U{2001}\U{2002}\U{2003}\U{2004}\U{2005}\U{2006}\U{2007}"
                  + "\U{2008}\U{2009}\U{200A}\U{2028}\U{2029}\U{202F}\U{205F}\U{3000}\U{FEFF}"

  /** These are the characters the lexer skips, and no others. */
  lemma BlanksAreSpace(c: char)
    ensures c in BLANKS <==> IsSpace(c)
  {
  }

  /** Nothing but white space from `i` to `j`. */
  predicate Gap(s: string, i: nat, j: nat) {
    i <= j <= |s| && forall k | i <= k < j :: IsSpace(s[k])
  }

  /** From position `i` the text spells these tokens, with white space after each. */
  ghost predicate Spells(s: string, i: nat, ts: seq<Token>)
    decreases |ts|, 0
  {
    if ts == [] then i == |s|
    else SpelledAt(ts[0], s, i) && SpellsRest(s, i + |Spelling(ts[0])|, ts[1..])
  }

  ghost predicate SpellsRest(s: string, end: nat, ts: seq<Token>)
    decreases |ts|, 1
  {
    exists next :: end <= next && Gap(s, end, next) && Spells(s, next, ts)
  }

  lemma {:induction false} GapSkipped(s: string, i: nat, j: nat)
    requires Gap(s, i, j)
    ensures LexFrom(s, i) == LexFrom(s, j)
    decreases j - i
  {
    if i < j {
      SpaceSkipped(s, i);
      GapSkipped(s, i + 1, j);
    }
  }

  lemma {:induction false} SpaceSkipped(s: string, i: nat)
    requires i < |s| && IsSpace(s[i])
    ensures LexFrom(s, i) == LexFrom(s, i + 1)
  {
  }

  lemma {:induction false} TokenFirst(s: string, i: nat, t: Token, j: nat, rest: seq<Token>)
    requires i < j <= |s| && !IsSpace(s[i]) && TokenAt(s, i) == Some((t, j)) && LexFrom(s, j) == Some(rest)
    ensures LexFrom(s, i) == Some([t] + rest)
  {
  }

  /** Any white space between tokens separates them, however much and of whatever kind. */
  lemma {:induction false} SpelledLexes(s: string, i: nat, ts: seq<Token>)
    requires i <= |s| && Spells(s, i, ts)
    ensures LexFrom(s, i) == Some(ts + [EOF])
    decreases |ts|
  {
    if ts == [] {
      assert ts + [EOF] == [EOF];
    } else {
      var t, rest := ts[0], ts[1..];
      var next := RestStarts(s, i + |Spelling(t)|, rest);
      SpelledLexes(s, next, rest);
      FirstLexes(s, i, next, t, rest + [EOF]);
      assert [ts[0]] + (ts[1..] + [EOF]) == ts + [EOF];
    }
  }

  lemma {:induction false} RestStarts(s: string, end: nat, ts: seq<Token>) returns (next: nat)
    requires SpellsRest(s, end, ts)
    ensures Gap(s, end, next) && Spells(s, next, ts)
  {
    next :| end <= next && Gap(s, end, next) && Spells(s, next, ts);
  }

  lemma {:induction false} FirstLexes(s: string, i: nat, next: nat, t: Token, rest: seq<Token>)
    requires SpelledAt(t, s, i) && Gap(s, i + |Spelling(t)|, next) && LexFrom(s, next) == Some(rest)
    ensures LexFrom(s, i) == Some([t] + rest)
  {
    var end := i + |Spelling(t)|;
    SpellingLexes(t, s, i);
    GapSkipped(s, end, next);
    AtElement(s, i, Spelling(t), 0);
    TokenFirst(s, i, t, end, rest);
  }

  // ---- Strings ----

  lemma {:induction false} OnlyToken(s: string, t: Token)
    requires s != "" && !IsSpace(s[0]) && TokenAt(s, 0) == Some((t, |s|))
    ensures LexFrom(s, 0) == Some([t, EOF])
  {
    assert LexFrom(s, |s|) == Some([EOF]);
    assert [t] + [EOF] == [t, EOF];
  }

  /** A text in single or in double quotes, its quotes and backslashes escaped, is the string of that text. */
  lemma {:induction false} QuotedIsString(text: string, quote: char)
    requires quote == '\'' || quote == '"'
    ensures LexFrom([quote] + Escaped(text, quote) + [quote], 0) == Some([STRING(text), EOF])
  {
    var s := [quote] + Escaped(text, quote) + [quote];
    SuffixAt(s, 0);
    assert s[0..] == s;
    StringLexes(text, quote, s, 0);
    OnlyToken(s, STRING(text));
  }

  /** A backslash stands for the character after it, whichever that is. */
  lemma {:induction false} BackslashIsLiteral(c: char, quote: char)
    requires quote == '\'' || quote == '"'
    ensures LexFrom([quote, '\\', c, quote], 0) == Some([STRING([c]), EOF])
  {
    var s := [quote, '\\', c, quote];
    assert StringRest(s, 3, quote, [c]) == Some(([c], 4));
    assert "" + [c] == [c];
    assert StringRest(s, 1, quote, "") == StringRest(s, 3, quote, [c]);
    OnlyToken(s, STRING([c]));
  }

  /** A string that is not closed is an error. */
  lemma {:induction false} UnclosedIsError(text: string, quote: char)
    requires (quote == '\'' || quote == '"') && quote !in text && '\\' !in text
    ensures LexFrom([quote] + text, 0) == None
  {
    var s := [quote] + text;
    NeverClosed(s, 1, quote, "");
  }

  lemma {:induction false} NeverClosed(s: string, i: nat, quote: char, value: string)
    requires i <= |s| && forall k | i <= k < |s| :: s[k] != quote && s[k] != '\\'
    ensures StringRest(s, i, quote, value) == None
    decreases |s| - i
  {
    if i < |s| { NeverClosed(s, i + 1, quote, value + [s[i]]); }
  }

  // ---- Numbers and words ----

  lemma {:induction false} RunToEnd(p: char -> bool, s: string, i: nat)
    requires i <= |s| && forall k | i <= k < |s| :: p(s[k])
    ensures RunEnd(p, s, i) == |s|
    decreases |s| - i
  {
    if i < |s| { RunToEnd(p, s, i + 1); }
  }

  lemma {:induction false} PrefixOfDigits(digits: string, rest: string)
    requires AllDigits(digits) && (rest != "" ==> !IsDigit(rest[0]))
    ensures DigitPrefix(digits + rest) == |digits|
  {
    var s := digits + rest;
    if digits == "" {
      assert s == rest;
    } else {
      assert digits[0] in digits && s[1..] == digits[1..] + rest;
      PrefixOfDigits(digits[1..], rest);
    }
  }

  lemma {:induction false} DecimalValue(whole: string, fraction: string, ignored: string)
    requires AllDigits(whole) && AllDigits(fraction) && (ignored != "" ==> ignored[0] == '.')
    ensures ParseFloat(whole + ("." + (fraction + ignored)))
            == NumeralValue(whole) as real + NumeralValue(fraction) as real / Power10(|fraction|)
  {
    var tail := "." + (fraction + ignored);
    var s := whole + tail;
    PrefixOfDigits(whole, tail);
    PrefixOfDigits(fraction, ignored);
    assert s[..|whole|] == whole && s[|whole|] == '.' && s[|whole| + 1..] == fraction + ignored;
    assert (fraction + ignored)[..|fraction|] == fraction;
  }

  lemma {:induction false} NumberIsToken(s: string)
    requires s != "" && IsDigit(s[0]) && forall k | 0 <= k < |s| :: '0' <= s[k] <= '9' || s[k] == '.'
    ensures LexFrom(s, 0) == Some([NUMBER(ParseFloat(s)), EOF])
  {
    RunToEnd(IsNumberPart, s, 0);
    WordStartLexes(s, 0);
    assert s[0..|s|] == s;
    OnlyToken(s, NUMBER(ParseFloat(s)));
  }

  /** A decimal literal: the digits before the dot plus the fraction of those after it; a second dot ends it unseen. */
  lemma {:induction false} DecimalIsNumber(whole: string, fraction: string, ignored: string)
    requires whole != "" && AllDigits(whole) && AllDigits(fraction)
    requires ignored != "" ==> ignored[0] == '.'
    requires forall k | 0 <= k < |ignored| :: '0' <= ignored[k] <= '9' || ignored[k] == '.'
    ensures LexFrom(whole + ("." + (fraction + ignored)), 0) ==
            Some([NUMBER(NumeralValue(whole) as real + NumeralValue(fraction) as real / Power10(|fraction|)), EOF])
  {
    var s := whole + ("." + (fraction + ignored));
    assert whole[0] in whole;
    forall k | 0 <= k < |s| ensures '0' <= s[k] <= '9' || s[k] == '.' {
      if k < |whole| {
        assert s[k] in whole;
      } else if |whole| < k <= |whole| + |fraction| {
        assert s[k] == fraction[k - |whole| - 1] && s[k] in fraction;
      } else if k > |whole| {
        assert s[k] == ignored[k - |whole| - 1 - |fraction|];
      }
    }
    DecimalValue(whole, fraction, ignored);
    NumberIsToken(s);
  }

  /** A word of letters, digits, underscores and dots, not starting with a digit or dot, is one token. */
  lemma {:induction false} WordIsToken(word: string)
    requires word != "" && ('a' <= word[0] <= 'z' || 'A' <= word[0] <= 'Z' || word[0] == '_')
    requires forall c | c in word ::
               'a' <= c <= 'z' || 'A' <= c <= 'Z' || '0' <= c <= '9' || c == '_' || c == '.'
    ensures LexFrom(word, 0) == Some([WordToken(word), EOF])
    ensures word !in {"true", "false", "and", "or", "not"} + INHERITED_NAMES ==>
              LexFrom(word, 0) == Some([IDENT(word), EOF])
  {
    forall k | 0 <= k < |word| ensures IsWordPart(word[k]) {
      assert word[k] in word;
    }
    RunToEnd(IsWordPart, word, 0);
    assert word[0..|word|] == word;
    WordStartLexes(word, 0);
    OnlyToken(word, WordToken(word));
  }

  // ---- Operators ----

  /** `>`, `<`, `=` and `!` take a following `=` with them; the last two need it. */
  lemma {:induction false} LongestOperator(s: string, i: nat)
    requires i < |s|
    ensures var equals := i + 1 < |s| && s[i + 1] == '=';
            && (s[i] == '>' ==> TokenAt(s, i) == Some(if equals then (GE, i + 2) else (GT, i + 1)))
            && (s[i] == '<' ==> TokenAt(s, i) == Some(if equals then (LE, i + 2) else (LT, i + 1)))
            && (s[i] == '=' ==> TokenAt(s, i) == if equals then Some((EQ, i + 2)) else None)
            && (s[i] == '!' ==> TokenAt(s, i) == if equals then Some((NE, i + 2)) else None)
  {
  }

  /** A character that starts no token is an error. */
  lemma {:induction false} StrayCharacter(s: string, i: nat)
    requires i < |s| && s[i] !in "|(),<>+-*/=!'\"_" && s[i] !in BLANKS
    requires !('a' <= s[i] <= 'z') && !('A' <= s[i] <= 'Z') && !('0' <= s[i] <= '9')
    ensures TokenAt(s, i) == None && LexFrom(s, i) == None
  {
    BlanksAreSpace(s[i]);
    var special := "|(),<>+-*/=!'\"_";
    assert special[0] == '|' && special[1] == '(' && special[2] == ')' && special[3] == ',' && special[4] == '<';
    assert special[5] == '>' && special[6] == '+' && special[7] == '-' && special[8] == '*' && special[9] == '/';
    assert special[10] == '=' && special[11] == '!' && special[12] == '\'' && special[13] == '"' && special[14] == '_';
  }
}
