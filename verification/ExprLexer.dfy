/** The lexer: its specification and its scanning loop. */
module ExprLexer {
  import opened Wrappers
  import opened TextFacts
  import opened ExprSyntax
  import opened ExprParser

  predicate IsSpace(c: char) {
    || '\t' <= c <= '\r' || c == ' ' || c == '\U{00A0}' || c == '\U{1680}' || '\U{2000}' <= c <= '\U{200A}'
    || c == '\U{2028}' || c == '\U{2029}' || c == '\U{202F}' || c == '\U{205F}' || c == '\U{3000}' || c == '\U{FEFF}'
  }

  predicate IsNumberPart(c: char) { IsDigit(c) || c == '.' }

  predicate IsWordStart(c: char) { 'a' <= c <= 'z' || 'A' <= c <= 'Z' || c == '_' }

  predicate IsWordPart(c: char) { IsWordStart(c) || IsDigit(c) || c == '.' }

  /** Names found on every object through its prototype. */
  const INHERITED_NAMES := {
    "constructor", "toString", "toLocaleString", "valueOf", "hasOwnProperty", "isPrototypeOf",
    "propertyIsEnumerable", "__proto__", "__defineGetter__", "__defineSetter__", "__lookupGetter__", "__lookupSetter__"
  }

  /** The token of a scanned word: the keyword table first, an identifier otherwise. */
  function WordToken(word: string): Token {
    if word == "true" then BOOL(true)
    else if word == "false" then BOOL(false)
    else if word == "and" then AND
    else if word == "or" then OR
    else if word == "not" then NOT
    else if word in INHERITED_NAMES then INHERITED(word)
    else IDENT(word)
  }

  /** The number of leading digits of `s`. */
  function DigitPrefix(s: string): (n: nat)
    ensures n <= |s| && AllDigits(s[..n]) && (n < |s| ==> !IsDigit(s[n]))
  {
    if s == "" || !IsDigit(s[0]) then 0
    else
      assert s[..1 + DigitPrefix(s[1..])] == [s[0]] + s[1..][..DigitPrefix(s[1..])];
      1 + DigitPrefix(s[1..])
  }

  function Power10(n: nat): (p: real)
    ensures p > 0.0
  {
    if n == 0 then 1.0 else 10.0 * Power10(n - 1)
  }

  /** `parseFloat` on digits and dots: the longest decimal prefix, the rest ignored. */
  function ParseFloat(s: string): real {
    var n := DigitPrefix(s);
    var whole := NumeralValue(s[..n]) as real;
    if n < |s| && s[n] == '.' then
      var rest := s[n + 1..];
      var m := DigitPrefix(rest);
      whole + NumeralValue(rest[..m]) as real / Power10(m)
    else whole
  }

  /** The end of the run of characters satisfying `p` from position `i`. */
  function RunEnd(p: char -> bool, s: string, i: nat): (j: nat)
    requires i <= |s|
    ensures i <= j <= |s| && (forall k | i <= k < j :: p(s[k])) && (j < |s| ==> !p(s[j]))
    decreases |s| - i
  {
    if i < |s| && p(s[i]) then RunEnd(p, s, i + 1) else i
  }

  /** The rest of a string literal after `value`: a backslash takes the next character as it is. */
  function StringRest(s: string, i: nat, quote: char, value: string): (r: Option<(string, nat)>)
    requires i <= |s|
    ensures r.Some? ==> i < r.value.1 <= |s|
    decreases |s| - i
  {
    if i == |s| then None
    else if s[i] == quote then Some((value, i + 1))
    else if s[i] == '\\' && i + 1 < |s| then StringRest(s, i + 2, quote, value + [s[i + 1]])
    else StringRest(s, i + 1, quote, value + [s[i]])
  }

  /** The operator or punctuation token that starts with `c`, when the two-character ones do not apply. */
  function Punctuation(c: char): Option<Token> {
    match c
    case '|' => Some(PIPE)
    case '(' => Some(LPAREN)
    case ')' => Some(RPAREN)
    case ',' => Some(COMMA)
    case '>' => Some(GT)
    case '<' => Some(LT)
    case '+' => Some(PLUS)
    case '-' => Some(MINUS)
    case '*' => Some(STAR)
    case '/' => Some(SLASH)
    case _ => None
  }

  /** The two-character operators, all of which end in `=`. */
  function TwoCharacter(s: string, i: nat): Option<Token>
    requires i < |s|
  {
    if i + 1 < |s| && s[i + 1] == '=' then
      match s[i]
      case '>' => Some(GE)
      case '<' => Some(LE)
      case '=' => Some(EQ)
      case '!' => Some(NE)
      case _ => None
    else None
  }

  /** The token at a non-space position and where it ends, or a syntax error. */
  function TokenAt(s: string, i: nat): (r: Option<(Token, nat)>)
    requires i < |s|
    ensures r.Some? ==> i < r.value.1 <= |s|
  {
    var c := s[i];
    if TwoCharacter(s, i).Some? then Some((TwoCharacter(s, i).value, i + 2))
    else if Punctuation(c).Some? then Some((Punctuation(c).value, i + 1))
    else if c == '\'' || c == '"' then
      var (value, end) :- StringRest(s, i + 1, c, "");
      Some((STRING(value), end))
    else if IsDigit(c) then
      var j := RunEnd(IsNumberPart, s, i);
      Some((NUMBER(ParseFloat(s[i..j])), j))
    else if IsWordStart(c) then
      var j := RunEnd(IsWordPart, s, i);
      Some((WordToken(s[i..j]), j))
    else None
  }

  /** All tokens from position `i` on, EOF included. */
  function LexFrom(s: string, i: nat): (r: Option<seq<Token>>)
    requires i <= |s|
    ensures r.Some? ==> Terminated(r.value)
    decreases |s| - i
  {
    if i == |s| then Some([EOF])
    else if IsSpace(s[i]) then LexFrom(s, i + 1)
    else
      var (t, j) :- TokenAt(s, i);
      var rest :- LexFrom(s, j);
      Some([t] + rest)
  }

  /** Parsing an expression string: lex, then parse all tokens. */
  ghost function ParseExpression(s: string): Option<Expr> {
    var ts :- LexFrom(s, 0);
    ParseAll(ts)
  }

  method ReadToken(input: string, pos: nat) returns (r: Option<(Token, nat)>)
    requires pos < |input|
    ensures r == TokenAt(input, pos)
  {
    var ch := input[pos];
    if TwoCharacter(input, pos).Some? {
      return Some((TwoCharacter(input, pos).value, pos + 2));
    }
    if Punctuation(ch).Some? {
      return Some((Punctuation(ch).value, pos + 1));
    }
    if ch == '\'' || ch == '"' {
      var literal := ScanString(input, pos + 1, ch);
      return if literal.Some? then Some((STRING(literal.value.0), literal.value.1)) else None;
    }
    if IsDigit(ch) {
      var lexeme, end := ScanRun(IsNumberPart, input, pos);
      return Some((NUMBER(ParseFloat(lexeme)), end));
    }
    if IsWordStart(ch) {
      var word, end := ScanRun(IsWordPart, input, pos);
      return Some((WordToken(word), end));
    }
    return None;
  }

  function After(tokens: seq<Token>, rest: Option<seq<Token>>): Option<seq<Token>> {
    if rest.Some? then Some(tokens + rest.value) else None
  }

  lemma AfterNothing(rest: Option<seq<Token>>)
    ensures After([], rest) == rest
  {
    if rest.Some? {
      assert [] + rest.value == rest.value;
    }
  }

  lemma AfterOne(tokens: seq<Token>, token: Token, rest: Option<seq<Token>>)
    ensures After(tokens, After([token], rest)) == After(tokens + [token], rest)
  {
    if rest.Some? {
      assert tokens + ([token] + rest.value) == tokens + [token] + rest.value;
    }
  }

  method Tokenize(input: string) returns (r: Option<seq<Token>>)
    ensures r == LexFrom(input, 0)
    ensures r.Some? ==> Terminated(r.value)
  {
    var tokens: seq<Token> := [];
    var pos := 0;
    AfterNothing(LexFrom(input, 0));
    while pos < |input|
      invariant 0 <= pos <= |input|
      invariant LexFrom(input, 0) == After(tokens, LexFrom(input, pos))
      decreases |input| - pos
    {
      if IsSpace(input[pos]) {
        pos := pos + 1;
        continue;
      }
      var read := ReadToken(input, pos);
      if read.None? {
        return None;
      }
      var (token, end) := read.value;
      assert LexFrom(input, pos) == After([token], LexFrom(input, end));
      AfterOne(tokens, token, LexFrom(input, end));
      tokens := tokens + [token];
      pos := end;
    }
    tokens := tokens + [EOF];
    return Some(tokens);
  }

  method ScanString(input: string, start: nat, quote: char) returns (r: Option<(string, nat)>)
    requires start <= |input|
    ensures r == StringRest(input, start, quote, "")
  {
    var value := "";
    var pos := start;
    while pos < |input| && input[pos] != quote
      invariant start <= pos <= |input|
      invariant StringRest(input, pos, quote, value) == StringRest(input, start, quote, "")
      decreases |input| - pos
    {
      if input[pos] == '\\' && pos + 1 < |input| {
        pos := pos + 1;
        value := value + [input[pos]];
      } else {
        value := value + [input[pos]];
      }
      pos := pos + 1;
    }
    if pos >= |input| {
      return None;
    }
    return Some((value, pos + 1));
  }

  method ScanRun(part: char -> bool, input: string, start: nat) returns (run: string, end: nat)
    requires start <= |input|
    ensures end == RunEnd(part, input, start) && run == input[start..end]
  {
    run, end := "", start;
    while end < |input| && part(input[end])
      invariant start <= end <= |input|
      invariant run == input[start..end]
      invariant RunEnd(part, input, end) == RunEnd(part, input, start)
      decreases |input| - end
    {
      run := run + [input[end]];
      end := end + 1;
    }
  }
}
