/** Printing an expression and reading it back. */
module ExprRoundTrip {
  import opened Wrappers
  import opened TextFacts
  import opened ExprSyntax
  import opened ExprGrammar
  import opened ExprLexer

  // ---- Which trees have a text ----

  /** A word the lexer returns as an identifier. */
  predicate IsName(word: string) {
    && word != "" && IsWordStart(word[0])
    && (forall k | 0 <= k < |word| :: IsWordPart(word[k]))
    && WordToken(word) == IDENT(word)
  }

  predicate IsNumberLexeme(s: string) {
    s != "" && IsDigit(s[0]) && forall k | 0 <= k < |s| :: IsNumberPart(s[k])
  }

  /** A number some numeral of the expression language denotes. */
  ghost predicate IsNumber(v: real) {
    exists s: string :: IsNumberLexeme(s) && ParseFloat(s) == v
  }

  /** A token that some text lexes to. */
  ghost predicate Spellable(t: Token) {
    match t
    case IDENT(name) => IsName(name)
    case NUMBER(v) => IsNumber(v)
    case INHERITED(_) | EOF => false
    case _ => true
  }

  ghost predicate AllSpellable(ts: seq<Token>) {
    forall k | 0 <= k < |ts| :: Spellable(ts[k])
  }

  /** The trees the language can write. */
  ghost predicate Printable(e: Expr) {
    match e
    case Literal(value) => value.Num? ==> IsNumber(value.num)
    case Variable(name) => IsName(name)
    case Call(name, args) => IsName(name) && args != [] && AllPrintable(args)
    case Pipe(input, func, args) => Printable(input) && IsName(func) && AllPrintable(args)
    case Unary(_, operand) => Printable(operand)
    case Binary(_, left, right) => Printable(left) && Printable(right)
  }

  ghost predicate AllPrintable(args: seq<Expr>) {
    forall k | 0 <= k < |args| :: Printable(args[k])
  }

  // ---- The printer: every compound tree in parentheses, a space after every token ----

  function OperatorToken(op: BinaryOp): Token {
    match op
    case Or => OR
    case And => AND
    case Gt => GT
    case Ge => GE
    case Lt => LT
    case Le => LE
    case Eq => EQ
    case Ne => NE
    case Add => PLUS
    case Sub => MINUS
    case Mul => STAR
    case Div => SLASH
  }

  function ConstantToken(c: Constant): Token {
    match c
    case Flag(b) => BOOL(b)
    case Num(v) => NUMBER(v)
    case Text(s) => STRING(s)
  }

  function Tokens(e: Expr): (ts: seq<Token>)
    ensures ts != []
    decreases e, 3
  {
    match e
    case Literal(value) => [ConstantToken(value)]
    case Variable(name) => [IDENT(name)]
    case Call(name, args) => [IDENT(name)] + ArgTokens(args)
    case Pipe(input, func, args) =>
      [LPAREN] + Tokens(input) + [PIPE, IDENT(func)] + OptionalArgTokens(args) + [RPAREN]
    case Unary(op, operand) => [LPAREN, if op.Not? then NOT else MINUS] + Tokens(operand) + [RPAREN]
    case Binary(op, left, right) => [LPAREN] + Tokens(left) + [OperatorToken(op)] + Tokens(right) + [RPAREN]
  }

  function OptionalArgTokens(args: seq<Expr>): seq<Token>
    decreases args, 2
  {
    if args == [] then [] else ArgTokens(args)
  }

  function ArgTokens(args: seq<Expr>): seq<Token>
    decreases args, 1
  {
    [LPAREN] + ListTokens(args) + [RPAREN]
  }

  function ListTokens(args: seq<Expr>): (ts: seq<Token>)
    ensures args != [] ==> ts != []
    decreases args, 0
  {
    if args == [] then []
    else
      var last := Tokens(args[|args| - 1]);
      if |args| == 1 then last else ListTokens(args[..|args| - 1]) + [COMMA] + last
  }

  /** String content between two `quote`s. */
  function Escaped(s: string, quote: char): string {
    if s == "" then ""
    else (if s[0] == quote || s[0] == '\\' then ['\\', s[0]] else [s[0]]) + Escaped(s[1..], quote)
  }

  ghost function Spelling(t: Token): string
    requires Spellable(t)
  {
    match t
    case BOOL(b) => if b then "true" else "false"
    case NUMBER(v) => var s: string :| IsNumberLexeme(s) && ParseFloat(s) == v; s
    case STRING(s) => "'" + Escaped(s, '\'') + "'"
    case IDENT(name) => name
    case PIPE => "|"
    case LPAREN => "("
    case RPAREN => ")"
    case COMMA => ","
    case AND => "and"
    case OR => "or"
    case NOT => "not"
    case GT => ">"
    case GE => ">="
    case LT => "<"
    case LE => "<="
    case EQ => "=="
    case NE => "!="
    case PLUS => "+"
    case MINUS => "-"
    case STAR => "*"
    case SLASH => "/"
  }

  ghost function Spell(ts: seq<Token>): string
    requires AllSpellable(ts)
  {
    if ts == [] then "" else Spelling(ts[0]) + " " + Spell(ts[1..])
  }

  ghost function Print(e: Expr): string
    requires Printable(e)
  {
    TokensSpellable(e);
    Spell(Tokens(e))
  }

  lemma SpellableConcat(a: seq<Token>, b: seq<Token>)
    requires AllSpellable(a) && AllSpellable(b)
    ensures AllSpellable(a + b)
  {
  }

  lemma {:induction false} TokensSpellable(e: Expr)
    requires Printable(e)
    ensures AllSpellable(Tokens(e))
    decreases e, 1
  {
    match e
    case Literal(_) =>
    case Variable(_) =>
    case Call(name, args) =>
      ListSpellable(args);
      SpellableConcat([LPAREN] + ListTokens(args), [RPAREN]);
      SpellableConcat([IDENT(name)], ArgTokens(args));
    case Pipe(input, func, args) =>
      TokensSpellable(input);
      ListSpellable(args);
      SpellableConcat([LPAREN], Tokens(input));
      SpellableConcat([LPAREN] + Tokens(input), [PIPE, IDENT(func)]);
      SpellableConcat([LPAREN] + ListTokens(args), [RPAREN]);
      assert AllSpellable(OptionalArgTokens(args));
      SpellableConcat([LPAREN] + Tokens(input) + [PIPE, IDENT(func)], OptionalArgTokens(args));
    case Unary(_, operand) => TokensSpellable(operand);
    case Binary(op, left, right) =>
      TokensSpellable(left);
      TokensSpellable(right);
      SpellableConcat([LPAREN] + Tokens(left), [OperatorToken(op)]);
      SpellableConcat([LPAREN] + Tokens(left) + [OperatorToken(op)], Tokens(right));
  }

  lemma {:induction false} ListSpellable(args: seq<Expr>)
    requires AllPrintable(args)
    ensures AllSpellable(ListTokens(args))
    decreases args, 0
  {
    if args != [] {
      var front, last := args[..|args| - 1], args[|args| - 1];
      TokensSpellable(last);
      ListSpellable(front);
      SpellableConcat(ListTokens(front) + [COMMA], Tokens(last));
    }
  }

  // ---- Reading back: tokens to tree ----

  lemma {:induction false} Loosen(lv: Level, ts: seq<Token>, i: nat, j: nat, e: Expr)
    requires i <= j <= |ts| && Derives(Primary, ts, i, j, e)
    ensures Derives(lv, ts, i, j, e)
    decreases Rank(lv)
  {
    if !lv.Primary? { Loosen(Tighter(lv), ts, i, j, e); }
  }

  function LevelOf(op: BinaryOp): (lv: Level)
    ensures (IsChain(lv) || lv.Comparison?) && OperatorAt(lv, OperatorToken(op)) == Some(op)
  {
    match op
    case Or => OrExpr
    case And => AndExpr
    case Gt | Ge | Lt | Le | Eq | Ne => Comparison
    case Add | Sub => Additive
    case Mul | Div => Multiplicative
  }

  /** Lifts a derivation from an inner nonterminal to a whole expression. */
  lemma {:induction false} Raise(lv: Level, ts: seq<Token>, i: nat, j: nat, e: Expr)
    requires i <= j <= |ts| && Derives(lv, ts, i, j, e)
    ensures Derives(OrExpr, ts, i, j, e)
    decreases 9 - Rank(lv)
  {
    match lv
    case OrExpr =>
    case AndExpr => Raise(OrExpr, ts, i, j, e);
    case NotExpr => Raise(AndExpr, ts, i, j, e);
    case Comparison => Raise(NotExpr, ts, i, j, e);
    case Additive => Raise(Comparison, ts, i, j, e);
    case Multiplicative => Raise(Additive, ts, i, j, e);
    case UnaryExpr => Raise(Multiplicative, ts, i, j, e);
    case PipeExpr => Raise(UnaryExpr, ts, i, j, e);
    case Primary => Raise(PipeExpr, ts, i, j, e);
  }

  /** The printed tokens of `e`, wherever they stand, derive `e` as a primary. */
  lemma {:induction false} PrintedDerives(e: Expr, ts: seq<Token>, i: nat)
    requires Printable(e) && At(ts, i, Tokens(e))
    ensures Derives(Primary, ts, i, i + |Tokens(e)|, e)
    decreases e, 1
  {
    match e
    case Literal(value) =>
      assert ts[i] == ConstantToken(value);
    case Variable(name) =>
      assert ts[i] == IDENT(name);
    case Call(name, args) =>
      AtSplit(ts, i, [IDENT(name)], ArgTokens(args));
      assert ts[i] == IDENT(name);
      PrintedArgs(args, ts, i + 1);
    case Pipe(_, _, _) => PrintedPipe(e, ts, i);
    case Unary(_, _) => PrintedUnary(e, ts, i);
    case Binary(_, _, _) => PrintedBinary(e, ts, i);
  }

  /** Parentheses around something derivable from an inner nonterminal make a primary. */
  lemma {:induction false} Parenthesized(lv: Level, ts: seq<Token>, i: nat, j: nat, e: Expr)
    requires i + 1 < j <= |ts| && ts[i] == LPAREN && ts[j - 1] == RPAREN
    requires Derives(lv, ts, i + 1, j - 1, e)
    ensures Derives(Primary, ts, i, j, e)
  {
    Raise(lv, ts, i + 1, j - 1, e);
  }

  lemma {:induction false} PrintedUnary(e: Expr, ts: seq<Token>, i: nat)
    requires Printable(e) && e.Unary? && At(ts, i, Tokens(e))
    ensures Derives(Primary, ts, i, i + |Tokens(e)|, e)
    decreases e, 0
  {
    var j := UnaryTokensAt(e, ts, i);
    PrintedDerives(e.operand, ts, i + 2);
    UnaryPrimary(ts, i, j, e);
  }

  lemma {:induction false} UnaryTokensAt(e: Expr, ts: seq<Token>, i: nat) returns (j: nat)
    requires e.Unary? && At(ts, i, Tokens(e))
    ensures j == i + 2 + |Tokens(e.operand)| && |Tokens(e)| == j + 1 - i
    ensures j < |ts| && ts[i] == LPAREN && ts[i + 1] == (if e.op.Not? then NOT else MINUS) && ts[j] == RPAREN
    ensures At(ts, i + 2, Tokens(e.operand))
  {
    var head, body := [LPAREN, if e.op.Not? then NOT else MINUS], Tokens(e.operand);
    AtSplit(ts, i, head + body, [RPAREN]);
    AtSplit(ts, i, head, body);
    assert ts[i] == head[0] && ts[i + 1] == head[1];
    j := i + 2 + |body|;
  }

  lemma {:induction false} UnaryPrimary(ts: seq<Token>, i: nat, j: nat, e: Expr)
    requires i + 2 <= j < |ts| && e.Unary?
    requires ts[i] == LPAREN && ts[i + 1] == (if e.op.Not? then NOT else MINUS) && ts[j] == RPAREN
    requires Derives(Primary, ts, i + 2, j, e.operand)
    ensures Derives(Primary, ts, i, j + 1, e)
  {
    var lv := if e.op.Not? then NotExpr else UnaryExpr;
    Loosen(lv, ts, i + 2, j, e.operand);
    Parenthesized(lv, ts, i, j + 1, e);
  }

  lemma {:induction false} PrintedBinary(e: Expr, ts: seq<Token>, i: nat)
    requires Printable(e) && e.Binary? && At(ts, i, Tokens(e))
    ensures Derives(Primary, ts, i, i + |Tokens(e)|, e)
    decreases e, 0
  {
    BinaryTokensAt(e, ts, i);
    var k := i + 1 + |Tokens(e.left)|;
    PrintedDerives(e.left, ts, i + 1);
    PrintedDerives(e.right, ts, k + 1);
    BinaryPrimary(ts, i, k, k + 1 + |Tokens(e.right)|, e);
  }

  /** `( l op r )`, token by token. */
  lemma ParenthesizedParts(ts: seq<Token>, i: nat, l: seq<Token>, op: seq<Token>, r: seq<Token>)
    requires At(ts, i, [LPAREN] + l + op + r + [RPAREN])
    ensures var j := i + 1 + |l| + |op| + |r|; j < |ts| && ts[i] == LPAREN && ts[j] == RPAREN
    ensures At(ts, i + 1, l) && At(ts, i + 1 + |l|, op) && At(ts, i + 1 + |l| + |op|, r)
  {
    AtParts(ts, i, [LPAREN], l, op, r, [RPAREN]);
  }

  lemma {:induction false} BinaryTokensAt(e: Expr, ts: seq<Token>, i: nat)
    requires e.Binary? && At(ts, i, Tokens(e))
    ensures var k := i + 1 + |Tokens(e.left)|;
            var j := k + 1 + |Tokens(e.right)|;
            && |Tokens(e)| == j + 1 - i
            && j < |ts| && ts[i] == LPAREN && ts[k] == OperatorToken(e.bop) && ts[j] == RPAREN
            && At(ts, i + 1, Tokens(e.left)) && At(ts, k + 1, Tokens(e.right))
  {
    var op := [OperatorToken(e.bop)];
    assert Tokens(e) == [LPAREN] + Tokens(e.left) + op + Tokens(e.right) + [RPAREN];
    ParenthesizedParts(ts, i, Tokens(e.left), op, Tokens(e.right));
    assert ts[i + 1 + |Tokens(e.left)|] == op[0];
  }

  lemma {:induction false} BinaryPrimary(ts: seq<Token>, i: nat, k: nat, j: nat, e: Expr)
    requires i < k < j < |ts| && e.Binary?
    requires ts[i] == LPAREN && ts[k] == OperatorToken(e.bop) && ts[j] == RPAREN
    requires Derives(Primary, ts, i + 1, k, e.left) && Derives(Primary, ts, k + 1, j, e.right)
    ensures Derives(Primary, ts, i, j + 1, e)
  {
    var lv := LevelOf(e.bop);
    Loosen(if IsChain(lv) then lv else Tighter(lv), ts, i + 1, k, e.left);
    Loosen(Tighter(lv), ts, k + 1, j, e.right);
    assert Derives(lv, ts, i + 1, j, e);
    Parenthesized(lv, ts, i, j + 1, e);
  }

  lemma {:induction false} PrintedPipe(e: Expr, ts: seq<Token>, i: nat)
    requires Printable(e) && e.Pipe? && At(ts, i, Tokens(e))
    ensures Derives(Primary, ts, i, i + |Tokens(e)|, e)
    decreases e, 0
  {
    var k, j := PipeTokensAt(e, ts, i);
    PrintedDerives(e.input, ts, i + 1);
    PrintedOptionalArgs(e.args, ts, k + 2);
    PipePrimary(ts, i, k, j, e);
  }

  lemma {:induction false} PrintedOptionalArgs(args: seq<Expr>, ts: seq<Token>, i: nat)
    requires AllPrintable(args) && At(ts, i, OptionalArgTokens(args)) && i < |ts|
    ensures i + |OptionalArgTokens(args)| <= |ts|
    ensures if |OptionalArgTokens(args)| == 0 then args == []
            else DerivesCallArgs(ts, i, i + |OptionalArgTokens(args)|, args)
    decreases args, 2
  {
    if args != [] {
      PrintedArgs(args, ts, i);
    }
  }

  lemma {:induction false} PipeTokensAt(e: Expr, ts: seq<Token>, i: nat) returns (k: nat, j: nat)
    requires e.Pipe? && At(ts, i, Tokens(e))
    ensures k == i + 1 + |Tokens(e.input)| && j == k + 2 + |OptionalArgTokens(e.args)| && |Tokens(e)| == j + 1 - i
    ensures j < |ts| && ts[i] == LPAREN && ts[k] == PIPE && ts[k + 1] == IDENT(e.func) && ts[j] == RPAREN
    ensures At(ts, i + 1, Tokens(e.input)) && At(ts, k + 2, OptionalArgTokens(e.args))
  {
    var func := [PIPE, IDENT(e.func)];
    assert Tokens(e) == [LPAREN] + Tokens(e.input) + func + OptionalArgTokens(e.args) + [RPAREN];
    ParenthesizedParts(ts, i, Tokens(e.input), func, OptionalArgTokens(e.args));
    k := i + 1 + |Tokens(e.input)|;
    j := k + 2 + |OptionalArgTokens(e.args)|;
    assert ts[k] == func[0] && ts[k + 1] == func[1];
  }

  lemma {:induction false} PipePrimary(ts: seq<Token>, i: nat, k: nat, j: nat, e: Expr)
    requires i < k < j - 1 && j < |ts| && e.Pipe?
    requires ts[i] == LPAREN && ts[k] == PIPE && ts[k + 1] == IDENT(e.func) && ts[j] == RPAREN
    requires Derives(Primary, ts, i + 1, k, e.input)
    requires if k + 2 == j then e.args == [] else DerivesCallArgs(ts, k + 2, j, e.args)
    ensures Derives(Primary, ts, i, j + 1, e)
  {
    Loosen(PipeExpr, ts, i + 1, k, e.input);
    assert Derives(PipeExpr, ts, i + 1, j, e);
    Parenthesized(PipeExpr, ts, i, j + 1, e);
  }

  lemma {:induction false} ListTokensAt(args: seq<Expr>, ts: seq<Token>, i: nat)
    requires |args| > 1 && At(ts, i, ListTokens(args))
    ensures var front, last := ListTokens(args[..|args| - 1]), Tokens(args[|args| - 1]);
            var k := i + |front|;
            && |ListTokens(args)| == |front| + 1 + |last|
            && k < |ts| && At(ts, i, front) && ts[k] == COMMA && At(ts, k + 1, last)
  {
    var front, last := ListTokens(args[..|args| - 1]), Tokens(args[|args| - 1]);
    assert ListTokens(args) == front + [COMMA] + last;
    AtSplit(ts, i, front + [COMMA], last);
    AtSplit(ts, i, front, [COMMA]);
  }

  lemma {:induction false} PrintedArgs(args: seq<Expr>, ts: seq<Token>, i: nat)
    requires args != [] && AllPrintable(args) && At(ts, i, ArgTokens(args))
    ensures DerivesCallArgs(ts, i, i + |ArgTokens(args)|, args)
    decreases args, 1
  {
    var list := ListTokens(args);
    AtSplit(ts, i, [LPAREN] + list, [RPAREN]);
    AtSplit(ts, i, [LPAREN], list);
    assert ts[i] == LPAREN && ts[i + 1 + |list|] == RPAREN;
    PrintedList(args, ts, i + 1);
  }

  lemma {:induction false} PrintedList(args: seq<Expr>, ts: seq<Token>, i: nat)
    requires args != [] && AllPrintable(args) && At(ts, i, ListTokens(args))
    ensures i + |ListTokens(args)| <= |ts| && DerivesList(ts, i, i + |ListTokens(args)|, args)
    decreases args, 0
  {
    if |args| == 1 {
      PrintedDerives(args[0], ts, i);
      Loosen(OrExpr, ts, i, i + |Tokens(args[0])|, args[0]);
    } else {
      PrintedFront(args, ts, i);
      PrintedLast(args, ts, i);
    }
  }

  lemma {:induction false} PrintedLast(args: seq<Expr>, ts: seq<Token>, i: nat)
    requires |args| > 1 && AllPrintable(args) && At(ts, i, ListTokens(args))
    requires var front := args[..|args| - 1];
             i + |ListTokens(front)| <= |ts| && DerivesList(ts, i, i + |ListTokens(front)|, front)
    ensures DerivesList(ts, i, i + |ListTokens(args)|, args)
    decreases args, -1
  {
    var k := i + |ListTokens(args[..|args| - 1])|;
    ListTokensAt(args, ts, i);
    PrintedDerives(args[|args| - 1], ts, k + 1);
    ListStep(ts, i, k, i + |ListTokens(args)|, args);
  }

  lemma {:induction false} PrintedFront(args: seq<Expr>, ts: seq<Token>, i: nat)
    requires |args| > 1 && AllPrintable(args) && At(ts, i, ListTokens(args))
    ensures var front := args[..|args| - 1];
            i + |ListTokens(front)| <= |ts| && DerivesList(ts, i, i + |ListTokens(front)|, front)
    decreases args, -1
  {
    var front := args[..|args| - 1];
    assert forall m | 0 <= m < |front| :: front[m] == args[m];
    ListTokensAt(args, ts, i);
    PrintedList(front, ts, i);
  }

  lemma {:induction false} ListStep(ts: seq<Token>, i: nat, k: nat, j: nat, args: seq<Expr>)
    requires i <= k < j <= |ts| && ts[k] == COMMA && args != []
    requires DerivesList(ts, i, k, args[..|args| - 1]) && Derives(Primary, ts, k + 1, j, args[|args| - 1])
    ensures DerivesList(ts, i, j, args)
  {
    Loosen(OrExpr, ts, k + 1, j, args[|args| - 1]);
  }

  // ---- Reading back: text to tokens ----

  lemma {:induction false} EscapedReadsBack(text: string, quote: char, s: string, i: nat, value: string)
    requires quote != '\\' && At(s, i, Escaped(text, quote))
    requires i + |Escaped(text, quote)| < |s| && s[i + |Escaped(text, quote)|] == quote
    ensures StringRest(s, i, quote, value) == Some((value + text, i + |Escaped(text, quote)| + 1))
    decreases |text|
  {
    if text == "" {
      assert value + text == value;
    } else {
      var c := if text[0] == quote || text[0] == '\\' then ['\\', text[0]] else [text[0]];
      AtSplit(s, i, c, Escaped(text[1..], quote));
      AtElement(s, i, c, |c| - 1);
      EscapedReadsBack(text[1..], quote, s, i + |c|, value + [text[0]]);
      assert value + [text[0]] + text[1..] == value + text;
    }
  }

  lemma {:induction false} RunEndAt(p: char -> bool, s: string, i: nat, j: nat)
    requires i <= j < |s| && (forall k | i <= k < j :: p(s[k])) && !p(s[j])
    ensures RunEnd(p, s, i) == j
    decreases j - i
  {
    if i < j { RunEndAt(p, s, i + 1, j); }
  }

  /** The spelling of `t` stands at `i` with white space after it. */
  ghost predicate SpelledAt(t: Token, s: string, i: nat) {
    Spellable(t) && At(s, i, Spelling(t)) && i + |Spelling(t)| < |s| && IsSpace(s[i + |Spelling(t)|])
  }

  predicate IsWord(t: Token) {
    t.NUMBER? || t.IDENT? || t.BOOL? || t.AND? || t.OR? || t.NOT?
  }

  /** A string in either kind of quotes. */
  lemma {:induction false} StringLexes(text: string, quote: char, s: string, i: nat)
    requires (quote == '\'' || quote == '"') && At(s, i, [quote] + Escaped(text, quote) + [quote])
    ensures TokenAt(s, i) == Some((STRING(text), i + |Escaped(text, quote)| + 2))
  {
    AtSplit(s, i, [quote] + Escaped(text, quote), [quote]);
    AtSplit(s, i, [quote], Escaped(text, quote));
    AtElement(s, i, [quote], 0);
    EscapedReadsBack(text, quote, s, i + 1, "");
    assert "" + text == text;
  }

  /** A number or word is scanned to the space that ends it. */
  lemma {:induction false} RunLexes(p: char -> bool, w: string, s: string, i: nat)
    requires At(s, i, w) && i + |w| < |s| && !p(s[i + |w|]) && forall k | 0 <= k < |w| :: p(w[k])
    ensures RunEnd(p, s, i) == i + |w| && s[i..i + |w|] == w
  {
    AtSlice(s, i, w);
    forall k | i <= k < i + |w| ensures p(s[k]) { AtElement(s, i, w, k - i); }
    RunEndAt(p, s, i, i + |w|);
  }

  lemma {:induction false} WordStartLexes(s: string, i: nat)
    requires i < |s| && (IsWordStart(s[i]) || IsDigit(s[i]))
    ensures IsWordStart(s[i]) ==> var j := RunEnd(IsWordPart, s, i); TokenAt(s, i) == Some((WordToken(s[i..j]), j))
    ensures IsDigit(s[i]) ==>
              var j := RunEnd(IsNumberPart, s, i); TokenAt(s, i) == Some((NUMBER(ParseFloat(s[i..j])), j))
  {
  }

  lemma {:induction false} WordLexes(t: Token, s: string, i: nat)
    requires IsWord(t) && SpelledAt(t, s, i)
    ensures TokenAt(s, i) == Some((t, i + |Spelling(t)|))
  {
    var w := Spelling(t);
    if t.NUMBER? {
      RunLexes(IsNumberPart, w, s, i);
    } else {
      assert WordToken(w) == t;
      RunLexes(IsWordPart, w, s, i);
    }
    WordStartLexes(s, i);
  }

  /** Operators and punctuation, told apart by two characters. */
  lemma {:induction false} SymbolLexes(t: Token, s: string, i: nat)
    requires !IsWord(t) && !t.STRING? && SpelledAt(t, s, i)
    ensures TokenAt(s, i) == Some((t, i + |Spelling(t)|))
  {
    if |Spelling(t)| > 1 { AtElement(s, i, Spelling(t), 1); }
  }

  lemma {:induction false} SpellingLexes(t: Token, s: string, i: nat)
    requires SpelledAt(t, s, i)
    ensures !IsSpace(s[i]) && TokenAt(s, i) == Some((t, i + |Spelling(t)|))
  {
    AtElement(s, i, Spelling(t), 0);
    if IsWord(t) {
      WordLexes(t, s, i);
    } else if t.STRING? {
      StringLexes(t.text, '\'', s, i);
    } else {
      SymbolLexes(t, s, i);
    }
  }

  lemma {:induction false} SpellLexes(ts: seq<Token>, s: string, i: nat)
    requires AllSpellable(ts) && At(s, i, Spell(ts)) && i + |Spell(ts)| == |s|
    ensures LexFrom(s, i) == Some(ts + [EOF])
    decreases |ts|
  {
    if ts == [] {
      assert ts + [EOF] == [EOF];
    } else {
      var next := SpellAt(ts[0], Spelling(ts[0]), ts[1..], s, i);
      SpellLexes(ts[1..], s, next);
      LexToken(ts[0], ts[1..], s, i, next);
      assert [ts[0]] + ts[1..] == ts;
    }
  }

  lemma {:induction false} SpellAt(t: Token, w: string, ts: seq<Token>, s: string, i: nat) returns (next: nat)
    requires Spellable(t) && AllSpellable(ts) && w == Spelling(t)
    requires At(s, i, w + " " + Spell(ts)) && i + |w + " " + Spell(ts)| == |s|
    ensures next == i + |w| + 1 && SpelledAt(t, s, i) && At(s, next, Spell(ts)) && next + |Spell(ts)| == |s|
  {
    next := i + |w| + 1;
    SpacedAt(w, Spell(ts), s, i);
  }

  lemma {:induction false} SpacedAt(w: string, rest: string, s: string, i: nat)
    requires At(s, i, w + " " + rest) && i + |w + " " + rest| == |s|
    ensures At(s, i, w) && i + |w| < |s| && s[i + |w|] == ' '
    ensures At(s, i + |w| + 1, rest) && i + |w| + 1 + |rest| == |s|
  {
    AtSplit(s, i, w + " ", rest);
    AtSplit(s, i, w, " ");
  }

  lemma {:induction false} LexToken(t: Token, ts: seq<Token>, s: string, i: nat, next: nat)
    requires SpelledAt(t, s, i) && next == i + |Spelling(t)| + 1
    requires LexFrom(s, next) == Some(ts + [EOF])
    ensures LexFrom(s, i) == Some([t] + ts + [EOF])
  {
    SpellingLexes(t, s, i);
    var j := i + |Spelling(t)|;
    assert !IsSpace(s[i]) && TokenAt(s, i) == Some((t, j)) && IsSpace(s[j]);
    LexStep(t, ts, s, i, j);
  }

  lemma {:induction false} LexStep(t: Token, ts: seq<Token>, s: string, i: nat, j: nat)
    requires i < j < |s| && !IsSpace(s[i]) && TokenAt(s, i) == Some((t, j)) && IsSpace(s[j])
    requires LexFrom(s, j + 1) == Some(ts + [EOF])
    ensures LexFrom(s, i) == Some([t] + ts + [EOF])
  {
    assert LexFrom(s, j) == LexFrom(s, j + 1);
    assert [t] + (ts + [EOF]) == [t] + ts + [EOF];
  }

  // ---- Only printable trees are ever parsed ----

  lemma {:induction false} TokenSpellable(s: string, i: nat)
    requires i < |s| && TokenAt(s, i).Some?
    ensures var t := TokenAt(s, i).value.0; Spellable(t) || t.INHERITED?
  {
    var (t, j) := TokenAt(s, i).value;
    if t.NUMBER? {
      assert IsNumberLexeme(s[i..j]);
    }
  }

  lemma {:induction false} LexedSpellable(s: string, i: nat)
    requires i <= |s| && LexFrom(s, i).Some?
    ensures var ts := LexFrom(s, i).value; forall k | 0 <= k < |ts| - 1 :: Spellable(ts[k]) || ts[k].INHERITED?
    decreases |s| - i
  {
    if i == |s| {
    } else if IsSpace(s[i]) {
      LexedSpellable(s, i + 1);
    } else {
      var (t, j) := TokenAt(s, i).value;
      LexedSpellable(s, j);
      TokenSpellable(s, i);
    }
  }

  ghost predicate Lexed(ts: seq<Token>, i: nat, j: nat) {
    i <= j <= |ts| && forall k | i <= k < j :: Spellable(ts[k]) || ts[k].INHERITED?
  }

  lemma {:induction false} DerivedPrintable(lv: Level, ts: seq<Token>, i: nat, j: nat, e: Expr)
    requires Lexed(ts, i, j) && Derives(lv, ts, i, j, e)
    ensures Printable(e)
    decreases j - i, Rank(lv), 1
  {
    if lv.Primary? {
      DerivedPrimaryPrintable(ts, i, j, e);
    } else if Derives(Tighter(lv), ts, i, j, e) {
      DerivedPrintable(Tighter(lv), ts, i, j, e);
    } else if lv.NotExpr? || lv.UnaryExpr? {
      DerivedPrintable(lv, ts, i + 1, j, e.operand);
    } else if lv.PipeExpr? {
      DerivedPipePrintable(ts, i, j, e);
    } else {
      DerivedInfixPrintable(lv, ts, i, j, e);
    }
  }

  lemma {:induction false} DerivedPrimaryPrintable(ts: seq<Token>, i: nat, j: nat, e: Expr)
    requires Lexed(ts, i, j) && Derives(Primary, ts, i, j, e)
    ensures Printable(e)
    decreases j - i, 0, 0
  {
    if ts[i] == LPAREN {
      DerivedPrintable(OrExpr, ts, i + 1, j - 1, e);
    } else if e.Call? {
      DerivedArgsPrintable(ts, i + 1, j, e.args);
    }
  }

  lemma {:induction false} DerivedPipePrintable(ts: seq<Token>, i: nat, j: nat, e: Expr)
    requires Lexed(ts, i, j) && Derives(PipeExpr, ts, i, j, e) && !Derives(Primary, ts, i, j, e)
    ensures Printable(e)
    decreases j - i, Rank(PipeExpr), 0
  {
    var k := PipeSplit(ts, i, j, e);
    DerivedPrintable(PipeExpr, ts, i, k, e.input);
    if k + 2 < j { DerivedArgsPrintable(ts, k + 2, j, e.args); }
  }

  lemma {:induction false} DerivedInfixPrintable(lv: Level, ts: seq<Token>, i: nat, j: nat, e: Expr)
    requires Lexed(ts, i, j) && (IsChain(lv) || lv.Comparison?)
    requires Derives(lv, ts, i, j, e) && !Derives(Tighter(lv), ts, i, j, e)
    ensures Printable(e)
    decreases j - i, Rank(lv), 0
  {
    var k := InfixSplit(lv, ts, i, j, e);
    DerivedPrintable(if IsChain(lv) then lv else Tighter(lv), ts, i, k, e.left);
    DerivedPrintable(Tighter(lv), ts, k + 1, j, e.right);
  }

  lemma {:induction false} DerivedArgsPrintable(ts: seq<Token>, i: nat, j: nat, args: seq<Expr>)
    requires Lexed(ts, i, j)
    requires DerivesCallArgs(ts, i, j, args)
    ensures AllPrintable(args)
    decreases j - i, 0, 1
  {
    if i + 2 < j { DerivedListPrintable(ts, i + 1, j - 1, args); }
  }

  lemma {:induction false} DerivedListPrintable(ts: seq<Token>, i: nat, j: nat, args: seq<Expr>)
    requires Lexed(ts, i, j)
    requires DerivesList(ts, i, j, args)
    ensures AllPrintable(args)
    decreases j - i, 9, 0
  {
    if |args| == 1 && Derives(OrExpr, ts, i, j, args[0]) {
      DerivedPrintable(OrExpr, ts, i, j, args[0]);
    } else {
      var front, last := args[..|args| - 1], args[|args| - 1];
      var k :| i <= k < j && ts[k] == COMMA && DerivesList(ts, i, k, front) && Derives(OrExpr, ts, k + 1, j, last);
      DerivedListPrintable(ts, i, k, front);
      DerivedPrintable(OrExpr, ts, k + 1, j, last);
      assert forall k | 0 <= k < |front| :: args[k] == front[k];
    }
  }

  // ---- Main results ----

  /** Print, then lex and parse: the same tree comes back. */
  lemma {:induction false} RoundTrip(e: Expr)
    requires Printable(e)
    ensures ParseExpression(Print(e)) == Some(e)
  {
    TokensSpellable(e);
    var ts := Tokens(e) + [EOF];
    SuffixAt(Print(e), 0);
    assert Print(e)[0..] == Spell(Tokens(e));
    SpellLexes(Tokens(e), Print(e), 0);
    forall k | 0 <= k < |ts| - 1 ensures ts[k] != EOF {
      assert ts[k] == Tokens(e)[k];
    }
    SuffixAt(ts, 0);
    assert ts[0..] == Tokens(e) + [EOF];
    AtSplit(ts, 0, Tokens(e), [EOF]);
    PrintedDerives(e, ts, 0);
    Loosen(OrExpr, ts, 0, |ts| - 1, e);
    ParserIsExact(ts, e);
  }

  /** The trees that are the parse of some text are exactly the printable ones. */
  lemma {:induction false} ParsedExactlyPrintable(e: Expr)
    ensures Printable(e) <==> exists s: string :: ParseExpression(s) == Some(e)
  {
    if Printable(e) {
      RoundTrip(e);
    }
    if s: string :| ParseExpression(s) == Some(e) {
      var ts := LexFrom(s, 0).value;
      LexedSpellable(s, 0);
      ParserIsExact(ts, e);
      DerivedPrintable(OrExpr, ts, 0, |ts| - 1, e);
    }
  }

  lemma {:induction false} AllDigitsPrefix(s: string)
    requires AllDigits(s)
    ensures DigitPrefix(s) == |s|
  {
    if s != "" {
      assert s[0] in s;
      AllDigitsPrefix(s[1..]);
    }
  }

  /** Every natural number has a literal. */
  lemma {:induction false} NaturalsAreNumbers(n: nat)
    ensures IsNumber(n as real)
  {
    var s := Numeral(n);
    assert forall k | 0 <= k < |s| :: s[k] in s;
    AllDigitsPrefix(s);
    assert s[..|s|] == s;
    assert IsNumberLexeme(s) && ParseFloat(s) == n as real;
  }
}
