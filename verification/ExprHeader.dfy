/** The grammar as the parser's header writes it, and which of its token lists the parser accepts. */
module ExprHeader {
  import opened Wrappers
  import opened ExprSyntax
  import opened ExprParser
  import opened ExprGrammar

  // ---- The header grammar ----

  /** The header grammar generates tokens `ts[i..j]` from `lv`, `not` being allowed in unary position too. */
  ghost predicate Generates(lv: Level, ts: seq<Token>, i: nat, j: nat)
    requires i <= j <= |ts|
    decreases j - i, Rank(lv), 1
  {
    if lv.Primary? then GeneratesPrimary(ts, i, j)
    else
      || Generates(Tighter(lv), ts, i, j)
      || (if lv.NotExpr? then i < j && ts[i] == NOT && Generates(lv, ts, i + 1, j)
          else if lv.UnaryExpr? then i < j && (ts[i] == MINUS || ts[i] == NOT) && Generates(lv, ts, i + 1, j)
          else if lv.PipeExpr? then
            exists k | i <= k < j - 1 && ts[k] == PIPE ::
              ts[k + 1].IDENT? && Generates(lv, ts, i, k) && GeneratesOptionalArgs(ts, k + 2, j)
          else
            exists k | i <= k < j && OperatorAt(lv, ts[k]).Some? ::
              Generates(if IsChain(lv) then lv else Tighter(lv), ts, i, k) && Generates(Tighter(lv), ts, k + 1, j))
  }

  ghost predicate GeneratesPrimary(ts: seq<Token>, i: nat, j: nat)
    requires i <= j <= |ts|
    decreases j - i, 0, 0
  {
    && i < j
    && (|| (j == i + 1 && (ConstantAt(ts[i]).Some? || ts[i].IDENT?))
        || (i + 1 < j && ts[i].IDENT? && GeneratesCallArgs(ts, i + 1, j))
        || (i + 1 < j && ts[i] == LPAREN && ts[j - 1] == RPAREN && Generates(OrExpr, ts, i + 1, j - 1)))
  }

  ghost predicate GeneratesOptionalArgs(ts: seq<Token>, i: nat, j: nat)
    requires i <= j <= |ts|
    decreases j - i, 0, 2
  {
    i == j || GeneratesCallArgs(ts, i, j)
  }

  ghost predicate GeneratesCallArgs(ts: seq<Token>, i: nat, j: nat)
    requires i <= j <= |ts|
    decreases j - i, 0, 1
  {
    i + 2 <= j && ts[i] == LPAREN && ts[j - 1] == RPAREN && (i + 2 == j || GeneratesList(ts, i + 1, j - 1))
  }

  ghost predicate GeneratesList(ts: seq<Token>, i: nat, j: nat)
    requires i <= j <= |ts|
    decreases j - i, 9, 0
  {
    || Generates(OrExpr, ts, i, j)
    || exists k | i <= k < j && ts[k] == COMMA :: GeneratesList(ts, i, k) && Generates(OrExpr, ts, k + 1, j)
  }

  // ---- Where `not` may stand ----

  /** The tokens after which the parser accepts `not`. */
  predicate Opens(t: Token) {
    t == NOT || t == AND || t == OR || t == LPAREN || t == COMMA
  }

  /** Every `not` but a first one follows such a token. */
  predicate InPlace(ts: seq<Token>, i: nat, j: nat)
    requires j <= |ts|
  {
    forall p | i < p < j && ts[p] == NOT :: Opens(ts[p - 1])
  }

  /** Two parts around a token that is not `not`. */
  lemma Around(ts: seq<Token>, i: nat, k: nat, j: nat)
    requires i <= k < j <= |ts| && InPlace(ts, i, k) && InPlace(ts, k + 1, j)
    requires ts[k] != NOT && (k + 1 < j && ts[k + 1] == NOT ==> Opens(ts[k]))
    ensures InPlace(ts, i, j)
  {
  }

  // ---- What the parser accepts, the header generates, with every `not` in place ----

  lemma {:induction false} DerivedGenerated(lv: Level, ts: seq<Token>, i: nat, j: nat, e: Expr)
    requires i <= j <= |ts| && Derives(lv, ts, i, j, e)
    ensures Generates(lv, ts, i, j) && InPlace(ts, i, j)
    decreases j - i, Rank(lv), 2
  {
    if lv.Primary? {
      DerivedPrimary(ts, i, j, e);
    } else if Derives(Tighter(lv), ts, i, j, e) {
      DerivedGenerated(Tighter(lv), ts, i, j, e);
    } else if lv.NotExpr? || lv.UnaryExpr? {
      DerivedGenerated(lv, ts, i + 1, j, e.operand);
      Starts(lv, ts, i + 1, j, e.operand);
    } else if lv.PipeExpr? {
      DerivedPipe(ts, i, j, e);
    } else {
      DerivedInfix(lv, ts, i, j, e);
    }
  }

  lemma {:induction false} DerivedPrimary(ts: seq<Token>, i: nat, j: nat, e: Expr)
    requires i <= j <= |ts| && DerivesPrimary(ts, i, j, e)
    ensures GeneratesPrimary(ts, i, j) && InPlace(ts, i, j)
    decreases j - i, 0, 1
  {
    if i + 1 < j {
      if ts[i] == LPAREN {
        DerivedGenerated(OrExpr, ts, i + 1, j - 1, e);
      } else {
        DerivedCallArgs(ts, i + 1, j, if e.Call? then e.args else []);
      }
    }
  }

  lemma {:induction false} DerivedPipe(ts: seq<Token>, i: nat, j: nat, e: Expr)
    requires i <= j <= |ts| && Derives(PipeExpr, ts, i, j, e) && !Derives(Primary, ts, i, j, e)
    ensures Generates(PipeExpr, ts, i, j) && InPlace(ts, i, j)
    decreases j - i, Rank(PipeExpr), 0
  {
    var k := PipeSplit(ts, i, j, e);
    DerivedGenerated(PipeExpr, ts, i, k, e.input);
    if k + 2 < j {
      DerivedCallArgs(ts, k + 2, j, e.args);
    }
    GeneratesFilter(ts, i, k, j);
  }

  lemma {:induction false} GeneratesFilter(ts: seq<Token>, i: nat, k: nat, j: nat)
    requires i <= k && k + 2 <= j <= |ts| && ts[k] == PIPE && ts[k + 1].IDENT?
    requires Generates(PipeExpr, ts, i, k) && GeneratesOptionalArgs(ts, k + 2, j)
    requires InPlace(ts, i, k) && InPlace(ts, k + 2, j) && (k + 2 < j ==> ts[k + 2] == LPAREN)
    ensures Generates(PipeExpr, ts, i, j) && InPlace(ts, i, j)
  {
    Around(ts, k, k + 1, j);
    Around(ts, i, k, j);
  }

  lemma {:induction false} DerivedInfix(lv: Level, ts: seq<Token>, i: nat, j: nat, e: Expr)
    requires i <= j <= |ts| && (IsChain(lv) || lv.Comparison?)
    requires Derives(lv, ts, i, j, e) && !Derives(Tighter(lv), ts, i, j, e)
    ensures Generates(lv, ts, i, j) && InPlace(ts, i, j)
    decreases j - i, Rank(lv), 0
  {
    var k := InfixSplit(lv, ts, i, j, e);
    DerivedGenerated(if IsChain(lv) then lv else Tighter(lv), ts, i, k, e.left);
    DerivedGenerated(Tighter(lv), ts, k + 1, j, e.right);
    Starts(Tighter(lv), ts, k + 1, j, e.right);
    GeneratesOperation(lv, ts, i, k, j);
    Around(ts, i, k, j);
  }

  lemma {:induction false} GeneratesOperation(lv: Level, ts: seq<Token>, i: nat, k: nat, j: nat)
    requires i <= k < j <= |ts| && (IsChain(lv) || lv.Comparison?) && OperatorAt(lv, ts[k]).Some?
    requires Generates(if IsChain(lv) then lv else Tighter(lv), ts, i, k) && Generates(Tighter(lv), ts, k + 1, j)
    ensures Generates(lv, ts, i, j)
  {
  }

  lemma {:induction false} DerivedCallArgs(ts: seq<Token>, i: nat, j: nat, args: seq<Expr>)
    requires i <= j <= |ts| && DerivesCallArgs(ts, i, j, args)
    ensures GeneratesCallArgs(ts, i, j) && InPlace(ts, i, j)
    decreases j - i, 0, 1
  {
    if i + 2 < j {
      DerivedList(ts, i + 1, j - 1, args);
    }
  }

  lemma {:induction false} DerivedList(ts: seq<Token>, i: nat, j: nat, args: seq<Expr>)
    requires i <= j <= |ts| && DerivesList(ts, i, j, args)
    ensures GeneratesList(ts, i, j) && InPlace(ts, i, j)
    decreases j - i, 9, 0
  {
    if |args| == 1 && Derives(OrExpr, ts, i, j, args[0]) {
      DerivedGenerated(OrExpr, ts, i, j, args[0]);
    } else {
      var k := ListSplit(ts, i, j, args);
      DerivedList(ts, i, k, args[..|args| - 1]);
      DerivedGenerated(OrExpr, ts, k + 1, j, args[|args| - 1]);
      Around(ts, i, k, j);
    }
  }

  // ---- What the header generates with every `not` in place, the parser accepts ----

  /** A leading `not` of a comparison or anything tighter can be taken off. */
  lemma {:induction false} TakeOffNot(lv: Level, ts: seq<Token>, i: nat, j: nat)
    requires i < j <= |ts| && Rank(lv) <= Rank(Comparison) && Generates(lv, ts, i, j) && ts[i] == NOT
    ensures i + 1 < j && Generates(lv, ts, i + 1, j)
    decreases j - i, Rank(lv)
  {
    if Generates(Tighter(lv), ts, i, j) {
      TakeOffNot(Tighter(lv), ts, i, j);
    } else if lv.UnaryExpr? {
      NotEmpty(lv, ts, i + 1, j);
    } else if lv.PipeExpr? {
      var k := SplitAtPipe(ts, i, j);
      NotEmpty(lv, ts, i, k);
      TakeOffNot(lv, ts, i, k);
    } else {
      var k := SplitAtInfix(lv, ts, i, j);
      var l := if IsChain(lv) then lv else Tighter(lv);
      NotEmpty(l, ts, i, k);
      TakeOffNot(l, ts, i, k);
    }
  }

  lemma {:induction false} NotEmpty(lv: Level, ts: seq<Token>, i: nat, j: nat)
    requires i <= j <= |ts| && Generates(lv, ts, i, j)
    ensures i < j
    decreases Rank(lv)
  {
    if !lv.Primary? && Generates(Tighter(lv), ts, i, j) {
      NotEmpty(Tighter(lv), ts, i, j);
    }
  }

  lemma {:induction false} SplitAtPipe(ts: seq<Token>, i: nat, j: nat) returns (k: nat)
    requires i <= j <= |ts| && Generates(PipeExpr, ts, i, j) && !Generates(Primary, ts, i, j)
    ensures i <= k < j - 1 && ts[k] == PIPE && ts[k + 1].IDENT?
    ensures Generates(PipeExpr, ts, i, k) && GeneratesOptionalArgs(ts, k + 2, j)
  {
    k :| i <= k < j - 1 && ts[k] == PIPE && ts[k + 1].IDENT? && Generates(PipeExpr, ts, i, k)
         && GeneratesOptionalArgs(ts, k + 2, j);
  }

  lemma {:induction false} SplitAtInfix(lv: Level, ts: seq<Token>, i: nat, j: nat) returns (k: nat)
    requires i <= j <= |ts| && (IsChain(lv) || lv.Comparison?)
    requires Generates(lv, ts, i, j) && !Generates(Tighter(lv), ts, i, j)
    ensures i <= k < j && OperatorAt(lv, ts[k]).Some?
    ensures Generates(if IsChain(lv) then lv else Tighter(lv), ts, i, k) && Generates(Tighter(lv), ts, k + 1, j)
  {
    k :| i <= k < j && OperatorAt(lv, ts[k]).Some?
         && Generates(if IsChain(lv) then lv else Tighter(lv), ts, i, k) && Generates(Tighter(lv), ts, k + 1, j);
  }

  /** Tokens the header generates with every `not` in place, also a first one, which must stand outside comparisons. */
  ghost predicate Ready(lv: Level, ts: seq<Token>, i: nat, j: nat)
    requires i <= j <= |ts|
  {
    Generates(lv, ts, i, j) && InPlace(ts, i, j) && (Rank(lv) <= Rank(Comparison) && i < j ==> ts[i] != NOT)
  }

  /** A tree for such tokens. */
  lemma {:induction false} GeneratedDerived(lv: Level, ts: seq<Token>, i: nat, j: nat) returns (e: Expr)
    requires i <= j <= |ts| && Ready(lv, ts, i, j)
    ensures Derives(lv, ts, i, j, e)
    decreases j - i, Rank(lv), 2
  {
    NotEmpty(lv, ts, i, j);
    if lv.Primary? {
      e := GeneratedPrimary(ts, i, j);
    } else if lv.NotExpr? && ts[i] == NOT {
      e := GeneratedNot(ts, i, j);
    } else if Generates(Tighter(lv), ts, i, j) {
      e := GeneratedDerived(Tighter(lv), ts, i, j);
    } else if lv.UnaryExpr? {
      NotEmpty(lv, ts, i + 1, j);
      var operand := GeneratedDerived(lv, ts, i + 1, j);
      e := Unary(Negate, operand);
    } else if lv.PipeExpr? {
      e := GeneratedPipe(ts, i, j);
    } else {
      e := GeneratedInfix(lv, ts, i, j);
    }
  }

  lemma {:induction false} GeneratedNot(ts: seq<Token>, i: nat, j: nat) returns (e: Expr)
    requires i < j <= |ts| && Generates(NotExpr, ts, i, j) && InPlace(ts, i, j) && ts[i] == NOT
    ensures Derives(NotExpr, ts, i, j, e)
    decreases j - i, Rank(NotExpr), 0
  {
    if Generates(Comparison, ts, i, j) {
      TakeOffNot(Comparison, ts, i, j);
    }
    var operand := GeneratedDerived(NotExpr, ts, i + 1, j);
    e := Unary(Not, operand);
  }

  lemma {:induction false} GeneratedPrimary(ts: seq<Token>, i: nat, j: nat) returns (e: Expr)
    requires i <= j <= |ts| && GeneratesPrimary(ts, i, j) && InPlace(ts, i, j)
    ensures DerivesPrimary(ts, i, j, e)
    decreases j - i, 0, 1
  {
    if ConstantAt(ts[i]).Some? {
      e := Literal(ConstantAt(ts[i]).value);
    } else if ts[i] == LPAREN {
      e := GeneratedDerived(OrExpr, ts, i + 1, j - 1);
    } else if i + 1 == j {
      e := Variable(ts[i].name);
    } else {
      var args := GeneratedCallArgs(ts, i + 1, j);
      e := if args == [] then Variable(ts[i].name) else Call(ts[i].name, args);
    }
  }

  lemma {:induction false} GeneratedPipe(ts: seq<Token>, i: nat, j: nat) returns (e: Expr)
    requires i < j <= |ts| && Ready(PipeExpr, ts, i, j) && !Generates(Primary, ts, i, j)
    ensures Derives(PipeExpr, ts, i, j, e)
    decreases j - i, Rank(PipeExpr), 0
  {
    var k := SplitAtPipe(ts, i, j);
    var input := GeneratedDerived(PipeExpr, ts, i, k);
    var args := [];
    if k + 2 < j {
      args := GeneratedCallArgs(ts, k + 2, j);
    }
    e := Pipe(input, ts[k + 1].name, args);
    NotEmpty(PipeExpr, ts, i, k);
    DerivesFilter(ts, i, k, j, input, args);
  }

  lemma {:induction false} GeneratedInfix(lv: Level, ts: seq<Token>, i: nat, j: nat) returns (e: Expr)
    requires i < j <= |ts| && (IsChain(lv) || lv.Comparison?)
    requires Ready(lv, ts, i, j) && !Generates(Tighter(lv), ts, i, j)
    ensures Derives(lv, ts, i, j, e)
    decreases j - i, Rank(lv), 1
  {
    var l, k := ReadyOperands(lv, ts, i, j);
    e := GeneratedOperands(lv, l, ts, i, k, j);
  }

  lemma {:induction false} GeneratedOperands(lv: Level, l: Level, ts: seq<Token>, i: nat, k: nat, j: nat)
    returns (e: Expr)
    requires i <= k < j <= |ts| && (IsChain(lv) || lv.Comparison?) && OperatorAt(lv, ts[k]).Some?
    requires l == if IsChain(lv) then lv else Tighter(lv)
    requires Ready(l, ts, i, k) && Ready(Tighter(lv), ts, k + 1, j)
    ensures Derives(lv, ts, i, j, e)
    decreases j - i, Rank(lv), 0
  {
    var left := GeneratedDerived(l, ts, i, k);
    var right := GeneratedDerived(Tighter(lv), ts, k + 1, j);
    e := Binary(OperatorAt(lv, ts[k]).value, left, right);
    DerivesOperation(lv, ts, i, k, j, left, right);
  }

  /** No operand of a comparison or a tighter operator starts with a `not` that is in place. */
  lemma {:induction false} ReadyOperands(lv: Level, ts: seq<Token>, i: nat, j: nat) returns (l: Level, k: nat)
    requires i < j <= |ts| && (IsChain(lv) || lv.Comparison?)
    requires Ready(lv, ts, i, j) && !Generates(Tighter(lv), ts, i, j)
    ensures i <= k < j && OperatorAt(lv, ts[k]).Some? && l == if IsChain(lv) then lv else Tighter(lv)
    ensures Ready(l, ts, i, k) && Ready(Tighter(lv), ts, k + 1, j)
  {
    l := if IsChain(lv) then lv else Tighter(lv);
    k := SplitAtInfix(lv, ts, i, j);
  }

  lemma {:induction false} GeneratedCallArgs(ts: seq<Token>, i: nat, j: nat) returns (args: seq<Expr>)
    requires i <= j <= |ts| && GeneratesCallArgs(ts, i, j) && InPlace(ts, i, j)
    ensures DerivesCallArgs(ts, i, j, args)
    decreases j - i, 0, 1
  {
    args := [];
    if i + 2 < j {
      args := GeneratedList(ts, i + 1, j - 1);
    }
  }

  lemma {:induction false} GeneratedList(ts: seq<Token>, i: nat, j: nat) returns (args: seq<Expr>)
    requires i <= j <= |ts| && GeneratesList(ts, i, j) && InPlace(ts, i, j)
    ensures DerivesList(ts, i, j, args)
    decreases j - i, 9, 0
  {
    if Generates(OrExpr, ts, i, j) {
      var only := GeneratedDerived(OrExpr, ts, i, j);
      args := [only];
    } else {
      var k := SplitAtComma(ts, i, j);
      var front := GeneratedList(ts, i, k);
      var last := GeneratedDerived(OrExpr, ts, k + 1, j);
      args := front + [last];
      OneMoreListed(ts, i, k, j, front, last);
    }
  }

  lemma {:induction false} SplitAtComma(ts: seq<Token>, i: nat, j: nat) returns (k: nat)
    requires i <= j <= |ts| && GeneratesList(ts, i, j) && !Generates(OrExpr, ts, i, j)
    ensures i <= k < j && ts[k] == COMMA && GeneratesList(ts, i, k) && Generates(OrExpr, ts, k + 1, j)
  {
    k :| i <= k < j && ts[k] == COMMA && GeneratesList(ts, i, k) && Generates(OrExpr, ts, k + 1, j);
  }

  lemma {:induction false} OneMoreListed(ts: seq<Token>, i: nat, k: nat, j: nat, front: seq<Expr>, last: Expr)
    requires i <= k < j <= |ts| && ts[k] == COMMA
    requires DerivesList(ts, i, k, front) && Derives(OrExpr, ts, k + 1, j, last)
    ensures DerivesList(ts, i, j, front + [last])
  {
    var args := front + [last];
    assert args[..|args| - 1] == front;
  }

  // ---- Main results ----

  /** A `not` that is neither first nor after such a token makes the parser fail, whatever stands around it. */
  lemma {:induction false} MisplacedNotRejected(ts: seq<Token>, p: nat)
    requires Terminated(ts) && 0 < p < |ts| && ts[p] == NOT && !Opens(ts[p - 1])
    ensures ParseAll(ts) == None
  {
    if ParseAll(ts).Some? {
      ParserIsExact(ts, ParseAll(ts).value);
      DerivedGenerated(OrExpr, ts, 0, |ts| - 1, ParseAll(ts).value);
    }
  }

  /** The parser accepts exactly the token lists the header generates in which every `not` is in place. */
  lemma {:induction false} AcceptedExactly(ts: seq<Token>)
    requires Terminated(ts)
    ensures ParseAll(ts).Some? <==> Generates(OrExpr, ts, 0, |ts| - 1) && InPlace(ts, 0, |ts| - 1)
  {
    if ParseAll(ts).Some? {
      ParserIsExact(ts, ParseAll(ts).value);
      DerivedGenerated(OrExpr, ts, 0, |ts| - 1, ParseAll(ts).value);
    } else if Generates(OrExpr, ts, 0, |ts| - 1) && InPlace(ts, 0, |ts| - 1) {
      var e := GeneratedDerived(OrExpr, ts, 0, |ts| - 1);
      ParserIsExact(ts, e);
    }
  }

  /** The lists differ: the header generates `- not x`, and the parser rejects it. */
  lemma {:induction false} UnaryNotDiffers(name: string)
    ensures var ts := [MINUS, NOT, IDENT(name), EOF];
            Terminated(ts) && Generates(OrExpr, ts, 0, |ts| - 1) && ParseAll(ts) == None
  {
    var ts := [MINUS, NOT, IDENT(name), EOF];
    UnaryNotGenerated(ts);
    MisplacedNotRejected(ts, 1);
  }

  lemma {:induction false} UnaryNotGenerated(ts: seq<Token>)
    requires |ts| > 2 && ts[0] == MINUS && ts[1] == NOT && ts[2].IDENT?
    ensures Generates(OrExpr, ts, 0, 3)
  {
    RaiseGenerated(Primary, UnaryExpr, ts, 2, 3);
    GeneratesPrefix(ts, 1, 3);
    GeneratesPrefix(ts, 0, 3);
    RaiseGenerated(UnaryExpr, OrExpr, ts, 0, 3);
  }

  lemma {:induction false} GeneratesPrefix(ts: seq<Token>, i: nat, j: nat)
    requires i < j <= |ts| && (ts[i] == MINUS || ts[i] == NOT) && Generates(UnaryExpr, ts, i + 1, j)
    ensures Generates(UnaryExpr, ts, i, j)
  {
  }

  lemma {:induction false} RaiseGenerated(lv: Level, to: Level, ts: seq<Token>, i: nat, j: nat)
    requires i <= j <= |ts| && Rank(lv) <= Rank(to) && Generates(lv, ts, i, j)
    ensures Generates(to, ts, i, j)
    decreases Rank(to)
  {
    if Rank(lv) < Rank(to) {
      RaiseGenerated(lv, Tighter(to), ts, i, j);
    }
  }
}
