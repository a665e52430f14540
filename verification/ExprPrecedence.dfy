/** How tightly operators bind, on whole token lists. */
module ExprPrecedence {
  import opened Wrappers
  import opened ExprSyntax
  import opened ExprParser
  import opened ExprGrammar
  import opened ExprRoundTrip

  /** `or`, then `and`, then comparisons, then sums, then products. */
  function Strength(op: BinaryOp): nat {
    match op
    case Or => 1
    case And => 2
    case Gt | Ge | Lt | Le | Eq | Ne => 3
    case Add | Sub => 4
    case Mul | Div => 5
  }

  function Sign(op: BinaryOp): Token {
    match op
    case Or => OR
    case And => AND
    case Gt => GT
    case Ge => GE
    case Lt => LT
    case Le => LE
    case Eq => EQ
    case Ne => NE
    case Add => PLUS
    case Sub => MINUS
    case Mul => STAR
    case Div => SLASH
  }

  lemma {:induction false} LevelsAreStrengths(op: BinaryOp, other: BinaryOp)
    ensures OperatorAt(LevelOf(op), Sign(op)) == Some(op)
    ensures (IsChain(LevelOf(op)) <==> Strength(op) != 3) && Rank(LevelOf(op)) > Rank(UnaryExpr)
    ensures Strength(op) < Strength(other) <==> Rank(LevelOf(op)) > Rank(LevelOf(other))
    ensures Strength(op) == Strength(other) <==> LevelOf(op) == LevelOf(other)
    ensures Strength(op) >= 3 <==> Rank(LevelOf(op)) < Rank(NotExpr)
  {
  }

  lemma {:induction false} Lift(from: Level, to: Level, ts: seq<Token>, i: nat, j: nat, e: Expr)
    requires i <= j <= |ts| && Derives(from, ts, i, j, e) && Rank(from) <= Rank(to)
    ensures Derives(to, ts, i, j, e)
    decreases Rank(to)
  {
    if Rank(from) < Rank(to) {
      Lift(from, Tighter(to), ts, i, j, e);
    }
  }

  /** Two operands, none looser than the operator, joined by it. */
  lemma {:induction false} Joined(ts: seq<Token>, i: nat, k: nat, j: nat, lv: Level, op: BinaryOp, left: Expr,
                                  right: Expr, leftLevel: Level, rightLevel: Level)
    requires i <= k < j <= |ts| && lv == LevelOf(op) && ts[k] == Sign(op)
    requires Derives(leftLevel, ts, i, k, left) && Derives(rightLevel, ts, k + 1, j, right)
    requires Rank(rightLevel) < Rank(lv) && (Rank(leftLevel) < Rank(lv) || (leftLevel == lv && IsChain(lv)))
    ensures Derives(lv, ts, i, j, Binary(op, left, right))
  {
    LevelsAreStrengths(op, op);
    Lift(leftLevel, if IsChain(lv) then lv else Tighter(lv), ts, i, k, left);
    Lift(rightLevel, Tighter(lv), ts, k + 1, j, right);
    DerivesOperation(lv, ts, i, k, j, left, right);
  }

  /** A whole list derived at any level is parsed to its tree. */
  lemma {:induction false} Whole(lv: Level, ts: seq<Token>, e: Expr)
    requires Terminated(ts) && Derives(lv, ts, 0, |ts| - 1, e)
    ensures ParseAll(ts) == Some(e)
  {
    Lift(lv, OrExpr, ts, 0, |ts| - 1, e);
    ParserIsExact(ts, e);
  }

  /** `a o1 b o2 c`: the stronger operator takes `b`, the left one of equals does, and comparisons do not chain. */
  lemma {:induction false} TwoOperators(ts: seq<Token>, k: nat, m: nat, a: Expr, o1: BinaryOp, b: Expr, o2: BinaryOp,
                                        c: Expr)
    requires Terminated(ts) && k < m < |ts| - 1 && ts[k] == Sign(o1) && ts[m] == Sign(o2)
    requires Derives(UnaryExpr, ts, 0, k, a) && Derives(UnaryExpr, ts, k + 1, m, b)
    requires Derives(UnaryExpr, ts, m + 1, |ts| - 1, c)
    ensures ParseAll(ts) ==
            if Strength(o1) < Strength(o2) then Some(Binary(o1, a, Binary(o2, b, c)))
            else if Strength(o1) == Strength(o2) == 3 then None
            else Some(Binary(o2, Binary(o1, a, b), c))
  {
    LevelsAreStrengths(o1, o2);
    LevelsAreStrengths(o2, o1);
    var l1, l2, n := LevelOf(o1), LevelOf(o2), |ts| - 1;
    if Strength(o1) < Strength(o2) {
      Joined(ts, k + 1, m, n, l2, o2, b, c, UnaryExpr, UnaryExpr);
      Joined(ts, 0, k, n, l1, o1, a, Binary(o2, b, c), UnaryExpr, l2);
      Whole(l1, ts, Binary(o1, a, Binary(o2, b, c)));
    } else if Strength(o1) == Strength(o2) == 3 {
      ComparisonsDoNotChain(ts, k, m, a, o1, b, o2);
    } else {
      Joined(ts, 0, k, m, l1, o1, a, b, UnaryExpr, UnaryExpr);
      Joined(ts, 0, m, n, l2, o2, Binary(o1, a, b), c, l1, UnaryExpr);
      Whole(l2, ts, Binary(o2, Binary(o1, a, b), c));
    }
  }

  lemma {:induction false} ComparisonsDoNotChain(ts: seq<Token>, k: nat, m: nat, a: Expr, o1: BinaryOp, b: Expr,
                                                 o2: BinaryOp)
    requires Terminated(ts) && k < m < |ts| - 1 && ts[k] == Sign(o1) && ts[m] == Sign(o2)
    requires Strength(o1) == Strength(o2) == 3
    requires Derives(UnaryExpr, ts, 0, k, a) && Derives(UnaryExpr, ts, k + 1, m, b)
    ensures ParseAll(ts) == None
  {
    LevelsAreStrengths(o1, o2);
    Starts(UnaryExpr, ts, 0, k, a);
    Lift(UnaryExpr, Additive, ts, 0, k, a);
    Lift(UnaryExpr, Additive, ts, k + 1, m, b);
    Complete(Additive, ts, 0, k, a);
    Complete(Additive, ts, k + 1, m, b);
    ComparisonStops(ts, k, m, Binary(o1, a, b));
  }

  lemma {:induction false} ComparisonStops(ts: seq<Token>, k: nat, m: nat, e: Expr)
    requires Terminated(ts) && 0 < k < m < |ts| - 1 && ts[0] != NOT && ts[m] != AND && ts[m] != OR && ts[m] != EOF
    requires e.Binary? && OperatorAt(Comparison, ts[k]) == Some(e.bop)
    requires ParseAt(Additive, ts, 0) == Some((e.left, k)) && ParseAt(Additive, ts, k + 1) == Some((e.right, m))
    ensures ParseAll(ts) == None
  {
    assert ParseAt(Comparison, ts, 0) == Some((e, m));
    assert ParseAt(NotExpr, ts, 0) == Some((e, m));
    ChainStops(AndExpr, ts, m, e);
    assert ParseAt(AndExpr, ts, 0) == Some((e, m));
    ChainStops(OrExpr, ts, m, e);
  }

  lemma {:induction false} ChainStops(lv: Level, ts: seq<Token>, m: nat, e: Expr)
    requires Terminated(ts) && m < |ts| && (lv.AndExpr? || lv.OrExpr?) && ts[m] != AND && ts[m] != OR
    ensures Chain(lv, e, ts, m) == Some((e, m))
  {
  }

  /** `not a op b`: `not` takes in comparisons, sums and products, but neither `and` nor `or`. */
  lemma {:induction false} NotReaches(ts: seq<Token>, k: nat, a: Expr, op: BinaryOp, b: Expr)
    requires Terminated(ts) && 1 <= k < |ts| - 1 && ts[0] == NOT && ts[k] == Sign(op)
    requires Derives(UnaryExpr, ts, 1, k, a) && Derives(UnaryExpr, ts, k + 1, |ts| - 1, b)
    ensures ParseAll(ts) ==
            Some(if op == And || op == Or then Binary(op, Unary(Not, a), b) else Unary(Not, Binary(op, a, b)))
  {
    LevelsAreStrengths(op, op);
    var lv, n := LevelOf(op), |ts| - 1;
    if op == And || op == Or {
      Lift(UnaryExpr, NotExpr, ts, 1, k, a);
      assert Derives(NotExpr, ts, 0, k, Unary(Not, a));
      Joined(ts, 0, k, n, lv, op, Unary(Not, a), b, NotExpr, UnaryExpr);
      Whole(lv, ts, Binary(op, Unary(Not, a), b));
    } else {
      Joined(ts, 1, k, n, lv, op, a, b, UnaryExpr, UnaryExpr);
      Lift(lv, NotExpr, ts, 1, n, Binary(op, a, b));
      Whole(NotExpr, ts, Unary(Not, Binary(op, a, b)));
    }
  }

  lemma {:induction false} Filtered(ts: seq<Token>, i: nat, k: nat, e: Expr, f: string)
    requires i <= k && k + 2 <= |ts| && ts[k] == PIPE && ts[k + 1] == IDENT(f) && Derives(PipeExpr, ts, i, k, e)
    ensures Derives(PipeExpr, ts, i, k + 2, Pipe(e, f, []))
  {
    Starts(PipeExpr, ts, i, k, e);
    DerivesFilter(ts, i, k, k + 2, e, []);
  }

  /** `- a op b`: minus takes in no operator. */
  lemma {:induction false} MinusReaches(ts: seq<Token>, k: nat, a: Expr, op: BinaryOp, b: Expr)
    requires Terminated(ts) && 1 <= k < |ts| - 1 && ts[0] == MINUS && ts[k] == Sign(op)
    requires Derives(UnaryExpr, ts, 1, k, a) && Derives(UnaryExpr, ts, k + 1, |ts| - 1, b)
    ensures ParseAll(ts) == Some(Binary(op, Unary(Negate, a), b))
  {
    LevelsAreStrengths(op, op);
    assert Derives(UnaryExpr, ts, 0, k, Unary(Negate, a));
    Joined(ts, 0, k, |ts| - 1, LevelOf(op), op, Unary(Negate, a), b, UnaryExpr, UnaryExpr);
    Whole(LevelOf(op), ts, Binary(op, Unary(Negate, a), b));
  }

  /** `- a | f`: minus takes in a filter. */
  lemma {:induction false} MinusTakesFilter(ts: seq<Token>, k: nat, a: Expr, f: string)
    requires Terminated(ts) && 1 <= k && k + 2 == |ts| - 1 && ts[0] == MINUS && ts[k] == PIPE && ts[k + 1] == IDENT(f)
    requires Derives(PipeExpr, ts, 1, k, a)
    ensures ParseAll(ts) == Some(Unary(Negate, Pipe(a, f, [])))
  {
    Filtered(ts, 1, k, a, f);
    Lift(PipeExpr, UnaryExpr, ts, 1, k + 2, Pipe(a, f, []));
    Whole(UnaryExpr, ts, Unary(Negate, Pipe(a, f, [])));
  }

  /** `a op b | f`: the filter applies to `b` alone, whatever the operator. */
  lemma {:induction false} FilterBindsTightest(ts: seq<Token>, k: nat, m: nat, a: Expr, op: BinaryOp, b: Expr,
                                               f: string)
    requires Terminated(ts) && k < m && m + 2 == |ts| - 1 && ts[k] == Sign(op) && ts[m] == PIPE && ts[m + 1] == IDENT(f)
    requires Derives(UnaryExpr, ts, 0, k, a) && Derives(PipeExpr, ts, k + 1, m, b)
    ensures ParseAll(ts) == Some(Binary(op, a, Pipe(b, f, [])))
  {
    LevelsAreStrengths(op, op);
    Filtered(ts, k + 1, m, b, f);
    Joined(ts, 0, k, m + 2, LevelOf(op), op, a, Pipe(b, f, []), UnaryExpr, PipeExpr);
    Whole(LevelOf(op), ts, Binary(op, a, Pipe(b, f, [])));
  }
}
