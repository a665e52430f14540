/** Tokens, syntax trees and the grammar of the rule expression language. */
module ExprSyntax {
  import opened Wrappers

  datatype Token =
    | BOOL(flag: bool)
    | NUMBER(num: real)
    | STRING(text: string)
    | IDENT(name: string)
      // A word the keyword table answers with a member every object inherits
      // (`constructor`, `toString`, ...): the token's type equals no TokenType.
    | INHERITED(word: string)
    | PIPE | LPAREN | RPAREN | COMMA
    | AND | OR | NOT
    | GT | GE | LT | LE | EQ | NE
    | PLUS | MINUS | STAR | SLASH
    | EOF

  datatype UnaryOp = Not | Negate

  datatype BinaryOp =
    | Or | And
    | Gt | Ge | Lt | Le | Eq | Ne
    | Add | Sub | Mul | Div

  datatype Constant = Flag(flag: bool) | Num(num: real) | Text(text: string)

  datatype Expr =
    | Literal(value: Constant)
    | Variable(name: string)
    | Call(name: string, args: seq<Expr>)
    | Pipe(input: Expr, func: string, args: seq<Expr>)
    | Unary(op: UnaryOp, operand: Expr)
    | Binary(bop: BinaryOp, left: Expr, right: Expr)

  /** The nonterminals of the grammar, loosest first. */
  datatype Level =
    | OrExpr | AndExpr | NotExpr | Comparison
    | Additive | Multiplicative | UnaryExpr | PipeExpr | Primary

  /** How tightly a nonterminal binds; also the termination order of descent. */
  function Rank(lv: Level): nat {
    match lv
    case Primary => 0
    case PipeExpr => 1
    case UnaryExpr => 2
    case Multiplicative => 3
    case Additive => 4
    case Comparison => 5
    case NotExpr => 6
    case AndExpr => 7
    case OrExpr => 8
  }

  predicate IsChain(lv: Level) {
    lv.OrExpr? || lv.AndExpr? || lv.Additive? || lv.Multiplicative?
  }

  /** The nonterminal one step tighter. */
  function Tighter(lv: Level): (r: Level)
    requires !lv.Primary?
    ensures Rank(r) == Rank(lv) - 1
  {
    match lv
    case OrExpr => AndExpr
    case AndExpr => NotExpr
    case NotExpr => Comparison
    case Comparison => Additive
    case Additive => Multiplicative
    case Multiplicative => UnaryExpr
    case UnaryExpr => PipeExpr
    case PipeExpr => Primary
  }

  datatype Infix = NoInfix | Infix(level: Level, op: BinaryOp)

  /** The binary operator a token denotes and the nonterminal whose operands it joins. */
  function InfixOf(t: Token): Infix {
    match t
    case OR => Infix(OrExpr, Or)
    case AND => Infix(AndExpr, And)
    case GT => Infix(Comparison, Gt)
    case GE => Infix(Comparison, Ge)
    case LT => Infix(Comparison, Lt)
    case LE => Infix(Comparison, Le)
    case EQ => Infix(Comparison, Eq)
    case NE => Infix(Comparison, Ne)
    case PLUS => Infix(Additive, Add)
    case MINUS => Infix(Additive, Sub)
    case STAR => Infix(Multiplicative, Mul)
    case SLASH => Infix(Multiplicative, Div)
    case _ => NoInfix
  }

  /** The binary operator `t` denotes between two operands of `lv`. */
  function OperatorAt(lv: Level, t: Token): Option<BinaryOp> {
    var infix := InfixOf(t);
    if infix.Infix? && infix.level == lv then Some(infix.op) else None
  }

  /** The constant a literal token denotes. */
  function ConstantAt(t: Token): Option<Constant> {
    match t
    case BOOL(b) => Some(Flag(b))
    case NUMBER(n) => Some(Num(n))
    case STRING(s) => Some(Text(s))
    case _ => None
  }

  /**
   * `Derives(lv, ts, i, j, e)`: the grammar of the file header generates tokens
   * `ts[i..j]` from nonterminal `lv` with syntax tree `e`, binary and pipe
   * chains associating to the left.
   */
  ghost predicate Derives(lv: Level, ts: seq<Token>, i: nat, j: nat, e: Expr)
    requires i <= j <= |ts|
    decreases j - i, Rank(lv), 1
  {
    if lv.Primary? then DerivesPrimary(ts, i, j, e)
    else
      || Derives(Tighter(lv), ts, i, j, e)
      || (if lv.NotExpr? then
            i < j && ts[i] == NOT && e.Unary? && e.op == Not && Derives(lv, ts, i + 1, j, e.operand)
          else if lv.UnaryExpr? then
            i < j && ts[i] == MINUS && e.Unary? && e.op == Negate && Derives(lv, ts, i + 1, j, e.operand)
          else if lv.PipeExpr? then
            e.Pipe? && exists k | i <= k < j - 1 && ts[k] == PIPE ::
              && ts[k + 1] == IDENT(e.func)
              && Derives(lv, ts, i, k, e.input)
              && (if k + 2 == j then e.args == [] else DerivesCallArgs(ts, k + 2, j, e.args))
          else
            e.Binary? && exists k | i <= k < j && OperatorAt(lv, ts[k]) == Some(e.bop) ::
              && Derives(if IsChain(lv) then lv else Tighter(lv), ts, i, k, e.left)
              && Derives(Tighter(lv), ts, k + 1, j, e.right))
  }

  ghost predicate DerivesPrimary(ts: seq<Token>, i: nat, j: nat, e: Expr)
    requires i <= j <= |ts|
    decreases j - i, 0, 0
  {
    && i < j
    && (|| (j == i + 1 && e.Literal? && ConstantAt(ts[i]) == Some(e.value))
        || (j == i + 1 && e.Variable? && ts[i] == IDENT(e.name))
        || (i + 1 < j && e.Variable? && ts[i] == IDENT(e.name) && DerivesCallArgs(ts, i + 1, j, []))
        || (i + 1 < j && e.Call? && e.args != [] && ts[i] == IDENT(e.name) && DerivesCallArgs(ts, i + 1, j, e.args))
        || (i + 1 < j && ts[i] == LPAREN && ts[j - 1] == RPAREN && Derives(OrExpr, ts, i + 1, j - 1, e)))
  }

  ghost predicate DerivesCallArgs(ts: seq<Token>, i: nat, j: nat, args: seq<Expr>)
    requires i <= j <= |ts|
    decreases j - i, 0, 1
  {
    && i + 2 <= j && ts[i] == LPAREN && ts[j - 1] == RPAREN
    && (if i + 2 == j then args == [] else DerivesList(ts, i + 1, j - 1, args))
  }

  ghost predicate DerivesList(ts: seq<Token>, i: nat, j: nat, args: seq<Expr>)
    requires i <= j <= |ts|
    decreases j - i, 9, 0
  {
    && args != []
    && (|| (|args| == 1 && Derives(OrExpr, ts, i, j, args[0]))
        || exists k | i <= k < j && ts[k] == COMMA ::
             && DerivesList(ts, i, k, args[..|args| - 1])
             && Derives(OrExpr, ts, k + 1, j, args[|args| - 1]))
  }
}
