/** The recursive-descent parser: its specification, its class and its exactness. */
module ExprParser {
  import opened Wrappers
  import opened ExprSyntax

  /** A token sequence as the lexer returns it: one EOF, at the end. */
  ghost predicate Terminated(ts: seq<Token>) {
    |ts| > 0 && ts[|ts| - 1] == EOF && forall i | 0 <= i < |ts| - 1 :: ts[i] != EOF
  }

  /** Parsing nonterminal `lv` at `pos`: the tree and the next position, or a syntax error. */
  ghost function ParseAt(lv: Level, ts: seq<Token>, pos: nat): (r: Option<(Expr, nat)>)
    requires Terminated(ts) && pos < |ts|
    ensures r.Some? ==> pos < r.value.1 < |ts|
    decreases |ts| - pos, Rank(lv), 0
  {
    match lv
    case OrExpr | AndExpr | Additive | Multiplicative | PipeExpr =>
      var (first, next) :- ParseAt(Tighter(lv), ts, pos);
      Chain(lv, first, ts, next)
    case NotExpr =>
      if ts[pos] == NOT then
        var (operand, next) :- ParseAt(NotExpr, ts, pos + 1);
        Some((Unary(Not, operand), next))
      else ParseAt(Comparison, ts, pos)
    case Comparison =>
      var (left, next) :- ParseAt(Additive, ts, pos);
      if OperatorAt(Comparison, ts[next]).Some? then
        var (right, end) :- ParseAt(Additive, ts, next + 1);
        Some((Binary(OperatorAt(Comparison, ts[next]).value, left, right), end))
      else Some((left, next))
    case UnaryExpr =>
      if ts[pos] == MINUS then
        var (operand, next) :- ParseAt(UnaryExpr, ts, pos + 1);
        Some((Unary(Negate, operand), next))
      else ParseAt(PipeExpr, ts, pos)
    case Primary =>
      var t := ts[pos];
      if ConstantAt(t).Some? then Some((Literal(ConstantAt(t).value), pos + 1))
      else if t.IDENT? then
        var (args, next) :- OptionalArgs(ts, pos + 1);
        Some((if args != [] then Call(t.name, args) else Variable(t.name), next))
      else if t.LPAREN? then
        var (inner, next) :- ParseAt(OrExpr, ts, pos + 1);
        if ts[next] == RPAREN then Some((inner, next + 1)) else None
      else None
  }

  /** The loop of a left-associative level, entered with `left` already parsed. */
  ghost function Chain(lv: Level, left: Expr, ts: seq<Token>, pos: nat): (r: Option<(Expr, nat)>)
    requires Terminated(ts) && pos < |ts|
    requires IsChain(lv) || lv.PipeExpr?
    ensures r.Some? ==> pos <= r.value.1 < |ts|
    decreases |ts| - pos, Rank(lv), 1
  {
    if lv.PipeExpr? then
      if ts[pos] != PIPE then Some((left, pos))
      else if !ts[pos + 1].IDENT? then None
      else
        var (args, next) :- OptionalArgs(ts, pos + 2);
        Chain(lv, Pipe(left, ts[pos + 1].name, args), ts, next)
    else
      match OperatorAt(lv, ts[pos])
      case None => Some((left, pos))
      case Some(op) =>
        var (right, next) :- ParseAt(Tighter(lv), ts, pos + 1);
        Chain(lv, Binary(op, left, right), ts, next)
  }

  /** The argument list that may follow an identifier. */
  ghost function OptionalArgs(ts: seq<Token>, pos: nat): (r: Option<(seq<Expr>, nat)>)
    requires Terminated(ts) && pos < |ts|
    ensures r.Some? ==> pos <= r.value.1 < |ts|
    decreases |ts| - pos, 0, 2
  {
    if ts[pos] == LPAREN then CallArgs(ts, pos) else Some(([], pos))
  }

  ghost function CallArgs(ts: seq<Token>, pos: nat): (r: Option<(seq<Expr>, nat)>)
    requires Terminated(ts) && pos < |ts|
    ensures r.Some? ==> pos < r.value.1 < |ts|
    decreases |ts| - pos, 0, 1
  {
    if ts[pos] != LPAREN then None
    else if ts[pos + 1] == RPAREN then Some(([], pos + 2))
    else
      var (first, next) :- ParseAt(OrExpr, ts, pos + 1);
      ArgsTail([first], ts, next)
  }

  /** The comma loop of an argument list, up to and including the closing parenthesis. */
  ghost function ArgsTail(args: seq<Expr>, ts: seq<Token>, pos: nat): (r: Option<(seq<Expr>, nat)>)
    requires Terminated(ts) && pos < |ts|
    ensures r.Some? ==> pos < r.value.1 < |ts|
    decreases |ts| - pos, 9, 0
  {
    match ts[pos]
    case COMMA =>
      var (arg, next) :- ParseAt(OrExpr, ts, pos + 1);
      ArgsTail(args + [arg], ts, next)
    case RPAREN => Some((args, pos + 1))
    case _ => None
  }

  /** A whole expression: parse, then insist on the end of input. */
  ghost function ParseAll(ts: seq<Token>): Option<Expr>
    requires Terminated(ts)
  {
    var (e, next) :- ParseAt(OrExpr, ts, 0);
    if ts[next] == EOF then Some(e) else None
  }

  /** The parser object: a cursor over tokens that every method advances. */
  class Parser {
    const tokens: seq<Token>
    var pos: nat

    constructor (tokens: seq<Token>)
      ensures this.tokens == tokens && pos == 0
    {
      this.tokens := tokens;
      pos := 0;
    }

    /** The cursor is on a token: nothing past EOF is ever read. */
    ghost predicate Valid()
      reads this
    {
      Terminated(tokens) && pos < |tokens|
    }

    /** A method's outcome is the one specified; a thrown error is `None`. */
    ghost predicate Yields<T>(r: Option<T>, spec: Option<(T, nat)>)
      reads this
    {
      match spec
      case None => r.None?
      case Some((value, next)) => r == Some(value) && pos == next
    }

    /** Where a chain's loop is, seen from where it was: a failed operand fails the chain. */
    ghost predicate Continues(lv: Level, left: Expr, start: nat, r: Option<Expr>)
      requires Valid() && start < |tokens| && IsChain(lv)
      reads this
    {
      Chain(lv, left, tokens, start) == if r.Some? then Chain(lv, r.value, tokens, pos) else None
    }

    function Peek(): Token
      requires pos < |tokens|
      reads this
    {
      tokens[pos]
    }

    method Advance() returns (t: Token)
      requires pos < |tokens|
      modifies this`pos
      ensures pos == old(pos) + 1 && t == tokens[old(pos)]
    {
      t := tokens[pos];
      pos := pos + 1;
    }

    method Parse() returns (r: Option<Expr>)
      requires Valid() && pos == 0
      modifies this`pos
      ensures Valid()
      ensures r == ParseAll(tokens)
    {
      var node := OrExpression();
      if node.None? || Peek() != EOF {
        return None;
      }
      return node;
    }

    /** One operator and its right operand. */
    method OrTurn(left: Expr) returns (r: Option<Expr>)
      requires Valid() && Peek() == OR
      modifies this`pos
      ensures Valid() && pos > old(pos) && Continues(OrExpr, left, old(pos), r)
      decreases |tokens| - pos, Rank(OrExpr)
    {
      var _ := Advance();
      var right := AndExpression();
      r := if right.Some? then Some(Binary(Or, left, right.value)) else None;
    }

    method OrExpression() returns (r: Option<Expr>)
      requires Valid()
      modifies this`pos
      ensures Valid() && pos >= old(pos) && Yields(r, ParseAt(OrExpr, tokens, old(pos)))
      decreases |tokens| - pos, Rank(OrExpr)
    {
      r := AndExpression();
      while r.Some? && Peek() == OR
        invariant Valid() && pos >= old(pos) && (r.Some? ==> pos > old(pos))
        invariant if r.Some? then Chain(OrExpr, r.value, tokens, pos) == ParseAt(OrExpr, tokens, old(pos))
                  else ParseAt(OrExpr, tokens, old(pos)).None?
        decreases r.Some?, |tokens| - pos
      {
        r := OrTurn(r.value);
      }
    }

    /** One operator and its right operand. */
    method AndTurn(left: Expr) returns (r: Option<Expr>)
      requires Valid() && Peek() == AND
      modifies this`pos
      ensures Valid() && pos > old(pos) && Continues(AndExpr, left, old(pos), r)
      decreases |tokens| - pos, Rank(AndExpr)
    {
      var _ := Advance();
      var right := NotExpression();
      r := if right.Some? then Some(Binary(And, left, right.value)) else None;
    }

    method AndExpression() returns (r: Option<Expr>)
      requires Valid()
      modifies this`pos
      ensures Valid() && pos >= old(pos) && Yields(r, ParseAt(AndExpr, tokens, old(pos)))
      decreases |tokens| - pos, Rank(AndExpr)
    {
      r := NotExpression();
      while r.Some? && Peek() == AND
        invariant Valid() && pos >= old(pos) && (r.Some? ==> pos > old(pos))
        invariant if r.Some? then Chain(AndExpr, r.value, tokens, pos) == ParseAt(AndExpr, tokens, old(pos))
                  else ParseAt(AndExpr, tokens, old(pos)).None?
        decreases r.Some?, |tokens| - pos
      {
        r := AndTurn(r.value);
      }
    }

    method NotExpression() returns (r: Option<Expr>)
      requires Valid()
      modifies this`pos
      ensures Valid() && pos >= old(pos) && Yields(r, ParseAt(NotExpr, tokens, old(pos)))
      decreases |tokens| - pos, Rank(NotExpr)
    {
      if Peek() == NOT {
        var _ := Advance();
        var operand := NotExpression();
        r := if operand.Some? then Some(Unary(Not, operand.value)) else None;
      } else {
        r := ComparisonExpression();
      }
    }

    method ComparisonExpression() returns (r: Option<Expr>)
      requires Valid()
      modifies this`pos
      ensures Valid() && pos >= old(pos) && Yields(r, ParseAt(Comparison, tokens, old(pos)))
      decreases |tokens| - pos, Rank(Comparison)
    {
      r := AdditiveExpression();
      if r.Some? && OperatorAt(Comparison, Peek()).Some? {
        var op := Advance();
        var right := AdditiveExpression();
        r := if right.Some? then Some(Binary(OperatorAt(Comparison, op).value, r.value, right.value)) else None;
      }
    }

    /** One operator and its right operand. */
    method AdditiveTurn(left: Expr) returns (r: Option<Expr>)
      requires Valid() && (Peek() == PLUS || Peek() == MINUS)
      modifies this`pos
      ensures Valid() && pos > old(pos) && Continues(Additive, left, old(pos), r)
      decreases |tokens| - pos, Rank(Additive)
    {
      var op := Advance();
      var right := MultiplicativeExpression();
      r := if right.Some? then Some(Binary(OperatorAt(Additive, op).value, left, right.value)) else None;
    }

    method AdditiveExpression() returns (r: Option<Expr>)
      requires Valid()
      modifies this`pos
      ensures Valid() && pos >= old(pos) && Yields(r, ParseAt(Additive, tokens, old(pos)))
      decreases |tokens| - pos, Rank(Additive)
    {
      r := MultiplicativeExpression();
      while r.Some? && (Peek() == PLUS || Peek() == MINUS)
        invariant Valid() && pos >= old(pos) && (r.Some? ==> pos > old(pos))
        invariant if r.Some? then Chain(Additive, r.value, tokens, pos) == ParseAt(Additive, tokens, old(pos))
                  else ParseAt(Additive, tokens, old(pos)).None?
        decreases r.Some?, |tokens| - pos
      {
        r := AdditiveTurn(r.value);
      }
    }

    /** One operator and its right operand. */
    method MultiplicativeTurn(left: Expr) returns (r: Option<Expr>)
      requires Valid() && (Peek() == STAR || Peek() == SLASH)
      modifies this`pos
      ensures Valid() && pos > old(pos) && Continues(Multiplicative, left, old(pos), r)
      decreases |tokens| - pos, Rank(Multiplicative)
    {
      var op := Advance();
      var right := UnaryExpression();
      r := if right.Some? then Some(Binary(OperatorAt(Multiplicative, op).value, left, right.value)) else None;
    }

    method MultiplicativeExpression() returns (r: Option<Expr>)
      requires Valid()
      modifies this`pos
      ensures Valid() && pos >= old(pos) && Yields(r, ParseAt(Multiplicative, tokens, old(pos)))
      decreases |tokens| - pos, Rank(Multiplicative)
    {
      r := UnaryExpression();
      while r.Some? && (Peek() == STAR || Peek() == SLASH)
        invariant Valid() && pos >= old(pos) && (r.Some? ==> pos > old(pos))
        invariant if r.Some? then
                    Chain(Multiplicative, r.value, tokens, pos) == ParseAt(Multiplicative, tokens, old(pos))
                  else ParseAt(Multiplicative, tokens, old(pos)).None?
        decreases r.Some?, |tokens| - pos
      {
        r := MultiplicativeTurn(r.value);
      }
    }

    method UnaryExpression() returns (r: Option<Expr>)
      requires Valid()
      modifies this`pos
      ensures Valid() && pos >= old(pos) && Yields(r, ParseAt(UnaryExpr, tokens, old(pos)))
      decreases |tokens| - pos, Rank(UnaryExpr)
    {
      if Peek() == MINUS {
        var _ := Advance();
        var operand := UnaryExpression();
        r := if operand.Some? then Some(Unary(Negate, operand.value)) else None;
      } else {
        r := PipeExpression();
      }
    }

    method PipeExpression() returns (r: Option<Expr>)
      requires Valid()
      modifies this`pos
      ensures Valid() && pos >= old(pos) && Yields(r, ParseAt(PipeExpr, tokens, old(pos)))
      decreases |tokens| - pos, Rank(PipeExpr)
    {
      r := PrimaryExpression();
      while r.Some? && Peek() == PIPE
        invariant Valid() && pos >= old(pos) && (r.Some? ==> pos > old(pos))
        invariant if r.Some? then Chain(PipeExpr, r.value, tokens, pos) == ParseAt(PipeExpr, tokens, old(pos))
                  else ParseAt(PipeExpr, tokens, old(pos)).None?
        decreases r.Some?, |tokens| - pos
      {
        var _ := Advance();
        if !Peek().IDENT? {
          return None;
        }
        var func := Advance();
        var args := Some([]);
        if Peek() == LPAREN {
          args := CallArguments();
        }
        r := if args.Some? then Some(Pipe(r.value, func.name, args.value)) else None;
      }
    }

    method PrimaryExpression() returns (r: Option<Expr>)
      requires Valid()
      modifies this`pos
      ensures Valid() && pos >= old(pos) && Yields(r, ParseAt(Primary, tokens, old(pos)))
      decreases |tokens| - pos, Rank(Primary)
    {
      var t := Peek();
      if t.BOOL? || t.NUMBER? {
        var _ := Advance();
        return Some(Literal(ConstantAt(t).value));
      }
      if t.STRING? {
        var _ := Advance();
        return Some(Literal(ConstantAt(t).value));
      }
      if t.IDENT? {
        var _ := Advance();
        var args := Some([]);
        if Peek() == LPAREN {
          args := CallArguments();
        }
        assert Yields(args, OptionalArgs(tokens, old(pos) + 1));
        if args.None? {
          return None;
        }
        return Some(if |args.value| > 0 then Call(t.name, args.value) else Variable(t.name));
      }
      if t == LPAREN {
        var _ := Advance();
        var inner := OrExpression();
        if inner.None? || Peek() != RPAREN {
          return None;
        }
        var _ := Advance();
        return inner;
      }
      return None;
    }

    method CallArguments() returns (r: Option<seq<Expr>>)
      requires Valid()
      modifies this`pos
      ensures Valid() && pos >= old(pos) && Yields(r, CallArgs(tokens, old(pos)))
      decreases |tokens| - pos, 0
    {
      if Peek() != LPAREN {
        return None;
      }
      var _ := Advance();
      var args: seq<Expr> := [];
      if Peek() != RPAREN {
        var first := OrExpression();
        if first.None? {
          return None;
        }
        args := args + [first.value];
        assert args == [first.value];
        while Peek() == COMMA
          invariant Valid() && pos > old(pos)
          invariant args != [] && ArgsTail(args, tokens, pos) == CallArgs(tokens, old(pos))
          decreases |tokens| - pos
        {
          var _ := Advance();
          var next := OrExpression();
          if next.None? {
            return None;
          }
          args := args + [next.value];
        }
      }
      if Peek() != RPAREN {
        return None;
      }
      var _ := Advance();
      return Some(args);
    }
  }
}
