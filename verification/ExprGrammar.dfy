/** The parser accepts exactly the language of the grammar, with exactly its trees. */
module ExprGrammar {
  import opened Wrappers
  import opened ExprSyntax
  import opened ExprParser

  // ---- Soundness: every tree returned is derivable ----

  lemma {:induction false} Sound(lv: Level, ts: seq<Token>, pos: nat)
    requires Terminated(ts) && pos < |ts| && ParseAt(lv, ts, pos).Some?
    ensures var (e, next) := ParseAt(lv, ts, pos).value; Derives(lv, ts, pos, next, e)
    decreases |ts| - pos, Rank(lv), 2
  {
    match lv
    case OrExpr | AndExpr | Additive | Multiplicative | PipeExpr =>
      Sound(Tighter(lv), ts, pos);
      var (first, next) := ParseAt(Tighter(lv), ts, pos).value;
      SoundChain(lv, first, ts, pos, next);
    case NotExpr =>
      if ts[pos] == NOT { Sound(NotExpr, ts, pos + 1); } else { Sound(Comparison, ts, pos); }
    case Comparison => SoundComparison(ts, pos);
    case UnaryExpr =>
      if ts[pos] == MINUS { Sound(UnaryExpr, ts, pos + 1); } else { Sound(PipeExpr, ts, pos); }
    case Primary => SoundPrimary(ts, pos);
  }

  lemma {:induction false} SoundComparison(ts: seq<Token>, pos: nat)
    requires Terminated(ts) && pos < |ts| && ParseAt(Comparison, ts, pos).Some?
    ensures var (e, next) := ParseAt(Comparison, ts, pos).value; Derives(Comparison, ts, pos, next, e)
    decreases |ts| - pos, Rank(Comparison), 1
  {
    Sound(Additive, ts, pos);
    var (left, next) := ParseAt(Additive, ts, pos).value;
    if OperatorAt(Comparison, ts[next]).Some? { Sound(Additive, ts, next + 1); }
  }

  lemma {:induction false} SoundPrimary(ts: seq<Token>, pos: nat)
    requires Terminated(ts) && pos < |ts| && ParseAt(Primary, ts, pos).Some?
    ensures var (e, next) := ParseAt(Primary, ts, pos).value; DerivesPrimary(ts, pos, next, e)
    decreases |ts| - pos, 0, 1
  {
    if ts[pos].IDENT? && ts[pos + 1] == LPAREN {
      SoundCallArgs(ts, pos + 1);
    } else if ts[pos].LPAREN? {
      Sound(OrExpr, ts, pos + 1);
    }
  }

  lemma {:induction false} SoundChain(lv: Level, left: Expr, ts: seq<Token>, start: nat, pos: nat)
    requires Terminated(ts) && start < pos < |ts|
    requires IsChain(lv) || lv.PipeExpr?
    requires Derives(lv, ts, start, pos, left) && Chain(lv, left, ts, pos).Some?
    ensures var (e, next) := Chain(lv, left, ts, pos).value; Derives(lv, ts, start, next, e)
    decreases |ts| - pos, Rank(lv), 3
  {
    if lv.PipeExpr? {
      if ts[pos] == PIPE {
        var (args, next) := OptionalArgs(ts, pos + 2).value;
        if ts[pos + 2] == LPAREN { SoundCallArgs(ts, pos + 2); }
        DerivesFilter(ts, start, pos, next, left, args);
        SoundChain(lv, Pipe(left, ts[pos + 1].name, args), ts, start, next);
      }
    } else if OperatorAt(lv, ts[pos]).Some? {
      Sound(Tighter(lv), ts, pos + 1);
      var (right, next) := ParseAt(Tighter(lv), ts, pos + 1).value;
      DerivesOperation(lv, ts, start, pos, next, left, right);
      SoundChain(lv, Binary(OperatorAt(lv, ts[pos]).value, left, right), ts, start, next);
    }
  }

  lemma {:induction false} DerivesFilter(ts: seq<Token>, start: nat, pos: nat, next: nat, left: Expr, args: seq<Expr>)
    requires start < pos && pos + 2 <= next <= |ts| && ts[pos] == PIPE && ts[pos + 1].IDENT?
             && Derives(PipeExpr, ts, start, pos, left)
    requires if next == pos + 2 then args == [] else DerivesCallArgs(ts, pos + 2, next, args)
    ensures Derives(PipeExpr, ts, start, next, Pipe(left, ts[pos + 1].name, args))
  {
  }

  lemma {:induction false} DerivesOperation(lv: Level, ts: seq<Token>, start: nat, pos: nat, next: nat,
                                            left: Expr, right: Expr)
    requires start <= pos < next <= |ts| && (IsChain(lv) || lv.Comparison?) && OperatorAt(lv, ts[pos]).Some?
    requires Derives(if IsChain(lv) then lv else Tighter(lv), ts, start, pos, left)
    requires Derives(Tighter(lv), ts, pos + 1, next, right)
    ensures Derives(lv, ts, start, next, Binary(OperatorAt(lv, ts[pos]).value, left, right))
  {
  }

  lemma {:induction false} SoundCallArgs(ts: seq<Token>, pos: nat)
    requires Terminated(ts) && pos < |ts| && CallArgs(ts, pos).Some?
    ensures var (args, next) := CallArgs(ts, pos).value; DerivesCallArgs(ts, pos, next, args)
    decreases |ts| - pos, 0, 0
  {
    if ts[pos + 1] != RPAREN {
      Sound(OrExpr, ts, pos + 1);
      var (first, next) := ParseAt(OrExpr, ts, pos + 1).value;
      SoundArgsTail([first], ts, pos + 1, next);
    }
  }

  lemma {:induction false} SoundArgsTail(args: seq<Expr>, ts: seq<Token>, start: nat, pos: nat)
    requires Terminated(ts) && start < pos < |ts|
    requires DerivesList(ts, start, pos, args) && ArgsTail(args, ts, pos).Some?
    ensures var (all, next) := ArgsTail(args, ts, pos).value;
            start < next - 1 && ts[next - 1] == RPAREN && DerivesList(ts, start, next - 1, all)
    decreases |ts| - pos, 9, 0
  {
    if ts[pos] == COMMA {
      Sound(OrExpr, ts, pos + 1);
      var (arg, next) := ParseAt(OrExpr, ts, pos + 1).value;
      var more := args + [arg];
      assert more[..|more| - 1] == args;
      SoundArgsTail(more, ts, start, next);
    }
  }

  // ---- Completeness: every derivable tree is returned ----

  /** The rank of the loop that token `t` would keep going, 9 if none. */
  function Follow(t: Token): nat {
    match t
    case LPAREN => 0
    case PIPE => 1
    case STAR | SLASH => 3
    case PLUS | MINUS => 4
    case GT | GE | LT | LE | EQ | NE => 5
    case AND => 7
    case OR => 8
    case _ => 9
  }

  /** The first token of anything derivable from `lv`. */
  lemma {:induction false} Starts(lv: Level, ts: seq<Token>, i: nat, j: nat, e: Expr)
    requires i <= j <= |ts| && Derives(lv, ts, i, j, e)
    ensures i < j
    ensures ConstantAt(ts[i]).Some? || ts[i].IDENT? || ts[i] == LPAREN
            || (ts[i] == MINUS && Rank(lv) >= Rank(UnaryExpr))
            || (ts[i] == NOT && Rank(lv) >= Rank(NotExpr))
    decreases j - i, Rank(lv)
  {
    if lv.Primary? {
    } else if Derives(Tighter(lv), ts, i, j, e) {
      Starts(Tighter(lv), ts, i, j, e);
    } else if lv.PipeExpr? {
      var k :| i <= k < j - 1 && ts[k] == PIPE && ts[k + 1] == IDENT(e.func) && Derives(lv, ts, i, k, e.input);
      Starts(lv, ts, i, k, e.input);
    } else if !lv.NotExpr? && !lv.UnaryExpr? {
      var l := if IsChain(lv) then lv else Tighter(lv);
      var k :| i <= k < j && OperatorAt(lv, ts[k]) == Some(e.bop) && Derives(l, ts, i, k, e.left);
      Starts(l, ts, i, k, e.left);
    }
  }

  lemma {:induction false} Complete(lv: Level, ts: seq<Token>, i: nat, j: nat, e: Expr)
    requires Terminated(ts) && i <= j < |ts| && Derives(lv, ts, i, j, e)
    requires Follow(ts[j]) >= Rank(lv)
    ensures i < j
    ensures IsChain(lv) || lv.PipeExpr? ==> ParseAt(lv, ts, i) == Chain(lv, e, ts, j)
    ensures Follow(ts[j]) > Rank(lv) ==> ParseAt(lv, ts, i) == Some((e, j))
    decreases j - i, Rank(lv), 2
  {
    Starts(lv, ts, i, j, e);
    if lv.Primary? {
      if Follow(ts[j]) > 0 { CompletePrimary(ts, i, j, e); }
    } else if Derives(Tighter(lv), ts, i, j, e) {
      Complete(Tighter(lv), ts, i, j, e);
      Widen(lv, ts, i, j, e);
    } else {
      CompleteOwn(lv, ts, i, j, e);
    }
  }

  /** The derivations that use a rule of `lv` itself. */
  lemma {:induction false} CompleteOwn(lv: Level, ts: seq<Token>, i: nat, j: nat, e: Expr)
    requires Terminated(ts) && i < j < |ts| && !lv.Primary?
    requires Derives(lv, ts, i, j, e) && !Derives(Tighter(lv), ts, i, j, e)
    requires Follow(ts[j]) >= Rank(lv)
    ensures IsChain(lv) || lv.PipeExpr? ==> ParseAt(lv, ts, i) == Chain(lv, e, ts, j)
    ensures Follow(ts[j]) > Rank(lv) ==> ParseAt(lv, ts, i) == Some((e, j))
    decreases j - i, Rank(lv), 1
  {
    if lv.NotExpr? || lv.UnaryExpr? {
      CompletePrefix(lv, ts, i, j, e);
    } else if lv.PipeExpr? {
      CompletePipe(ts, i, j, e);
    } else if lv.Comparison? {
      CompleteComparison(ts, i, j, e);
    } else {
      CompleteChain(lv, ts, i, j, e);
    }
  }

  lemma {:induction false} CompletePrefix(lv: Level, ts: seq<Token>, i: nat, j: nat, e: Expr)
    requires Terminated(ts) && i < j < |ts| && (lv.NotExpr? || lv.UnaryExpr?)
    requires Derives(lv, ts, i, j, e) && !Derives(Tighter(lv), ts, i, j, e)
    requires Follow(ts[j]) >= Rank(lv)
    ensures ParseAt(lv, ts, i) == Some((e, j))
    decreases j - i, Rank(lv), 0
  {
    Complete(lv, ts, i + 1, j, e.operand);
  }

  /** What a tighter nonterminal returns, a looser one returns too, up to its own loop. */
  lemma {:induction false} Widen(lv: Level, ts: seq<Token>, i: nat, j: nat, e: Expr)
    requires Terminated(ts) && i < j < |ts| && !lv.Primary? && Derives(Tighter(lv), ts, i, j, e)
    requires ParseAt(Tighter(lv), ts, i) == Some((e, j))
    ensures IsChain(lv) || lv.PipeExpr? ==> ParseAt(lv, ts, i) == Chain(lv, e, ts, j)
    ensures Follow(ts[j]) > Rank(lv) ==> ParseAt(lv, ts, i) == Some((e, j))
  {
    Starts(Tighter(lv), ts, i, j, e);
  }

  lemma {:induction false} CompletePipe(ts: seq<Token>, i: nat, j: nat, e: Expr)
    requires Terminated(ts) && i < j < |ts| && Derives(PipeExpr, ts, i, j, e) && !Derives(Primary, ts, i, j, e)
    requires Follow(ts[j]) >= Rank(PipeExpr)
    ensures ParseAt(PipeExpr, ts, i) == Chain(PipeExpr, e, ts, j)
    decreases j - i, Rank(PipeExpr), 0
  {
    var k := PipeSplit(ts, i, j, e);
    Complete(PipeExpr, ts, i, k, e.input);
    if k + 2 < j { CompleteCallArgs(ts, k + 2, j, e.args); }
    OneMoreFilter(ts, k, j, e);
  }

  lemma {:induction false} PipeSplit(ts: seq<Token>, i: nat, j: nat, e: Expr) returns (k: nat)
    requires i <= j <= |ts| && Derives(PipeExpr, ts, i, j, e) && !Derives(Primary, ts, i, j, e)
    ensures e.Pipe? && i <= k < j - 1 && ts[k] == PIPE && ts[k + 1] == IDENT(e.func)
            && Derives(PipeExpr, ts, i, k, e.input)
    ensures if k + 2 == j then e.args == [] else DerivesCallArgs(ts, k + 2, j, e.args)
  {
    k :| i <= k < j - 1 && ts[k] == PIPE && ts[k + 1] == IDENT(e.func) && Derives(PipeExpr, ts, i, k, e.input)
         && (if k + 2 == j then e.args == [] else DerivesCallArgs(ts, k + 2, j, e.args));
  }

  lemma {:induction false} OneMoreFilter(ts: seq<Token>, k: nat, j: nat, e: Expr)
    requires Terminated(ts) && k + 2 <= j < |ts| && e.Pipe? && ts[k] == PIPE && ts[k + 1] == IDENT(e.func)
    requires if k + 2 == j then e.args == [] && ts[j] != LPAREN
             else ts[k + 2] == LPAREN && CallArgs(ts, k + 2) == Some((e.args, j))
    ensures Chain(PipeExpr, e.input, ts, k) == Chain(PipeExpr, e, ts, j)
  {
  }

  /** Where a derivation by an infix rule splits, and what follows its left part. */
  lemma {:induction false} InfixSplit(lv: Level, ts: seq<Token>, i: nat, j: nat, e: Expr) returns (k: nat)
    requires i <= j <= |ts| && (IsChain(lv) || lv.Comparison?)
    requires Derives(lv, ts, i, j, e) && !Derives(Tighter(lv), ts, i, j, e)
    ensures e.Binary? && i <= k < j && OperatorAt(lv, ts[k]) == Some(e.bop) && Follow(ts[k]) == Rank(lv)
    ensures Derives(if IsChain(lv) then lv else Tighter(lv), ts, i, k, e.left)
            && Derives(Tighter(lv), ts, k + 1, j, e.right)
  {
    k :| i <= k < j && OperatorAt(lv, ts[k]) == Some(e.bop)
         && Derives(if IsChain(lv) then lv else Tighter(lv), ts, i, k, e.left)
         && Derives(Tighter(lv), ts, k + 1, j, e.right);
  }

  lemma {:induction false} CompleteChain(lv: Level, ts: seq<Token>, i: nat, j: nat, e: Expr)
    requires Terminated(ts) && i < j < |ts| && IsChain(lv)
    requires Derives(lv, ts, i, j, e) && !Derives(Tighter(lv), ts, i, j, e)
    requires Follow(ts[j]) >= Rank(lv)
    ensures ParseAt(lv, ts, i) == Chain(lv, e, ts, j)
    decreases j - i, Rank(lv), 0
  {
    var k := InfixSplit(lv, ts, i, j, e);
    Complete(lv, ts, i, k, e.left);
    Complete(Tighter(lv), ts, k + 1, j, e.right);
    OneMoreOperand(lv, ts, k, j, e);
  }

  lemma {:induction false} OneMoreOperand(lv: Level, ts: seq<Token>, k: nat, j: nat, e: Expr)
    requires Terminated(ts) && k < j < |ts| && IsChain(lv) && e.Binary? && OperatorAt(lv, ts[k]) == Some(e.bop)
    requires ParseAt(Tighter(lv), ts, k + 1) == Some((e.right, j))
    ensures Chain(lv, e.left, ts, k) == Chain(lv, e, ts, j)
  {
  }

  lemma {:induction false} CompleteComparison(ts: seq<Token>, i: nat, j: nat, e: Expr)
    requires Terminated(ts) && i < j < |ts|
    requires Derives(Comparison, ts, i, j, e) && !Derives(Additive, ts, i, j, e)
    requires Follow(ts[j]) >= Rank(Comparison)
    ensures ParseAt(Comparison, ts, i) == Some((e, j))
    decreases j - i, Rank(Comparison), 0
  {
    var k := InfixSplit(Comparison, ts, i, j, e);
    Complete(Additive, ts, i, k, e.left);
    Complete(Additive, ts, k + 1, j, e.right);
    BothSidesCompared(ts, i, k, j, e);
  }

  lemma {:induction false} BothSidesCompared(ts: seq<Token>, i: nat, k: nat, j: nat, e: Expr)
    requires Terminated(ts) && i < k < j < |ts| && e.Binary? && OperatorAt(Comparison, ts[k]) == Some(e.bop)
    requires ParseAt(Additive, ts, i) == Some((e.left, k)) && ParseAt(Additive, ts, k + 1) == Some((e.right, j))
    ensures ParseAt(Comparison, ts, i) == Some((e, j))
  {
  }

  lemma {:induction false} CompletePrimary(ts: seq<Token>, i: nat, j: nat, e: Expr)
    requires Terminated(ts) && i < j < |ts| && DerivesPrimary(ts, i, j, e) && ts[j] != LPAREN
    ensures ParseAt(Primary, ts, i) == Some((e, j))
    decreases j - i, 0, 1
  {
    if ts[i].IDENT? {
      CompleteName(ts, i, j, e);
    } else if ts[i] == LPAREN {
      Complete(OrExpr, ts, i + 1, j - 1, e);
    }
  }

  lemma {:induction false} CompleteName(ts: seq<Token>, i: nat, j: nat, e: Expr)
    requires Terminated(ts) && i < j < |ts| && DerivesPrimary(ts, i, j, e) && ts[i].IDENT? && ts[j] != LPAREN
    ensures ParseAt(Primary, ts, i) == Some((e, j))
    decreases j - i, 0, 0
  {
    if i + 1 < j {
      CompleteCallArgs(ts, i + 1, j, if e.Call? then e.args else []);
    }
  }

  lemma {:induction false} CompleteCallArgs(ts: seq<Token>, i: nat, j: nat, args: seq<Expr>)
    requires Terminated(ts) && i <= j < |ts| && DerivesCallArgs(ts, i, j, args)
    ensures CallArgs(ts, i) == Some((args, j))
    decreases j - i, 0, 1
  {
    if i + 2 < j {
      CompleteList(ts, i + 1, j - 1, args);
    }
  }

  lemma {:induction false} CompleteList(ts: seq<Token>, i: nat, j: nat, args: seq<Expr>)
    requires Terminated(ts) && i <= j < |ts| && DerivesList(ts, i, j, args)
    requires ts[j] == COMMA || ts[j] == RPAREN
    ensures i < j && ts[i] != RPAREN
    ensures ParseAt(OrExpr, ts, i).Some?
    ensures var (first, next) := ParseAt(OrExpr, ts, i).value; ArgsTail([first], ts, next) == ArgsTail(args, ts, j)
    decreases j - i, 9, 0
  {
    if |args| == 1 && Derives(OrExpr, ts, i, j, args[0]) {
      Starts(OrExpr, ts, i, j, args[0]);
      Complete(OrExpr, ts, i, j, args[0]);
      assert args == [args[0]];
    } else {
      var front, last := args[..|args| - 1], args[|args| - 1];
      var k := ListSplit(ts, i, j, args);
      CompleteList(ts, i, k, front);
      Complete(OrExpr, ts, k + 1, j, last);
      OneMoreArgument(ts, k, j, front, last);
      assert args == front + [last];
    }
  }

  lemma {:induction false} ListSplit(ts: seq<Token>, i: nat, j: nat, args: seq<Expr>) returns (k: nat)
    requires i <= j <= |ts| && DerivesList(ts, i, j, args) && !(|args| == 1 && Derives(OrExpr, ts, i, j, args[0]))
    ensures args != [] && i <= k < j && ts[k] == COMMA
    ensures DerivesList(ts, i, k, args[..|args| - 1]) && Derives(OrExpr, ts, k + 1, j, args[|args| - 1])
  {
    k :| i <= k < j && ts[k] == COMMA && DerivesList(ts, i, k, args[..|args| - 1])
         && Derives(OrExpr, ts, k + 1, j, args[|args| - 1]);
  }

  lemma {:induction false} OneMoreArgument(ts: seq<Token>, k: nat, j: nat, front: seq<Expr>, last: Expr)
    requires Terminated(ts) && k < j < |ts| && ts[k] == COMMA && ParseAt(OrExpr, ts, k + 1) == Some((last, j))
    ensures ArgsTail(front, ts, k) == ArgsTail(front + [last], ts, j)
  {
  }

  // ---- Main results ----

  /** The parser returns a tree exactly when the grammar derives that tree from all the tokens. */
  lemma {:induction false} ParserIsExact(ts: seq<Token>, e: Expr)
    requires Terminated(ts)
    ensures ParseAll(ts) == Some(e) <==> Derives(OrExpr, ts, 0, |ts| - 1, e)
  {
    if ParseAll(ts) == Some(e) {
      Sound(OrExpr, ts, 0);
    }
    if Derives(OrExpr, ts, 0, |ts| - 1, e) {
      Complete(OrExpr, ts, 0, |ts| - 1, e);
    }
  }

  /** The grammar is unambiguous, although its header leaves associativity to the reader. */
  lemma {:induction false} GrammarIsUnambiguous(ts: seq<Token>, e1: Expr, e2: Expr)
    requires Terminated(ts)
    requires Derives(OrExpr, ts, 0, |ts| - 1, e1) && Derives(OrExpr, ts, 0, |ts| - 1, e2)
    ensures e1 == e2
  {
    ParserIsExact(ts, e1);
    ParserIsExact(ts, e2);
  }
}
