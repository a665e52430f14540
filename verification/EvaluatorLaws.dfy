/** What the evaluators compute, case by case, for every host. */
module EvaluatorLaws {
  import opened Wrappers
  import opened ExprSyntax
  import opened TextFacts
  import opened ExprEvaluator

  // ---- Truth and negation ----

  /** The values that count as false, and no others. */
  lemma {:induction false} FalsyExactly(v: Value)
    ensures !Truthy(v) <==>
            v == Undefined || v == Null || v == Bool(false) || v == Number(0.0) || v == Str("")
  {
  }

  /** In all three evaluators `not` of a value is true exactly when the value is a falsy one. */
  lemma {:induction false} NotNegates(h: Host, e: Expr)
    ensures var falsy := {Undefined, Null, Bool(false), Number(0.0), Str("")};
            && Evaluate(h, Unary(Not, e))
               == (match Evaluate(h, e) case Ok(v) => Ok(Bool(v in falsy)) case Err(error) => Err(error))
            && EvaluateTraced(h, Unary(Not, e)).outcome
               == (match EvaluateTraced(h, e).outcome case Ok(v) => Ok(Bool(v in falsy)) case Err(error) => Err(error))
            && SimpleValue(h, Unary(Not, e)) == Bool(SimpleValue(h, e) in falsy)
  {
    FalsyAll();
  }

  lemma {:induction false} FalsyAll()
    ensures forall v :: v in {Undefined, Null, Bool(false), Number(0.0), Str("")} <==> !Truthy(v)
  {
    forall v ensures v in {Undefined, Null, Bool(false), Number(0.0), Str("")} <==> !Truthy(v) {
      FalsyExactly(v);
    }
  }

  /** Minus of a number is its negative, and what the host makes of it for any other value. */
  lemma {:induction false} MinusNegates(h: Host, e: Expr)
    ensures Evaluate(h, Unary(Negate, e)) ==
            match Evaluate(h, e) case Ok(Number(n)) => Ok(Number(0.0 - n))
                                 case Ok(v) => Ok(h.negate(v))
                                 case Err(error) => Err(error)
    ensures EvaluateTraced(h, Unary(Negate, e)).outcome ==
            match EvaluateTraced(h, e).outcome case Ok(Number(n)) => Ok(Number(0.0 - n))
                                               case Ok(v) => Ok(h.negate(v))
                                               case Err(error) => Err(error)
    ensures SimpleValue(h, Unary(Negate, e)) ==
            match SimpleValue(h, e) case Number(n) => Number(0.0 - n) case v => h.negate(v)
  {
  }

  /** A literal is its own value; a call below an operator in a call argument is looked up by its JSON text. */
  lemma {:induction false} LeavesEvaluate(h: Host, flag: bool, num: real, text: string, name: string, args: seq<Expr>)
    ensures Evaluate(h, Literal(Flag(flag))) == Ok(Bool(flag)) && SimpleValue(h, Literal(Flag(flag))) == Bool(flag)
    ensures Evaluate(h, Literal(Num(num))) == Ok(Number(num)) && SimpleValue(h, Literal(Num(num))) == Number(num)
    ensures Evaluate(h, Literal(Text(text))) == Ok(Str(text)) && SimpleValue(h, Literal(Text(text))) == Str(text)
    ensures Ok(SimpleValue(h, Call(name, args))) == Evaluate(h, Variable(h.json(Call(name, args))))
  {
  }

  // ---- Variables ----

  /** `w` is reached from `v` through nested objects by these keys. */
  predicate Reaches(v: Value, keys: seq<string>, w: Value)
    decreases |keys|
  {
    if keys == [] then v == w
    else v.Object? && keys[0] in v.fields && Reaches(v.fields[keys[0]], keys[1..], w)
  }

  lemma {:induction false} WalkReaches(v: Value, keys: seq<string>, w: Value)
    requires Reaches(v, keys, w)
    ensures Walk(v, keys) == w
    decreases |keys|
  {
    if keys != [] { WalkReaches(v.fields[keys[0]], keys[1..], w); }
  }

  lemma {:induction false} PiecesOfName(parts: seq<string>)
    requires parts != [] && forall p | p in parts :: '.' !in p
    ensures SplitOn(JoinWith(parts, "."), '.') == parts
  {
    if |parts| == 1 {
      SinglePart(parts[0]);
    } else {
      PiecesOfName(parts[1..]);
      FirstPiece(parts[0], JoinWith(parts[1..], "."));
      assert [parts[0]] + parts[1..] == parts;
    }
  }

  lemma {:induction false} FirstPiece(part: string, rest: string)
    requires '.' !in part
    ensures SplitOn(part + "." + rest, '.') == [part] + SplitOn(rest, '.')
  {
    var s := part + "." + rest;
    if part == "" {
      assert s[1..] == rest;
    } else {
      assert s[1..] == part[1..] + "." + rest;
      FirstPiece(part[1..], rest);
      assert [s[0]] + part[1..] == part;
    }
  }

  /** A dotted name is the value its parts reach through nested objects, in all three evaluators. */
  lemma {:induction false} DottedNameReaches(h: Host, parts: seq<string>, w: Value)
    requires parts != [] && (forall p | p in parts :: '.' !in p) && Reaches(h.context, parts, w)
    ensures var e := Variable(JoinWith(parts, "."));
            Evaluate(h, e) == Ok(w) && EvaluateTraced(h, e).outcome == Ok(w) && SimpleValue(h, e) == w
  {
    PiecesOfName(parts);
    WalkReaches(h.context, parts, w);
  }

  /** A part that an object does not have, or asked of a value without parts, makes the whole name undefined. */
  lemma {:induction false} MissingPartUndefined(h: Host, before: seq<string>, key: string, after: seq<string>, w: Value)
    requires (forall p | p in before + [key] + after :: '.' !in p) && Reaches(h.context, before, w)
    requires !w.Array? && (w.Object? ==> key !in w.fields)
    ensures Evaluate(h, Variable(JoinWith(before + [key] + after, "."))) == Ok(Undefined)
  {
    PiecesOfName(before + [key] + after);
    WalkSplits(h.context, before, [key] + after);
    WalkReaches(h.context, before, w);
    assert before + [key] + after == before + ([key] + after) && ([key] + after)[1..] == after;
    assert Walk(w, [key] + after) == Walk(Property(w, key), after);
    UndefinedStays(after);
  }

  lemma {:induction false} WalkSplits(v: Value, a: seq<string>, b: seq<string>)
    ensures Walk(v, a + b) == Walk(Walk(v, a), b)
    decreases |a|
  {
    if a == [] {
      assert a + b == b;
    } else {
      assert (a + b)[1..] == a[1..] + b;
      WalkSplits(Property(v, a[0]), a[1..], b);
    }
  }

  lemma {:induction false} UndefinedStays(keys: seq<string>)
    ensures Walk(Undefined, keys) == Undefined
    decreases |keys|
  {
    if keys != [] { UndefinedStays(keys[1..]); }
  }

  /** The parts of an array are its items by decimal index, and its length. */
  lemma {:induction false} ArrayParts(items: seq<Value>, i: nat)
    ensures Property(Array(items), Numeral(i)) == if i < |items| then items[i] else Undefined
    ensures Property(Array(items), "length") == Number(|items| as real)
  {
    assert 'l' !in Numeral(i) by { assert forall c | c in Numeral(i) :: IsDigit(c); }
    assert "length"[0] == 'l';
  }

  // ---- Pipes, calls and operators ----

  /** The values of the arguments, one each in order, or the error of the first that fails. */
  lemma {:induction false} ArgumentsInOrder(h: Host, args: seq<Expr>)
    ensures match EvaluateAll(h, args)
            case Ok(values) =>
              |values| == |args| && forall i | 0 <= i < |args| :: Evaluate(h, args[i]) == Ok(values[i])
            case Err(error) =>
              exists i :: 0 <= i < |args| && Evaluate(h, args[i]) == Err(error)
                          && forall k | 0 <= k < i :: Evaluate(h, args[k]).Ok?
    decreases |args|
  {
    if args != [] {
      var rest := args[1..];
      ArgumentsInOrder(h, rest);
      if Evaluate(h, args[0]).Ok? && EvaluateAll(h, rest).Err? {
        var i :| 0 <= i < |rest| && Evaluate(h, rest[i]) == Err(EvaluateAll(h, rest).error)
                 && forall k | 0 <= k < i :: Evaluate(h, rest[k]).Ok?;
        assert args[i + 1] == rest[i] && forall k | 0 < k < i + 1 :: args[k] == rest[k - 1];
      } else {
        assert forall k | 0 < k < |args| :: args[k] == rest[k - 1];
      }
    }
  }

  /** A filter is handed the input followed by the values of its arguments, in order. */
  lemma {:induction false} PipeAppliesFilter(h: Host, input: Expr, func: string, args: seq<Expr>, v: Value,
                                             values: seq<Value>)
    requires func != "some" && func != "all" && Evaluate(h, input) == Ok(v)
    requires |values| == |args| && forall i | 0 <= i < |args| :: Evaluate(h, args[i]) == Ok(values[i])
    ensures Evaluate(h, Pipe(input, func, args))
            == if func in h.filters then h.filters[func]([v] + values) else Err(UnknownFilter(func))
  {
    ArgumentsInOrder(h, args);
    var all := EvaluateAll(h, args);
    assert all.Ok? && all.value == values;
  }

  /** A failing input, or else the first failing argument, is the error of the pipe. */
  lemma {:induction false} PipeFailsFirst(h: Host, input: Expr, func: string, args: seq<Expr>)
    requires func != "some" && func != "all"
    ensures Evaluate(h, input).Err? ==> Evaluate(h, Pipe(input, func, args)) == Evaluate(h, input)
    ensures forall i | 0 <= i < |args| && Evaluate(h, input).Ok? && Evaluate(h, args[i]).Err?
                       && (forall k | 0 <= k < i :: Evaluate(h, args[k]).Ok?) ::
              Evaluate(h, Pipe(input, func, args)) == Err(Evaluate(h, args[i]).error)
  {
    ArgumentsInOrder(h, args);
  }

  /** A call hands the named function the values of its arguments, in order. */
  lemma {:induction false} CallAppliesFunction(h: Host, name: string, args: seq<Expr>, values: seq<Value>)
    requires forall i | 0 <= i < |args| :: args[i].Call? || Inline(args[i])
    requires |values| == |args| && forall i | 0 <= i < |args| :: Evaluate(h, args[i]) == Ok(values[i])
    ensures Evaluate(h, Call(name, args))
            == if name in h.filters then h.filters[name](values) else Err(UnknownFunction(name))
  {
    CallArgumentsAgree(h, args);
    ArgumentsInOrder(h, args);
    var all := EvaluateAll(h, args);
    assert all.Ok? && all.value == values;
  }

  // ---- Operators ----

  /** Both operands are evaluated, the left one first, then the operator is applied; errors come in this order. */
  lemma {:induction false} OperatorApplies(h: Host, op: BinaryOp, left: Expr, right: Expr)
    ensures var l, r := Evaluate(h, left), Evaluate(h, right);
            && (l.Err? ==> Evaluate(h, Binary(op, left, right)) == l)
            && (l.Ok? && r.Err? ==> Evaluate(h, Binary(op, left, right)) == r)
            && (l.Ok? && r.Ok? ==> Evaluate(h, Binary(op, left, right)) == Ok(ApplyBinary(h, op, l.value, r.value)))
  {
  }

  /** `and` holds when both operands do and `or` when one does; the value is that of the operand that decides. */
  lemma {:induction false} AndOrDecide(h: Host, l: Value, r: Value)
    ensures Truthy(ApplyBinary(h, And, l, r)) <==> Truthy(l) && Truthy(r)
    ensures Truthy(ApplyBinary(h, Or, l, r)) <==> Truthy(l) || Truthy(r)
    ensures ApplyBinary(h, And, l, r) == l <==> !Truthy(l) || l == r
    ensures ApplyBinary(h, Or, l, r) == l <==> Truthy(l) || l == r
    ensures ApplyBinary(h, And, l, r) in {l, r} && ApplyBinary(h, Or, l, r) in {l, r}
  {
  }

  /** De Morgan's laws hold for whole evaluations, errors included, plain and traced. */
  lemma {:induction false} DeMorgan(h: Host, a: Expr, b: Expr)
    ensures Evaluate(h, Unary(Not, Binary(And, a, b))) == Evaluate(h, Binary(Or, Unary(Not, a), Unary(Not, b)))
    ensures Evaluate(h, Unary(Not, Binary(Or, a, b))) == Evaluate(h, Binary(And, Unary(Not, a), Unary(Not, b)))
    ensures EvaluateTraced(h, Unary(Not, Binary(And, a, b))).outcome
            == EvaluateTraced(h, Binary(Or, Unary(Not, a), Unary(Not, b))).outcome
    ensures EvaluateTraced(h, Unary(Not, Binary(Or, a, b))).outcome
            == EvaluateTraced(h, Binary(And, Unary(Not, a), Unary(Not, b))).outcome
  {
  }

  /** On numbers the arithmetic is that of the reals, and a division by zero gives zero. */
  lemma {:induction false} NumbersCompute(h: Host, a: real, b: real)
    ensures ApplyBinary(h, Add, Number(a), Number(b)) == Number(a + b)
    ensures ApplyBinary(h, Sub, Number(a), Number(b)) == Number(a + (0.0 - b))
    ensures ApplyBinary(h, Mul, Number(a), Number(b)) == Number(b * a)
    ensures ApplyBinary(h, Div, Number(a), Number(0.0)) == Number(0.0)
    ensures b != 0.0 ==> ApplyBinary(h, Mul, ApplyBinary(h, Div, Number(a), Number(b)), Number(b)) == Number(a)
  {
  }

  /** Of two numbers exactly one of `<`, `==` and `>` holds, and `>=`, `!=` and `<=` are their negations. */
  lemma {:induction false} NumbersCompare(h: Host, a: real, b: real)
    ensures var l, r := Number(a), Number(b);
            && ApplyBinary(h, Lt, l, r) == Bool(a - b < 0.0) && ApplyBinary(h, Ge, l, r) == Bool(!(a - b < 0.0))
            && ApplyBinary(h, Gt, l, r) == Bool(b - a < 0.0) && ApplyBinary(h, Le, l, r) == Bool(!(b - a < 0.0))
            && ApplyBinary(h, Eq, l, r) == Bool(a - b == 0.0) && ApplyBinary(h, Ne, l, r) == Bool(a - b != 0.0)
  {
  }

  /** What is no number counts as zero in sums and differences, for every host. */
  lemma {:induction false} OthersAreZero(h: Host, v: Value, w: Value)
    requires !v.Number?
    ensures ApplyBinary(h, Add, v, w) == ApplyBinary(h, Add, w, v) == ApplyBinary(h, Add, w, Number(0.0))
    ensures ApplyBinary(h, Sub, w, v) == ApplyBinary(h, Add, w, v)
    ensures ApplyBinary(h, Sub, v, w) == ApplyBinary(h, Sub, Number(0.0), w)
    ensures w.Number? ==> ApplyBinary(h, Add, v, w) == w
  {
  }

  /** Equality without conversion: texts, flags and numbers by value, null and undefined alike and unlike the rest. */
  lemma {:induction false} EqualsExactly(h: Host, v: Value, w: Value, s: string, t: string, b: bool, c: bool)
    ensures ApplyBinary(h, Eq, Str(s), Str(t)) == Bool(s == t) && ApplyBinary(h, Ne, Str(s), Str(t)) == Bool(s != t)
    ensures ApplyBinary(h, Eq, Bool(b), Bool(c)) == Bool(b == c) && ApplyBinary(h, Ne, Bool(b), Bool(c)) == Bool(b != c)
    ensures v in {Null, Undefined} ==>
              && ApplyBinary(h, Eq, v, w) == Bool(w in {Null, Undefined}) == ApplyBinary(h, Eq, w, v)
              && ApplyBinary(h, Ne, v, w) == Bool(w !in {Null, Undefined}) == ApplyBinary(h, Ne, w, v)
  {
  }

  // ---- `some` and `all` ----

  /** On anything but an array `some` is false and `all` is true. */
  lemma {:induction false} NoArrayNoElements(h: Host, input: Expr, args: seq<Expr>)
    requires Evaluate(h, input).Ok? && !Evaluate(h, input).value.Array?
    ensures Evaluate(h, Pipe(input, "some", args)) == Ok(Bool(false))
    ensures Evaluate(h, Pipe(input, "all", args)) == Ok(Bool(true))
  {
  }

  /** Without a condition an element counts by itself. */
  lemma {:induction false} BareElementsCount(h: Host, input: Expr, items: seq<Value>)
    requires Evaluate(h, input) == Ok(Array(items))
    ensures Evaluate(h, Pipe(input, "some", [])) == Ok(Bool(exists i :: 0 <= i < |items| && Truthy(items[i])))
    ensures Evaluate(h, Pipe(input, "all", [])) == Ok(Bool(forall i | 0 <= i < |items| :: Truthy(items[i])))
  {
    ElementWiseMeaning(h, items, "some", []);
    ElementWiseMeaning(h, items, "all", []);
    forall i | 0 <= i < |items|
      ensures FilterElement(h, items[i], "some", []) == Ok(Bool(Truthy(items[i])))
      ensures FilterElement(h, items[i], "all", []) == Ok(Bool(Truthy(items[i])))
    {
    }
  }

  /** A condition that is a call is the filter of that name on the element and the argument values. */
  lemma {:induction false} ConditionCallsFilter(h: Host, element: Value, func: string, name: string, args: seq<Expr>,
                                                values: seq<Value>)
    requires name in h.filters
    requires |values| == |args| && forall i | 0 <= i < |args| :: Evaluate(h, args[i]) == Ok(values[i])
    ensures FilterElement(h, element, func, [Call(name, args)]) == h.filters[name]([element] + values)
  {
    ArgumentsInOrder(h, args);
    var all := EvaluateAll(h, args);
    assert all.Ok? && all.value == values;
    var condition := Call(name, args);
    ConditionsFold(h, element, func, [], condition);
    assert [] + [condition] == [condition];
    assert Reduce(h, element, func, []) == Ok(element);
    assert Step(h, element, func, condition) == h.filters[name]([element] + values);
  }

  /** Several conditions are applied one to the result of the other, from left to right. */
  lemma {:induction false} ConditionsFold(h: Host, v: Value, func: string, args: seq<Expr>, last: Expr)
    ensures Reduce(h, v, func, args + [last]) ==
            match Reduce(h, v, func, args)
            case Err(error) => Err(error)
            case Ok(w) => Step(h, w, func, last)
    decreases |args|
  {
    if args == [] {
      assert args + [last] == [last] && [last][1..] == [];
      var next := Step(h, v, func, last);
      if next.Ok? { assert Reduce(h, next.value, func, []) == next; }
    } else {
      assert (args + [last])[1..] == args[1..] + [last];
      var next := Step(h, v, func, args[0]);
      if next.Ok? { ConditionsFold(h, next.value, func, args[1..], last); }
    }
  }

  /** A condition that is a pipe hands the outer filter the element if the inner condition holds, else false. */
  lemma {:induction false} PipedConditionKeeps(h: Host, element: Value, func: string, inner: Expr, outer: string,
                                               args: seq<Expr>, values: seq<Value>, w: Value)
    requires outer != "" && outer in h.filters && Step(h, element, func, inner) == Ok(w)
    requires |values| == |args| && forall i | 0 <= i < |args| :: Evaluate(h, args[i]) == Ok(values[i])
    ensures Step(h, element, func, Pipe(inner, outer, args))
            == h.filters[outer]([if Truthy(w) then element else Bool(false)] + values)
  {
    ArgumentsInOrder(h, args);
    var all := EvaluateAll(h, args);
    assert all.Ok? && all.value == values;
    assert [inner][1..] == [] && Reduce(h, w, func, []) == Ok(w);
    assert Reduce(h, element, func, [inner]) == Ok(w);
    OnlyOne(h, element, func, [inner]);
  }

  // ---- The trace ----

  /** An entry reports a step that happened: its result is what the step gives on what it was handed. */
  ghost predicate Happened(h: Host, entry: TraceEntry) {
    match entry
    case PipeStep(input, func, args, result) => func in h.filters && h.filters[func]([input] + args) == Ok(result)
    case BinaryStep(left, op, right, result) => result == ApplyBinary(h, op, left, right)
    case ArrayStep(func, count, result, matches) =>
      && matches <= count
      && result == Bool(if func == "some" then matches > 0 else matches == count)
  }

  ghost predicate AllHappened(h: Host, entries: seq<TraceEntry>) {
    forall i | 0 <= i < |entries| :: Happened(h, entries[i])
  }

  lemma {:induction false} MatchesCount(results: seq<Value>)
    ensures Matches(results) <= |results|
    ensures Matches(results) > 0 <==> exists i :: 0 <= i < |results| && Truthy(results[i])
    ensures Matches(results) == |results| <==> forall i | 0 <= i < |results| :: Truthy(results[i])
  {
    if results != [] {
      var n := |results| - 1;
      MatchesCount(results[..n]);
      assert forall i | 0 <= i < n :: results[..n][i] == results[i];
    }
  }

  lemma {:induction false} OneEach(h: Host, items: seq<Value>, args: seq<Expr>)
    ensures FilterEachTraced(h, items, args).Ok? ==> |FilterEachTraced(h, items, args).value| == |items|
  {
    if items != [] { OneEach(h, items[..|items| - 1], args); }
  }

  lemma {:induction false} ArrayStepHappened(h: Host, input: Value, func: string, args: seq<Expr>)
    requires ElementWise(func)
    ensures AllHappened(h, ArrayFilterTraced(h, input, func, args).pushed)
  {
    if input.Array? {
      var r := FilterEachTraced(h, input.items, args);
      OneEach(h, input.items, args);
      if r.Ok? { MatchesCount(r.value); }
    }
  }

  lemma {:induction false} AllTracesHappened(h: Host, args: seq<Expr>)
    ensures AllHappened(h, EvaluateAllTraced(h, args).pushed)
    decreases SizeAll(args)
  {
    if args != [] {
      TraceHappened(h, args[0]);
      AllTracesHappened(h, args[1..]);
    }
  }

  /** Every entry of a trace reports a step that happened, also when an error cuts the evaluation short. */
  lemma {:induction false} TraceHappened(h: Host, e: Expr)
    ensures AllHappened(h, EvaluateTraced(h, e).pushed)
    decreases Size(e)
  {
    match e
    case Literal(_) =>
    case Variable(_) =>
    case Call(_, _) =>
    case Pipe(input, func, args) =>
      TraceHappened(h, input);
      var t := EvaluateTraced(h, input);
      if t.outcome.Ok? {
        if ElementWise(func) {
          ArrayStepHappened(h, t.outcome.value, func, args);
        } else {
          AllTracesHappened(h, args);
        }
      }
    case Unary(_, operand) => TraceHappened(h, operand);
    case Binary(_, left, right) =>
      TraceHappened(h, left);
      TraceHappened(h, right);
  }

  /** No `some` or `all` is traced. */
  predicate NoElementWise(e: Expr) {
    match e
    case Pipe(input, func, args) =>
      !ElementWise(func) && NoElementWise(input) && forall i | 0 <= i < |args| :: NoElementWise(args[i])
    case Unary(_, operand) => NoElementWise(operand)
    case Binary(_, left, right) => NoElementWise(left) && NoElementWise(right)
    case _ => true
  }

  /** The pipes and binary operators of a tree, those inside calls apart. */
  function Entries(e: Expr): nat {
    match e
    case Pipe(input, _, args) => Entries(input) + EntriesAll(args) + 1
    case Unary(_, operand) => Entries(operand)
    case Binary(_, left, right) => Entries(left) + Entries(right) + 1
    case _ => 0
  }

  function EntriesAll(args: seq<Expr>): nat {
    if args == [] then 0 else Entries(args[0]) + EntriesAll(args[1..])
  }

  lemma {:induction false} AllTracesCount(h: Host, args: seq<Expr>)
    requires (forall i | 0 <= i < |args| :: NoElementWise(args[i])) && EvaluateAllTraced(h, args).outcome.Ok?
    ensures |EvaluateAllTraced(h, args).pushed| == EntriesAll(args)
    decreases SizeAll(args)
  {
    if args != [] {
      TraceCounts(h, args[0]);
      AllTracesCount(h, args[1..]);
    }
  }

  /** No step goes unreported: an evaluation that succeeds leaves one entry for each of them. */
  lemma {:induction false} TraceCounts(h: Host, e: Expr)
    requires NoElementWise(e) && EvaluateTraced(h, e).outcome.Ok?
    ensures |EvaluateTraced(h, e).pushed| == Entries(e)
    decreases Size(e)
  {
    match e
    case Literal(_) =>
    case Variable(_) =>
    case Call(_, _) =>
    case Pipe(input, func, args) =>
      TraceCounts(h, input);
      AllTracesCount(h, args);
    case Unary(_, operand) => TraceCounts(h, operand);
    case Binary(_, left, right) =>
      TraceCounts(h, left);
      TraceCounts(h, right);
  }

  /** A traced `some` or `all` over an array adds one entry with its length, its result and how many elements hold. */
  lemma {:induction false} ArrayTraced(h: Host, items: seq<Value>, func: string, args: seq<Expr>)
    ensures var t := ArrayFilterTraced(h, Array(items), func, args);
            t.outcome.Ok? ==> |t.pushed| == 1 && t.pushed[0].ArrayStep?
                              && t.pushed[0].func == func && t.pushed[0].count == |items|
                              && t.pushed[0].result == t.outcome.value
  {
  }
}
