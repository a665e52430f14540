/** The expression evaluator, and its second copy that also writes a trace. */
module ExprEvaluator {
  import opened Wrappers
  import opened ExprSyntax
  import opened TextFacts

  datatype Value =
    | Undefined | Null | Bool(flag: bool) | Number(num: real) | Str(text: string)
    | Array(items: seq<Value>) | Object(fields: map<string, Value>)

  datatype Error = UnknownFilter(name: string) | UnknownFunction(name: string) | Raised(message: string)

  type Filter = seq<Value> -> Result<Value, Error>

  /**
   * What surrounds an evaluation: the context object, the filters (plugins over built-ins), the operators on
   * operands that JavaScript converts first, and the JSON text of a syntax tree.
   */
  datatype Host = Host(
    context: Value, filters: map<string, Filter>, negate: Value -> Value, binary: (BinaryOp, Value, Value) -> Value,
    json: Expr -> string)

  predicate Truthy(v: Value) {
    match v
    case Undefined => false
    case Null => false
    case Bool(b) => b
    case Number(n) => n != 0.0
    case Str(s) => s != ""
    case Array(_) => true
    case Object(_) => true
  }

  function Constant(c: ExprSyntax.Constant): Value {
    match c
    case Flag(b) => Bool(b)
    case Num(n) => Number(n)
    case Text(s) => Str(s)
  }

  function Property(v: Value, key: string): Value {
    match v
    case Object(fields) => if key in fields then fields[key] else Undefined
    case Array(items) =>
      if key == "length" then Number(|items| as real)
      else if AllDigits(key) && Numeral(NumeralValue(key)) == key && NumeralValue(key) < |items| then
        items[NumeralValue(key)]
      else Undefined
    case _ => Undefined
  }

  function Walk(v: Value, keys: seq<string>): Value
    decreases |keys|
  {
    if keys == [] then v else Walk(Property(v, keys[0]), keys[1..])
  }

  function ResolveVariable(h: Host, name: string): Value {
    Walk(h.context, SplitOn(name, '.'))
  }

  function Size(e: Expr): nat
    decreases e
  {
    match e
    case Literal(_) => 1
    case Variable(_) => 1
    case Call(_, args) => 1 + SizeAll(args)
    case Pipe(input, _, args) => 2 + Size(input) + SizeAll(args)
    case Unary(_, operand) => 1 + Size(operand)
    case Binary(_, left, right) => 1 + Size(left) + Size(right)
  }

  function SizeAll(args: seq<Expr>): nat
    decreases args
  {
    if args == [] then 0 else 1 + Size(args[0]) + SizeAll(args[1..])
  }

  predicate ElementWise(func: string) {
    func == "some" || func == "all"
  }

  // ---- The plain evaluator ----

  function Evaluate(h: Host, e: Expr): Result<Value, Error>
    decreases Size(e), 0, 0
  {
    match e
    case Literal(value) => Ok(Constant(value))
    case Variable(name) => Ok(ResolveVariable(h, name))
    case Call(name, args) => CallFunction(h, name, args)
    case Pipe(input, func, args) =>
      var v :- Evaluate(h, input);
      if ElementWise(func) then ArrayFilter(h, v, func, args)
      else
        var values :- EvaluateAll(h, args);
        ApplyFilter(h, func, [v] + values)
    case Unary(op, operand) =>
      var v :- Evaluate(h, operand);
      Ok(ApplyUnary(h, op, v))
    case Binary(op, left, right) =>
      var l :- Evaluate(h, left);
      var r :- Evaluate(h, right);
      Ok(ApplyBinary(h, op, l, r))
  }

  function EvaluateAll(h: Host, args: seq<Expr>): Result<seq<Value>, Error>
    decreases SizeAll(args), 0, 0
  {
    if args == [] then Ok([])
    else
      var first :- Evaluate(h, args[0]);
      var rest :- EvaluateAll(h, args[1..]);
      Ok([first] + rest)
  }

  function ApplyFilter(h: Host, func: string, values: seq<Value>): Result<Value, Error> {
    if func in h.filters then h.filters[func](values) else Err(UnknownFilter(func))
  }

  function ApplyUnary(h: Host, op: UnaryOp, v: Value): Value {
    match op
    case Not => Bool(!Truthy(v))
    case Negate => if v.Number? then Number(-v.num) else h.negate(v)
  }

  /** `and` and `or` give back an operand, sums and differences take what is no number for zero. */
  function ApplyBinary(h: Host, op: BinaryOp, l: Value, r: Value): Value {
    match op
    case And => if Truthy(l) then r else l
    case Or => if Truthy(l) then l else r
    case Add => Number(NumberOrZero(l) + NumberOrZero(r))
    case Sub => Number(NumberOrZero(l) - NumberOrZero(r))
    case Mul => if l.Number? && r.Number? then Number(l.num * r.num) else h.binary(op, l, r)
    case Div =>
      if r == Number(0.0) then Number(0.0)
      else if l.Number? && r.Number? then Number(l.num / r.num)
      else h.binary(op, l, r)
    case Eq => if SameType(l, r) then Bool(Equal(l, r)) else h.binary(op, l, r)
    case Ne => if SameType(l, r) then Bool(!Equal(l, r)) else h.binary(op, l, r)
    case _ => if l.Number? && r.Number? then Bool(Compared(op, l.num, r.num)) else h.binary(op, l, r)
  }

  function NumberOrZero(v: Value): real {
    if v.Number? then v.num else 0.0
  }

  predicate Nullish(v: Value) {
    v.Undefined? || v.Null?
  }

  /** Operands that are compared without conversion: two of one primitive type, or one that is nullish. */
  predicate SameType(l: Value, r: Value) {
    || (l.Number? && r.Number?) || (l.Str? && r.Str?) || (l.Bool? && r.Bool?)
    || Nullish(l) || Nullish(r)
  }

  predicate Equal(l: Value, r: Value) {
    if Nullish(l) || Nullish(r) then Nullish(l) && Nullish(r) else l == r
  }

  predicate Compared(op: BinaryOp, a: real, b: real) {
    match op
    case Gt => a > b
    case Ge => a >= b
    case Lt => a < b
    case _ => a <= b
  }

  function CallFunction(h: Host, name: string, args: seq<Expr>): Result<Value, Error>
    decreases SizeAll(args), 1, 0
  {
    var values :- CallArguments(h, args);
    if name in h.filters then h.filters[name](values) else Err(UnknownFunction(name))
  }

  function CallArguments(h: Host, args: seq<Expr>): Result<seq<Value>, Error>
    decreases SizeAll(args), 0, 0
  {
    if args == [] then Ok([])
    else
      var first :- (match args[0]
                    case Call(name, inner) => assert Size(args[0]) == 1 + SizeAll(inner); CallFunction(h, name, inner)
                    case _ => Ok(SimpleValue(h, args[0])));
      var rest :- CallArguments(h, args[1..]);
      Ok([first] + rest)
  }

  /** Calls and pipes below an operator are looked up as a variable named by their JSON text. */
  function SimpleValue(h: Host, e: Expr): Value {
    match e
    case Literal(value) => Constant(value)
    case Variable(name) => ResolveVariable(h, name)
    case Binary(op, left, right) => ApplyBinary(h, op, SimpleValue(h, left), SimpleValue(h, right))
    case Unary(op, operand) => ApplyUnary(h, op, SimpleValue(h, operand))
    case _ => ResolveVariable(h, h.json(e))
  }

  function ArrayFilter(h: Host, input: Value, func: string, args: seq<Expr>): Result<Value, Error>
    decreases SizeAll(args), 3, 0
  {
    if !input.Array? then Ok(Bool(func != "some"))
    else
      var results :- FilterEach(h, input.items, func, args);
      Ok(Bool(Combined(func, results)))
  }

  function Combined(func: string, results: seq<Value>): bool {
    if func == "some" then exists i | 0 <= i < |results| :: Truthy(results[i])
    else forall i | 0 <= i < |results| :: Truthy(results[i])
  }

  function FilterEach(h: Host, items: seq<Value>, func: string, args: seq<Expr>): Result<seq<Value>, Error>
    decreases SizeAll(args), 2, |items|
  {
    if items == [] then Ok([])
    else
      var first :- FilterElement(h, items[0], func, args);
      var rest :- FilterEach(h, items[1..], func, args);
      Ok([first] + rest)
  }

  function FilterElement(h: Host, element: Value, func: string, args: seq<Expr>): Result<Value, Error>
    decreases SizeAll(args), 1, 1
  {
    if args == [] then Ok(Bool(Truthy(element))) else Reduce(h, element, func, args)
  }

  function Reduce(h: Host, v: Value, func: string, args: seq<Expr>): Result<Value, Error>
    decreases SizeAll(args), 1, 0
  {
    if args == [] then Ok(v)
    else
      var next :- Step(h, v, func, args[0]);
      Reduce(h, next, func, args[1..])
  }

  /** One argument of `some` or `all`, applied to the value so far. */
  function Step(h: Host, v: Value, func: string, arg: Expr): Result<Value, Error>
    decreases Size(arg), 1, 0
  {
    match arg
    case Call(name, args) => CallStep(h, v, name, args)
    case Pipe(input, inner, args) =>
      assert SizeAll([input]) == 1 + Size(input) + SizeAll([]);
      var kept :- ArrayFilter(h, Array([v]), func, [input]);
      if inner == "" then Ok(kept)
      else if inner !in h.filters then Err(UnknownFilter(inner))
      else
        var values :- EvaluateAll(h, args);
        h.filters[inner]([if kept == Bool(true) then v else kept] + values)
    case _ => Evaluate(h, arg)
  }

  function CallStep(h: Host, v: Value, name: string, args: seq<Expr>): Result<Value, Error>
    decreases SizeAll(args), 1, 0
  {
    if name !in h.filters then Err(UnknownFilter(name))
    else
      var values :- EvaluateAll(h, args);
      h.filters[name]([v] + values)
  }

  /** The element map: one result per element in order, or the error of the first element that fails. */
  lemma {:induction false} FilterEachMeaning(h: Host, items: seq<Value>, func: string, args: seq<Expr>)
    ensures match FilterEach(h, items, func, args)
            case Ok(results) =>
              |results| == |items| && forall i | 0 <= i < |items| ::
                FilterElement(h, items[i], func, args) == Ok(results[i])
            case Err(error) =>
              exists i :: 0 <= i < |items| && FilterElement(h, items[i], func, args) == Err(error)
                          && forall k | 0 <= k < i :: FilterElement(h, items[k], func, args).Ok?
    decreases |items|
  {
    if items != [] {
      FilterEachMeaning(h, items[1..], func, args);
      var rest := FilterEach(h, items[1..], func, args);
      if FilterElement(h, items[0], func, args).Ok? && rest.Err? {
        var i :| 0 <= i < |items[1..]| && FilterElement(h, items[1..][i], func, args) == Err(rest.error)
                 && forall k | 0 <= k < i :: FilterElement(h, items[1..][k], func, args).Ok?;
        assert items[i + 1] == items[1..][i] && forall k | 0 < k < i + 1 :: items[k] == items[1..][k - 1];
      }
    }
  }

  /** `some` is "at least one element" and `all` "every element", unless an element fails: then the first failure. */
  lemma {:induction false} ElementWiseMeaning(h: Host, items: seq<Value>, func: string, args: seq<Expr>)
    requires ElementWise(func)
    ensures match ArrayFilter(h, Array(items), func, args)
            case Ok(value) =>
              && (forall i | 0 <= i < |items| :: FilterElement(h, items[i], func, args).Ok?)
              && value == Bool(
                   if func == "some" then
                     exists i :: 0 <= i < |items| && Truthy(FilterElement(h, items[i], func, args).value)
                   else forall i | 0 <= i < |items| :: Truthy(FilterElement(h, items[i], func, args).value))
            case Err(error) =>
              exists i :: 0 <= i < |items| && FilterElement(h, items[i], func, args) == Err(error)
                          && forall k | 0 <= k < i :: FilterElement(h, items[k], func, args).Ok?
  {
    FilterEachMeaning(h, items, func, args);
    var results := FilterEach(h, items, func, args);
    if results.Ok? {
      assert forall i | 0 <= i < |items| ::
             Truthy(results.value[i]) == Truthy(FilterElement(h, items[i], func, args).value);
    }
  }

  /** No call and no pipe anywhere in the tree. */
  predicate Inline(e: Expr) {
    match e
    case Literal(_) => true
    case Variable(_) => true
    case Unary(_, operand) => Inline(operand)
    case Binary(_, left, right) => Inline(left) && Inline(right)
    case _ => false
  }

  /** The reduced evaluator inside call arguments computes the same values as the full one. */
  lemma {:induction false} SimpleAgrees(h: Host, e: Expr)
    requires Inline(e)
    ensures Evaluate(h, e) == Ok(SimpleValue(h, e))
    decreases e
  {
    match e
    case Literal(_) =>
    case Variable(_) =>
    case Unary(_, operand) =>
      SimpleAgrees(h, operand);
    case Binary(_, left, right) =>
      SimpleAgrees(h, left);
      SimpleAgrees(h, right);
  }

  /** So a call whose arguments are calls or inline trees passes what evaluating them gives. */
  lemma {:induction false} CallArgumentsAgree(h: Host, args: seq<Expr>)
    requires forall i | 0 <= i < |args| :: args[i].Call? || Inline(args[i])
    ensures CallArguments(h, args) == EvaluateAll(h, args)
    decreases |args|
  {
    if args != [] {
      if !args[0].Call? {
        SimpleAgrees(h, args[0]);
      }
      CallArgumentsAgree(h, args[1..]);
    }
  }

  // ---- The traced evaluator, on values ----

  datatype TraceEntry =
    | PipeStep(input: Value, func: string, args: seq<Value>, result: Value)
    | BinaryStep(left: Value, op: BinaryOp, right: Value, result: Value)
    | ArrayStep(func: string, count: nat, result: Value, matches: nat)

  /** The outcome and the entries pushed on the way, also when an error cuts it short. */
  datatype Traced<T> = Traced(outcome: Result<T, Error>, pushed: seq<TraceEntry>)

  function Quiet<T>(outcome: Result<T, Error>): Traced<T> {
    Traced(outcome, [])
  }

  function EvaluateTraced(h: Host, e: Expr): Traced<Value>
    decreases Size(e), 0
  {
    match e
    case Literal(value) => Quiet(Ok(Constant(value)))
    case Variable(name) => Quiet(Ok(ResolveVariable(h, name)))
    case Call(name, args) => Quiet(CallFunction(h, name, args))
    case Pipe(input, func, args) =>
      var t := EvaluateTraced(h, input);
      if t.outcome.Err? then t
      else
        var v := t.outcome.value;
        var a := if ElementWise(func) then ArrayFilterTraced(h, v, func, args) else FilterTraced(h, v, func, args);
        Traced(a.outcome, t.pushed + a.pushed)
    case Unary(op, operand) =>
      var t := EvaluateTraced(h, operand);
      if t.outcome.Err? then t else Traced(Ok(ApplyUnary(h, op, t.outcome.value)), t.pushed)
    case Binary(op, left, right) =>
      var l := EvaluateTraced(h, left);
      if l.outcome.Err? then l
      else
        var r := EvaluateTraced(h, right);
        if r.outcome.Err? then Traced(r.outcome, l.pushed + r.pushed)
        else
          var v := ApplyBinary(h, op, l.outcome.value, r.outcome.value);
          Traced(Ok(v), l.pushed + r.pushed + [BinaryStep(l.outcome.value, op, r.outcome.value, v)])
  }

  function FilterTraced(h: Host, v: Value, func: string, args: seq<Expr>): Traced<Value>
    decreases SizeAll(args), 1
  {
    var s := EvaluateAllTraced(h, args);
    if s.outcome.Err? then Traced(Err(s.outcome.error), s.pushed)
    else
      var r := ApplyFilter(h, func, [v] + s.outcome.value);
      Traced(r, if r.Ok? then s.pushed + [PipeStep(v, func, s.outcome.value, r.value)] else s.pushed)
  }

  function EvaluateAllTraced(h: Host, args: seq<Expr>): Traced<seq<Value>>
    decreases SizeAll(args), 0
  {
    if args == [] then Traced(Ok([]), [])
    else
      var t := EvaluateTraced(h, args[0]);
      if t.outcome.Err? then Traced(Err(t.outcome.error), t.pushed)
      else
        var s := EvaluateAllTraced(h, args[1..]);
        Traced(if s.outcome.Ok? then Ok([t.outcome.value] + s.outcome.value) else s.outcome, t.pushed + s.pushed)
  }

  function Matches(results: seq<Value>): nat {
    if results == [] then 0 else Matches(results[..|results| - 1]) + if Truthy(results[|results| - 1]) then 1 else 0
  }

  function ArrayFilterTraced(h: Host, input: Value, func: string, args: seq<Expr>): Traced<Value> {
    if !input.Array? then Quiet(Ok(Bool(func != "some")))
    else
      var r := FilterEachTraced(h, input.items, args);
      if r.Err? then Quiet(Err(r.error))
      else
        var v := Bool(Combined(func, r.value));
        Traced(Ok(v), [ArrayStep(func, |input.items|, v, Matches(r.value))])
  }

  function FilterEachTraced(h: Host, items: seq<Value>, args: seq<Expr>): Result<seq<Value>, Error> {
    if items == [] then Ok([])
    else
      var front :- FilterEachTraced(h, items[..|items| - 1], args);
      var last :- FilterElementTraced(h, items[|items| - 1], args);
      Ok(front + [last])
  }

  function FilterElementTraced(h: Host, element: Value, args: seq<Expr>): Result<Value, Error> {
    if args == [] then Ok(Bool(Truthy(element))) else ReduceTraced(h, element, args)
  }

  function ReduceTraced(h: Host, v: Value, args: seq<Expr>): Result<Value, Error>
    decreases |args|
  {
    if args == [] then Ok(v)
    else
      var next :- StepTraced(h, v, args[0]);
      ReduceTraced(h, next, args[1..])
  }

  /** The copy has no case for pipes: they are evaluated on their own, without the element. */
  function StepTraced(h: Host, v: Value, arg: Expr): Result<Value, Error> {
    if arg.Call? then CallStep(h, v, arg.name, arg.args) else Evaluate(h, arg)
  }

  // ---- The traced evaluator, pushing to a trace ----

  class Trace {
    var entries: seq<TraceEntry>

    constructor ()
      ensures entries == []
    {
      entries := [];
    }

    method Push(entry: TraceEntry)
      modifies this
      ensures entries == old(entries) + [entry]
    {
      entries := entries + [entry];
    }
  }

  method RunTraced(h: Host, e: Expr, trace: Trace) returns (r: Result<Value, Error>)
    modifies trace
    ensures r == EvaluateTraced(h, e).outcome
    ensures trace.entries == old(trace.entries) + EvaluateTraced(h, e).pushed
    decreases Size(e), 1
  {
    match e {
      case Literal(value) =>
        return Ok(Constant(value));
      case Variable(name) =>
        return Ok(ResolveVariable(h, name));
      case Call(name, args) =>
        return CallFunction(h, name, args);
      case Pipe(_, _, _) =>
        r := RunTracedPipe(h, e, trace);
      case Unary(op, operand) =>
        var v := RunTraced(h, operand, trace);
        return if v.Err? then v else Ok(ApplyUnary(h, op, v.value));
      case Binary(_, _, _) =>
        r := RunTracedBinary(h, e, trace);
    }
  }

  method RunTracedPipe(h: Host, e: Expr, trace: Trace) returns (r: Result<Value, Error>)
    requires e.Pipe?
    modifies trace
    ensures r == EvaluateTraced(h, e).outcome
    ensures trace.entries == old(trace.entries) + EvaluateTraced(h, e).pushed
    decreases Size(e), 0
  {
    var input := RunTraced(h, e.input, trace);
    if input.Err? {
      return input;
    }
    if ElementWise(e.func) {
      r := RunTracedArrayFilter(h, input.value, e.func, e.args, trace);
    } else {
      r := RunTracedFilter(h, input.value, e.func, e.args, trace);
    }
  }

  method RunTracedFilter(h: Host, v: Value, func: string, args: seq<Expr>, trace: Trace)
    returns (r: Result<Value, Error>)
    modifies trace
    ensures r == FilterTraced(h, v, func, args).outcome
    ensures trace.entries == old(trace.entries) + FilterTraced(h, v, func, args).pushed
    decreases SizeAll(args), 1
  {
    var values := RunTracedAll(h, args, trace);
    if values.Err? {
      return Err(values.error);
    }
    r := ApplyFilter(h, func, [v] + values.value);
    if r.Ok? {
      trace.Push(PipeStep(v, func, values.value, r.value));
    }
  }

  method RunTracedBinary(h: Host, e: Expr, trace: Trace) returns (r: Result<Value, Error>)
    requires e.Binary?
    modifies trace
    ensures r == EvaluateTraced(h, e).outcome
    ensures trace.entries == old(trace.entries) + EvaluateTraced(h, e).pushed
    decreases Size(e), 0
  {
    var left := RunTraced(h, e.left, trace);
    if left.Err? {
      return left;
    }
    var right := RunTraced(h, e.right, trace);
    if right.Err? {
      return right;
    }
    var result := ApplyBinary(h, e.bop, left.value, right.value);
    trace.Push(BinaryStep(left.value, e.bop, right.value, result));
    return Ok(result);
  }

  method RunTracedAll(h: Host, args: seq<Expr>, trace: Trace) returns (r: Result<seq<Value>, Error>)
    modifies trace
    ensures r == EvaluateAllTraced(h, args).outcome
    ensures trace.entries == old(trace.entries) + EvaluateAllTraced(h, args).pushed
    decreases SizeAll(args), 0
  {
    if args == [] {
      return Ok([]);
    }
    var first := RunTraced(h, args[0], trace);
    if first.Err? {
      return Err(first.error);
    }
    var rest := RunTracedAll(h, args[1..], trace);
    return if rest.Ok? then Ok([first.value] + rest.value) else rest;
  }

  method RunTracedArrayFilter(h: Host, input: Value, func: string, args: seq<Expr>, trace: Trace)
    returns (r: Result<Value, Error>)
    modifies trace
    ensures r == ArrayFilterTraced(h, input, func, args).outcome
    ensures trace.entries == old(trace.entries) + ArrayFilterTraced(h, input, func, args).pushed
  {
    if !input.Array? {
      return Ok(Bool(func != "some"));
    }
    var items := input.items;
    var matchCount := 0;
    var results: seq<Value> := [];
    for i := 0 to |items|
      invariant FilterEachTraced(h, items[..i], args) == Ok(results) && matchCount == Matches(results)
      invariant trace.entries == old(trace.entries)
    {
      assert items[..i + 1][..i] == items[..i] && items[..i + 1][i] == items[i];
      var result := FilterElementTraced(h, items[i], args);
      if result.Err? {
        ErrorCarries(h, items, args, i + 1);
        return result;
      }
      assert (results + [result.value])[..|results|] == results;
      if Truthy(result.value) {
        matchCount := matchCount + 1;
      }
      results := results + [result.value];
    }
    assert items[..|items|] == items;
    r := Ok(Bool(Combined(func, results)));
    trace.Push(ArrayStep(func, |items|, r.value, matchCount));
  }

  lemma {:induction false} ErrorCarries(h: Host, items: seq<Value>, args: seq<Expr>, i: nat)
    requires i <= |items| && FilterEachTraced(h, items[..i], args).Err?
    ensures FilterEachTraced(h, items, args) == FilterEachTraced(h, items[..i], args)
  {
    if i == |items| {
      assert items[..i] == items;
    } else {
      assert items[..|items| - 1][..i] == items[..i];
      ErrorCarries(h, items[..|items| - 1], args, i);
    }
  }

  /** `evaluateWithTrace`: the value together with the whole trace, or the error alone. */
  method EvaluateWithTrace(h: Host, e: Expr) returns (r: Result<(Value, seq<TraceEntry>), Error>)
    ensures var t := EvaluateTraced(h, e);
            r == if t.outcome.Ok? then Ok((t.outcome.value, t.pushed)) else Err(t.outcome.error)
  {
    var trace := new Trace();
    var result := RunTraced(h, e, trace);
    assert [] + EvaluateTraced(h, e).pushed == EvaluateTraced(h, e).pushed;
    return if result.Ok? then Ok((result.value, trace.entries)) else Err(result.error);
  }

  // ---- Tracing does not change results ----

  /** No traced `some` or `all` has an argument that is itself a pipe. */
  predicate NoPipedCondition(e: Expr)
    decreases e
  {
    match e
    case Pipe(input, func, args) =>
      NoPipedCondition(input)
      && if ElementWise(func) then forall i | 0 <= i < |args| :: !args[i].Pipe?
         else forall i | 0 <= i < |args| :: NoPipedCondition(args[i])
    case Unary(_, operand) => NoPipedCondition(operand)
    case Binary(_, left, right) => NoPipedCondition(left) && NoPipedCondition(right)
    case _ => true
  }

  /** Where the trace-free evaluation of the same conditions is the same. */
  lemma {:induction false} ReduceSame(h: Host, v: Value, func: string, args: seq<Expr>)
    requires forall i | 0 <= i < |args| :: !args[i].Pipe?
    ensures ReduceTraced(h, v, args) == Reduce(h, v, func, args)
    decreases |args|
  {
    if args != [] {
      var next := Step(h, v, func, args[0]);
      assert StepTraced(h, v, args[0]) == next;
      if next.Ok? {
        ReduceSame(h, next.value, func, args[1..]);
      }
    }
  }

  lemma {:induction false} FilterEachLast(h: Host, items: seq<Value>, func: string, args: seq<Expr>)
    requires items != []
    ensures var front := FilterEach(h, items[..|items| - 1], func, args);
            var last := FilterElement(h, items[|items| - 1], func, args);
            FilterEach(h, items, func, args)
            == if front.Err? then front else if last.Err? then Err(last.error) else Ok(front.value + [last.value])
    decreases |items|
  {
    var first := FilterElement(h, items[0], func, args);
    if |items| == 1 {
      assert items[1..] == [] && items[..0] == [];
      if first.Ok? {
        assert [first.value] + [] == [] + [first.value];
      }
    } else {
      FilterEachLast(h, items[1..], func, args);
      assert items[1..][..|items| - 2] == items[..|items| - 1][1..];
      var middle := FilterEach(h, items[1..][..|items| - 2], func, args);
      var last := FilterElement(h, items[|items| - 1], func, args);
      if first.Ok? && middle.Ok? && last.Ok? {
        assert [first.value] + (middle.value + [last.value]) == ([first.value] + middle.value) + [last.value];
      }
    }
  }

  lemma {:induction false} FilterEachSame(h: Host, items: seq<Value>, func: string, args: seq<Expr>)
    requires forall i | 0 <= i < |args| :: !args[i].Pipe?
    ensures FilterEachTraced(h, items, args) == FilterEach(h, items, func, args)
    decreases |items|
  {
    if items != [] {
      FilterEachSame(h, items[..|items| - 1], func, args);
      FilterEachLast(h, items, func, args);
      ReduceSame(h, items[|items| - 1], func, args);
    }
  }

  lemma {:induction false} TracingKeepsAll(h: Host, args: seq<Expr>)
    requires forall i | 0 <= i < |args| :: NoPipedCondition(args[i])
    ensures EvaluateAllTraced(h, args).outcome == EvaluateAll(h, args)
    decreases SizeAll(args)
  {
    if args != [] {
      TracingKeepsResult(h, args[0]);
      TracingKeepsAll(h, args[1..]);
    }
  }

  /** The traced evaluator returns the same value or raises the same error as the plain one. */
  lemma {:induction false} TracingKeepsResult(h: Host, e: Expr)
    requires NoPipedCondition(e)
    ensures EvaluateTraced(h, e).outcome == Evaluate(h, e)
    decreases Size(e)
  {
    match e
    case Literal(_) =>
    case Variable(_) =>
    case Call(_, _) =>
    case Pipe(input, func, args) =>
      TracingKeepsResult(h, input);
      var v := Evaluate(h, input);
      if !ElementWise(func) {
        TracingKeepsAll(h, args);
      } else if v.Ok? && v.value.Array? {
        FilterEachSame(h, v.value.items, func, args);
      }
    case Unary(_, operand) =>
      TracingKeepsResult(h, operand);
    case Binary(_, left, right) =>
      TracingKeepsResult(h, left);
      TracingKeepsResult(h, right);
  }

  // ---- When a piped condition matters ----

  /** `x | some(inner | filter)` or the same with `all`, the shape that the traced copy has no case for. */
  function Conditioned(input: Expr, ew: string, inner: Expr, filter: string): Expr {
    Pipe(input, ew, [Pipe(inner, filter, [])])
  }

  /** A literal, or a plain variable. */
  predicate IsSimple(e: Expr) {
    e.Literal? || (e.Variable? && '.' !in e.name)
  }

  lemma {:induction false} SinglePart(name: string)
    requires '.' !in name
    ensures SplitOn(name, '.') == [name]
  {
    if name != "" {
      SinglePart(name[1..]);
      assert [name[0]] + name[1..] == name;
    }
  }

  /** Says of its input whether it is anything but `false`. */
  function NotFalse(values: seq<Value>): Result<Value, Error> {
    Ok(Bool(values == [] || values[0] != Bool(false)))
  }

  function Witness(x: string, filter: string): Host {
    Host(Object(map[x := Array([Bool(false)])]), map[filter := NotFalse], v => v, (op, l, r) => l, e => "")
  }

  lemma {:induction false} WitnessValues(x: string, filter: string, inner: Expr)
    requires '.' !in x && IsSimple(inner) && inner != Literal(Flag(false))
    ensures ResolveVariable(Witness(x, filter), x) == Array([Bool(false)])
    ensures Evaluate(Witness(x, filter), inner).Ok? && Evaluate(Witness(x, filter), inner).value != Bool(false)
  {
    var h := Witness(x, filter);
    SinglePart(x);
    assert Walk(h.context, [x]) == Walk(Property(h.context, x), []);
    if inner.Variable? {
      SinglePart(inner.name);
      assert Walk(h.context, [inner.name]) == Walk(Property(h.context, inner.name), []);
    }
  }

  /** A filter over one element that is false, under a condition whose input is not. */
  lemma {:induction false} WitnessSteps(x: string, ew: string, inner: Expr, filter: string)
    requires ElementWise(ew) && filter != "" && !ElementWise(filter)
    requires '.' !in x && IsSimple(inner) && inner != Literal(Flag(false))
    ensures var h, condition := Witness(x, filter), Pipe(inner, filter, []);
            Step(h, Bool(false), ew, condition) == Ok(Bool(false))
              && StepTraced(h, Bool(false), condition) == Ok(Bool(true))
  {
    var h, condition := Witness(x, filter), Pipe(inner, filter, []);
    WitnessValues(x, filter, inner);
    var v := Evaluate(h, inner).value;
    assert Reduce(h, Bool(false), ew, [inner]) == Reduce(h, v, ew, []);
    OnlyOne(h, Bool(false), ew, [inner]);
    assert NotFalse([Bool(false)] + []) == Ok(Bool(false)) && NotFalse([v] + []) == Ok(Bool(true));
    assert EvaluateAll(h, []) == Ok([]);
    assert Evaluate(h, condition) == ApplyFilter(h, filter, [v] + []);
  }

  lemma {:induction false} WitnessDiffers(x: string, ew: string, inner: Expr, filter: string)
    requires ElementWise(ew) && filter != "" && !ElementWise(filter)
    requires '.' !in x && IsSimple(inner) && inner != Literal(Flag(false))
    ensures var h, e := Witness(x, filter), Conditioned(Variable(x), ew, inner, filter);
            Evaluate(h, e) == Ok(Bool(false)) && EvaluateTraced(h, e).outcome == Ok(Bool(true))
  {
    var h, condition := Witness(x, filter), Pipe(inner, filter, []);
    WitnessValues(x, filter, inner);
    WitnessSteps(x, ew, inner, filter);
    assert Reduce(h, Bool(false), ew, [condition]) == Reduce(h, Bool(false), ew, []);
    OnlyOne(h, Bool(false), ew, [condition]);
    assert ReduceTraced(h, Bool(false), [condition]) == ReduceTraced(h, Bool(true), []);
    assert [Bool(false)][..0] == [];
    assert FilterEachTraced(h, [Bool(false)], [condition]) == Ok([] + [Bool(true)]);
    assert Combined(ew, [] + [Bool(true)]) by { assert Truthy(([] + [Bool(true)])[0]); }
  }

  /** A condition piped from `false` is the one that cannot matter: both copies hand the filter `false`. */
  lemma {:induction false} PipedFalseNeverDiffers(h: Host, input: Expr, ew: string, filter: string)
    requires NoPipedCondition(input) && ElementWise(ew) && filter != "" && !ElementWise(filter)
    ensures var e := Conditioned(input, ew, Literal(Flag(false)), filter);
            EvaluateTraced(h, e).outcome == Evaluate(h, e)
  {
    var inner := Literal(Flag(false));
    var condition := Pipe(inner, filter, []);
    TracingKeepsResult(h, input);
    var v := Evaluate(h, input);
    if v.Ok? && v.value.Array? {
      forall element ensures StepTraced(h, element, condition) == Step(h, element, ew, condition) {
        assert Reduce(h, element, ew, [inner]) == Reduce(h, Bool(false), ew, []);
        OnlyOne(h, element, ew, [inner]);
        assert EvaluateAll(h, []) == Ok([]);
        assert Evaluate(h, condition) == ApplyFilter(h, filter, [Bool(false)] + []);
      }
      SameConditions(h, v.value.items, ew, condition);
    }
  }

  lemma {:induction false} SameConditions(h: Host, items: seq<Value>, ew: string, condition: Expr)
    requires forall element :: StepTraced(h, element, condition) == Step(h, element, ew, condition)
    ensures FilterEachTraced(h, items, [condition]) == FilterEach(h, items, ew, [condition])
    decreases |items|
  {
    if items != [] {
      var last := items[|items| - 1];
      SameConditions(h, items[..|items| - 1], ew, condition);
      FilterEachLast(h, items, ew, [condition]);
      SameCondition(h, last, ew, condition);
    }
  }

  lemma {:induction false} SameCondition(h: Host, v: Value, ew: string, condition: Expr)
    requires StepTraced(h, v, condition) == Step(h, v, ew, condition)
    ensures ReduceTraced(h, v, [condition]) == Reduce(h, v, ew, [condition])
  {
    var next := Step(h, v, ew, condition);
    assert [condition][1..] == [];
    if next.Ok? {
      assert ReduceTraced(h, v, [condition]) == ReduceTraced(h, next.value, []);
      assert Reduce(h, v, ew, [condition]) == Reduce(h, next.value, ew, []);
    }
  }

  /**
   * So the condition on tracing is needed: over all hosts, a condition piped from a literal or a variable
   * leaves tracing without effect if and only if it is piped from `false`.
   */
  lemma {:induction false} PipedConditionExactly(x: string, ew: string, inner: Expr, filter: string)
    requires ElementWise(ew) && filter != "" && !ElementWise(filter) && '.' !in x && IsSimple(inner)
    ensures var e := Conditioned(Variable(x), ew, inner, filter);
            (forall h: Host :: EvaluateTraced(h, e).outcome == Evaluate(h, e)) <==> inner == Literal(Flag(false))
  {
    var e := Conditioned(Variable(x), ew, inner, filter);
    if inner == Literal(Flag(false)) {
      forall h: Host ensures EvaluateTraced(h, e).outcome == Evaluate(h, e) {
        PipedFalseNeverDiffers(h, Variable(x), ew, filter);
      }
    } else {
      WitnessDiffers(x, ew, inner, filter);
      assert EvaluateTraced(Witness(x, filter), e).outcome != Evaluate(Witness(x, filter), e);
    }
  }

  lemma {:induction false} OnlyOne(h: Host, v: Value, func: string, args: seq<Expr>)
    requires args != [] && Reduce(h, v, func, args).Ok?
    ensures ArrayFilter(h, Array([v]), func, args) == Ok(Bool(Truthy(Reduce(h, v, func, args).value)))
  {
    var result := Reduce(h, v, func, args).value;
    assert [v][1..] == [];
    assert FilterEach(h, [v], func, args) == Ok([result] + []);
    assert [result] + [] == [result];
    assert Truthy([result][0]) == Truthy(result);
  }
}
