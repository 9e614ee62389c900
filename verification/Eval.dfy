/** Evaluation of expressions against a payload (sohara-core/src/expr/eval.rs). */
module Eval {
  import opened Json
  import opened Ast
  import opened Payload

  /** What the clock, the random ids and the environment answer during one evaluation. */
  datatype Moment = Moment(now: string, uuid: string, env: map<string, string>)

  /**
   * Flow variables, the parts of evaluation that rest on doubles or text
   * formatting, and the moment. The former are fixed functions: `compare` and
   * `arith` of two values, `convert` of the last argument of `int`, `float`,
   * `str` or `len`.
   */
  datatype Context = Context(
    vars: map<string, Value>,
    compare: (CmpOp, Value, Value) -> Option<Value>,
    arith: (BinOp, Value, Value) -> Option<Value>,
    convert: (string, Value) -> Option<Value>,
    moment: Moment)

  /** The same flow at another moment. */
  function At(ctx: Context, m: Moment): Context { ctx.(moment := m) }

  function Evaluate(e: Expr, v: Value, ctx: Context): Option<Value>
    decreases e, 1
  {
    match e
    case Lit(value) => Some(value)
    case Path(segments) => Get(v, segments)
    case List(items) =>
      var values := EvaluateAll(items, v, ctx);
      if values.None? then None else Some(Arr(values.value))
    case Not(inner) =>
      var x := Evaluate(inner, v, ctx);
      if x.None? then None else Some(Bool(!Truthy(x.value)))
    case Call(name, args) =>
      var values := EvaluateAll(args, v, ctx);
      if values.None? then None else CallWith(name, values.value, ctx)
    case Bin(op, lhs, rhs) =>
      var left := Evaluate(lhs, v, ctx);
      if left.None? then None
      else if op == AndOp && !Truthy(left.value) then Some(Bool(false))
      else if op == OrOp && Truthy(left.value) then Some(Bool(true))
      else
        var right := Evaluate(rhs, v, ctx);
        if right.None? then None else Combine(op, left.value, right.value, ctx)
  }

  function EvaluateAll(es: seq<Expr>, v: Value, ctx: Context): Option<seq<Value>>
    decreases es, 0
  {
    if es == [] then Some([])
    else
      var first := Evaluate(es[0], v, ctx);
      if first.None? then None
      else
        var rest := EvaluateAll(es[1..], v, ctx);
        if rest.None? then None else Some([first.value] + rest.value)
  }

  /** Both operands are known; `and` and `or` get here only when the left one did not decide. */
  function Combine(op: BinOp, left: Value, right: Value, ctx: Context): Option<Value> {
    match op
    case AndOp => Some(Bool(Truthy(right)))
    case OrOp => Some(Bool(Truthy(right)))
    case InOp => if right.Arr? then Some(Bool(left in right.items)) else None
    case CmpBin(cmp) => ctx.compare(cmp, left, right)
    case _ => ctx.arith(op, left, right)
  }

  /** Functions take their last argument; `now` and `uuid` take none. */
  function CallWith(name: string, values: seq<Value>, ctx: Context): Option<Value> {
    if name == "now" then if values == [] then Some(Str(ctx.moment.now)) else None
    else if name == "uuid" then if values == [] then Some(Str(ctx.moment.uuid)) else None
    else if values == [] then None
    else CallOne(name, values[|values| - 1], ctx)
  }

  function CallOne(name: string, arg: Value, ctx: Context): Option<Value> {
    if name == "var" then if arg.Str? && arg.text in ctx.vars then Some(ctx.vars[arg.text]) else None
    else if name == "env" then
      if arg.Str? && arg.text in ctx.moment.env then Some(Str(ctx.moment.env[arg.text])) else None
    else if name in ["int", "float", "str", "len"] then ctx.convert(name, arg)
    else None
  }

  // ---------- what an evaluation depends on ----------

  /** No function whose answer changes from call to call. */
  predicate Steady(e: Expr)
    decreases e, 1
  {
    match e
    case Lit(_) => true
    case Path(_) => true
    case List(items) => AllSteady(items)
    case Not(inner) => Steady(inner)
    case Call(name, args) => name != "now" && name != "uuid" && name != "env" && AllSteady(args)
    case Bin(_, lhs, rhs) => Steady(lhs) && Steady(rhs)
  }

  predicate AllSteady(es: seq<Expr>)
    decreases es, 0
  {
    es == [] || (Steady(es[0]) && AllSteady(es[1..]))
  }

  /** A steady expression has the same value, or failure, at every moment. */
  lemma {:induction false} SteadyEvaluates(e: Expr, v: Value, ctx: Context, m: Moment)
    requires Steady(e)
    ensures Evaluate(e, v, At(ctx, m)) == Evaluate(e, v, ctx)
    decreases e, 1
  {
    match e
    case Lit(_) =>
    case Path(_) =>
    case List(items) => SteadyEvaluatesAll(items, v, ctx, m);
    case Not(inner) => SteadyEvaluates(inner, v, ctx, m);
    case Call(_, args) => SteadyEvaluatesAll(args, v, ctx, m);
    case Bin(_, lhs, rhs) =>
      SteadyEvaluates(lhs, v, ctx, m);
      SteadyEvaluates(rhs, v, ctx, m);
  }

  lemma {:induction false} SteadyEvaluatesAll(es: seq<Expr>, v: Value, ctx: Context, m: Moment)
    requires AllSteady(es)
    ensures EvaluateAll(es, v, At(ctx, m)) == EvaluateAll(es, v, ctx)
    decreases es, 0
  {
    if es != [] {
      SteadyEvaluates(es[0], v, ctx, m);
      SteadyEvaluatesAll(es[1..], v, ctx, m);
    }
  }

  /** An expression that is not steady: whether the clock shows this text. */
  function ShowsTime(time: string): Expr { Bin(InOp, Call("now", []), List([Lit(Str(time))])) }

  lemma ShowsTimeValue(time: string, v: Value, ctx: Context)
    ensures Evaluate(ShowsTime(time), v, ctx) == Some(Bool(ctx.moment.now == time))
  {
    var one := [Lit(Str(time))];
    assert one[1..] == [] && EvaluateAll([], v, ctx) == Some([]);
    assert EvaluateAll(one, v, ctx) == Some([Str(time)] + []);
    assert [Str(time)] + [] == [Str(time)];
    assert Evaluate(List(one), v, ctx) == Some(Arr([Str(time)]));
    assert Evaluate(Call("now", []), v, ctx) == Some(Str(ctx.moment.now));
  }

  /** Some path the expression reads overlaps `p`. */
  predicate Touches(e: Expr, p: seq<string>)
    decreases e, 1
  {
    match e
    case Lit(_) => false
    case Path(segments) => Overlap(segments, p)
    case List(items) => AnyTouches(items, p)
    case Not(inner) => Touches(inner, p)
    case Call(_, args) => AnyTouches(args, p)
    case Bin(_, lhs, rhs) => Touches(lhs, p) || Touches(rhs, p)
  }

  predicate AnyTouches(es: seq<Expr>, p: seq<string>)
    decreases es, 0
  {
    es != [] && (Touches(es[0], p) || AnyTouches(es[1..], p))
  }

  /** Setting a path that an expression does not touch does not change its value or its failure. */
  lemma {:induction false} EvaluateFrame(e: Expr, v: Value, p: seq<string>, x: Value, ctx: Context)
    requires p != [] && !Touches(e, p)
    ensures Evaluate(e, Set(v, p, x), ctx) == Evaluate(e, v, ctx)
    decreases e, 1
  {
    match e
    case Lit(_) =>
    case Path(segments) => SetFrame(v, p, x, segments);
    case List(items) => EvaluateAllFrame(items, v, p, x, ctx);
    case Not(inner) => EvaluateFrame(inner, v, p, x, ctx);
    case Call(_, args) => EvaluateAllFrame(args, v, p, x, ctx);
    case Bin(_, lhs, rhs) =>
      EvaluateFrame(lhs, v, p, x, ctx);
      EvaluateFrame(rhs, v, p, x, ctx);
  }

  lemma {:induction false} EvaluateAllFrame(es: seq<Expr>, v: Value, p: seq<string>, x: Value, ctx: Context)
    requires p != [] && !AnyTouches(es, p)
    ensures EvaluateAll(es, Set(v, p, x), ctx) == EvaluateAll(es, v, ctx)
    decreases es, 0
  {
    if es != [] {
      EvaluateFrame(es[0], v, p, x, ctx);
      EvaluateAllFrame(es[1..], v, p, x, ctx);
    }
  }
}
