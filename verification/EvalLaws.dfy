/**
 * What expressions mean (sohara-core/src/expr/eval.rs): laws over evaluation
 * alone, failures included. An operand `holds` if it has a value other than
 * `false` and `null`, `falls` if it has one of these, and else it fails.
 */
module EvalLaws {
  import opened Json
  import opened Ast
  import opened Payload
  import opened Eval

  predicate Holds(e: Expr, v: Value, ctx: Context) {
    var x := Evaluate(e, v, ctx);
    x.Some? && x.value != Bool(false) && x.value != Null
  }

  predicate Falls(e: Expr, v: Value, ctx: Context) {
    var x := Evaluate(e, v, ctx);
    x == Some(Bool(false)) || x == Some(Null)
  }

  predicate Fails(e: Expr, v: Value, ctx: Context) { Evaluate(e, v, ctx) == None }

  // ---------- logic ----------

  /** `a and b` is true if both hold; a left operand that falls decides, even if the right one would fail. */
  lemma AndMeans(a: Expr, b: Expr, v: Value, ctx: Context)
    ensures var x := Evaluate(Bin(AndOp, a, b), v, ctx);
            && (x == Some(Bool(true)) <==> Holds(a, v, ctx) && Holds(b, v, ctx))
            && (x == Some(Bool(false)) <==> Falls(a, v, ctx) || (Holds(a, v, ctx) && Falls(b, v, ctx)))
            && (x == None <==> Fails(a, v, ctx) || (Holds(a, v, ctx) && Fails(b, v, ctx)))
  {
  }

  /** `a or b` is true if either holds; a left operand that holds decides, even if the right one would fail. */
  lemma OrMeans(a: Expr, b: Expr, v: Value, ctx: Context)
    ensures var x := Evaluate(Bin(OrOp, a, b), v, ctx);
            && (x == Some(Bool(true)) <==> Holds(a, v, ctx) || (Falls(a, v, ctx) && Holds(b, v, ctx)))
            && (x == Some(Bool(false)) <==> Falls(a, v, ctx) && Falls(b, v, ctx))
            && (x == None <==> Fails(a, v, ctx) || (Falls(a, v, ctx) && Fails(b, v, ctx)))
  {
  }

  lemma NotMeans(a: Expr, v: Value, ctx: Context)
    ensures var x := Evaluate(Not(a), v, ctx);
            && (x == Some(Bool(true)) <==> Falls(a, v, ctx))
            && (x == Some(Bool(false)) <==> Holds(a, v, ctx))
            && (x == None <==> Fails(a, v, ctx))
  {
  }

  /** De Morgan's laws hold, failures included. */
  lemma DeMorgan(a: Expr, b: Expr, v: Value, ctx: Context)
    ensures Evaluate(Not(Bin(AndOp, a, b)), v, ctx) == Evaluate(Bin(OrOp, Not(a), Not(b)), v, ctx)
    ensures Evaluate(Not(Bin(OrOp, a, b)), v, ctx) == Evaluate(Bin(AndOp, Not(a), Not(b)), v, ctx)
  {
  }

  // ---------- lists ----------

  /** Every item has the value at its place. */
  predicate Item(items: seq<Expr>, v: Value, ctx: Context, values: seq<Value>, i: nat)
    requires i < |items| == |values|
  {
    Evaluate(items[i], v, ctx) == Some(values[i])
  }

  lemma {:induction false} AllMeans(es: seq<Expr>, v: Value, ctx: Context)
    ensures EvaluateAll(es, v, ctx).None? <==> exists i :: 0 <= i < |es| && Fails(es[i], v, ctx)
    ensures var values := EvaluateAll(es, v, ctx);
            values.Some? ==> |values.value| == |es| && forall i :: 0 <= i < |es| ==> Item(es, v, ctx, values.value, i)
  {
    if es != [] {
      AllMeans(es[1..], v, ctx);
      forall i | 1 <= i < |es| ensures es[i] == es[1..][i - 1] {}
      if i :| 0 <= i < |es| && Fails(es[i], v, ctx) {
        assert i > 0 ==> Fails(es[1..][i - 1], v, ctx);
      }
      var values := EvaluateAll(es, v, ctx);
      if values.Some? {
        var rest := EvaluateAll(es[1..], v, ctx).value;
        forall i | 0 <= i < |es| ensures Item(es, v, ctx, values.value, i) {
          assert i > 0 ==> Item(es[1..], v, ctx, rest, i - 1);
        }
      }
    }
  }

  /** A list has the values of its items, in order, and fails if one of them does. */
  lemma ListMeans(items: seq<Expr>, v: Value, ctx: Context)
    ensures var x := Evaluate(List(items), v, ctx);
            && (x == None <==> exists i :: 0 <= i < |items| && Fails(items[i], v, ctx))
            && (x.Some? ==> x.value.Arr? && |x.value.items| == |items|
                            && forall i :: 0 <= i < |items| ==> Evaluate(items[i], v, ctx) == Some(x.value.items[i]))
  {
    AllMeans(items, v, ctx);
    var values := EvaluateAll(items, v, ctx);
    if values.Some? {
      forall i | 0 <= i < |items| ensures Evaluate(items[i], v, ctx) == Some(values.value[i]) {
        assert Item(items, v, ctx, values.value, i);
      }
    }
  }

  /** `x in l` asks whether some element of the list is equal to x; anything but a list on the right fails. */
  lemma InMeans(x: Expr, l: Expr, v: Value, ctx: Context)
    ensures var r, list := Evaluate(Bin(InOp, x, l), v, ctx), Evaluate(l, v, ctx);
            && (r == None <==> Fails(x, v, ctx) || Fails(l, v, ctx) || !list.value.Arr?)
            && (r.Some? ==>
                  r == Some(Bool(exists i :: 0 <= i < |list.value.items| &&
                                             Some(list.value.items[i]) == Evaluate(x, v, ctx))))
  {
    var r, list := Evaluate(Bin(InOp, x, l), v, ctx), Evaluate(l, v, ctx);
    if r.Some? {
      var needle, items := Evaluate(x, v, ctx).value, list.value.items;
      assert needle in items <==> exists i :: 0 <= i < |items| && Some(items[i]) == Some(needle);
    }
  }

  // ---------- comparison and arithmetic ----------

  /** Both operands are evaluated, and compared in the order written. */
  lemma CompareMeans(cmp: CmpOp, a: Expr, b: Expr, v: Value, ctx: Context)
    ensures var x := Evaluate(Bin(CmpBin(cmp), a, b), v, ctx);
            if Fails(a, v, ctx) || Fails(b, v, ctx) then x == None
            else x == ctx.compare(cmp, Evaluate(a, v, ctx).value, Evaluate(b, v, ctx).value)
  {
  }

  lemma ArithmeticMeans(op: BinOp, a: Expr, b: Expr, v: Value, ctx: Context)
    requires op == AddOp || op == SubOp || op == MulOp || op == DivOp || op == RemOp
    ensures var x := Evaluate(Bin(op, a, b), v, ctx);
            if Fails(a, v, ctx) || Fails(b, v, ctx) then x == None
            else x == ctx.arith(op, Evaluate(a, v, ctx).value, Evaluate(b, v, ctx).value)
  {
  }

  // ---------- literals, paths and calls ----------

  lemma LiteralMeans(x: Value, v: Value, ctx: Context)
    ensures Evaluate(Lit(x), v, ctx) == Some(x)
  {
  }

  /** A path is followed field by field from the front; a missing field, or anything but an object, fails. */
  lemma {:induction false} PathMeans(p: seq<string>, q: seq<string>, v: Value, ctx: Context)
    ensures Evaluate(Path([]), v, ctx) == Some(v)
    ensures forall key :: Evaluate(Path([key]), v, ctx)
                       == if v.Obj? && key in v.fields then Some(v.fields[key]) else None
    ensures var first := Evaluate(Path(p), v, ctx);
            Evaluate(Path(p + q), v, ctx) == if first.None? then None else Evaluate(Path(q), first.value, ctx)
    decreases |p|
  {
    forall key ensures Get(v, [key]) == if v.Obj? && key in v.fields then Some(v.fields[key]) else None {
      assert [key][1..] == [];
    }
    if p == [] {
      assert p + q == q;
    } else if v.Obj? && p[0] in v.fields {
      PathMeans(p[1..], q, v.fields[p[0]], ctx);
      assert (p + q)[1..] == p[1..] + q;
    }
  }

  lemma OneArgument(name: string, arg: Expr, v: Value, ctx: Context)
    ensures var x := Evaluate(arg, v, ctx);
            Evaluate(Call(name, [arg]), v, ctx) == if x.None? then None else CallWith(name, [x.value], ctx)
  {
    var x := Evaluate(arg, v, ctx);
    assert [arg][1..] == [] && EvaluateAll([], v, ctx) == Some([]);
    if x.Some? { assert [x.value] + [] == [x.value]; }
  }

  /** `var` reads a flow variable and `env` the environment; both fail on a name that is not set. */
  lemma NamesMean(name: string, v: Value, ctx: Context)
    ensures Evaluate(Call("var", [Lit(Str(name))]), v, ctx) == if name in ctx.vars then Some(ctx.vars[name]) else None
    ensures Evaluate(Call("env", [Lit(Str(name))]), v, ctx)
         == if name in ctx.moment.env then Some(Str(ctx.moment.env[name])) else None
  {
    OneArgument("var", Lit(Str(name)), v, ctx);
    OneArgument("env", Lit(Str(name)), v, ctx);
  }

  /** `now` and `uuid` answer from the moment and take no argument. */
  lemma MomentMeans(arg: Expr, v: Value, ctx: Context)
    ensures Evaluate(Call("now", []), v, ctx) == Some(Str(ctx.moment.now))
    ensures Evaluate(Call("uuid", []), v, ctx) == Some(Str(ctx.moment.uuid))
    ensures Evaluate(Call("now", [arg]), v, ctx) == None == Evaluate(Call("uuid", [arg]), v, ctx)
  {
    OneArgument("now", arg, v, ctx);
    OneArgument("uuid", arg, v, ctx);
  }

  /** The conversions see their argument's value; a call fails if its argument does, or if nobody knows the function. */
  lemma ConversionsMean(name: string, arg: Expr, v: Value, ctx: Context)
    requires name !in ["now", "uuid", "env", "var"]
    ensures var x := Evaluate(Call(name, [arg]), v, ctx);
            if name in ["int", "float", "str", "len"] && !Fails(arg, v, ctx)
            then x == ctx.convert(name, Evaluate(arg, v, ctx).value)
            else x == None
  {
    OneArgument(name, arg, v, ctx);
  }

  /** Given several arguments, all are evaluated and the last one counts. */
  lemma LastArgumentCounts(name: string, args: seq<Expr>, v: Value, ctx: Context)
    requires name != "now" && name != "uuid" && args != []
    ensures var x := Evaluate(Call(name, args), v, ctx);
            if exists i :: 0 <= i < |args| && Fails(args[i], v, ctx) then x == None
            else x == Evaluate(Call(name, [args[|args| - 1]]), v, ctx)
  {
    AllMeans(args, v, ctx);
    OneArgument(name, args[|args| - 1], v, ctx);
    var values := EvaluateAll(args, v, ctx);
    if values.Some? { assert Item(args, v, ctx, values.value, |args| - 1); }
  }
}
