/**
 * What a node hands on (sohara-runtime/src/walker.rs, control.rs). Conditions
 * are evaluated one by one, each at its own moment, so what is handed on is a
 * relation; for steady conditions it is a function.
 */
module Routing {
  import opened Json
  import opened Ast
  import opened Payload
  import opened Eval
  import opened Flow

  /** A node handing a record to a target. */
  datatype Handoff = Handoff(to: string, record: Record)

  predicate ConditionHolds(when: Option<Expr>, value: Value, ctx: Context) {
    when.None? || (Evaluate(when.value, value, ctx).Some? && Truthy(Evaluate(when.value, value, ctx).value))
  }

  /** At some moment the condition comes out as `b`. */
  ghost predicate May(when: Option<Expr>, value: Value, ctx: Context, b: bool) {
    exists m: Moment :: ConditionHolds(when, value, At(ctx, m)) == b
  }

  predicate SteadyCondition(when: Option<Expr>) { when.Some? ==> Steady(when.value) }

  lemma SteadyHolds(when: Option<Expr>, value: Value, ctx: Context, m: Moment)
    requires SteadyCondition(when)
    ensures ConditionHolds(when, value, At(ctx, m)) == ConditionHolds(when, value, ctx)
  {
    if when.Some? { SteadyEvaluates(when.value, value, ctx, m); }
  }

  /** A steady condition comes out in one way only. */
  lemma SteadyMay(when: Option<Expr>, value: Value, ctx: Context, b: bool)
    requires SteadyCondition(when)
    ensures May(when, value, ctx, b) <==> ConditionHolds(when, value, ctx) == b
  {
    SteadyHolds(when, value, ctx, ctx.moment);
    forall m: Moment ensures ConditionHolds(when, value, At(ctx, m)) == ConditionHolds(when, value, ctx) {
      SteadyHolds(when, value, ctx, m);
    }
    assert ConditionHolds(when, value, At(ctx, ctx.moment)) == ConditionHolds(when, value, ctx);
  }

  // ---------- routes ----------

  /** A record goes to every route whose condition holds when it is evaluated, in order. */
  ghost predicate Selects(routes: seq<Route>, record: Record, ctx: Context, out: seq<Handoff>)
    decreases |routes|
  {
    if routes == [] then out == []
    else
      var k := |routes| - 1;
      || (&& May(routes[k].when, record.payload, ctx, true)
          && out != [] && out[|out| - 1] == Handoff(routes[k].to, record)
          && Selects(routes[..k], record, ctx, out[..|out| - 1]))
      || (May(routes[k].when, record.payload, ctx, false) && Selects(routes[..k], record, ctx, out))
  }

  lemma SelectsStep(routes: seq<Route>, i: nat, record: Record, ctx: Context, out: seq<Handoff>, open: bool)
    requires i < |routes| && Selects(routes[..i], record, ctx, out) && May(routes[i].when, record.payload, ctx, open)
    ensures Selects(routes[..i + 1], record, ctx, if open then out + [Handoff(routes[i].to, record)] else out)
  {
    assert routes[..i + 1][..i] == routes[..i];
    if open {
      var longer := out + [Handoff(routes[i].to, record)];
      assert longer[..|longer| - 1] == out;
    }
  }

  /** The record goes along the routes: `after` is `before` with a selection appended. */
  ghost predicate Forwards(routes: seq<Route>, record: Record, ctx: Context, before: seq<Handoff>,
                           after: seq<Handoff>) {
    before <= after && Selects(routes, record, ctx, after[|before|..])
  }

  lemma ForwardsStart(routes: seq<Route>, record: Record, ctx: Context, before: seq<Handoff>)
    ensures Forwards(routes[..0], record, ctx, before, before)
  {
  }

  lemma ForwardsStep(routes: seq<Route>, i: nat, record: Record, ctx: Context, before: seq<Handoff>,
                     after: seq<Handoff>,
                     open: bool)
    requires i < |routes| && Forwards(routes[..i], record, ctx, before, after)
    requires May(routes[i].when, record.payload, ctx, open)
    ensures Forwards(routes[..i + 1], record, ctx, before,
                     if open then after + [Handoff(routes[i].to, record)] else after)
  {
    SelectsStep(routes, i, record, ctx, after[|before|..], open);
    if open {
      var longer := after + [Handoff(routes[i].to, record)];
      assert longer[|before|..] == after[|before|..] + [Handoff(routes[i].to, record)];
    }
  }

  /** Several records go along the routes, one after the other. */
  ghost predicate SelectsAll(routes: seq<Route>, records: seq<Record>, ctx: Context, out: seq<Handoff>)
    decreases |records|
  {
    if records == [] then out == []
    else
      var k := |records| - 1;
      exists cut: nat :: cut <= |out| && SelectsAll(routes, records[..k], ctx, out[..cut])
                         && Selects(routes, records[k], ctx, out[cut..])
  }

  ghost predicate ForwardsAll(routes: seq<Route>, records: seq<Record>, ctx: Context,
                              before: seq<Handoff>, after: seq<Handoff>)
  {
    before <= after && SelectsAll(routes, records, ctx, after[|before|..])
  }

  lemma ForwardsNone(routes: seq<Route>, ctx: Context, before: seq<Handoff>)
    ensures ForwardsAll(routes, [], ctx, before, before)
  {
  }

  lemma ForwardsAllStep(routes: seq<Route>, records: seq<Record>, i: nat, ctx: Context,
                        before: seq<Handoff>, here: seq<Handoff>, after: seq<Handoff>)
    requires i < |records| && ForwardsAll(routes, records[..i], ctx, before, here)
    requires Forwards(routes, records[i], ctx, here, after)
    ensures ForwardsAll(routes, records[..i + 1], ctx, before, after)
  {
    assert records[..i + 1][..i] == records[..i];
    var out, cut := after[|before|..], |here| - |before|;
    assert out[..cut] == here[|before|..] && out[cut..] == after[|here|..];
  }

  // ---------- steady routes ----------

  predicate SteadyRoutes(routes: seq<Route>) { forall i :: 0 <= i < |routes| ==> SteadyCondition(routes[i].when) }

  function Selected(routes: seq<Route>, record: Record, ctx: Context): seq<Handoff> {
    if routes == [] then []
    else
      var k := |routes| - 1;
      Selected(routes[..k], record, ctx) +
      if ConditionHolds(routes[k].when, record.payload, ctx) then [Handoff(routes[k].to, record)] else []
  }

  function SelectedAll(routes: seq<Route>, records: seq<Record>, ctx: Context): seq<Handoff> {
    if records == [] then []
    else
      var k := |records| - 1;
      SelectedAll(routes, records[..k], ctx) + Selected(routes, records[k], ctx)
  }

  /** With steady conditions the selection is exactly the routes whose conditions hold. */
  lemma {:induction false} SteadySelects(routes: seq<Route>, record: Record, ctx: Context, out: seq<Handoff>)
    requires SteadyRoutes(routes)
    ensures Selects(routes, record, ctx, out) <==> out == Selected(routes, record, ctx)
    decreases |routes|
  {
    if routes != [] {
      var k := |routes| - 1;
      SteadyMay(routes[k].when, record.payload, ctx, true);
      SteadyMay(routes[k].when, record.payload, ctx, false);
      var before := Selected(routes[..k], record, ctx);
      assert before + [] == before;
      if ConditionHolds(routes[k].when, record.payload, ctx) {
        if out != [] {
          SteadySelects(routes[..k], record, ctx, out[..|out| - 1]);
          assert out == out[..|out| - 1] + [out[|out| - 1]];
        }
      } else {
        SteadySelects(routes[..k], record, ctx, out);
      }
    }
  }

  lemma {:induction false} SteadySelectsAll(routes: seq<Route>, records: seq<Record>, ctx: Context, out: seq<Handoff>)
    requires SteadyRoutes(routes) && SelectsAll(routes, records, ctx, out)
    ensures out == SelectedAll(routes, records, ctx)
    decreases |records|
  {
    if records != [] {
      var k := |records| - 1;
      var cut: nat :| cut <= |out| && SelectsAll(routes, records[..k], ctx, out[..cut])
                      && Selects(routes, records[k], ctx, out[cut..]);
      SteadySelectsAll(routes, records[..k], ctx, out[..cut]);
      SteadySelects(routes, records[k], ctx, out[cut..]);
      assert out == out[..cut] + out[cut..];
    }
  }

  // ---------- switch ----------

  /** The first case that holds when it is evaluated, else the default. */
  ghost predicate MayChoose(cases: seq<Case>, default: string, payload: Value, ctx: Context, to: string) {
    if cases == [] then to == default
    else
      || (May(Some(cases[0].when), payload, ctx, true) && to == cases[0].to)
      || (May(Some(cases[0].when), payload, ctx, false) && MayChoose(cases[1..], default, payload, ctx, to))
  }

  function Chosen(cases: seq<Case>, default: string, payload: Value, ctx: Context): string {
    if cases == [] then default
    else if ConditionHolds(Some(cases[0].when), payload, ctx) then cases[0].to
    else Chosen(cases[1..], default, payload, ctx)
  }

  lemma {:induction false} SteadyChooses(cases: seq<Case>, default: string, payload: Value, ctx: Context, to: string)
    requires forall i :: 0 <= i < |cases| ==> Steady(cases[i].when)
    ensures MayChoose(cases, default, payload, ctx, to) <==> to == Chosen(cases, default, payload, ctx)
  {
    if cases != [] {
      SteadyMay(Some(cases[0].when), payload, ctx, true);
      SteadyMay(Some(cases[0].when), payload, ctx, false);
      SteadyChooses(cases[1..], default, payload, ctx, to);
    }
  }

  /** What a switch chooses is one of the targets it names. */
  lemma {:induction false} ChosenIsNamed(cases: seq<Case>, default: string, payload: Value, ctx: Context, to: string)
    returns (i: nat)
    requires MayChoose(cases, default, payload, ctx, to)
    ensures i <= |cases| && to == if i < |cases| then cases[i].to else default
  {
    if cases == [] || (May(Some(cases[0].when), payload, ctx, true) && to == cases[0].to) {
      i := 0;
    } else {
      i := ChosenIsNamed(cases[1..], default, payload, ctx, to);
      i := i + 1;
    }
  }

  lemma ChosenIsOwn(node: Node, payload: Value, ctx: Context, to: string)
    requires node.step.Control? && node.step.control.Switch?
    requires MayChoose(node.step.control.cases, node.step.control.default, payload, ctx, to)
    ensures to in OwnTargets(node.step)
  {
    var cases, default := node.step.control.cases, node.step.control.default;
    var own := OwnTargets(node.step);
    assert own[|cases|] == default;
    var i := ChosenIsNamed(cases, default, payload, ctx, to);
    if i < |cases| { assert own[i] == cases[i].to; }
  }

  // ---------- foreach, loop, parallel ----------

  /** One child per item of the list, up to the iteration limit, with the item in a field. */
  function Children(control: Control, record: Record, ctx: Context): seq<Record>
    requires control.Foreach?
  {
    var items := Evaluate(control.over, record.payload, ctx);
    if items.None? || !items.value.Arr? then []
    else
      var field := if control.asField.Some? then control.asField.value else "item";
      var all := items.value.items;
      var count := if |all| <= control.maxIterations then |all| else control.maxIterations;
      seq(count, i requires 0 <= i < count => record.(payload := Set(record.payload, Segments(field), all[i])))
  }

  /** The rounds a loop makes when its condition is evaluated at the moments of `clock`, at most one round each. */
  function Rounds(whileExpr: Expr, seen: Value, ctx: Context, clock: seq<Moment>): (n: nat)
    ensures n <= |clock|
  {
    if clock == [] || !ConditionHolds(Some(whileExpr), seen, At(ctx, clock[0])) then 0
    else 1 + Rounds(whileExpr, seen, ctx, clock[1..])
  }

  /** The condition holds at the first `i` moments. */
  ghost predicate HoldsFor(whileExpr: Expr, seen: Value, ctx: Context, clock: seq<Moment>) {
    forall i :: 0 <= i < |clock| ==> ConditionHolds(Some(whileExpr), seen, At(ctx, clock[i]))
  }

  /** A loop stops at the first moment its condition fails, or at its limit. */
  lemma {:induction false} RoundsAre(whileExpr: Expr, seen: Value, ctx: Context, held: seq<Moment>, rest: seq<Moment>)
    requires HoldsFor(whileExpr, seen, ctx, held)
    requires rest == [] || !ConditionHolds(Some(whileExpr), seen, At(ctx, rest[0]))
    ensures Rounds(whileExpr, seen, ctx, held + rest) == |held|
    decreases |held|
  {
    if held == [] {
      assert held + rest == rest;
    } else {
      assert (held + rest)[1..] == held[1..] + rest;
      RoundsAre(whileExpr, seen, ctx, held[1..], rest);
    }
  }

  /** A loop on a steady condition runs to its limit or not at all: nothing below it changes what it sees. */
  lemma {:induction false} SteadyRounds(whileExpr: Expr, seen: Value, ctx: Context, clock: seq<Moment>)
    requires Steady(whileExpr)
    ensures Rounds(whileExpr, seen, ctx, clock) == if ConditionHolds(Some(whileExpr), seen, ctx) then |clock| else 0
  {
    if clock != [] {
      SteadyHolds(Some(whileExpr), seen, ctx, clock[0]);
      SteadyRounds(whileExpr, seen, ctx, clock[1..]);
    }
  }

  /** A loop that asks for the time can stop after any number of rounds up to its limit. */
  lemma ClockStopsLoop(time: string, other: string, seen: Value, ctx: Context, limit: nat, n: nat)
    returns (clock: seq<Moment>)
    requires time != other && n <= limit
    ensures |clock| == limit && Rounds(ShowsTime(time), seen, ctx, clock) == n
  {
    var on, off := ctx.moment.(now := time), ctx.moment.(now := other);
    var held, rest := seq(n, i => on), seq(limit - n, i => off);
    forall i | 0 <= i < |held| ensures ConditionHolds(Some(ShowsTime(time)), seen, At(ctx, held[i])) {
      ShowsTimeValue(time, seen, At(ctx, on));
    }
    if rest != [] { ShowsTimeValue(time, seen, At(ctx, off)); }
    RoundsAre(ShowsTime(time), seen, ctx, held, rest);
    clock := held + rest;
  }

  /** The same record again and again. */
  function Again(record: Record, n: nat): (r: seq<Record>)
    ensures |r| == n
  {
    seq(n, i => record)
  }

  function ToAll(targets: seq<string>, record: Record): (r: seq<Handoff>)
    ensures |r| == |targets|
  {
    seq(|targets|, i requires 0 <= i < |targets| => Handoff(targets[i], record))
  }

  lemma ToAllStep(targets: seq<string>, i: nat, record: Record, before: seq<Handoff>)
    requires i < |targets|
    ensures before + ToAll(targets[..i], record) + [Handoff(targets[i], record)] ==
              before + ToAll(targets[..i + 1], record)
  {
  }

  /** What a loop hands on in `n` rounds: the record to its body, or along its routes, each time. */
  ghost predicate Loops(node: Node, record: Record, ctx: Context, n: nat, before: seq<Handoff>, after: seq<Handoff>)
    requires node.step.Control? && node.step.control.Loop?
  {
    var body := node.step.control.body;
    if body.Some? then after == before + seq(n, i => Handoff(body.value, record))
    else ForwardsAll(node.routes, Again(record, n), ctx, before, after)
  }

  lemma LoopsStart(node: Node, record: Record, ctx: Context, before: seq<Handoff>)
    requires node.step.Control? && node.step.control.Loop?
    ensures Loops(node, record, ctx, 0, before, before)
  {
    assert Again(record, 0) == [];
  }

  lemma LoopsBody(node: Node, record: Record, ctx: Context, n: nat, before: seq<Handoff>, here: seq<Handoff>)
    requires node.step.Control? && node.step.control.Loop? && node.step.control.body.Some?
    requires Loops(node, record, ctx, n, before, here)
    ensures Loops(node, record, ctx, n + 1, before, here + [Handoff(node.step.control.body.value, record)])
  {
    var h := Handoff(node.step.control.body.value, record);
    assert seq(n + 1, i => h) == seq(n, i => h) + [h];
  }

  lemma LoopsRoutes(node: Node, record: Record, ctx: Context, n: nat, before: seq<Handoff>, here: seq<Handoff>,
                    after: seq<Handoff>)
    requires node.step.Control? && node.step.control.Loop? && node.step.control.body.None?
    requires Loops(node, record, ctx, n, before, here) && Forwards(node.routes, record, ctx, here, after)
    ensures Loops(node, record, ctx, n + 1, before, after)
  {
    assert Again(record, n + 1)[..n] == Again(record, n) && Again(record, n + 1)[..n + 1] == Again(record, n + 1);
    ForwardsAllStep(node.routes, Again(record, n + 1), n, ctx, before, here, after);
  }

  /** `record` under a correlation: its own if it has one. */
  ghost predicate Correlated(record: Record, r: Record) {
    && r.payload == record.payload && "correlation" in r.metadata
    && ("correlation" in record.metadata ==> r == record)
  }

  // ---------- sources ----------

  /** What a source item hands on: nothing for an error or where the source's condition fails. */
  ghost predicate ItemHands(node: Node, item: Option<Record>, ctx: Context, out: seq<Handoff>) {
    if item.None? then out == []
    else
      || (May(node.when, item.value.payload, ctx, false) && out == [])
      || (May(node.when, item.value.payload, ctx, true) && Selects(node.routes, item.value, ctx, out))
  }

  ghost predicate ItemsHand(node: Node, items: seq<Option<Record>>, ctx: Context, out: seq<Handoff>)
    decreases |items|
  {
    if items == [] then out == []
    else
      var k := |items| - 1;
      exists cut: nat :: cut <= |out| && ItemsHand(node, items[..k], ctx, out[..cut])
                         && ItemHands(node, items[k], ctx, out[cut..])
  }

  ghost predicate Sources(node: Node, items: seq<Option<Record>>, ctx: Context, before: seq<Handoff>,
                          after: seq<Handoff>) {
    before <= after && ItemsHand(node, items, ctx, after[|before|..])
  }

  lemma SourcesStep(node: Node, items: seq<Option<Record>>, i: nat, ctx: Context,
                    before: seq<Handoff>, here: seq<Handoff>, after: seq<Handoff>)
    requires i < |items| && Sources(node, items[..i], ctx, before, here)
    requires here <= after && ItemHands(node, items[i], ctx, after[|here|..])
    ensures Sources(node, items[..i + 1], ctx, before, after)
  {
    assert items[..i + 1][..i] == items[..i];
    var out, cut := after[|before|..], |here| - |before|;
    assert out[..cut] == here[|before|..] && out[cut..] == after[|here|..];
  }

  function ItemHandoffs(node: Node, item: Option<Record>, ctx: Context): seq<Handoff> {
    if item.Some? && ConditionHolds(node.when, item.value.payload, ctx) then Selected(node.routes, item.value, ctx)
    else []
  }

  function SourceHandoffs(node: Node, items: seq<Option<Record>>, ctx: Context): seq<Handoff> {
    if items == [] then []
    else
      var k := |items| - 1;
      SourceHandoffs(node, items[..k], ctx) + ItemHandoffs(node, items[k], ctx)
  }

  /** With steady conditions a source hands on exactly the selected routes of its records, in order. */
  lemma {:induction false} SteadySource(node: Node, items: seq<Option<Record>>, ctx: Context, out: seq<Handoff>)
    requires SteadyCondition(node.when) && SteadyRoutes(node.routes) && ItemsHand(node, items, ctx, out)
    ensures out == SourceHandoffs(node, items, ctx)
    decreases |items|
  {
    if items != [] {
      var k := |items| - 1;
      var cut := ItemsCut(node, items, ctx, out);
      SteadySource(node, items[..k], ctx, out[..cut]);
      SteadyItem(node, items[k], ctx, out[cut..]);
      assert out == out[..cut] + out[cut..];
    }
  }

  lemma ItemsCut(node: Node, items: seq<Option<Record>>, ctx: Context, out: seq<Handoff>) returns (cut: nat)
    requires items != [] && ItemsHand(node, items, ctx, out)
    ensures cut <= |out| && ItemsHand(node, items[..|items| - 1], ctx, out[..cut])
    ensures ItemHands(node, items[|items| - 1], ctx, out[cut..])
  {
    var k := |items| - 1;
    cut :| cut <= |out| && ItemsHand(node, items[..k], ctx, out[..cut]) && ItemHands(node, items[k], ctx, out[cut..]);
  }

  lemma SteadyItem(node: Node, item: Option<Record>, ctx: Context, out: seq<Handoff>)
    requires SteadyCondition(node.when) && SteadyRoutes(node.routes) && ItemHands(node, item, ctx, out)
    ensures out == ItemHandoffs(node, item, ctx)
  {
    if item.Some? {
      SteadyMay(node.when, item.value.payload, ctx, true);
      SteadyMay(node.when, item.value.payload, ctx, false);
      SteadySelects(node.routes, item.value, ctx, out);
    }
  }

  // ---------- what the functions above mean ----------

  /** A condition holds if there is none, or if it has a value other than `false` and `null`. */
  lemma ConditionMeans(when: Option<Expr>, v: Value, ctx: Context)
    ensures ConditionHolds(when, v, ctx) <==>
              (when.Some? ==>
                 var x := Evaluate(when.value, v, ctx);
                 x.Some? && x.value != Bool(false) && x.value != Null)
  {
  }

  /** The selection is made route by route, in order: a route takes the record if its condition holds. */
  lemma {:induction false} SelectedIs(routes: seq<Route>, more: seq<Route>, to: string, when: Option<Expr>,
                                      record: Record, ctx: Context)
    ensures Selected([Route(to, when)], record, ctx)
         == if ConditionHolds(when, record.payload, ctx) then [Handoff(to, record)] else []
    ensures Selected([], record, ctx) == []
    ensures Selected(routes + more, record, ctx) == Selected(routes, record, ctx) + Selected(more, record, ctx)
    decreases |more|
  {
    assert [Route(to, when)][..0] == [];
    if more == [] {
      assert routes + more == routes;
      assert Selected(routes, record, ctx) + [] == Selected(routes, record, ctx);
    } else {
      var k := |more| - 1;
      assert (routes + more)[..|routes + more| - 1] == routes + more[..k];
      SelectedIs(routes, more[..k], to, when, record, ctx);
    }
  }

  /** Several records are selected for one after the other. */
  lemma {:induction false} SelectedAllIs(routes: seq<Route>, records: seq<Record>, more: seq<Record>, ctx: Context)
    ensures SelectedAll(routes, records + more, ctx) ==
              SelectedAll(routes, records, ctx) + SelectedAll(routes, more, ctx)
    decreases |more|
  {
    if more == [] {
      assert records + more == records && SelectedAll(routes, more, ctx) == [];
    } else {
      var k := |more| - 1;
      SelectedAllIs(routes, records, more[..k], ctx);
      SelectedAllSnoc(routes, records + more, ctx);
      SelectedAllSnoc(routes, more, ctx);
      assert (records + more)[..|records + more| - 1] == records + more[..k];
    }
  }

  lemma SelectedAllSnoc(routes: seq<Route>, records: seq<Record>, ctx: Context)
    requires records != []
    ensures var k := |records| - 1;
            SelectedAll(routes, records, ctx)
              == SelectedAll(routes, records[..k], ctx) + Selected(routes, records[k], ctx)
  {
  }

  lemma SelectedAllOne(routes: seq<Route>, record: Record, ctx: Context)
    ensures SelectedAll(routes, [], ctx) == [] && SelectedAll(routes, [record], ctx) == Selected(routes, record, ctx)
  {
    assert [record][..0] == [] && [] + Selected(routes, record, ctx) == Selected(routes, record, ctx);
  }

  /** A switch chooses the first case that holds, and the default if none does. */
  lemma {:induction false} ChosenIsFirst(cases: seq<Case>, default: string, payload: Value, ctx: Context)
    returns (i: nat)
    ensures i <= |cases| && forall j :: 0 <= j < i ==> !ConditionHolds(Some(cases[j].when), payload, ctx)
    ensures i < |cases| ==> ConditionHolds(Some(cases[i].when), payload, ctx)
    ensures Chosen(cases, default, payload, ctx) == if i < |cases| then cases[i].to else default
  {
    if cases == [] || ConditionHolds(Some(cases[0].when), payload, ctx) {
      i := 0;
    } else {
      i := ChosenIsFirst(cases[1..], default, payload, ctx);
      i := i + 1;
    }
  }

  /**
   * The i-th child of a foreach carries the i-th item in the named field, or in
   * `item`, and else what the record carries; there is one for each item up to
   * the limit, and none if the expression has no list as its value.
   */
  lemma ChildrenCarry(control: Control, record: Record, ctx: Context, i: nat, path: seq<string>)
    requires control.Foreach?
    ensures var x := Evaluate(control.over, record.payload, ctx);
            var field := if control.asField.Some? then control.asField.value else "item";
            if x.None? || !x.value.Arr? then Children(control, record, ctx) == []
            else
              var children, items := Children(control, record, ctx), x.value.items;
              && |children| == (if |items| <= control.maxIterations then |items| else control.maxIterations)
              && (i < |children| ==>
                    && children[i].metadata == record.metadata
                    && (Blocked(record.payload, Segments(field)) ==> children[i] == record)
                    && (!Blocked(record.payload, Segments(field)) ==>
                          Get(children[i].payload, Segments(field)) == Some(items[i]))
                    && (!Overlap(path, Segments(field)) ==>
                          Get(children[i].payload, path) == Get(record.payload, path)))
  {
    var field := if control.asField.Some? then control.asField.value else "item";
    var x := Evaluate(control.over, record.payload, ctx);
    if x.Some? && x.value.Arr? && i < |Children(control, record, ctx)| {
      SetThenGet(record.payload, Segments(field), x.value.items[i]);
      if !Overlap(path, Segments(field)) { SetFrame(record.payload, Segments(field), x.value.items[i], path); }
    }
  }

  /** In n rounds a loop hands the record to its body n times, and nothing else to anybody. */
  lemma LoopHands(node: Node, record: Record, ctx: Context, n: nat, before: seq<Handoff>, after: seq<Handoff>)
    requires node.step.Control? && node.step.control.Loop? && node.step.control.body.Some?
    requires Loops(node, record, ctx, n, before, after)
    ensures before <= after && |after| == |before| + n
    ensures forall i :: |before| <= i < |after| ==> after[i] == Handoff(node.step.control.body.value, record)
  {
  }

  /** With steady routes and no body, each round hands the record along the selected routes. */
  lemma {:induction false} LoopRoutes(routes: seq<Route>, record: Record, ctx: Context, n: nat)
    ensures SelectedAll(routes, Again(record, n + 1), ctx) ==
              SelectedAll(routes, Again(record, n), ctx) + Selected(routes, record, ctx)
    ensures SelectedAll(routes, Again(record, 0), ctx) == []
  {
    assert Again(record, n + 1) == Again(record, n) + [record];
    SelectedAllIs(routes, Again(record, n), [record], ctx);
    SelectedAllOne(routes, record, ctx);
  }

  /** Every target of a parallel step gets the record. */
  lemma ToAllIs(targets: seq<string>, record: Record, i: nat)
    requires i < |targets|
    ensures ToAll(targets, record)[i] == Handoff(targets[i], record)
  {
  }

  /** A source hands on item by item; errors, and records its condition does not let in, go nowhere. */
  lemma {:induction false} SourceHandsItems(node: Node, items: seq<Option<Record>>, more: seq<Option<Record>>,
                                            ctx: Context)
    ensures SourceHandoffs(node, items + more, ctx) ==
              SourceHandoffs(node, items, ctx) + SourceHandoffs(node, more, ctx)
    decreases |more|
  {
    var before := SourceHandoffs(node, items, ctx);
    if more == [] {
      assert items + more == items && SourceHandoffs(node, more, ctx) == [] && before + [] == before;
    } else {
      var k := |more| - 1;
      SourceHandsItems(node, items, more[..k], ctx);
      SourceSnoc(node, items + more, ctx);
      SourceSnoc(node, more, ctx);
      assert (items + more)[..|items + more| - 1] == items + more[..k] && (items + more)[|items + more| - 1] == more[k];
      Associative(before, SourceHandoffs(node, more[..k], ctx), ItemHandoffs(node, more[k], ctx));
    }
  }

  lemma Associative(a: seq<Handoff>, b: seq<Handoff>, c: seq<Handoff>)
    ensures (a + b) + c == a + (b + c)
  {
  }

  lemma SourceSnoc(node: Node, items: seq<Option<Record>>, ctx: Context)
    requires items != []
    ensures var k := |items| - 1;
            SourceHandoffs(node, items, ctx)
              == SourceHandoffs(node, items[..k], ctx) + ItemHandoffs(node, items[k], ctx)
  {
  }

  lemma SourceHandsOne(node: Node, record: Record, ctx: Context)
    ensures SourceHandoffs(node, [], ctx) == [] == SourceHandoffs(node, [None], ctx)
    ensures SourceHandoffs(node, [Some(record)], ctx) ==
              if ConditionHolds(node.when, record.payload, ctx) then Selected(node.routes, record, ctx) else []
  {
    var none: seq<Option<Record>>, one := [None], [Some(record)];
    assert none[..0] == [] && one[..0] == [] && SourceHandoffs(node, none[..0], ctx) == [];
    var out := ItemHandoffs(node, one[0], ctx);
    assert [] + out == out;
  }
}
