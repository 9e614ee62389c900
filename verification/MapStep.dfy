/** The `transform.map` and `transform.filter` steps (sohara-builtins/src/transforms.rs). */
module MapStep {
  import opened Json
  import opened Ast
  import opened Payload
  import opened Eval

  /** Compute `expr` and store it at the dot path `field`. The world decides the moment `at` which it is computed. */
  datatype Assign = Assign(field: string, expr: Expr, at: Moment)

  datatype Store = Store(path: seq<string>, value: Value)

  function Target(a: Assign): seq<string> { Segments(a.field) }

  function Computed(a: Assign, v: Value, ctx: Context): Option<Value> { Evaluate(a.expr, v, At(ctx, a.at)) }

  // ---------- what the loop computes ----------

  /** Evaluate and set one after the other, each on the payload so far. */
  function InSequence(steps: seq<Assign>, v: Value, ctx: Context): Option<Value> {
    if steps == [] then Some(v)
    else
      var x := Computed(steps[0], v, ctx);
      if x.None? then None else InSequence(steps[1..], Set(v, Target(steps[0]), x.value), ctx)
  }

  /** The listed fields that exist, under their dotted names. */
  function Project(fields: seq<string>, v: Value): map<string, Value> {
    if fields == [] then map[]
    else
      var k := |fields| - 1;
      var found := Get(v, Segments(fields[k]));
      var before := Project(fields[..k], v);
      if found.Some? then before[fields[k] := found.value] else before
  }

  method Transform(steps: seq<Assign>, project: Option<seq<string>>, payload0: Value, ctx: Context)
    returns (r: Option<Value>)
    ensures var mapped := InSequence(steps, payload0, ctx);
            r == if mapped.None? || project.None? then mapped else Some(Obj(Project(project.value, mapped.value)))
  {
    var payload := payload0;
    assert steps[0..] == steps;
    for i := 0 to |steps|
      invariant InSequence(steps, payload0, ctx) == InSequence(steps[i..], payload, ctx)
    {
      assert steps[i..][1..] == steps[i + 1..];
      var value := Computed(steps[i], payload, ctx);
      if value.None? { return None; }
      payload := Insert(payload, Segments(steps[i].field), value.value);
    }
    assert steps[|steps|..] == [];
    if project.Some? {
      var fields := project.value;
      var kept: map<string, Value> := map[];
      for i := 0 to |fields|
        invariant kept == Project(fields[..i], payload)
      {
        assert fields[..i + 1][..i] == fields[..i];
        var found := Lookup(payload, Segments(fields[i]));
        if found.Some? { kept := kept[fields[i] := found.value]; }
      }
      assert fields[..|fields|] == fields;
      payload := Obj(kept);
    }
    return Some(payload);
  }

  /** A filter keeps a record when its expression's truth differs from `invert`; no expression counts as true. */
  method Keeps(expr: Option<Expr>, invert: bool, payload: Value, ctx: Context) returns (r: Option<bool>)
    ensures r.None? <==> expr.Some? && Evaluate(expr.value, payload, ctx).None?
    ensures r.Some? ==> (r.value <==> (expr.Some? ==> Truthy(Evaluate(expr.value, payload, ctx).value)) != invert)
  {
    var passed := true;
    if expr.Some? {
      var value := Evaluate(expr.value, payload, ctx);
      if value.None? { return None; }
      passed := Truthy(value.value);
    }
    return Some(passed != invert);
  }

  // ---------- simultaneous assignment ----------

  /** The stores that all expressions ask for when evaluated on the same payload. */
  function Stores(steps: seq<Assign>, v: Value, ctx: Context): Option<seq<Store>> {
    if steps == [] then Some([])
    else
      var x := Computed(steps[0], v, ctx);
      var rest := Stores(steps[1..], v, ctx);
      if x.None? || rest.None? then None else Some([Store(Target(steps[0]), x.value)] + rest.value)
  }

  predicate HavePaths(stores: seq<Store>) { forall i :: 0 <= i < |stores| ==> stores[i].path != [] }

  function StoreAll(stores: seq<Store>, v: Value): Value
    requires HavePaths(stores)
  {
    if stores == [] then v else StoreAll(stores[1..], Set(v, stores[0].path, stores[0].value))
  }

  /** Evaluate everything on the original payload, then store. */
  function AtOnce(steps: seq<Assign>, v: Value, ctx: Context): Option<Value> {
    var stores := Stores(steps, v, ctx);
    if stores.None? then None else StoresHavePaths(steps, v, ctx); Some(StoreAll(stores.value, v))
  }

  lemma {:induction false} StoresHavePaths(steps: seq<Assign>, v: Value, ctx: Context)
    requires Stores(steps, v, ctx).Some?
    ensures var stores := Stores(steps, v, ctx).value;
            |stores| == |steps| && forall i :: 0 <= i < |stores| ==>
              stores[i].path == Target(steps[i]) && Some(stores[i].value) == Computed(steps[i], v, ctx)
  {
    if steps != [] { StoresHavePaths(steps[1..], v, ctx); }
  }

  /** No expression reads what an earlier step writes. */
  predicate ReadsNoEarlierTarget(steps: seq<Assign>) {
    forall i, j :: 0 <= i < j < |steps| ==> !Touches(steps[j].expr, Target(steps[i]))
  }

  lemma {:induction false} StoresFrame(steps: seq<Assign>, v: Value, p: seq<string>, x: Value, ctx: Context)
    requires p != [] && forall i :: 0 <= i < |steps| ==> !Touches(steps[i].expr, p)
    ensures Stores(steps, Set(v, p, x), ctx) == Stores(steps, v, ctx)
  {
    if steps != [] {
      EvaluateFrame(steps[0].expr, v, p, x, At(ctx, steps[0].at));
      StoresFrame(steps[1..], v, p, x, ctx);
    }
  }

  /** The step-by-step loop is simultaneous assignment when no expression reads an earlier target. */
  lemma {:induction false} SequenceIsAtOnce(steps: seq<Assign>, v: Value, ctx: Context)
    requires ReadsNoEarlierTarget(steps)
    ensures InSequence(steps, v, ctx) == AtOnce(steps, v, ctx)
  {
    if steps != [] {
      var x := Computed(steps[0], v, ctx);
      if x.Some? {
        var next := Set(v, Target(steps[0]), x.value);
        SequenceIsAtOnce(steps[1..], next, ctx);
        StoresFrame(steps[1..], v, Target(steps[0]), x.value, ctx);
        var rest := Stores(steps[1..], v, ctx);
        if rest.Some? {
          assert ([Store(Target(steps[0]), x.value)] + rest.value)[1..] == rest.value;
        }
      }
    }
  }

  lemma OneSegment(c: char)
    requires c != '.'
    ensures Segments([c]) == [[c]]
  {
    assert [c][1..] == [] && Segments([]) == [[]];
    assert [c] + "" == [c] && [""][1..] == [];
  }

  /** Reading an earlier target is visible: the second field copies the new first field. */
  lemma EarlierTargetIsRead(ctx: Context, at: Moment)
    ensures var steps := [Assign("a", Lit(Bool(true)), at), Assign("b", Path(["a"]), at)];
            InSequence(steps, Obj(map["a" := Null]), ctx) != AtOnce(steps, Obj(map["a" := Null]), ctx)
  {
    var one, two := Assign("a", Lit(Bool(true)), at), Assign("b", Path(["a"]), at);
    var v, v1 := Obj(map["a" := Null]), Obj(map["a" := Bool(true)]);
    OneSegment('a');
    OneSegment('b');
    assert [one, two][1..] == [two] && [two][1..] == [] && ["a"][1..] == [];
    assert Set(v, ["a"], Bool(true)) == v1;
    assert Computed(two, v1, ctx) == Some(Bool(true)) && Computed(two, v, ctx) == Some(Null);
    assert InSequence([one, two], v, ctx) == InSequence([two], v1, ctx) == Some(Set(v1, ["b"], Bool(true)));
    var s0, s1 := Store(["a"], Bool(true)), Store(["b"], Null);
    assert Stores([two], v, ctx) == Some([s1] + []);
    assert Stores([one, two], v, ctx) == Some([s0] + ([s1] + []));
    assert [s0] + ([s1] + []) == [s0, s1] && [s0, s1][1..] == [s1] && [s1][1..] == [];
    assert StoreAll([s1], v1) == Set(v1, ["b"], Null);
    assert Set(v1, ["b"], Bool(true)).fields["b"] != Set(v1, ["b"], Null).fields["b"];
  }

  // ---------- the order of the fields does not matter ----------

  predicate Disjoint(stores: seq<Store>) {
    && HavePaths(stores)
    && (forall i, j :: 0 <= i < j < |stores| ==> !Overlap(stores[i].path, stores[j].path))
  }

  /** A store that overlaps none of those before it may be done first. */
  lemma {:induction false} StoreFirst(before: seq<Store>, s: Store, after: seq<Store>, v: Value)
    requires HavePaths(before) && s.path != [] && HavePaths(after)
    requires forall i :: 0 <= i < |before| ==> !Overlap(before[i].path, s.path)
    ensures StoreAll(before + ([s] + after), v) == StoreAll([s] + (before + after), v)
    decreases |before|
  {
    if before == [] {
      assert before + ([s] + after) == [s] + (before + after);
    } else {
      var first, rest := before[0], before[1..];
      assert before + ([s] + after) == [first] + (rest + ([s] + after));
      assert before + after == [first] + (rest + after);
      StoreCons(first, rest + ([s] + after), v);
      StoreFirst(rest, s, after, Set(v, first.path, first.value));
      StoreSwap(first, s, rest + after, v);
    }
  }

  lemma StoreSwap(a: Store, b: Store, rest: seq<Store>, v: Value)
    requires a.path != [] && b.path != [] && HavePaths(rest) && !Overlap(a.path, b.path)
    ensures StoreAll([b] + rest, Set(v, a.path, a.value)) == StoreAll([b] + ([a] + rest), v)
  {
    StoreCons(b, rest, Set(v, a.path, a.value));
    StoreCons(a, rest, Set(v, b.path, b.value));
    StoreCons(b, [a] + rest, v);
    SetCommutes(v, a.path, a.value, b.path, b.value);
  }

  lemma StoreCons(s: Store, rest: seq<Store>, v: Value)
    requires s.path != [] && HavePaths(rest)
    ensures StoreAll([s] + rest, v) == StoreAll(rest, Set(v, s.path, s.value))
  {
    assert ([s] + rest)[1..] == rest;
  }

  lemma SameRest<T>(a: seq<T>, b: seq<T>, k: nat)
    requires a != [] && k < |b| && b[k] == a[0] && multiset(a) == multiset(b)
    ensures multiset(a[1..]) == multiset(b[..k] + b[k + 1..])
  {
    assert a == [a[0]] + a[1..];
    assert b == b[..k] + ([b[k]] + b[k + 1..]);
    assert multiset(a) - multiset{a[0]} == multiset(a[1..]);
    assert multiset(b) - multiset{b[k]} == multiset(b[..k]) + multiset(b[k + 1..]);
    assert multiset(b[..k] + b[k + 1..]) == multiset(b[..k]) + multiset(b[k + 1..]);
  }

  lemma RestIsDisjoint(b: seq<Store>, k: nat)
    requires Disjoint(b) && k < |b|
    ensures Disjoint(b[..k] + b[k + 1..])
  {
    var rest := b[..k] + b[k + 1..];
    forall i, j | 0 <= i < j < |rest| ensures !Overlap(rest[i].path, rest[j].path) {
      assert rest[i] == b[if i < k then i else i + 1] && rest[j] == b[if j < k then j else j + 1];
    }
  }

  /** Any store of a disjoint list may be done first. */
  lemma StoreAllPull(b: seq<Store>, k: nat, v: Value)
    requires Disjoint(b) && k < |b|
    ensures HavePaths(b[..k] + b[k + 1..])
    ensures StoreAll(b, v) == StoreAll(b[..k] + b[k + 1..], Set(v, b[k].path, b[k].value))
  {
    assert b == b[..k] + ([b[k]] + b[k + 1..]);
    StoreFirst(b[..k], b[k], b[k + 1..], v);
    RestIsDisjoint(b, k);
    StoreCons(b[k], b[..k] + b[k + 1..], v);
  }

  lemma IndexOf(b: seq<Store>, s: Store) returns (k: nat)
    requires s in multiset(b)
    ensures k < |b| && b[k] == s
  {
    k :| 0 <= k < |b| && b[k] == s;
  }

  lemma {:induction false} StoreAllPermuted(a: seq<Store>, b: seq<Store>, v: Value)
    requires Disjoint(a) && Disjoint(b) && multiset(a) == multiset(b)
    ensures StoreAll(a, v) == StoreAll(b, v)
    decreases |a|
  {
    if a == [] {
      assert |b| == |multiset(b)| == 0;
    } else {
      assert a[0] in multiset(a);
      var k := IndexOf(b, a[0]);
      StoreAllPull(b, k, v);
      var rest, next := b[..k] + b[k + 1..], Set(v, a[0].path, a[0].value);
      assert StoreAll(a[1..], next) == StoreAll(rest, next) by {
        RestIsDisjoint(b, k);
        SameRest(a, b, k);
        StoreAllPermuted(a[1..], rest, next);
      }
    }
  }

  predicate DisjointTargets(steps: seq<Assign>) {
    forall i, j :: 0 <= i < j < |steps| ==> !Overlap(Target(steps[i]), Target(steps[j]))
  }

  /** No expression reads what another step writes. */
  predicate Independent(steps: seq<Assign>) {
    forall i, j :: 0 <= i < |steps| && 0 <= j < |steps| && i != j ==> !Touches(steps[j].expr, Target(steps[i]))
  }

  /** The store a step asks for, where its expression has a value. */
  function StoreOf(a: Assign, v: Value, ctx: Context): Store {
    var x := Computed(a, v, ctx);
    Store(Target(a), if x.Some? then x.value else Null)
  }

  lemma {:induction false} StoresPermuted(a: seq<Assign>, b: seq<Assign>, v: Value, ctx: Context)
    requires multiset(a) == multiset(b)
    ensures Stores(a, v, ctx).None? <==> Stores(b, v, ctx).None?
    ensures Stores(a, v, ctx).Some? ==> multiset(Stores(a, v, ctx).value) == multiset(Stores(b, v, ctx).value)
    decreases |a|
  {
    if a == [] {
      assert |b| == |multiset(b)| == 0;
    } else {
      assert a[0] in multiset(b);
      var k :| 0 <= k < |b| && b[k] == a[0];
      var rest := b[..k] + b[k + 1..];
      SameRest(a, b, k);
      StoresPermuted(a[1..], rest, v, ctx);
      StoresMove(b[..k], b[k], b[k + 1..], v, ctx);
      assert b == b[..k] + ([b[k]] + b[k + 1..]);
    }
  }

  lemma StoresTail(before: seq<Assign>, after: seq<Assign>, v: Value, ctx: Context)
    requires before != []
    ensures var rest := Stores(before[1..] + after, v, ctx);
            Stores(before + after, v, ctx) ==
              if Computed(before[0], v, ctx).None? || rest.None? then None
              else Some([StoreOf(before[0], v, ctx)] + rest.value)
  {
    assert (before + after)[1..] == before[1..] + after;
  }

  lemma {:induction false} StoresMove(before: seq<Assign>, s: Assign, after: seq<Assign>, v: Value, ctx: Context)
    ensures var here, rest := Stores(before + ([s] + after), v, ctx), Stores(before + after, v, ctx);
            if Computed(s, v, ctx).None? || rest.None? then here.None?
            else here.Some? && multiset(here.value) == multiset{StoreOf(s, v, ctx)} + multiset(rest.value)
  {
    if before == [] {
      assert before + ([s] + after) == [s] + after && before + after == after;
      assert ([s] + after)[1..] == after;
    } else {
      StoresMove(before[1..], s, after, v, ctx);
      StoresTail(before, [s] + after, v, ctx);
      StoresTail(before, after, v, ctx);
    }
  }

  /**
   * A map step whose targets are disjoint and whose expressions read no other
   * target means the same in every order of its fields: the same payload, or a
   * failure in both.
   */
  lemma OrderDoesNotMatter(a: seq<Assign>, b: seq<Assign>, v: Value, ctx: Context)
    requires multiset(a) == multiset(b)
    requires DisjointTargets(a) && Independent(a) && DisjointTargets(b) && Independent(b)
    ensures InSequence(a, v, ctx) == InSequence(b, v, ctx)
  {
    SequenceIsAtOnce(a, v, ctx);
    SequenceIsAtOnce(b, v, ctx);
    StoresPermuted(a, b, v, ctx);
    if Stores(a, v, ctx).Some? {
      StoresHavePaths(a, v, ctx);
      StoresHavePaths(b, v, ctx);
      StoreAllPermuted(Stores(a, v, ctx).value, Stores(b, v, ctx).value, v);
    }
  }

  lemma StoreAllHolds(stores: seq<Store>, v: Value, k: nat)
    requires Disjoint(stores) && k < |stores|
    ensures Blocked(v, stores[k].path) || Get(StoreAll(stores, v), stores[k].path) == Some(stores[k].value)
  {
    var s, rest := stores[k], stores[..k] + stores[k + 1..];
    RestApart(stores, k);
    StoreOutOfOrder(stores, k, v);
    SetThenGet(v, s.path, s.value);
    StoreAllFrame(rest, Set(v, s.path, s.value), s.path);
  }

  lemma RestApart(stores: seq<Store>, k: nat)
    requires Disjoint(stores) && k < |stores|
    ensures var rest := stores[..k] + stores[k + 1..];
            HavePaths(rest) && forall i :: 0 <= i < |rest| ==> !Overlap(rest[i].path, stores[k].path)
  {
    var rest := stores[..k] + stores[k + 1..];
    forall i | 0 <= i < |rest| ensures rest[i].path != [] && !Overlap(rest[i].path, stores[k].path) {
      assert rest[i] == stores[if i < k then i else i + 1];
    }
  }

  lemma StoreOutOfOrder(stores: seq<Store>, k: nat, v: Value)
    requires Disjoint(stores) && k < |stores|
    ensures StoreAll(stores, v)
         == StoreAll(stores[..k] + stores[k + 1..], Set(v, stores[k].path, stores[k].value))
  {
    assert stores == stores[..k] + ([stores[k]] + stores[k + 1..]);
    RestApart(stores, k);
    StoreFirst(stores[..k], stores[k], stores[k + 1..], v);
    StoreCons(stores[k], stores[..k] + stores[k + 1..], v);
  }

  /**
   * After a map step with disjoint targets and independent expressions, every
   * target that was not blocked holds its expression's value on the original
   * payload, and nothing outside the targets has changed.
   */
  lemma TargetsHoldTheirValues(steps: seq<Assign>, v: Value, ctx: Context, k: nat, q: seq<string>)
    requires DisjointTargets(steps) && Independent(steps) && InSequence(steps, v, ctx).Some? && k < |steps|
    ensures Blocked(v, Target(steps[k])) ||
            Get(InSequence(steps, v, ctx).value, Target(steps[k])) == Computed(steps[k], v, ctx)
    ensures (forall i :: 0 <= i < |steps| ==> !Overlap(Target(steps[i]), q)) ==>
              Get(InSequence(steps, v, ctx).value, q) == Get(v, q)
  {
    SequenceIsAtOnce(steps, v, ctx);
    StoresHavePaths(steps, v, ctx);
    var stores := Stores(steps, v, ctx).value;
    StoreAllHolds(stores, v, k);
    if forall i :: 0 <= i < |steps| ==> !Overlap(Target(steps[i]), q) { StoreAllFrame(stores, v, q); }
  }

  lemma {:induction false} StoreAllFrame(stores: seq<Store>, v: Value, q: seq<string>)
    requires HavePaths(stores) && forall i :: 0 <= i < |stores| ==> !Overlap(stores[i].path, q)
    ensures Get(StoreAll(stores, v), q) == Get(v, q)
    decreases |stores|
  {
    if stores != [] {
      StoreAllFrame(stores[1..], Set(v, stores[0].path, stores[0].value), q);
      SetFrame(v, stores[0].path, stores[0].value, q);
    }
  }

  // ---------- projecting ----------

  /** A projection has exactly the listed fields that exist, each with its value. */
  lemma {:induction false} ProjectHolds(fields: seq<string>, v: Value, key: string)
    ensures key in Project(fields, v) <==> key in fields && Get(v, Segments(key)).Some?
    ensures key in Project(fields, v) ==> Get(v, Segments(key)) == Some(Project(fields, v)[key])
    decreases |fields|
  {
    if fields != [] {
      var k := |fields| - 1;
      ProjectHolds(fields[..k], v, key);
      assert fields == fields[..k] + [fields[k]];
    }
  }
}
