/**
 * The linear pipeline (sohara-core/src/pipeline.rs): source items go through
 * the transforms stage by stage and the survivors to the sink. Transforms and
 * sink may answer differently on every call.
 */
module Pipeline {
  import opened Json
  import opened Payload

  datatype Outcome = Pass(record: Record) | Filtered | Expand(records: seq<Record>) | Fail

  /** A source item: a record or a source error. */
  datatype Item = Arrived(record: Record) | Broken

  datatype Stats = Stats(processed: nat, filtered: nat, errors: nat)

  // ---------- depth first ----------

  /** What becomes of records: the survivors in order, and how many were filtered or failed. */
  datatype Fate = Fate(records: seq<Record>, filtered: nat, errors: nat)

  const GONE := Fate([], 0, 0)

  function Plus(a: Fate, b: Fate): Fate { Fate(a.records + b.records, a.filtered + b.filtered, a.errors + b.errors) }

  type Pure = (nat, Record) -> Outcome

  /** Takes a record through stage `k` and all later ones before looking at the next record. */
  function DepthFirst(f: Pure, stages: nat, k: nat, record: Record): Fate
    requires k <= stages
    decreases stages - k, 1, 0
  {
    if k == stages then Fate([record], 0, 0)
    else
      match f(k, record)
      case Pass(next) => DepthFirst(f, stages, k + 1, next)
      case Filtered => Fate([], 1, 0)
      case Expand(records) => DepthFirstAll(f, stages, k + 1, records)
      case Fail => Fate([], 0, 1)
  }

  function DepthFirstAll(f: Pure, stages: nat, k: nat, records: seq<Record>): Fate
    requires k <= stages
    decreases stages - k, 2, |records|
  {
    if records == [] then GONE
    else Plus(DepthFirst(f, stages, k, records[0]), DepthFirstAll(f, stages, k, records[1..]))
  }

  lemma PlusAssociative(a: Fate, b: Fate, c: Fate)
    ensures Plus(Plus(a, b), c) == Plus(a, Plus(b, c))
  {
    assert a.records + b.records + c.records == a.records + (b.records + c.records);
  }

  lemma DepthFirstCons(f: Pure, stages: nat, k: nat, record: Record, rest: seq<Record>, whole: Fate)
    requires k <= stages && DepthFirstAll(f, stages, k, rest) == whole
    ensures DepthFirstAll(f, stages, k, [record] + rest) == Plus(DepthFirst(f, stages, k, record), whole)
  {
    assert ([record] + rest)[1..] == rest;
  }

  lemma PlusGone(a: Fate)
    ensures Plus(GONE, a) == a == Plus(a, GONE)
  {
  }

  lemma {:induction false} DepthFirstConcat(f: Pure, stages: nat, k: nat, first: seq<Record>, second: seq<Record>)
    requires k <= stages
    ensures DepthFirstAll(f, stages, k, first + second)
            == Plus(DepthFirstAll(f, stages, k, first), DepthFirstAll(f, stages, k, second))
    decreases |first|
  {
    if first == [] {
      assert [] + second == second;
      PlusGone(DepthFirstAll(f, stages, k, second));
    } else {
      var rest := first[1..];
      DepthFirstConcat(f, stages, k, rest, second);
      var a, b := DepthFirst(f, stages, k, first[0]), DepthFirstAll(f, stages, k, rest);
      var c := DepthFirstAll(f, stages, k, second);
      assert first + second == [first[0]] + (rest + second) && first == [first[0]] + rest;
      DepthFirstCons(f, stages, k, first[0], rest + second, Plus(b, c));
      DepthFirstCons(f, stages, k, first[0], rest, b);
      PlusAssociative(a, b, c);
    }
  }

  /** Past the last stage every record survives. */
  lemma {:induction false} DepthFirstEnd(f: Pure, stages: nat, records: seq<Record>)
    ensures DepthFirstAll(f, stages, stages, records) == Fate(records, 0, 0)
    decreases |records|
  {
    if records != [] {
      DepthFirstEnd(f, stages, records[1..]);
      assert [records[0]] + records[1..] == records;
    }
  }

  lemma DepthFirstSingle(f: Pure, stages: nat, k: nat, record: Record)
    requires k <= stages
    ensures DepthFirstAll(f, stages, k, [record]) == DepthFirst(f, stages, k, record)
  {
    assert [record][1..] == [];
    assert DepthFirst(f, stages, k, record).records + [] == DepthFirst(f, stages, k, record).records;
  }

  /** One transform applied to one record. */
  function OneStage(outcome: Outcome): Fate {
    match outcome
    case Pass(next) => Fate([next], 0, 0)
    case Filtered => Fate([], 1, 0)
    case Expand(records) => Fate(records, 0, 0)
    case Fail => Fate([], 0, 1)
  }

  /** A stage followed by the later ones, in depth-first order, is the depth-first walk. */
  lemma OneStageThenRest(f: Pure, stages: nat, k: nat, record: Record)
    requires k < stages
    ensures var here := OneStage(f(k, record));
            DepthFirst(f, stages, k, record)
            == Plus(DepthFirstAll(f, stages, k + 1, here.records), Fate([], here.filtered, here.errors))
  {
    match f(k, record)
    case Pass(next) => DepthFirstSingle(f, stages, k + 1, next);
    case _ =>
  }

  function Lost(filtered: nat, errors: nat): Fate { Fate([], filtered, errors) }

  function LostIn(a: Fate): Fate { Lost(a.filtered, a.errors) }

  /** One stage applied to all pending records. */
  function WholeStage(f: Pure, k: nat, pending: seq<Record>): Fate {
    if pending == [] then GONE
    else
      var n := |pending| - 1;
      Plus(WholeStage(f, k, pending[..n]), OneStage(f(k, pending[n])))
  }

  /** Stage after stage, each over everything the one before left. */
  function StageByStage(f: Pure, stages: nat, k: nat, pending: seq<Record>): Fate
    requires k <= stages
    decreases stages - k
  {
    if k == stages || pending == [] then Fate(pending, 0, 0)
    else
      var here := WholeStage(f, k, pending);
      Plus(LostIn(here), StageByStage(f, stages, k + 1, here.records))
  }

  /** The same losses, counted in either order. */
  lemma Regroup(all: Fate, before: Fate, one: Fate, rest: Fate, later: Fate, both: Fate, x: Fate, y: Fate)
    requires all == Plus(before, one) && before == Plus(LostIn(x), rest) && one == Plus(later, LostIn(y))
    requires both == Plus(rest, later)
    ensures all == Plus(LostIn(Plus(x, y)), both)
  {
  }

  /** A whole stage followed by depth-first walks is depth-first walks from that stage. */
  lemma {:induction false} WholeStageThenRest(f: Pure, stages: nat, k: nat, pending: seq<Record>)
    requires k < stages
    ensures var here := WholeStage(f, k, pending);
            DepthFirstAll(f, stages, k, pending) == Plus(LostIn(here), DepthFirstAll(f, stages, k + 1, here.records))
    decreases |pending|
  {
    if pending == [] {
      PlusGone(GONE);
    } else {
      var n := |pending| - 1;
      var before, one := WholeStage(f, k, pending[..n]), OneStage(f(k, pending[n]));
      WholeStageThenRest(f, stages, k, pending[..n]);
      LastRecord(f, stages, k, pending);
      OneStageThenRest(f, stages, k, pending[n]);
      DepthFirstConcat(f, stages, k + 1, before.records, one.records);
      Regroup(DepthFirstAll(f, stages, k, pending), DepthFirstAll(f, stages, k, pending[..n]),
              DepthFirst(f, stages, k, pending[n]),
              DepthFirstAll(f, stages, k + 1, before.records), DepthFirstAll(f, stages, k + 1, one.records),
              DepthFirstAll(f, stages, k + 1, before.records + one.records), before, one);
    }
  }

  lemma LastRecord(f: Pure, stages: nat, k: nat, pending: seq<Record>)
    requires k <= stages && pending != []
    ensures var n := |pending| - 1;
            DepthFirstAll(f, stages, k, pending)
            == Plus(DepthFirstAll(f, stages, k, pending[..n]), DepthFirst(f, stages, k, pending[n]))
  {
    var n := |pending| - 1;
    assert pending == pending[..n] + [pending[n]];
    DepthFirstConcat(f, stages, k, pending[..n], [pending[n]]);
    DepthFirstSingle(f, stages, k, pending[n]);
  }

  /** Going stage by stage gives the same records, in the same order, and the same counts as going depth first. */
  lemma {:induction false} StageByStageIsDepthFirst(f: Pure, stages: nat, k: nat, pending: seq<Record>)
    requires k <= stages
    ensures StageByStage(f, stages, k, pending) == DepthFirstAll(f, stages, k, pending)
    decreases stages - k
  {
    if k == stages {
      DepthFirstEnd(f, stages, pending);
    } else if pending != [] {
      WholeStageThenRest(f, stages, k, pending);
      StageByStageIsDepthFirst(f, stages, k + 1, WholeStage(f, k, pending).records);
    }
  }

  lemma StageByStageOne(f: Pure, stages: nat, record: Record)
    ensures StageByStage(f, stages, 0, [record]) == DepthFirst(f, stages, 0, record)
  {
    StageByStageIsDepthFirst(f, stages, 0, [record]);
    DepthFirstSingle(f, stages, 0, record);
  }

  /** A record that every stage from k on passes on survives as what they make of it. */
  lemma {:induction false} PassedThrough(f: Pure, stages: nat, k: nat, trace: seq<Record>)
    requires k <= stages && |trace| == stages - k + 1
    requires forall i :: 0 <= i < stages - k ==> f(k + i, trace[i]) == Pass(trace[i + 1])
    ensures DepthFirst(f, stages, k, trace[0]) == Fate([trace[stages - k]], 0, 0)
    decreases stages - k
  {
    if k < stages {
      assert f(k + 0, trace[0]) == Pass(trace[1]);
      forall i | 0 <= i < stages - (k + 1) ensures f(k + 1 + i, trace[1..][i]) == Pass(trace[1..][i + 1]) {
        assert f(k + (i + 1), trace[i + 1]) == Pass(trace[i + 2]);
      }
      PassedThrough(f, stages, k + 1, trace[1..]);
    }
  }

  /** A stage that filters or fails a record ends it and is counted; one that expands it sends each part on in order. */
  lemma Ended(f: Pure, stages: nat, k: nat, record: Record, a: Record, b: Record)
    requires k < stages
    ensures f(k, record) == Filtered ==> DepthFirst(f, stages, k, record) == Fate([], 1, 0)
    ensures f(k, record) == Fail ==> DepthFirst(f, stages, k, record) == Fate([], 0, 1)
    ensures f(k, record) == Expand([a, b]) && k + 1 == stages ==> DepthFirst(f, stages, k, record) == Fate([a, b], 0, 0)
  {
    if k + 1 == stages { DepthFirstEnd(f, stages, [a, b]); }
  }

  /** What becomes of the items of a source, each record on its own. */
  function ItemsDepthFirst(f: Pure, stages: nat, items: seq<Item>): Fate {
    if items == [] then GONE
    else
      var k := |items| - 1;
      Plus(ItemsDepthFirst(f, stages, items[..k]),
           if items[k].Arrived? then DepthFirst(f, stages, 0, items[k].record) else Lost(0, 1))
  }

  // ---------- conservation ----------

  /** What expansions of these sizes add to the number of records. */
  function Surplus(sizes: seq<nat>): int {
    if sizes == [] then 0 else Surplus(sizes[..|sizes| - 1]) + sizes[|sizes| - 1] - 1
  }

  lemma SurplusAppend(sizes: seq<nat>, size: nat)
    ensures Surplus(sizes + [size]) == Surplus(sizes) + size - 1
  {
    assert (sizes + [size])[..|sizes|] == sizes;
  }

  /** How many of the offered records the sink accepts, asked in this order. */
  function Accepted(accepts: (nat, Record) -> bool, offered: seq<Record>): nat {
    if offered == [] then 0
    else
      var k := |offered| - 1;
      Accepted(accepts, offered[..k]) + if accepts(k, offered[k]) then 1 else 0
  }

  // ---------- stage by stage ----------

  class Run {
    const stages: nat
    const transform: (nat, nat, Record) -> Outcome
    const accepts: (nat, Record) -> bool
    var calls: nat
    var sends: nat
    var processed: nat
    var filtered: nat
    var errors: nat
    ghost var sizes: seq<nat>
    ghost var offered: seq<Record>

    constructor (stages: nat, transform: (nat, nat, Record) -> Outcome, accepts: (nat, Record) -> bool)
      ensures this.stages == stages && this.transform == transform && this.accepts == accepts
      ensures sends == processed == filtered == errors == 0 && sizes == [] && offered == []
    {
      this.stages, this.transform, this.accepts := stages, transform, accepts;
      calls, sends, processed, filtered, errors, sizes, offered := 0, 0, 0, 0, 0, [], [];
    }

    /** The transforms answer as `f` does, whenever they are called. */
    ghost predicate Answers(f: Pure) { forall k, call, r :: transform(k, call, r) == f(k, r) }

    /** Records accounted for, less what expansions added. */
    ghost function Balance(): int
      reads this
    {
      processed + filtered + errors - Surplus(sizes)
    }

    method ApplyOne(k: nat, record: Record, ghost f: Pure) returns (out: seq<Record>)
      modifies this
      ensures unchanged(this`sends, this`processed, this`offered)
      ensures |out| + Balance() == old(Balance()) + 1
      ensures filtered >= old(filtered) && errors >= old(errors)
      ensures Answers(f) ==> Fate(out, filtered - old(filtered), errors - old(errors)) == OneStage(f(k, record))
      ensures var outcome := transform(k, old(calls), record);
              && calls == old(calls) + 1
              && (outcome.Pass? ==> out == [outcome.record] && filtered == old(filtered) && errors == old(errors))
              && (outcome.Expand? ==> out == outcome.records && filtered == old(filtered) && errors == old(errors))
              && (outcome.Filtered? ==> out == [] && filtered == old(filtered) + 1 && errors == old(errors))
              && (outcome.Fail? ==> out == [] && filtered == old(filtered) && errors == old(errors) + 1)
    {
      var outcome := transform(k, calls, record);
      calls := calls + 1;
      match outcome
      case Pass(next) => out := [next];
      case Filtered =>
        filtered := filtered + 1;
        out := [];
      case Expand(records) =>
        out := records;
        SurplusAppend(sizes, |records|);
        sizes := sizes + [|records|];
      case Fail =>
        errors := errors + 1;
        out := [];
    }

    method ApplyStage(k: nat, pending: seq<Record>, ghost f: Pure) returns (next: seq<Record>)
      requires k < stages
      modifies this
      ensures unchanged(this`sends, this`processed, this`offered)
      ensures |next| + Balance() == old(Balance()) + |pending|
      ensures filtered >= old(filtered) && errors >= old(errors)
      ensures Answers(f) ==> Fate(next, filtered - old(filtered), errors - old(errors)) == WholeStage(f, k, pending)
    {
      next := [];
      for i := 0 to |pending|
        invariant unchanged(this`sends, this`processed, this`offered)
        invariant |next| + Balance() == old(Balance()) + i
        invariant filtered >= old(filtered) && errors >= old(errors)
        invariant Answers(f) ==>
                    Fate(next, filtered - old(filtered), errors - old(errors)) == WholeStage(f, k, pending[..i])
      {
        assert pending[..i + 1][..i] == pending[..i];
        var out := ApplyOne(k, pending[i], f);
        next := next + out;
      }
      assert pending[..|pending|] == pending;
    }

    /** Stage by stage over all pending records; with pure transforms the result of the depth-first walk. */
    method ApplyTransforms(record: Record, ghost f: Pure) returns (pending: seq<Record>)
      modifies this
      ensures unchanged(this`sends, this`processed, this`offered)
      ensures |pending| + Balance() == old(Balance()) + 1
      ensures filtered >= old(filtered) && errors >= old(errors)
      ensures Answers(f) ==>
                Fate(pending, filtered - old(filtered), errors - old(errors)) == DepthFirst(f, stages, 0, record)
    {
      pending := [record];
      StageByStageOne(f, stages, record);
      var k := 0;
      while k < stages
        invariant k <= stages && pending != []
        invariant unchanged(this`sends, this`processed, this`offered)
        invariant |pending| + Balance() == old(Balance()) + 1
        invariant filtered >= old(filtered) && errors >= old(errors)
        invariant Answers(f) ==>
                    Plus(Lost(filtered - old(filtered), errors - old(errors)), StageByStage(f, stages, k, pending))
                    == StageByStage(f, stages, 0, [record])
      {
        pending := ApplyStage(k, pending, f);
        k := k + 1;
        if pending == [] { return; }
      }
    }

    method Send(record: Record)
      requires sends == |offered| && processed == Accepted(accepts, offered)
      modifies this
      ensures offered == old(offered) + [record] && sends == |offered| && processed == Accepted(accepts, offered)
      ensures filtered == old(filtered) && sizes == old(sizes)
      ensures processed + errors == old(processed + errors) + 1 && errors >= old(errors)
    {
      if accepts(sends, record) { processed := processed + 1; } else { errors := errors + 1; }
      sends := sends + 1;
      assert (offered + [record])[..|offered|] == offered;
      offered := offered + [record];
    }

    method ProcessRecord(record: Record, ghost f: Pure)
      requires sends == |offered| && processed == Accepted(accepts, offered)
      modifies this
      ensures sends == |offered| && processed == Accepted(accepts, offered)
      ensures Balance() == old(Balance()) + 1
      ensures Answers(f) ==>
        var fate := DepthFirst(f, stages, 0, record);
        && offered == old(offered) + fate.records && filtered == old(filtered) + fate.filtered
        && processed + errors == old(processed + errors) + |fate.records| + fate.errors
    {
      var records := ApplyTransforms(record, f);
      ghost var f1, pe, s1 := filtered, processed + errors, sizes;
      for i := 0 to |records|
        invariant sends == |offered| && processed == Accepted(accepts, offered)
        invariant filtered == f1 && sizes == s1 && processed + errors == pe + i
        invariant offered == old(offered) + records[..i]
      {
        assert records[..i + 1] == records[..i] + [records[i]];
        Send(records[i]);
      }
      assert records[..|records|] == records;
    }

    /**
     * Runs over a source that may fail to open and a sink that may fail to
     * flush. Every source item ends up processed, filtered or in error, up to
     * what expansions add; with pure transforms the sink is offered exactly
     * the depth-first results.
     */
    method Over(opens: bool, items: seq<Item>, flushes: bool, ghost f: Pure) returns (stats: Option<Stats>)
      requires sends == processed == filtered == errors == 0 && sizes == [] && offered == []
      modifies this
      ensures stats.Some? <==> opens && flushes
      ensures stats.Some? ==>
        var s := stats.value;
        && s.processed + s.filtered + s.errors == |items| + Surplus(sizes)
        && s.processed == Accepted(accepts, offered)
      ensures stats.Some? && Answers(f) ==>
        var s, fate := stats.value, ItemsDepthFirst(f, stages, items);
        && offered == fate.records && s.filtered == fate.filtered
        && s.errors == fate.errors + |fate.records| - s.processed
    {
      if !opens { return None; }
      for i := 0 to |items|
        invariant sends == |offered| && processed == Accepted(accepts, offered)
        invariant Balance() == i
        invariant Answers(f) ==>
          var fate := ItemsDepthFirst(f, stages, items[..i]);
          && offered == fate.records && filtered == fate.filtered
          && processed + errors == fate.errors + |fate.records|
      {
        assert items[..i + 1][..i] == items[..i];
        if items[i].Arrived? { ProcessRecord(items[i].record, f); } else { errors := errors + 1; }
      }
      assert items[..|items|] == items;
      stats := if flushes then Some(Stats(processed, filtered, errors)) else None;
    }

    /** Collects the surviving records instead of sending them. */
    method Collect(items: seq<Item>, ghost f: Pure) returns (results: seq<Record>)
      requires sends == processed == filtered == errors == 0 && sizes == []
      modifies this
      ensures |results| + filtered + errors == |items| + Surplus(sizes)
      ensures Answers(f) ==> Fate(results, filtered, errors) == ItemsDepthFirst(f, stages, items)
    {
      results := [];
      for i := 0 to |items|
        invariant processed == 0 && |results| + Balance() == i
        invariant Answers(f) ==> Fate(results, filtered, errors) == ItemsDepthFirst(f, stages, items[..i])
      {
        assert items[..i + 1][..i] == items[..i];
        match items[i] {
          case Arrived(record) =>
            var out := ApplyTransforms(record, f);
            results := results + out;
          case Broken => errors := errors + 1;
        }
      }
      assert items[..|items|] == items;
    }
  }
}
