/**
 * Pumping sources, flushing batch nodes and whole runs
 * (sohara-runtime/src/runner.rs), as relations between snapshots.
 */
module Runs {
  import opened Json
  import opened Payload
  import opened Eval
  import opened Graph
  import opened Flow
  import opened Routing
  import opened Turns
  import opened Logs
  import opened Ledgers
  import opened Walks
  import Join
  import Batch
  import Delivery
  import StepState

  // ---------- sources and flushes ----------

  /** Nothing has changed at nodes that `from` does not reach. */
  ghost predicate Above(g: Adjacency, from: string, s: Snapshot, t: Snapshot) {
    forall n {:trigger SameAt(s, t, n)} :: !Reaches(g, from, n) ==> SameAt(s, t, n)
  }

  /** Nothing has changed at nodes that none of these reaches. */
  ghost predicate AboveAll(g: Adjacency, ids: seq<string>, s: Snapshot, t: Snapshot) {
    forall n {:trigger SameAt(s, t, n)} :: ReachedByNone(g, ids, n) ==> SameAt(s, t, n)
  }

  ghost predicate ReachedByNone(g: Adjacency, ids: seq<string>, n: string) {
    forall i :: 0 <= i < |ids| ==> !Reaches(g, ids[i], n)
  }

  lemma AboveStep(g: Adjacency, from: string, start: Snapshot, here: Snapshot, moved: Snapshot, t: Snapshot)
    requires Above(g, from, start, here) && moved == here.(moves := moved.moves) && OnlyBelow(g, from, moved, t)
    ensures Above(g, from, start, t)
  {
    forall n | !Reaches(g, from, n) ensures SameAt(start, t, n) {
      assert SameAt(start, here, n) && SameAt(moved, t, n);
    }
  }

  /** Flushing these changes only what they reach, and puts nothing in. */
  ghost predicate FlushedBelow(g: Adjacency, ids: seq<string>, s: Snapshot, t: Snapshot) {
    AboveAll(g, ids, s, t) && Internal(s.moves, t.moves)
  }

  lemma FlushedBelowStep(g: Adjacency, ids: seq<string>, k: nat, start: Snapshot, here: Snapshot, t: Snapshot)
    requires k < |ids| && FlushedBelow(g, ids, start, here) && Above(g, ids[k], here, t)
    requires Internal(here.moves, t.moves)
    ensures FlushedBelow(g, ids, start, t)
  {
    forall n | ReachedByNone(g, ids, n) ensures SameAt(start, t, n) {
      assert SameAt(start, here, n) && SameAt(here, t, n);
    }
  }

  /** The records among a source's items. */
  function RecordsOf(items: seq<Option<Record>>): seq<Record> {
    if items == [] then []
    else
      var k := |items| - 1;
      RecordsOf(items[..k]) + if items[k].Some? then [items[k].value] else []
  }

  /**
   * Since `s` the source has put in its first items, nothing else was put in, and it has handed on
   * what they hand on.
   */
  ghost predicate Pumped(ctx: Context, node: Node, items: seq<Option<Record>>, taken: nat, s: Snapshot, t: Snapshot)
    requires taken <= |items|
  {
    && InjectedAt(t.moves, node.id) == InjectedAt(s.moves, node.id) + RecordsOf(items[..taken])
    && (forall n :: n != node.id ==> InjectedAt(t.moves, n) == InjectedAt(s.moves, n))
    && Sources(node, items[..taken], ctx, LogOf(s.handed, node.id), LogOf(t.handed, node.id))
    && Grows(s, t)
  }

  /** No batch node was flushed and no join forgot an arrival. */
  ghost predicate Grows(s: Snapshot, t: Snapshot) { forall n {:trigger GrowsAt(s, t, n)} :: GrowsAt(s, t, n) }

  lemma GrowsOn(g: Adjacency, from: string, s: Snapshot, here: Snapshot, moved: Snapshot, t: Snapshot)
    requires Grows(s, here) && moved == here.(moves := moved.moves) && OnlyBelow(g, from, moved, t)
    ensures Grows(s, t)
  {
    forall n ensures GrowsAt(s, t, n) { assert GrowsAt(s, here, n) && GrowsAt(moved, t, n); }
  }

  /** How many of a source's items are errors. */
  function ErrorItems(items: seq<Option<Record>>): nat {
    if items == [] then 0
    else
      var k := |items| - 1;
      ErrorItems(items[..k]) + if items[k].None? then 1 else 0
  }

  lemma ErrorItemsStep(items: seq<Option<Record>>, i: nat)
    requires i < |items|
    ensures ErrorItems(items[..i + 1]) == ErrorItems(items[..i]) + if items[i].None? then 1 else 0
  {
    assert items[..i + 1][..i] == items[..i];
  }

  lemma PumpedStart(ctx: Context, node: Node, items: seq<Option<Record>>, s: Snapshot)
    ensures Pumped(ctx, node, items, 0, s, s)
  {
  }

  lemma RecordsOfStep(items: seq<Option<Record>>, i: nat)
    requires i < |items|
    ensures RecordsOf(items[..i + 1]) == RecordsOf(items[..i]) + if items[i].Some? then [items[i].value] else []
  {
    assert items[..i + 1][..i] == items[..i];
  }

  lemma PumpedError(ctx: Context, node: Node, items: seq<Option<Record>>, i: nat, s: Snapshot, t: Snapshot)
    requires i < |items| && items[i].None? && Pumped(ctx, node, items, i, s, t)
    ensures Pumped(ctx, node, items, i + 1, s, t)
  {
    RecordsOfStep(items, i);
    var log := LogOf(t.handed, node.id);
    assert log[|log|..] == [];
    SourcesStep(node, items, i, ctx, LogOf(s.handed, node.id), log, log);
  }

  lemma {:induction false} InternalInjects(s: seq<Move>, t: seq<Move>, id: string)
    requires Internal(s, t)
    ensures InjectedAt(t, id) == InjectedAt(s, id)
    decreases |t|
  {
    if |t| == |s| {
      assert t == s;
    } else {
      InternalInjects(s, t[..|t| - 1], id);
      assert InjectedAt(s, id) + [] == InjectedAt(s, id);
    }
  }

  lemma InjectsOne(moves: seq<Move>, later: seq<Move>, id: string, record: Record)
    requires Internal(moves + [Move(None, id, record)], later)
    ensures forall n :: InjectedAt(later, n) == InjectedAt(moves, n) + if n == id then [record] else []
  {
    forall n ensures InjectedAt(later, n) == InjectedAt(moves, n) + if n == id then [record] else [] {
      InternalInjects(moves + [Move(None, id, record)], later, n);
      InjectedSnoc(moves, Move(None, id, record), n);
    }
  }

  lemma RecordHands(node: Node, items: seq<Option<Record>>, i: nat, ctx: Context, admitted: bool,
                    before: seq<Handoff>, log: seq<Handoff>, after: seq<Handoff>)
    requires i < |items| && items[i].Some? && Sources(node, items[..i], ctx, before, log)
    requires May(node.when, items[i].value.payload, ctx, admitted)
    requires if admitted then Forwards(node.routes, items[i].value, ctx, log, after) else after == log
    ensures Sources(node, items[..i + 1], ctx, before, after)
  {
    assert log[|log|..] == [];
    SourcesStep(node, items, i, ctx, before, log, after);
  }

  lemma PumpedRecord(g: Adjacency, f: Setup, node: Node, items: seq<Option<Record>>, i: nat, admitted: bool,
                     start: Snapshot, here: Snapshot, moved: Snapshot, t: Snapshot)
    requires i < |items| && items[i].Some? && node.step.Source? && Pumped(f.ctx, node, items, i, start, here)
    requires moved == here.(moves := here.moves + [Move(None, node.id, items[i].value)])
    requires OnlyBelow(g, node.id, moved, t) && May(node.when, items[i].value.payload, f.ctx, admitted)
    requires if admitted then Handles(f, node, items[i].value, moved, t) else t == moved
    ensures Pumped(f.ctx, node, items, i + 1, start, t)
  {
    RecordsOfStep(items, i);
    InjectsOne(here.moves, t.moves, node.id, items[i].value);
    GrowsOn(g, node.id, start, here, moved, t);
    RecordHands(node, items, i, f.ctx, admitted, LogOf(start.handed, node.id), LogOf(here.handed, node.id),
                LogOf(t.handed, node.id));
  }

  /** The node's buffer taken and logged as flushed. */
  function Emptied(s: Snapshot, id: string, records: seq<Record>): Snapshot {
    s.(batches := s.batches[id := []], batchLog := s.batchLog[id := LogOf(s.batchLog, id) + [Batch.Flush]],
       batchOut := s.batchOut[id := LogOf(s.batchOut, id) + if records == [] then [] else [records]])
  }

  lemma FlushTakes(l: Ledger, id: string, records: seq<Record>, armed: bool, next: Batch.BatchState)
    requires id in l.batches && l.batches[id] == records && id in l.armed && l.armed[id] == armed
    requires next == (if records == [] then Batch.BatchState(records, armed, LogOf(l.batchOut, id))
                      else Batch.BatchState([], armed, LogOf(l.batchOut, id) + [records]))
    ensures var after := Rebatched(l, id, Batch.Flush, next);
            SnapOf(after) == Emptied(SnapOf(l), id, records) && after.armed == l.armed
  {
    assert LogOf(l.batchOut, id) + [] == LogOf(l.batchOut, id);
    assert l.armed[id := armed] == l.armed;
  }

  /** The node's buffer was emptied and handed on as one record; only nodes below it changed besides. */
  ghost predicate Flushes(g: Adjacency, ctx: Context, node: Node, s: Snapshot, t: Snapshot) {
    var id := node.id;
    && Entry(s.batches, id).Some? && Entry(t.batches, id) == Some([])
    && (var flushed := if s.batches[id] == [] then [] else [s.batches[id]];
        && LogOf(t.batchOut, id) == LogOf(s.batchOut, id) + flushed
        && ForwardsAll(node.routes, Batch.BatchRecords(flushed), ctx, LogOf(s.handed, id), LogOf(t.handed, id)))
    && LogOf(t.batchLog, id) == LogOf(s.batchLog, id) + [Batch.Flush]
    && Internal(s.moves, t.moves) && Above(g, id, s, t)
    && (forall n {:trigger GrowsAt(s, t, n)} :: n != id ==> GrowsAt(s, t, n))
  }

  lemma FlushDone(g: Adjacency, f: Setup, node: Node, records: seq<Record>, s: Snapshot, taken: Snapshot, t: Snapshot)
    requires Entry(s.batches, node.id) == Some(records) && taken == Emptied(s, node.id, records)
    requires OnlyBelow(g, node.id, taken, t) && Kept(taken, t, node.id)
    ensures Above(g, node.id, s, t)
    ensures PassesAll(f, node, Batch.BatchRecords(if records == [] then [] else [records]), taken, t) ==>
              Flushes(g, f.ctx, node, s, t)
  {
    ReachesSelf(g, node.id);
    forall n | !Reaches(g, node.id, n) ensures SameAt(s, t, n) { assert SameAt(taken, t, n); }
    forall n | n != node.id ensures GrowsAt(s, t, n) { assert GrowsAt(taken, t, n); }
  }

  /** The snapshot is that of a sound ledger. */
  ghost predicate Witnessed(p: Plan, s: Snapshot) { exists l: Ledger :: Sound(p, l, None) && SnapOf(l) == s }

  /** The buffers were flushed one after the other. */
  ghost predicate FlushTrace(p: Plan, order: seq<string>, trace: seq<Snapshot>) {
    |trace| == |order| + 1 && AllWitnessed(p, trace) && AllFlushed(p, order, trace)
  }

  ghost predicate AllWitnessed(p: Plan, trace: seq<Snapshot>) {
    forall k {:trigger Witnessed(p, trace[k])} :: 0 <= k < |trace| ==> Witnessed(p, trace[k])
  }

  ghost predicate AllFlushed(p: Plan, order: seq<string>, trace: seq<Snapshot>)
    requires |trace| == |order| + 1
  {
    forall k :: 0 <= k < |order| ==> FlushedAt(p, order, trace, k)
  }

  ghost predicate FlushedAt(p: Plan, order: seq<string>, trace: seq<Snapshot>, k: nat)
    requires k < |order| && k + 1 < |trace|
  {
    order[k] in p.nodes && Flushes(NodeGraph(p.nodes), p.ctx, p.nodes[order[k]], trace[k], trace[k + 1])
  }

  lemma FlushTraceStart(p: Plan, l: Ledger)
    requires Sound(p, l, None)
    ensures FlushTrace(p, [], [SnapOf(l)])
  {
    assert Witnessed(p, SnapOf(l));
  }

  lemma FlushTraceStep(p: Plan, order: seq<string>, trace: seq<Snapshot>, id: string, l: Ledger)
    requires FlushTrace(p, order, trace) && Sound(p, l, None)
    requires id in p.nodes && Flushes(NodeGraph(p.nodes), p.ctx, p.nodes[id], trace[|order|], SnapOf(l))
    ensures FlushTrace(p, order + [id], trace + [SnapOf(l)])
  {
    assert Witnessed(p, SnapOf(l));
    AllFlushedStep(p, order, trace, id, SnapOf(l));
    AllWitnessedStep(p, trace, SnapOf(l));
  }

  lemma AllWitnessedStep(p: Plan, trace: seq<Snapshot>, t: Snapshot)
    requires AllWitnessed(p, trace) && Witnessed(p, t)
    ensures AllWitnessed(p, trace + [t])
  {
    var longer := trace + [t];
    forall k | 0 <= k < |longer| ensures Witnessed(p, longer[k]) {
      if k < |trace| { assert Witnessed(p, trace[k]); }
    }
  }

  lemma AllFlushedStep(p: Plan, order: seq<string>, trace: seq<Snapshot>, id: string, t: Snapshot)
    requires |trace| == |order| + 1 && AllFlushed(p, order, trace)
    requires id in p.nodes && Flushes(NodeGraph(p.nodes), p.ctx, p.nodes[id], trace[|order|], t)
    ensures AllFlushed(p, order + [id], trace + [t])
  {
    var order', trace' := order + [id], trace + [t];
    forall i | 0 <= i < |order'| ensures FlushedAt(p, order', trace', i) {
      if i < |order| { assert FlushedAt(p, order, trace, i); }
    }
  }

  /** No later node of the order reaches an earlier one. */
  ghost predicate UpstreamFirst(g: Adjacency, order: seq<string>) {
    forall i, j :: 0 <= i < j < |order| ==> !Reaches(g, order[j], order[i])
  }

  lemma FlushKeepsEmpty(g: Adjacency, ctx: Context, node: Node, s: Snapshot, t: Snapshot, id: string)
    requires Flushes(g, ctx, node, s, t)
    ensures Entry(t.batches, node.id) == Some([])
    ensures !Reaches(g, node.id, id) ==> Entry(t.batches, id) == Entry(s.batches, id)
  {
    if !Reaches(g, node.id, id) { assert SameAt(s, t, id); }
  }

  lemma FlushStepEmpty(p: Plan, order: seq<string>, trace: seq<Snapshot>, k: nat, id: string)
    requires |trace| == |order| + 1 && k < |order| && AllFlushed(p, order, trace)
    requires order[k] in p.nodes && p.nodes[order[k]].id == order[k]
    ensures Entry(trace[k + 1].batches, order[k]) == Some([])
    ensures !Reaches(NodeGraph(p.nodes), order[k], id) ==>
              Entry(trace[k + 1].batches, id) == Entry(trace[k].batches, id)
  {
    assert FlushedAt(p, order, trace, k);
    FlushKeepsEmpty(NodeGraph(p.nodes), p.ctx, p.nodes[order[k]], trace[k], trace[k + 1], id);
  }

  /**
   * Flushing upstream nodes first leaves every buffer of the order empty: what a
   * flush sends on can only refill buffers that are still to be flushed.
   */
  lemma {:induction false} FlushEmpties(p: Plan, order: seq<string>, trace: seq<Snapshot>, i: nat, j: nat)
    requires |trace| == |order| + 1 && AllFlushed(p, order, trace)
    requires UpstreamFirst(NodeGraph(p.nodes), order) && i < j <= |order|
    requires forall k :: 0 <= k < |order| ==> order[k] in p.nodes && p.nodes[order[k]].id == order[k]
    ensures Entry(trace[j].batches, order[i]) == Some([])
    decreases j
  {
    FlushStepEmpty(p, order, trace, j - 1, order[i]);
    if i < j - 1 { FlushEmpties(p, order, trace, i, j - 1); }
  }

  /** What a batch node without limits holds is what was moved to it since its last flush. */
  lemma BatchHolds(p: Plan, s: Snapshot, b: string)
    requires Witnessed(p, s) && b in p.nodes && IsBatch(p.nodes[b]) && p.nodes[b].when.None?
    ensures b in s.batches && Batch.Arrivals(LogOf(s.batchLog, b)) == MovedTo(s.moves, b)
    ensures s.batches[b] == Batch.BatchRun(p.nodes[b].step.control.size, p.nodes[b].step.control.windowed,
                                           LogOf(s.batchLog, b)).buffer
    ensures LogOf(s.handed, b) == HandedBy(s.moves, b)
  {
    var l :| Sound(p, l, None) && SnapOf(l) == s;
    SoundParts(p, l, None);
    assert BatchOkAt(p.nodes, l.batches, l.armed, l.batchLog, l.batchOut, b);
    assert FedAt(p.nodes, p.hasStore, l.joinLog, l.batchLog, l.approvals, l.landings, b);
    UnconditionalAdmits(p.nodes, p.ctx, l.moves, l.landings, b);
    assert HandedOkAt(l.handed, l.moves, b);
  }

  lemma WitnessedHanded(p: Plan, s: Snapshot, id: string)
    requires Witnessed(p, s)
    ensures LogOf(s.handed, id) == HandedBy(s.moves, id) && Ranked(p.nodes, p.rank)
  {
    var l :| Sound(p, l, None) && SnapOf(l) == s;
    SoundParts(p, l, None);
    assert HandedOkAt(l.handed, l.moves, id);
  }

  /** A node whose route to `b` is unconditional sends it every record it sends anywhere. */
  lemma {:induction false} SelectsUnconditional(routes: seq<Route>, record: Record, ctx: Context, out: seq<Handoff>,
                                                r: nat)
    returns (i: nat)
    requires Selects(routes, record, ctx, out) && r < |routes| && routes[r].when.None?
    ensures i < |out| && out[i] == Handoff(routes[r].to, record)
    decreases |routes|
  {
    var k := |routes| - 1;
    if r == k {
      SteadyMay(None, record.payload, ctx, false);
      i := |out| - 1;
    } else if Selects(routes[..k], record, ctx, out) {
      i := SelectsUnconditional(routes[..k], record, ctx, out, r);
    } else {
      i := SelectsUnconditional(routes[..k], record, ctx, out[..|out| - 1], r);
    }
  }

  lemma ForwardsUnconditional(routes: seq<Route>, record: Record, ctx: Context, before: seq<Handoff>,
                              after: seq<Handoff>, r: nat)
    returns (i: nat)
    requires ForwardsAll(routes, [record], ctx, before, after) && r < |routes| && routes[r].when.None?
    ensures |before| <= i < |after| && after[i] == Handoff(routes[r].to, record)
  {
    var out := after[|before|..];
    var cut: nat :| cut <= |out| && SelectsAll(routes, [record][..0], ctx, out[..cut])
                    && Selects(routes, record, ctx, out[cut..]);
    i := SelectsUnconditional(routes, record, ctx, out[cut..], r);
    i := i + cut + |before|;
  }

  /** A node that has handed on more to a target has moved more to it. */
  lemma HandedMore(p: Plan, a: string, b: string, s: Snapshot, t: Snapshot, i: nat)
    requires Witnessed(p, s) && Witnessed(p, t) && s.moves <= t.moves
    requires |LogOf(s.handed, a)| <= i < |LogOf(t.handed, a)| && LogOf(t.handed, a)[i].to == b
    ensures |MovedTo(t.moves, b)| > |MovedTo(s.moves, b)|
  {
    WitnessedHanded(p, s, a);
    WitnessedHanded(p, t, a);
    HandedIsMovedTo(s.moves, t.moves, a, b, i);
  }

  /** A batch node that takes everything that comes and completes no batch by itself. */
  predicate TakesAll(nodes: map<string, Node>, id: string) {
    id in nodes && nodes[id].when.None? && nodes[id].step == NodeStep.Control(Control.Batch(None, false))
  }

  /** Such a node's buffer grows by exactly what is moved to it while it is not flushed. */
  lemma HoldsMore(p: Plan, b: string, s: Snapshot, t: Snapshot)
    requires Witnessed(p, s) && Witnessed(p, t) && TakesAll(p.nodes, b) && GrowsAt(s, t, b) && s.moves <= t.moves
    ensures b in s.batches && b in t.batches
    ensures |t.batches[b]| - |s.batches[b]| == |MovedTo(t.moves, b)| - |MovedTo(s.moves, b)| >= 0
  {
    BatchHolds(p, s, b);
    BatchHolds(p, t, b);
    Batch.UnlimitedKeepsAll(LogOf(s.batchLog, b), LogOf(t.batchLog, b));
    MovedToOnly(s.moves, t.moves, b);
  }

  /** `a` has an unconditional route to `b`, possibly among others. */
  predicate Feeds(nodes: map<string, Node>, a: string, r: nat, b: string) {
    a in nodes && r < |nodes[a].routes| && nodes[a].routes[r] == Route(b, None)
  }

  /** A filled buffer that is flushed is handed on along every unconditional route. */
  lemma FlushHands(g: Adjacency, ctx: Context, node: Node, r: nat, s: Snapshot, t: Snapshot) returns (i: nat)
    requires Flushes(g, ctx, node, s, t) && s.batches[node.id] != []
    requires r < |node.routes| && node.routes[r].when.None?
    ensures s.moves <= t.moves
    ensures |LogOf(s.handed, node.id)| <= i < |LogOf(t.handed, node.id)|
    ensures LogOf(t.handed, node.id)[i].to == node.routes[r].to
  {
    var record := Batch.BatchRecord(s.batches[node.id]);
    assert Batch.BatchRecords([s.batches[node.id]]) == [record];
    i := ForwardsUnconditional(node.routes, record, ctx, LogOf(s.handed, node.id), LogOf(t.handed, node.id), r);
  }

  /** A flush of a filled buffer fills the buffer of a node it feeds. */
  lemma FlushFills(p: Plan, a: string, b: string, r: nat, s: Snapshot, t: Snapshot)
    requires Witnessed(p, s) && Witnessed(p, t) && Feeds(p.nodes, a, r, b) && TakesAll(p.nodes, b) && a != b
    requires p.nodes[a].id == a && Entry(s.batches, a) != Some([])
    requires Flushes(NodeGraph(p.nodes), p.ctx, p.nodes[a], s, t)
    ensures b in t.batches && t.batches[b] != []
  {
    var i := FlushHands(NodeGraph(p.nodes), p.ctx, p.nodes[a], r, s, t);
    HandedMore(p, a, b, s, t, i);
    assert GrowsAt(s, t, b);
    HoldsMore(p, b, s, t);
  }

  /**
   * If a batch node is flushed before one that feeds it, and that one has
   * something to flush, then its buffer is filled again and stays so, whatever
   * else is flushed and in whatever order.
   */
  lemma {:induction false} DownstreamFirstRefills(p: Plan, order: seq<string>, trace: seq<Snapshot>, i: nat, j: nat,
                                                  r: nat, k: nat)
    requires FlushTrace(p, order, trace) && Distinct(order) && i < j < k <= |order|
    requires Feeds(p.nodes, order[j], r, order[i]) && TakesAll(p.nodes, order[i])
    requires Entry(trace[j].batches, order[j]) != Some([])
    ensures order[i] in trace[k].batches && trace[k].batches[order[i]] != []
    decreases k
  {
    if k == j + 1 {
      StepFills(p, order, trace, j, order[i], r);
    } else {
      DownstreamFirstRefills(p, order, trace, i, j, r, k - 1);
      StepLeaves(p, order, trace, k - 1, order[i]);
    }
  }

  lemma StepFills(p: Plan, order: seq<string>, trace: seq<Snapshot>, k: nat, b: string, r: nat)
    requires FlushTrace(p, order, trace) && k < |order| && b != order[k]
    requires Feeds(p.nodes, order[k], r, b) && TakesAll(p.nodes, b) && Entry(trace[k].batches, order[k]) != Some([])
    ensures b in trace[k + 1].batches && trace[k + 1].batches[b] != []
  {
    StepFacts(p, order, trace, k);
    FlushFills(p, order[k], b, r, trace[k], trace[k + 1]);
  }

  /** A flush of another node takes nothing from the buffer. */
  lemma StepLeaves(p: Plan, order: seq<string>, trace: seq<Snapshot>, k: nat, b: string)
    requires FlushTrace(p, order, trace) && k < |order| && b != order[k] && TakesAll(p.nodes, b)
    ensures b in trace[k].batches && b in trace[k + 1].batches
    ensures |trace[k + 1].batches[b]| >= |trace[k].batches[b]|
  {
    StepFacts(p, order, trace, k);
    HoldsMore(p, b, trace[k], trace[k + 1]);
  }

  lemma StepFacts(p: Plan, order: seq<string>, trace: seq<Snapshot>, k: nat)
    requires FlushTrace(p, order, trace) && k < |order|
    ensures Witnessed(p, trace[k]) && Witnessed(p, trace[k + 1])
    ensures order[k] in p.nodes && Flushes(NodeGraph(p.nodes), p.ctx, p.nodes[order[k]], trace[k], trace[k + 1])
    ensures trace[k].moves <= trace[k + 1].moves
    ensures forall n {:trigger GrowsAt(trace[k], trace[k + 1], n)} ::
              n != order[k] ==> GrowsAt(trace[k], trace[k + 1], n)
    ensures p.nodes[order[k]].id == order[k]
  {
    assert FlushedAt(p, order, trace, k) && Witnessed(p, trace[k]);
    WitnessedHanded(p, trace[k], order[k]);
    assert RankedAt(p.nodes, p.rank, order[k]);
  }

  /** A node that nothing flushed so far reaches still has its buffer. */
  lemma {:induction false} StillHolds(p: Plan, order: seq<string>, trace: seq<Snapshot>, a: string, k: nat)
    requires FlushTrace(p, order, trace) && k <= |order|
    requires forall m :: 0 <= m < k ==> !Reaches(NodeGraph(p.nodes), order[m], a)
    ensures Entry(trace[k].batches, a) == Entry(trace[0].batches, a)
    decreases k
  {
    if k > 0 {
      StillHolds(p, order, trace, a, k - 1);
      StepFacts(p, order, trace, k - 1);
      FlushKeepsEmpty(NodeGraph(p.nodes), p.ctx, p.nodes[order[k - 1]], trace[k - 1], trace[k], a);
    }
  }

  // ---------- a flow in which the order matters ----------

  function BatchNode(id: string, routes: seq<Route>, incoming: nat): Node {
    Node(id, NodeStep.Control(Control.Batch(None, false)), None, Continue, None, routes, incoming)
  }

  /** A source feeds the batch node `a`, which feeds the batch node `b`. */
  function ChainOfBatches(): map<string, Node> {
    map["s" := Node("s", NodeStep.Source, None, Continue, None, [Route("a", None)], 0),
        "a" := BatchNode("a", [Route("b", None)], 1), "b" := BatchNode("b", [], 1)]
  }

  function ChainRank(): map<string, nat> { map["s" := 2, "a" := 1, "b" := 0] }

  const NOTHING_STORED := Store({}, map[], map[], [], map["s" := [], "a" := [], "b" := []])

  lemma ChainIsRanked(ctx: Context, hash: Value -> string)
    ensures Ranked(ChainOfBatches(), ChainRank()) && Startable(ChainOfBatches(), ctx, hash, NOTHING_STORED)
  {
    var nodes := ChainOfBatches();
    forall id ensures RankedAt(nodes, ChainRank(), id) {
      if id in nodes { assert OwnTargets(nodes[id].step) == []; }
    }
  }

  lemma ChainFeeds()
    ensures Feeds(ChainOfBatches(), "s", 0, "a") && TakesAll(ChainOfBatches(), "a")
    ensures Feeds(ChainOfBatches(), "a", 0, "b") && TakesAll(ChainOfBatches(), "b")
    ensures ChainOfBatches()["s"].step.Source? && ChainOfBatches()["s"].when.None? && ChainOfBatches()["s"].id == "s"
    ensures forall id :: id in ChainOfBatches() ==> !ChainOfBatches()[id].step.Transform?
  {
  }

  /** No transform, no turn. */
  lemma {:induction false} NoTurns(nodes: map<string, Node>, landings: seq<Landing>)
    requires forall id :: id in nodes ==> !nodes[id].step.Transform?
    ensures TurnsAt(nodes, landings) == []
  {
    if landings != [] { NoTurns(nodes, landings[..|landings| - 1]); }
  }

  /** A source hands its one record to a node it feeds, whose buffer is then filled. */
  lemma SourceFills(p: Plan, b: string, record: Record, before: Ledger, after: Ledger)
    requires Sound(p, before, None) && Sound(p, after, None) && Feeds(p.nodes, "s", 0, b) && TakesAll(p.nodes, b)
    requires p.nodes["s"].id == "s" && p.nodes["s"].when.None? && before.moves == [] && before.handed == map[]
    requires Pumped(p.ctx, p.nodes["s"], [Some(record)], 1, SnapOf(before), SnapOf(after))
    ensures b in after.batches && after.batches[b] != []
  {
    var s, t := SnapOf(before), SnapOf(after);
    assert Witnessed(p, s) && Witnessed(p, t);
    var node, out := p.nodes["s"], LogOf(t.handed, "s");
    assert [Some(record)][..1] == [Some(record)] && out[0..] == out;
    var cut := ItemsCut(node, [Some(record)], p.ctx, out);
    assert [Some(record)][..0] == [];
    SteadyMay(None, record.payload, p.ctx, false);
    var i := SelectsUnconditional(node.routes, record, p.ctx, out[cut..], 0);
    HandedMore(p, "s", b, s, t, i + cut);
    assert GrowsAt(s, t, b);
    HoldsMore(p, b, s, t);
  }

  // ---------- a parallel step whose branches are one join ----------

  function RecordsHanded(handoffs: seq<Handoff>): (r: seq<Record>)
    ensures |r| == |handoffs|
  {
    seq(|handoffs|, i requires 0 <= i < |handoffs| => handoffs[i].record)
  }

  /** Only `id` hands records to `j`, and it hands them nowhere else. */
  ghost predicate OnlyFeeder(more: seq<Move>, id: string, j: string) {
    forall i :: 0 <= i < |more| ==> (more[i].to == j <==> more[i].giver == Some(id))
  }

  lemma {:induction false} MovedIsHanded(moves: seq<Move>, more: seq<Move>, id: string, j: string)
    requires OnlyFeeder(more, id, j)
    ensures HandedBy(moves, id) <= HandedBy(moves + more, id)
    ensures MovedTo(moves + more, j)
         == MovedTo(moves, j) + RecordsHanded(HandedBy(moves + more, id)[|HandedBy(moves, id)|..])
    decreases |more|
  {
    var before := HandedBy(moves, id);
    if more == [] {
      assert moves + more == moves;
      assert MovedTo(moves, j) + [] == MovedTo(moves, j);
    } else {
      var k := |more| - 1;
      MovedIsHanded(moves, more[..k], id, j);
      assert moves + more == (moves + more[..k]) + [more[k]];
      HandedBySnoc(moves + more[..k], more[k], id);
      MovedToSnoc(moves + more[..k], more[k], j);
      var now := HandedBy(moves + more[..k], id);
      if more[k].to == j {
        var h := Handoff(j, more[k].record);
        assert (now + [h])[|before|..] == now[|before|..] + [h];
        assert RecordsHanded(now[|before|..] + [h]) == RecordsHanded(now[|before|..]) + [more[k].record];
      } else {
        assert now + [] == now;
      }
    }
  }

  lemma MovedToSnoc(moves: seq<Move>, m: Move, id: string)
    ensures MovedTo(moves + [m], id) == MovedTo(moves, id) + if m.to == id then [m.record] else []
  {
    assert (moves + [m])[..|moves|] == moves;
  }

  /** The records a step hands to a join that only it feeds are what is moved to the join meanwhile. */
  lemma MovesHanded(nodes: map<string, Node>, moves: seq<Move>, later: seq<Move>, id: string, j: string,
                    handed: seq<Handoff>)
    requires Internal(moves, later) && Along(nodes, later)
    requires forall g :: Edge(NodeGraph(nodes), g, j) ==> g == id
    requires HandedBy(later, id) == HandedBy(moves, id) + handed
    requires forall i :: 0 <= i < |handed| ==> handed[i].to == j
    ensures MovedTo(later, j) == MovedTo(moves, j) + RecordsHanded(handed)
  {
    var more := later[|moves|..];
    assert later == moves + more;
    forall i | 0 <= i < |more| ensures more[i].to == j <==> more[i].giver == Some(id) {
      assert more[i] == later[|moves| + i] && AlongRoute(nodes, more[i]);
      if more[i].giver == Some(id) { HandedAre(moves, more, id, j, i); }
    }
    MovedIsHanded(moves, more, id, j);
  }

  lemma SoundMoves(p: Plan, l: Ledger, id: string)
    requires Sound(p, l, None)
    ensures Along(p.nodes, l.moves) && LogOf(l.handed, id) == HandedBy(l.moves, id)
    ensures id in p.nodes && p.nodes[id].when.None? ==> AdmittedAt(l.landings, id) == MovedTo(l.moves, id)
  {
    SoundParts(p, l, None);
    assert HandedOkAt(l.handed, l.moves, id);
    if id in p.nodes && p.nodes[id].when.None? {
      UnconditionalAdmits(p.nodes, p.ctx, l.moves, l.landings, id);
    }
  }

  lemma TakesHanded(p: Plan, l: Ledger, l': Ledger, id: string, j: string, handed: seq<Handoff>)
    requires Sound(p, l, None) && Sound(p, l', None) && Internal(l.moves, l'.moves)
    requires j in p.nodes && p.nodes[j].when.None?
    requires forall g :: Edge(NodeGraph(p.nodes), g, j) ==> g == id
    requires LogOf(l'.handed, id) == LogOf(l.handed, id) + handed
    requires forall i :: 0 <= i < |handed| ==> handed[i].to == j
    ensures AdmittedAt(l'.landings, j) == AdmittedAt(l.landings, j) + RecordsHanded(handed)
  {
    SoundMoves(p, l, id);
    SoundMoves(p, l', id);
    SoundMoves(p, l, j);
    SoundMoves(p, l', j);
    MovesHanded(p.nodes, l.moves, l'.moves, id, j, handed);
  }

  /** If everything a node hands on meanwhile goes to `j`, so does each of its moves. */
  lemma {:induction false} HandedAre(moves: seq<Move>, more: seq<Move>, id: string, j: string, i: nat)
    requires i < |more| && more[i].giver == Some(id)
    requires HandedBy(moves, id) <= HandedBy(moves + more, id)
    requires forall n :: |HandedBy(moves, id)| <= n < |HandedBy(moves + more, id)| ==>
                           HandedBy(moves + more, id)[n].to == j
    ensures more[i].to == j
    decreases |more|
  {
    var k := |more| - 1;
    assert moves + more == (moves + more[..k]) + [more[k]];
    HandedBySnoc(moves + more[..k], more[k], id);
    HandedGrows(moves, more[..k], id);
    var now := HandedBy(moves + more[..k], id);
    if i == k {
      assert HandedBy(moves + more, id)[|now|] == Handoff(more[k].to, more[k].record);
    } else {
      assert forall n :: |HandedBy(moves, id)| <= n < |now| ==> now[n] == HandedBy(moves + more, id)[n];
      HandedAre(moves, more[..k], id, j, i);
    }
  }

  lemma {:induction false} HandedGrows(moves: seq<Move>, more: seq<Move>, id: string)
    ensures HandedBy(moves, id) <= HandedBy(moves + more, id)
    decreases |more|
  {
    if more == [] {
      assert moves + more == moves;
    } else {
      var k := |more| - 1;
      assert moves + more == (moves + more[..k]) + [more[k]];
      HandedBySnoc(moves + more[..k], more[k], id);
      HandedGrows(moves, more[..k], id);
    }
  }

  /** The join's groups are what the records it admitted make them. */
  ghost predicate JoinKept(p: Plan, l: Ledger, j: string) {
    && j in p.nodes && IsJoin(p.nodes[j]) && j in l.joins
    && JoinOk(p.nodes[j], l.joins[j], LogOf(l.joinLog, j), LogOf(l.joinOut, j))
    && Arrived(LogOf(l.joinLog, j), AdmittedAt(l.landings, j))
  }

  lemma SoundJoin(p: Plan, l: Ledger, j: string)
    requires Sound(p, l, None) && j in p.nodes && IsJoin(p.nodes[j])
    ensures JoinKept(p, l, j)
  {
    SoundParts(p, l, None);
    assert JoinOkAt(p.nodes, l.joins, l.joinLog, l.joinOut, j);
    assert FedAt(p.nodes, p.hasStore, l.joinLog, l.batchLog, l.approvals, l.landings, j);
  }

  lemma ArrivedCopies(log: seq<Join.Arrival>, log': seq<Join.Arrival>, records: seq<Record>, r: Record, b: nat)
    requires Arrived(log, records) && Arrived(log', records + Join.Copies(r, b)) && log <= log'
    requires "correlation" in r.metadata
    ensures log' == log + Join.Copies(Join.Arrival(r.metadata["correlation"], r), b)
  {
    forall i | |log| <= i < |log'| ensures log'[i] == Join.Arrival(r.metadata["correlation"], r) {
      assert ArrivedAs(log'[i], (records + Join.Copies(r, b))[i]);
    }
  }

  /** What a join that takes as many copies of one record as its threshold sends on: exactly one merged record. */
  lemma JoinsCopies(p: Plan, l: Ledger, l': Ledger, j: string, r: Record)
    requires JoinKept(p, l, j) && JoinKept(p, l', j) && "correlation" in r.metadata
    requires AdmittedAt(l'.landings, j) == AdmittedAt(l.landings, j) + Join.Copies(r, ThresholdOf(p.nodes[j]))
    requires LogOf(l.joinLog, j) <= LogOf(l'.joinLog, j)
    ensures var open, t := Join.OpenGroup(l.joins[j], r.metadata["correlation"]), ThresholdOf(p.nodes[j]);
            LogOf(l'.joinOut, j) == LogOf(l.joinOut, j) + [Join.Merge(Join.Filled(open, r, t))]
  {
    var node := p.nodes[j];
    CopiesArrive(node, l.joins[j], l'.joins[j], LogOf(l.joinLog, j), LogOf(l'.joinLog, j), LogOf(l.joinOut, j),
                 LogOf(l'.joinOut, j), AdmittedAt(l.landings, j), r);
  }

  lemma CopiesArrive(node: Node, groups: map<string, seq<Record>>, groups': map<string, seq<Record>>,
                     log: seq<Join.Arrival>, log': seq<Join.Arrival>, out: seq<Record>, out': seq<Record>,
                     records: seq<Record>, r: Record)
    requires JoinOk(node, groups, log, out) && JoinOk(node, groups', log', out') && IsJoin(node)
    requires "correlation" in r.metadata && log <= log'
    requires Arrived(log, records) && Arrived(log', records + Join.Copies(r, ThresholdOf(node)))
    ensures var open, t := Join.OpenGroup(groups, r.metadata["correlation"]), ThresholdOf(node);
            out' == out + [Join.Merge(Join.Filled(open, r, t))]
  {
    ArrivedCopies(log, log', records, r, ThresholdOf(node));
    CopiesMerged(ThresholdOf(node), log, out, out', r.metadata["correlation"], r);
  }

  lemma CopiesMerged(t: nat, log: seq<Join.Arrival>, out: seq<Record>, out': seq<Record>, c: string, r: Record)
    requires t >= 1 && out == MergedGroups(Join.JoinRun(t, log).released)
    requires out' == MergedGroups(Join.JoinRun(t, log + Join.Copies(Join.Arrival(c, r), t)).released)
    ensures var open := Join.OpenGroup(Join.JoinRun(t, log).groups, c);
            out' == out + [Join.Merge(Join.Filled(open, r, t))]
  {
    Join.CopiesJoinOnce(t, log, c, r);
    var s := Join.JoinRun(t, log);
    var open := Join.OpenGroup(s.groups, c);
    MergedSnoc(s.released, Join.Group(c, Join.Filled(open, r, t)));
  }

  /** Every branch is the join, nothing else feeds it, and it waits for one record of each branch. */
  ghost predicate OnlyInto(nodes: map<string, Node>, node: Node, branches: seq<string>, j: string) {
    && j in nodes && IsJoin(nodes[j]) && nodes[j].when.None? && ThresholdOf(nodes[j]) == |branches|
    && (forall i :: 0 <= i < |branches| ==> branches[i] == j)
    && (forall g :: Edge(NodeGraph(nodes), g, j) ==> g == node.id)
  }

  /** The join sent on exactly one more record, of what waited under the correlation and copies of `r`. */
  ghost predicate JoinedOnce(p: Plan, l: Ledger, l': Ledger, j: string, r: Record) {
    && j in p.nodes && IsJoin(p.nodes[j]) && j in l.joins && "correlation" in r.metadata
    && var open := Join.OpenGroup(l.joins[j], r.metadata["correlation"]);
       LogOf(l'.joinOut, j) == LogOf(l.joinOut, j) + [Join.Merge(Join.Filled(open, r, ThresholdOf(p.nodes[j])))]
  }

  lemma BranchesJoinOnce(p: Plan, node: Node, branches: seq<string>, record: Record, r: Record, j: string, l: Ledger,
                         l': Ledger)
    requires Sound(p, l, None) && Sound(p, l', None) && OnlyInto(p.nodes, node, branches, j)
    requires Internal(l.moves, l'.moves) && GrowsAt(SnapOf(l), SnapOf(l'), j)
    requires Branched(node, branches, record, r, SnapOf(l), SnapOf(l'))
    ensures JoinedOnce(p, l, l', j, r)
  {
    var handed := ToAll(branches, r);
    assert RecordsHanded(handed) == Join.Copies(r, |branches|);
    TakesHanded(p, l, l', node.id, j, handed);
    SoundJoin(p, l, j);
    SoundJoin(p, l', j);
    JoinsCopies(p, l, l', j, r);
  }

  /** The records under a correlation, in order. */
  function UnderCorrelation(records: seq<Record>, c: string): seq<Record> {
    if records == [] then []
    else
      var k := |records| - 1;
      UnderCorrelation(records[..k], c) +
      if "correlation" in records[k].metadata && records[k].metadata["correlation"] == c then [records[k]] else []
  }

  lemma {:induction false} ArrivedUnder(log: seq<Join.Arrival>, records: seq<Record>, c: string)
    requires Arrived(log, records) && forall i :: 0 <= i < |records| ==> "correlation" in records[i].metadata
    ensures Join.Of(log, c) == UnderCorrelation(records, c)
    decreases |log|
  {
    if log != [] {
      var k := |log| - 1;
      assert ArrivedAs(log[k], records[k]);
      assert Arrived(log[..k], records[..k]) by {
        forall i | 0 <= i < k ensures ArrivedAs(log[..k][i], records[..k][i]) { assert ArrivedAs(log[i], records[i]); }
      }
      ArrivedUnder(log[..k], records[..k], c);
    }
  }

  // ---------- a whole run ----------

  /** The store holds, for every configured step, what the logged events left in it. */
  ghost predicate PartsExplained(partials: map<string, Partial>, ctx: Context, store: Store) {
    forall id :: id in partials ==>
      && id in store.stateLog
      && StepState.Run(partials[id].state, UpdatesOf(partials[id].step), ctx, store.stateLog[id]).saved
         == Entry(store.saved, id)
  }

  lemma BuiltExplained(flow: Config, partials: map<string, Partial>, nodes: map<string, Node>, ctx: Context,
                       hash: Value -> string, store: Store)
    requires Built(flow, partials, nodes) && PartsExplained(partials, ctx, store)
    requires Delivery.Run(store.attempts).marked == store.marked && Delivery.Keyed(store.attempts, hash)
    ensures Startable(nodes, ctx, hash, store)
  {
  }

  predicate Distinct(ids: seq<string>) { forall i, j :: 0 <= i < j < |ids| ==> ids[i] != ids[j] }

  ghost predicate NoIncoming(g: Adjacency, id: string) { forall m :: !Edge(g, m, id) }

  lemma LastEdge(g: Adjacency, p: seq<string>)
    requires IsPath(g, p) && p[0] != p[|p| - 1]
    ensures |p| >= 2 && Edge(g, p[|p| - 2], p[|p| - 1])
  {
  }

  lemma Unreached(g: Adjacency, m: string, id: string)
    requires NoIncoming(g, id) && m != id
    ensures !Reaches(g, m, id)
  {
    if Reaches(g, m, id) {
      var p :| PathBetween(g, p, m, id);
      LastEdge(g, p);
      assert false;
    }
  }

  /**
   * The j-th source has put in all its records and, where nothing else feeds it, handed on exactly
   * what they hand on.
   */
  ghost predicate SourceRan(p: Plan, root: string, items: seq<Option<Record>>, s: Snapshot) {
    root in p.nodes && p.nodes[root].step.Source? ==>
      && InjectedAt(s.moves, root) == RecordsOf(items)
      && (NoIncoming(NodeGraph(p.nodes), root) ==> Sources(p.nodes[root], items, p.ctx, [], LogOf(s.handed, root)))
  }

  /** The first `done` sources have run, and nothing else was put in. */
  ghost predicate SourcesRan(p: Plan, roots: seq<string>, items: seq<seq<Option<Record>>>, done: nat, s: Snapshot)
    requires done <= |roots| == |items|
  {
    && (forall j :: 0 <= j < done ==> SourceRan(p, roots[j], items[j], s))
    && (forall n :: (forall j :: 0 <= j < done ==> n != roots[j]) ==> InjectedAt(s.moves, n) == [])
    && (forall j :: done <= j < |roots| && NoIncoming(NodeGraph(p.nodes), roots[j]) ==> LogOf(s.handed, roots[j]) == [])
  }

  lemma SourcesRanStep(p: Plan, roots: seq<string>, items: seq<seq<Option<Record>>>, i: nat, s: Snapshot, t: Snapshot)
    requires |roots| == |items| && i < |roots| && Distinct(roots) && SourcesRan(p, roots, items, i, s)
    requires Above(NodeGraph(p.nodes), roots[i], s, t)
    requires if roots[i] in p.nodes && p.nodes[roots[i]].step.Source?
             then p.nodes[roots[i]].id == roots[i] && Pumped(p.ctx, p.nodes[roots[i]], items[i], |items[i]|, s, t)
             else t == s
    ensures SourcesRan(p, roots, items, i + 1, t)
  {
    var g := NodeGraph(p.nodes);
    assert items[i][..|items[i]|] == items[i];
    assert InjectedAt(s.moves, roots[i]) == [] && [] + RecordsOf(items[i]) == RecordsOf(items[i]);
    forall j | 0 <= j < |roots| && j != i && NoIncoming(g, roots[j])
      ensures LogOf(t.handed, roots[j]) == LogOf(s.handed, roots[j])
    {
      Unreached(g, roots[i], roots[j]);
      assert SameAt(s, t, roots[j]);
    }
    forall j | 0 <= j < i + 1 ensures SourceRan(p, roots[j], items[j], t) {
      if j < i { assert SourceRan(p, roots[j], items[j], s); }
    }
  }

  /** Flushing puts nothing in and leaves alone what nothing feeds. */
  lemma SourcesStayRan(p: Plan, roots: seq<string>, items: seq<seq<Option<Record>>>, order: seq<string>,
                       s: Snapshot, t: Snapshot)
    requires |roots| == |items| && SourcesRan(p, roots, items, |roots|, s)
    requires FlushedBelow(NodeGraph(p.nodes), order, s, t)
    requires forall k :: 0 <= k < |order| ==> order[k] in p.nodes && IsBatch(p.nodes[order[k]])
    ensures SourcesRan(p, roots, items, |roots|, t)
  {
    var g := NodeGraph(p.nodes);
    forall n ensures InjectedAt(t.moves, n) == InjectedAt(s.moves, n) { InternalInjects(s.moves, t.moves, n); }
    forall j | 0 <= j < |roots| ensures SourceRan(p, roots[j], items[j], t) {
      assert SourceRan(p, roots[j], items[j], s);
      var root := roots[j];
      if root in p.nodes && p.nodes[root].step.Source? && NoIncoming(g, root) {
        forall k | 0 <= k < |order| ensures !Reaches(g, order[k], root) { Unreached(g, order[k], root); }
        assert ReachedByNone(g, order, root) && SameAt(s, t, root);
      }
    }
  }

  /** Every batch node is in the order. */
  ghost predicate Covers(order: seq<string>, nodes: map<string, Node>) {
    forall id :: id in nodes && IsBatch(nodes[id]) ==> id in order
  }

  ghost predicate AllEmpty(nodes: map<string, Node>, batches: map<string, seq<Record>>) {
    forall id :: id in nodes && IsBatch(nodes[id]) ==> Entry(batches, id) == Some([])
  }

  lemma FlushEmptiesAll(p: Plan, order: seq<string>, trace: seq<Snapshot>)
    requires FlushTrace(p, order, trace) && UpstreamFirst(NodeGraph(p.nodes), order) && Covers(order, p.nodes)
    requires Ranked(p.nodes, p.rank)
    ensures AllEmpty(p.nodes, trace[|order|].batches)
  {
    forall k | 0 <= k < |order| ensures order[k] in p.nodes && p.nodes[order[k]].id == order[k] {
      assert FlushedAt(p, order, trace, k) && RankedAt(p.nodes, p.rank, order[k]);
    }
    forall id | id in p.nodes && IsBatch(p.nodes[id]) ensures Entry(trace[|order|].batches, id) == Some([]) {
      var i: nat :| i < |order| && order[i] == id;
      FlushEmpties(p, order, trace, i, |order|);
    }
  }
}
