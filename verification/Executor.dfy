/**
 * The graph executor (sohara-runtime/src/walker.rs, control.rs, executor.rs,
 * runner.rs): the recursive walk of one record at a time through an assembled
 * flow, with its buffers, state, store and counters.
 *
 * That every method terminates is part of what is proved: the walk recurses
 * along routes, and the rank from the cycle check falls on each of them.
 * `Valid` says that every record handed to a node has been walked there, that
 * what a join, batch, approval, state, transform or sink node has taken is
 * exactly what was walked to it and let in, and that each buffer, state, marker
 * and counter of calls is what its own log makes it. So the theorems of Join,
 * Batch, Delivery, StepState and Turns hold of the records of a running
 * executor. A walk fails exactly if a transform below it has stopped the run,
 * and nothing is walked after that. What sinks, the store and the clock answer
 * is arbitrary.
 */
module Execution {
  import opened Json
  import opened Ast
  import opened Payload
  import opened Eval
  import opened Graph
  import opened Flow
  import opened Routing
  import opened Turns
  import opened Logs
  import opened Ledgers
  import opened Walks
  import opened Runs
  import Join
  import Batch
  import Delivery
  import StepState

  class Executor {
    const nodes: map<string, Node>
    ghost const rank: map<string, nat>
    const ctx: Context
    const hash: Value -> string
    const run: string
    const hasStore: bool
    const transform: Behaviour

    var processed: nat
    var filtered: nat
    var errors: nat
    var waiting: nat
    var duplicates: nat
    var calls: nat
    var joins: map<string, map<string, seq<Record>>>
    var batches: map<string, seq<Record>>
    var armed: map<string, bool>
    var states: map<string, Value>

    // the state store
    var marked: set<Delivery.Key>
    var saved: map<string, Value>
    var parked: map<string, seq<Value>>

    // what earlier runs left, which states were loaded, and what has happened since
    ghost const store: Store
    ghost const loads: string -> bool
    ghost var book: Ledger

    // ---------- invariants ----------

    ghost function Fixed(): Plan { Plan(nodes, rank, ctx, hash, run, transform, hasStore, loads, store) }

    /** The ledger is sound, up to one move that may be due to land, and the executor is what it says. */
    ghost predicate Inv(due: Option<Handoff>)
      reads this
    {
      Sound(Fixed(), book, due) && Mirrored() && Counted()
    }

    /** The executor's own state is what the ledger says. */
    ghost predicate Mirrored()
      reads this
    {
      && (joins, batches, armed, states) == (book.joins, book.batches, book.armed, book.states)
      && (marked, saved, parked) == (book.marked, book.saved, book.parked)
    }

    /** Calls and filtered records are those of the transforms' turns; what was sent in this run is processed. */
    ghost predicate Counted()
      reads this
    {
      && (calls, filtered) == (CallsOf(transform, book.turns), FilteredOf(transform, book.turns))
      && processed + |Delivery.Run(store.attempts).sent| == |book.sent|
    }

    ghost predicate Valid()
      reads this
    {
      Inv(None)
    }

    /** A transform has failed, and its policy was not to continue. */
    ghost predicate Stopped()
      reads this
    {
      Halted(transform, book.turns)
    }

    /** The run has not been stopped. */
    ghost predicate Live(due: Option<Handoff>)
      reads this
    {
      Inv(due) && !Stopped()
    }

    /** Success means exactly that the run has not been stopped. */
    ghost predicate Ends(ok: bool)
      reads this
    {
      Valid() && ok == !Stopped()
    }

    ghost function RankOf(id: string): nat { if id in rank then rank[id] else 0 }

    ghost function Routes(): Adjacency { NodeGraph(nodes) }

    ghost function Snap(): Snapshot
      reads this
    {
      SnapOf(book)
    }

    ghost function World(): Setup { Setup(ctx, transform, hasStore) }

    ghost predicate Has(node: Node) { node.id in nodes && nodes[node.id] == node }

    // ---------- start ----------

    /** Start on what earlier runs left in the store; each node's state is loaded or not on its own. */
    constructor (nodes: map<string, Node>, ghost rank: map<string, nat>, ctx: Context, hash: Value -> string,
                 run: string, transform: Behaviour, hasStore: bool, loads: string -> bool, store: Store)
      requires Ranked(nodes, rank) && Startable(nodes, ctx, hash, store)
      ensures Fixed() == Plan(nodes, rank, ctx, hash, run, transform, hasStore, loads, store)
      ensures book == Opened(nodes, loads, store) && errors == 0
      ensures Live(None)
    {
      this.nodes, this.rank, this.ctx, this.hash, this.run, this.hasStore := nodes, rank, ctx, hash, run, hasStore;
      this.transform, this.loads, this.store := transform, loads, store;
      processed, filtered, errors, waiting, duplicates, calls := 0, 0, 0, 0, 0, 0;
      joins := NoGroups(nodes);
      batches, armed := NoBatches(nodes), NoClocks(nodes);
      states := InitialStates(nodes, store.saved, loads);
      marked, saved, parked := store.marked, store.saved, store.parked;
      book := Opened(nodes, loads, store);
      new;
      OpenedSound(Fixed());
    }

    // ---------- the walk ----------

    /**
     * Walk a record that has just been handed to a node; false means that a
     * transform below has stopped the run, and nothing is walked after that.
     * `admitted` is whether the node's condition held.
     */
    method Walk(record: Record, id: string) returns (ok: bool, admitted: bool)
      requires Live(Some(Handoff(id, record)))
      modifies this
      ensures Ends(ok) && OnlyBelow(Routes(), id, old(Snap()), Snap())
      ensures id in nodes ==> May(nodes[id].when, record.payload, ctx, admitted)
      ensures id !in nodes || !admitted ==> ok && Snap() == old(Snap()) && book.attempts == old(book).attempts
      ensures id in nodes && admitted ==> Takes(World(), nodes[id], record, old(Snap()), Snap())
      ensures id in nodes && admitted && ok ==> Handles(World(), nodes[id], record, old(Snap()), Snap())
      ensures id in nodes && admitted && ok && nodes[id].step.Transform? ==>
                var before, after := LogOf(old(book).handed, id), LogOf(book.handed, id);
                match OutcomeOf(transform, old(calls), Turn(nodes[id], record))
                case Pass(r) => Forwards(nodes[id].routes, r, ctx, before, after)
                case Expand(records) => ForwardsAll(nodes[id].routes, records, ctx, before, after)
                case _ => after == before
      ensures id in nodes && admitted && nodes[id].step.Sink? ==>
                Attempted(old(book).attempts, book.attempts, run, record, hash)
      ensures errors >= old(errors) + if ok then 0 else 1
      decreases RankOf(id), 7
    {
      BelowRefl(Routes(), id, Snap());
      if id !in nodes {
        Land(id, record, false);
        return true, false;
      }
      var node := nodes[id];
      assert RankedAt(nodes, rank, id);
      admitted := Admits(node.when, record, Some(Handoff(id, record)));
      if !admitted {
        Land(id, record, false);
        return true, false;
      }
      ok := Enter(node, record);
    }

    /** The due move lands at a node that keeps no log of it. */
    ghost method Land(id: string, record: Record, admitted: bool)
      requires Inv(Some(Handoff(id, record)))
      requires id in nodes ==> May(nodes[id].when, record.payload, ctx, admitted)
      requires id in nodes && admitted ==> Logless(nodes[id], hasStore)
      modifies this`book
      ensures Valid() && book == Landed(old(book), id, record, admitted) && Snap() == old(Snap())
    {
      LandedSound(Fixed(), book, id, record, admitted);
      book := Landed(book, id, record, admitted);
    }

    /** Give a node a record its condition lets in. */
    method Enter(node: Node, record: Record) returns (ok: bool)
      requires Live(Some(Handoff(node.id, record))) && Has(node) && May(node.when, record.payload, ctx, true)
      modifies this
      ensures Ends(ok) && OnlyBelow(Routes(), node.id, old(Snap()), Snap())
      ensures Takes(World(), node, record, old(Snap()), Snap())
      ensures ok ==> Handles(World(), node, record, old(Snap()), Snap())
      ensures node.step.Sink? ==> Attempted(old(book).attempts, book.attempts, run, record, hash)
      ensures errors >= old(errors) + if ok then 0 else 1
      decreases RankOf(node.id), 6
    {
      match node.step
      case Sink =>
        BelowRefl(Routes(), node.id, Snap());
        TakesNothing(World(), node, record, Snap(), Snap());
        Deliver(node, record);
        ok := true;
      case Control(control) => ok := ApplyControl(node, control, record);
      case Transform => ok := ApplyTransform(node, record);
      case Source => ok := PassThrough(node, record);
    }

    /** Let a record in at a node that keeps no log of it, and send it along the routes. */
    method PassThrough(node: Node, record: Record) returns (ok: bool)
      requires Live(Some(Handoff(node.id, record))) && Has(node) && May(node.when, record.payload, ctx, true)
      requires Logless(node, hasStore)
      modifies this
      ensures Ends(ok) && OnlyBelow(Routes(), node.id, old(Snap()), Snap())
      ensures Takes(World(), node, record, old(Snap()), Snap())
      ensures ok ==> Passes(World(), node, record, old(Snap()), Snap())
      ensures errors >= old(errors) + if ok then 0 else 1
      decreases RankOf(node.id), 2
    {
      Land(node.id, record, true);
      ok := Forward(record, node);
      TakesNothing(World(), node, record, old(Snap()), Snap());
    }

    /** Whether an expression holds at the moment it is evaluated; a failure counts as an error and as false. */
    method Test(expr: Expr, value: Value, ghost due: Option<Handoff>) returns (b: bool, m: Moment)
      requires Inv(due)
      modifies this`errors
      ensures Inv(due)
      ensures b <==> ConditionHolds(Some(expr), value, At(ctx, m))
      ensures errors == old(errors) + if Evaluate(expr, value, At(ctx, m)).None? then 1 else 0
    {
      m := *;
      var x := Evaluate(expr, value, At(ctx, m));
      if x.None? { errors := errors + 1; }
      b := x.Some? && Truthy(x.value);
    }

    method Admits(when: Option<Expr>, record: Record, ghost due: Option<Handoff>) returns (open: bool)
      requires Inv(due)
      modifies this`errors
      ensures Inv(due)
      ensures May(when, record.payload, ctx, open)
      ensures errors >= old(errors)
    {
      open := true;
      if when.Some? {
        var m;
        open, m := Test(when.value, record.payload, due);
        assert ConditionHolds(when, record.payload, At(ctx, m)) == open;
      } else {
        assert ConditionHolds(when, record.payload, At(ctx, ctx.moment)) == open;
      }
    }

    ghost predicate KeepsOwn(id: string, s: Snapshot)
      reads this
    {
      Kept(s, Snap(), id)
    }

    /** Send a record along the routes whose conditions hold, in order. */
    method Forward(record: Record, node: Node) returns (ok: bool)
      requires Live(None) && Has(node)
      modifies this
      ensures Ends(ok) && OnlyBelow(Routes(), node.id, old(Snap()), Snap()) && KeepsOwn(node.id, old(Snap()))
      ensures ok ==> Forwards(node.routes, record, ctx, LogOf(old(book).handed, node.id), LogOf(book.handed, node.id))
      ensures errors >= old(errors) + if ok then 0 else 1
      decreases RankOf(node.id), 1
    {
      BelowRefl(Routes(), node.id, Snap());
      ForwardsStart(node.routes, record, ctx, LogOf(book.handed, node.id));
      for i := 0 to |node.routes|
        invariant Live(None) && OnlyBelow(Routes(), node.id, old(Snap()), Snap()) && KeepsOwn(node.id, old(Snap()))
        invariant errors >= old(errors)
        invariant Forwards(node.routes[..i], record, ctx, LogOf(old(book).handed, node.id), LogOf(book.handed, node.id))
      {
        ok := TryRoute(node, record, i, old(Snap()));
        if !ok { return; }
      }
      assert node.routes[..|node.routes|] == node.routes;
      ok := true;
    }

    method TryRoute(node: Node, record: Record, i: nat, ghost start: Snapshot) returns (ok: bool)
      requires Live(None) && Has(node) && i < |node.routes|
      requires OnlyBelow(Routes(), node.id, start, Snap()) && KeepsOwn(node.id, start)
      requires Forwards(node.routes[..i], record, ctx, LogOf(start.handed, node.id), LogOf(book.handed, node.id))
      modifies this
      ensures Ends(ok) && OnlyBelow(Routes(), node.id, start, Snap()) && KeepsOwn(node.id, start)
      ensures ok ==> Forwards(node.routes[..i + 1], record, ctx, LogOf(start.handed, node.id),
                              LogOf(book.handed, node.id))
      ensures errors >= old(errors) + if ok then 0 else 1
      decreases RankOf(node.id), 1, 0
    {
      var open := Admits(node.routes[i].when, record, None);
      ForwardsStep(node.routes, i, record, ctx, LogOf(start.handed, node.id), LogOf(book.handed, node.id), open);
      if !open { return true; }
      assert TargetsOf(node.routes)[i] == node.routes[i].to;
      ok := HandOn(node, record, node.routes[i].to, start);
    }

    /** Hand a record to one of the node's targets, which walks it. */
    method HandOn(node: Node, record: Record, to: string, ghost start: Snapshot) returns (ok: bool)
      requires Live(None) && Has(node) && to in TargetsOf(node.routes)
      requires OnlyBelow(Routes(), node.id, start, Snap()) && KeepsOwn(node.id, start)
      modifies this
      ensures Ends(ok) && OnlyBelow(Routes(), node.id, start, Snap()) && KeepsOwn(node.id, start)
      ensures LogOf(book.handed, node.id) == LogOf(old(book).handed, node.id) + [Handoff(to, record)]
      ensures errors >= old(errors) + if ok then 0 else 1
      decreases RankOf(node.id), 0
    {
      assert RankedAt(nodes, rank, node.id);
      RecordMove(node, record, to);
      var admitted;
      ok, admitted := Walk(record, to);
      HandedBelow(Fixed(), node, to, record, start, old(book), Snap());
    }

    ghost method RecordMove(node: Node, record: Record, to: string)
      requires Valid() && Edge(Routes(), node.id, to)
      modifies this`book
      ensures Inv(Some(Handoff(to, record))) && book == Moved(old(book), node.id, to, record)
    {
      MovedSound(Fixed(), book, node.id, to, record);
      book := Moved(book, node.id, to, record);
    }

    // ---------- sinks ----------

    /** The sink step: suppress a delivered key, else send, mark and count; every record is counted exactly once. */
    method Deliver(node: Node, record: Record)
      requires Inv(Some(Handoff(node.id, record))) && Has(node) && node.step.Sink?
      requires May(node.when, record.payload, ctx, true)
      modifies this
      ensures Valid() && Snap() == old(Snap())
      ensures Attempted(old(book).attempts, book.attempts, run, record, hash)
      ensures processed - old(processed) == |book.sent| - |old(book).sent|
      ensures processed + duplicates + errors == old(processed + duplicates + errors) + 1
      ensures duplicates != old(duplicates) ==>
                exists k: nat :: Delivery.LeftMarker(old(book).attempts, k, run, record, hash)
      ensures errors >= old(errors)
    {
      var suppressed, delivered := TrySend(node, record);
      CloseDelivery(suppressed, delivered);
    }

    /** The store and the sink answer as they like. */
    method TrySend(node: Node, record: Record) returns (suppressed: bool, delivered: bool)
      requires Inv(Some(Handoff(node.id, record))) && Has(node) && node.step.Sink?
      requires May(node.when, record.payload, ctx, true)
      modifies this`book, this`marked, this`processed
      ensures Valid() && (suppressed ==> !delivered) && Snap() == old(Snap())
      ensures Attempted(old(book).attempts, book.attempts, run, record, hash)
      ensures |book.sent| == |old(book).sent| + if delivered then 1 else 0
      ensures processed == old(processed) + if delivered then 1 else 0
      ensures suppressed ==> exists k: nat :: Delivery.LeftMarker(old(book).attempts, k, run, record, hash)
    {
      SoundAttempts(Fixed(), book, Some(Handoff(node.id, record)));
      var loads: bool := *;
      var sends: bool := *;
      var saves: bool := *;
      suppressed, delivered := SendOnce(node, record, loads && hasStore, sends, saves && hasStore);
      if suppressed { Delivery.SuppressedByTwin(old(book).attempts, run, record, hash); }
    }

    /** Look for the marker, send, leave a marker and count. */
    method SendOnce(node: Node, record: Record, loads: bool, sends: bool, saves: bool)
      returns (suppressed: bool, delivered: bool)
      requires Inv(Some(Handoff(node.id, record))) && Has(node) && node.step.Sink?
      requires May(node.when, record.payload, ctx, true)
      modifies this`book, this`marked, this`processed
      ensures Valid() && (suppressed ==> !delivered)
      ensures var a := Delivery.Attempt(Delivery.KeyOf(run, record, hash), record, loads, sends,
                                        if saves then Delivery.Marked else Delivery.MarkFailed);
              && book == Tried(old(book), node.id, record, a)
              && (suppressed <==> loads && a.key in old(marked)) && (delivered <==> !suppressed && sends)
      ensures processed == old(processed) + if delivered then 1 else 0
    {
      var key := Delivery.KeyOf(run, record, hash);
      ghost var a := Delivery.Attempt(key, record, loads, sends,
                                      if saves then Delivery.Marked else Delivery.MarkFailed);
      TriedSound(Fixed(), book, node.id, record, a);
      suppressed := loads && key in marked;
      delivered := !suppressed && sends;
      if delivered && saves { marked := marked + {key}; }
      if delivered { processed := processed + 1; }
      book := Tried(book, node.id, record, a);
    }

    method CloseDelivery(suppressed: bool, delivered: bool)
      requires Valid() && (suppressed ==> !delivered)
      modifies this`duplicates, this`errors, this`saved, this`book
      ensures Valid() && book == old(book).(saved := book.saved, stateLog := book.stateLog)
      ensures duplicates == old(duplicates) + if suppressed then 1 else 0
      ensures errors == old(errors) + if suppressed || delivered then 0 else 1
    {
      if suppressed {
        duplicates := duplicates + 1;
      } else if delivered {
        MaybeCheckpoint();
      } else {
        errors := errors + 1;
      }
    }

    // ---------- transforms ----------

    /**
     * Run the transform, again after a failure while the policy allows, and
     * forward what it settles on. A failure is counted and stops the run unless
     * the policy is to continue.
     */
    method ApplyTransform(node: Node, record: Record) returns (ok: bool)
      requires Live(Some(Handoff(node.id, record))) && Has(node) && node.step.Transform?
      requires May(node.when, record.payload, ctx, true)
      modifies this
      ensures Ends(ok) && OnlyBelow(Routes(), node.id, old(Snap()), Snap())
      ensures Takes(World(), node, record, old(Snap()), Snap())
      ensures ok ==> Handles(World(), node, record, old(Snap()), Snap())
      ensures var last := OutcomeOf(transform, old(calls), Turn(node, record));
              && (last.Pass? && ok ==>
                    Forwards(node.routes, last.record, ctx, LogOf(old(book).handed, node.id),
                             LogOf(book.handed, node.id)))
              && (last.Expand? && ok ==>
                    ForwardsAll(node.routes, last.records, ctx, LogOf(old(book).handed, node.id),
                                LogOf(book.handed, node.id)))
              && (last.Filtered? || last.Failed? ==> book == TurnTaken(old(book), node, record))
              && (last.Filtered? ==> ok && filtered == old(filtered) + 1)
              && (last.Failed? ==> ok == node.policy.Continue? && errors == old(errors) + 1)
      ensures errors >= old(errors) + if ok then 0 else 1
      decreases RankOf(node.id), 4
    {
      var last := Settle(node, record);
      ghost var here := Snap();
      ok := Finish(node, last);
      TransformTaken(Routes(), World(), node, record, old(Snap()), here, Snap());
    }

    /** Run the transform on the record until it settles. */
    method Settle(node: Node, record: Record) returns (last: Outcome)
      requires Live(Some(Handoff(node.id, record))) && Has(node) && node.step.Transform?
      requires May(node.when, record.payload, ctx, true)
      modifies this`calls, this`filtered, this`book
      ensures Valid() && book == TurnTaken(old(book), node, record)
      ensures last == OutcomeOf(transform, old(calls), Turn(node, record))
      ensures Stopped() == Stops(node, last) && filtered == old(filtered) + if last.Filtered? then 1 else 0
    {
      last := TryTransform(node, record);
      if last.Filtered? { filtered := filtered + 1; }
      TakeTurn(node, record, last);
    }

    /** Enter the record's turn in the books. */
    ghost method TakeTurn(node: Node, record: Record, last: Outcome)
      requires Sound(Fixed(), book, Some(Handoff(node.id, record))) && LetIn(Fixed(), node.id, record) && Has(node)
      requires node.step.Transform? && !Stopped() && Mirrored()
      requires var turn, call := Turn(node, record), CallsOf(transform, book.turns);
               && last == OutcomeOf(transform, call, turn) && calls == call + TriesOf(transform, call, turn)
               && filtered == FilteredOf(transform, book.turns) + if last.Filtered? then 1 else 0
      requires processed + |Delivery.Run(store.attempts).sent| == |book.sent|
      modifies this`book
      ensures Valid() && book == TurnTaken(old(book), node, record) && Stopped() == Stops(node, last)
    {
      TurnSound(Fixed(), book, node, record);
      book := TurnTaken(book, node, record);
    }

    /** Forward what the transform settled on, or count that it failed. */
    method Finish(node: Node, last: Outcome) returns (ok: bool)
      requires Valid() && Has(node) && Stopped() == Stops(node, last)
      modifies this
      ensures Ends(ok) && OnlyBelow(Routes(), node.id, old(Snap()), Snap())
      ensures ok ==> Yields(World(), node, last, old(Snap()), Snap())
      ensures last.Filtered? || last.Failed? ==> book == old(book) && filtered == old(filtered)
      ensures last.Failed? ==> errors == old(errors) + 1
      ensures errors >= old(errors) + if ok then 0 else 1
      decreases RankOf(node.id), 3
    {
      BelowRefl(Routes(), node.id, Snap());
      match last
      case Pass(r) => ok := Forward(r, node);
      case Expand(records) => ok := ForwardAll(records, node);
      case Filtered => ok := true;
      case Failed =>
        CountError();
        ok := node.policy.Continue?;
    }

    /** The retry loop: it tries again only after a failure, and gives up only when the policy's limit is spent. */
    method TryTransform(node: Node, record: Record) returns (outcome: Outcome)
      modifies this`calls
      ensures outcome == OutcomeOf(transform, old(calls), Turn(node, record))
      ensures calls == old(calls) + TriesOf(transform, old(calls), Turn(node, record))
    {
      var attempt, max := 0, RetryLimit(node.policy);
      ghost var first := calls;
      while true
        invariant attempt <= max
        invariant Settled(transform, node.id, first, record, max)
               == Settled(transform, node.id, calls, record, max - attempt)
        invariant first + Tries(transform, node.id, first, record, max)
               == calls + Tries(transform, node.id, calls, record, max - attempt)
        decreases max - attempt
      {
        outcome := transform(node.id, calls, record);
        calls := calls + 1;
        if !outcome.Failed? || attempt >= max { return; }
        attempt := attempt + 1;
      }
    }

    method ForwardAll(records: seq<Record>, node: Node) returns (ok: bool)
      requires Live(None) && Has(node)
      modifies this
      ensures Ends(ok) && OnlyBelow(Routes(), node.id, old(Snap()), Snap()) && KeepsOwn(node.id, old(Snap()))
      ensures ok ==> PassesAll(World(), node, records, old(Snap()), Snap())
      ensures errors >= old(errors) + if ok then 0 else 1
      decreases RankOf(node.id), 2
    {
      BelowRefl(Routes(), node.id, Snap());
      ForwardsNone(node.routes, ctx, LogOf(book.handed, node.id));
      for i := 0 to |records|
        invariant Live(None) && OnlyBelow(Routes(), node.id, old(Snap()), Snap()) && KeepsOwn(node.id, old(Snap()))
        invariant errors >= old(errors)
        invariant ForwardsAll(node.routes, records[..i], ctx, LogOf(old(book).handed, node.id),
                              LogOf(book.handed, node.id))
      {
        ok := ForwardNext(records, i, node, old(Snap()));
        if !ok { return; }
      }
      assert records[..|records|] == records;
      ok := true;
    }

    method ForwardNext(records: seq<Record>, i: nat, node: Node, ghost start: Snapshot) returns (ok: bool)
      requires Live(None) && Has(node) && i < |records|
      requires ForwardsAll(node.routes, records[..i], ctx, LogOf(start.handed, node.id), LogOf(book.handed, node.id))
      requires OnlyBelow(Routes(), node.id, start, Snap()) && KeepsOwn(node.id, start)
      modifies this
      ensures Ends(ok) && OnlyBelow(Routes(), node.id, start, Snap()) && KeepsOwn(node.id, start)
      ensures ok ==> ForwardsAll(node.routes, records[..i + 1], ctx, LogOf(start.handed, node.id),
                                 LogOf(book.handed, node.id))
      ensures errors >= old(errors) + if ok then 0 else 1
      decreases RankOf(node.id), 2, 1
    {
      ok := ForwardOn(node, records[i], start);
      if ok {
        ForwardsAllStep(node.routes, records, i, ctx, LogOf(start.handed, node.id), LogOf(old(book).handed, node.id),
                        LogOf(book.handed, node.id));
      }
    }

    method ForwardOn(node: Node, record: Record, ghost start: Snapshot) returns (ok: bool)
      requires Live(None) && Has(node)
      requires OnlyBelow(Routes(), node.id, start, Snap()) && KeepsOwn(node.id, start)
      modifies this
      ensures Ends(ok) && OnlyBelow(Routes(), node.id, start, Snap()) && KeepsOwn(node.id, start)
      ensures ok ==> Forwards(node.routes, record, ctx, LogOf(old(book).handed, node.id), LogOf(book.handed, node.id))
      ensures errors >= old(errors) + if ok then 0 else 1
      decreases RankOf(node.id), 2, 0
    {
      ok := Forward(record, node);
      BelowThenBelow(Routes(), node.id, start, old(Snap()), Snap());
    }

    // ---------- control steps ----------

    method ApplyControl(node: Node, control: Control, record: Record) returns (ok: bool)
      requires Live(Some(Handoff(node.id, record))) && Has(node) && node.step == NodeStep.Control(control)
      requires May(node.when, record.payload, ctx, true)
      modifies this
      ensures Ends(ok) && OnlyBelow(Routes(), node.id, old(Snap()), Snap())
      ensures Takes(World(), node, record, old(Snap()), Snap())
      ensures ok ==> Handles(World(), node, record, old(Snap()), Snap())
      ensures errors >= old(errors) + if ok then 0 else 1
      decreases RankOf(node.id), 5
    {
      match control
      case Join(mode, n) => ok := ApplyJoin(node, record);
      case Batch(size, windowed) => ok := ApplyBatch(node, record);
      case Approve => ok := ApplyApprove(node, record);
      case StateUpdate(updates) => ok := ApplyState(node, record);
      case _ => ok := ApplyLogless(node, control, record);
    }

    /** The steps that keep no record and no state. */
    method ApplyLogless(node: Node, control: Control, record: Record) returns (ok: bool)
      requires Live(Some(Handoff(node.id, record))) && Has(node) && node.step == NodeStep.Control(control)
      requires Logless(node, hasStore) && !control.Approve? && May(node.when, record.payload, ctx, true)
      modifies this
      ensures Ends(ok) && OnlyBelow(Routes(), node.id, old(Snap()), Snap())
      ensures Takes(World(), node, record, old(Snap()), Snap())
      ensures ok ==> Handles(World(), node, record, old(Snap()), Snap())
      ensures errors >= old(errors) + if ok then 0 else 1
      decreases RankOf(node.id), 5, 0
    {
      Land(node.id, record, true);
      ok := ApplyPassing(node, control, record);
      TakesNothing(World(), node, record, old(Snap()), Snap());
    }

    method ApplyPassing(node: Node, control: Control, record: Record) returns (ok: bool)
      requires Live(None) && Has(node) && node.step == NodeStep.Control(control)
      requires Logless(node, hasStore) && !control.Approve?
      modifies this
      ensures Ends(ok) && OnlyBelow(Routes(), node.id, old(Snap()), Snap())
      ensures ok ==> Handles(World(), node, record, old(Snap()), Snap())
      ensures errors >= old(errors) + if ok then 0 else 1
      decreases RankOf(node.id), 4
    {
      match control
      case Switch(cases, default) => ok := ApplySwitch(node, record);
      case Foreach(over, asField, maxIterations) => ok := ApplyForeach(node, record);
      case Loop(whileExpr, maxIterations, body) => ok := ApplyLoop(node, record);
      case Parallel(branches) => ok := ApplyParallel(node, record);
      case Delay => ok := Forward(record, node);
    }

    /** Walk to a target the control node names itself. */
    method HandOwn(node: Node, record: Record, to: string, ghost start: Snapshot) returns (ok: bool)
      requires Live(None) && Has(node) && to in OwnTargets(node.step)
      requires OnlyBelow(Routes(), node.id, start, Snap()) && KeepsOwn(node.id, start)
      modifies this
      ensures Ends(ok) && OnlyBelow(Routes(), node.id, start, Snap()) && KeepsOwn(node.id, start)
      ensures LogOf(book.handed, node.id) == LogOf(old(book).handed, node.id) + [Handoff(to, record)]
      ensures errors >= old(errors) + if ok then 0 else 1
      decreases RankOf(node.id), 1
    {
      assert RankedAt(nodes, rank, node.id);
      ok := HandOn(node, record, to, start);
    }

    /** The first case that holds, else the default. */
    method ApplySwitch(node: Node, record: Record) returns (ok: bool)
      requires Live(None) && Has(node) && node.step.Control? && node.step.control.Switch?
      modifies this
      ensures Ends(ok) && OnlyBelow(Routes(), node.id, old(Snap()), Snap())
      ensures ok ==> Handles(World(), node, record, old(Snap()), Snap())
      ensures errors >= old(errors) + if ok then 0 else 1
      decreases RankOf(node.id), 3
    {
      BelowRefl(Routes(), node.id, Snap());
      var to := ChooseCase(node.step.control.cases, node.step.control.default, record.payload);
      ChosenIsOwn(node, record.payload, ctx, to);
      ok := HandOwn(node, record, to, Snap());
      assert Switches(World(), node, node.step.control, record, to, old(Snap()), Snap());
    }

    method ChooseCase(cases: seq<Case>, default: string, payload: Value) returns (to: string)
      requires Valid()
      modifies this`errors
      ensures Valid() && MayChoose(cases, default, payload, ctx, to)
      ensures errors >= old(errors)
      decreases |cases|
    {
      if cases == [] { return default; }
      var holds, m := Test(cases[0].when, payload, None);
      assert ConditionHolds(Some(cases[0].when), payload, At(ctx, m)) == holds;
      if holds { return cases[0].to; }
      to := ChooseCase(cases[1..], default, payload);
    }

    /** One child record per item, up to the iteration limit. */
    method ApplyForeach(node: Node, record: Record) returns (ok: bool)
      requires Live(None) && Has(node) && node.step.Control? && node.step.control.Foreach?
      modifies this
      ensures Ends(ok) && OnlyBelow(Routes(), node.id, old(Snap()), Snap())
      ensures ok ==> Handles(World(), node, record, old(Snap()), Snap())
      ensures errors >= old(errors) + if ok then 0 else 1
      decreases RankOf(node.id), 3
    {
      var m: Moment := *;
      var items := Evaluate(node.step.control.over, record.payload, At(ctx, m));
      if items.None? || !items.value.Arr? { errors := errors + 1; }
      ok := ForwardAll(Children(node.step.control, record, At(ctx, m)), node);
    }

    /** Round by round while the condition holds, up to the limit; the condition is evaluated anew each round. */
    method ApplyLoop(node: Node, record: Record) returns (ok: bool)
      requires Live(None) && Has(node) && node.step.Control? && node.step.control.Loop?
      modifies this
      ensures Ends(ok) && OnlyBelow(Routes(), node.id, old(Snap()), Snap())
      ensures ok ==> Handles(World(), node, record, old(Snap()), Snap())
      ensures errors >= old(errors) + if ok then 0 else 1
      decreases RankOf(node.id), 3
    {
      BelowRefl(Routes(), node.id, Snap());
      LoopsStart(node, record, ctx, LogOf(book.handed, node.id));
      var going, i := true, 0;
      ghost var held: seq<Moment> := [];
      ghost var rest: seq<Moment> := [];
      while going && i < node.step.control.maxIterations
        invariant i <= node.step.control.maxIterations
        invariant Live(None) && OnlyBelow(Routes(), node.id, old(Snap()), Snap()) && KeepsOwn(node.id, old(Snap()))
        invariant errors >= old(errors)
        invariant Looping(ctx, node, record, old(Snap()), Snap(), held, rest) && |held| == i
        invariant going ==> rest == []
        invariant !going ==> |held| + |rest| == node.step.control.maxIterations
        decreases going, node.step.control.maxIterations - i
      {
        ghost var m;
        ok, going, m := LoopRound(node, record, held, old(Snap()));
        if !ok { return; }
        if going {
          held, i := held + [m], i + 1;
        } else {
          rest := seq(node.step.control.maxIterations - i, k => m);
          assert rest[0] == m;
        }
      }
      LoopDone(World(), node, record, held, rest, old(Snap()), Snap());
      ok := true;
    }

    /** One evaluation of the condition, and one round if it holds. */
    method LoopRound(node: Node, record: Record, ghost held: seq<Moment>, ghost start: Snapshot)
      returns (ok: bool, going: bool, ghost m: Moment)
      requires Live(None) && Has(node) && node.step.Control? && node.step.control.Loop?
      requires OnlyBelow(Routes(), node.id, start, Snap()) && KeepsOwn(node.id, start)
      requires Looping(ctx, node, record, start, Snap(), held, [])
      modifies this
      ensures Ends(ok) && OnlyBelow(Routes(), node.id, start, Snap()) && KeepsOwn(node.id, start)
      ensures ok ==> if going then Looping(ctx, node, record, start, Snap(), held + [m], [])
                     else Looping(ctx, node, record, start, Snap(), held, [m])
      ensures errors >= old(errors) + if ok then 0 else 1
      decreases RankOf(node.id), 2, 3
    {
      var at;
      going, at := LoopTest(node, record, start);
      m := at;
      if going {
        ok := LoopTurn(node, record, held, m, start);
      } else {
        LoopingStep(ctx, node, record, start, Snap(), Snap(), held, m);
        ok := true;
      }
    }

    /** One round, after the condition held. */
    method LoopTurn(node: Node, record: Record, ghost held: seq<Moment>, ghost m: Moment, ghost start: Snapshot)
      returns (ok: bool)
      requires Live(None) && Has(node) && node.step.Control? && node.step.control.Loop?
      requires OnlyBelow(Routes(), node.id, start, Snap()) && KeepsOwn(node.id, start)
      requires Looping(ctx, node, record, start, Snap(), held, [])
      requires ConditionHolds(Some(node.step.control.whileExpr),
                              StepState.Visible(Entry(start.states, node.id), record.payload), At(ctx, m))
      modifies this
      ensures Ends(ok) && OnlyBelow(Routes(), node.id, start, Snap()) && KeepsOwn(node.id, start)
      ensures ok ==> Looping(ctx, node, record, start, Snap(), held + [m], [])
      ensures errors >= old(errors) + if ok then 0 else 1
      decreases RankOf(node.id), 2, 2
    {
      ok := LoopBody(node, record, |held|, start);
      if ok { LoopingStep(ctx, node, record, start, old(Snap()), Snap(), held, m); }
    }

    /** Evaluate the condition on the node's state, which is still as it was at the start of the loop. */
    method LoopTest(node: Node, record: Record, ghost start: Snapshot) returns (going: bool, m: Moment)
      requires Valid() && node.step.Control? && node.step.control.Loop? && KeepsOwn(node.id, start)
      modifies this`errors
      ensures Valid() && errors >= old(errors)
      ensures going <==> ConditionHolds(Some(node.step.control.whileExpr),
                                        StepState.Visible(Entry(start.states, node.id), record.payload), At(ctx, m))
    {
      assert Entry(states, node.id) == Entry(start.states, node.id);
      going, m := Test(node.step.control.whileExpr, StepState.Visible(Entry(states, node.id), record.payload), None);
    }

    method LoopBody(node: Node, record: Record, ghost i: nat, ghost start: Snapshot) returns (ok: bool)
      requires Live(None) && Has(node) && node.step.Control? && node.step.control.Loop?
      requires OnlyBelow(Routes(), node.id, start, Snap()) && KeepsOwn(node.id, start)
      requires Loops(node, record, ctx, i, LogOf(start.handed, node.id), LogOf(book.handed, node.id))
      modifies this
      ensures Ends(ok) && OnlyBelow(Routes(), node.id, start, Snap()) && KeepsOwn(node.id, start)
      ensures ok ==> Loops(node, record, ctx, i + 1, LogOf(start.handed, node.id), LogOf(book.handed, node.id))
      ensures errors >= old(errors) + if ok then 0 else 1
      decreases RankOf(node.id), 2, 1
    {
      var body := node.step.control.body;
      if body.Some? {
        LoopsBody(node, record, ctx, i, LogOf(start.handed, node.id), LogOf(book.handed, node.id));
        ok := HandOwn(node, record, body.value, start);
      } else {
        ok := ForwardOn(node, record, start);
        if ok {
          LoopsRoutes(node, record, ctx, i, LogOf(start.handed, node.id), LogOf(old(book).handed, node.id),
                      LogOf(book.handed, node.id));
        }
      }
    }

    /** Every branch gets the record under one correlation; the first error ends the step. */
    method ApplyParallel(node: Node, record: Record) returns (ok: bool)
      requires Live(None) && Has(node) && node.step.Control? && node.step.control.Parallel?
      modifies this
      ensures Ends(ok) && OnlyBelow(Routes(), node.id, old(Snap()), Snap())
      ensures ok ==> Handles(World(), node, record, old(Snap()), Snap())
      ensures errors >= old(errors) + if ok then 0 else 1
      decreases RankOf(node.id), 3
    {
      var r := record;
      if "correlation" !in record.metadata {
        var unique: string := *;
        r := record.(metadata := record.metadata["correlation" := unique]);
      }
      ok := Branches(node, r);
      assert ok ==> Branched(node, node.step.control.branches, record, r, old(Snap()), Snap());
    }

    /**
     * One record through a parallel step whose branches are one join that waits
     * for all of them and that nothing else feeds: the join sends on exactly one
     * merged record.
     */
    method ApplyParallelIntoJoin(node: Node, record: Record, j: string) returns (ok: bool)
      requires Live(None) && Has(node) && node.step.Control? && node.step.control.Parallel?
      requires OnlyInto(nodes, node, node.step.control.branches, j)
      modifies this
      ensures Ends(ok)
      ensures ok ==> exists r :: Correlated(record, r) && JoinedOnce(Fixed(), old(book), book, j, r)
      ensures errors >= old(errors) + if ok then 0 else 1
    {
      ok := ApplyParallel(node, record);
      if ok {
        ghost var branches := node.step.control.branches;
        ghost var r :| Branched(node, branches, record, r, old(Snap()), Snap());
        assert GrowsAt(old(Snap()), Snap(), j);
        BranchesJoinOnce(Fixed(), node, branches, record, r, j, old(book), book);
      }
    }

    method Branches(node: Node, record: Record) returns (ok: bool)
      requires Live(None) && Has(node) && node.step.Control? && node.step.control.Parallel?
      modifies this
      ensures Ends(ok) && OnlyBelow(Routes(), node.id, old(Snap()), Snap())
      ensures ok ==> LogOf(book.handed, node.id) ==
                       LogOf(old(book).handed, node.id) + ToAll(node.step.control.branches, record)
      ensures errors >= old(errors) + if ok then 0 else 1
      decreases RankOf(node.id), 2
    {
      BelowRefl(Routes(), node.id, Snap());
      var branches := node.step.control.branches;
      for i := 0 to |branches|
        invariant Live(None) && OnlyBelow(Routes(), node.id, old(Snap()), Snap()) && KeepsOwn(node.id, old(Snap()))
        invariant errors >= old(errors)
        invariant Branching(node, branches, i, record, old(Snap()), Snap())
      {
        ok := BranchNext(node, i, record, old(Snap()));
        if !ok { return; }
      }
      assert branches[..|branches|] == branches;
      ok := true;
    }

    method BranchNext(node: Node, i: nat, record: Record, ghost start: Snapshot) returns (ok: bool)
      requires Live(None) && Has(node) && node.step.Control? && node.step.control.Parallel?
      requires i < |node.step.control.branches| && Branching(node, node.step.control.branches, i, record, start, Snap())
      requires OnlyBelow(Routes(), node.id, start, Snap()) && KeepsOwn(node.id, start)
      modifies this
      ensures Ends(ok) && OnlyBelow(Routes(), node.id, start, Snap()) && KeepsOwn(node.id, start)
      ensures Branching(node, node.step.control.branches, i + 1, record, start, Snap())
      ensures errors >= old(errors) + if ok then 0 else 1
      decreases RankOf(node.id), 2, 0
    {
      ghost var here := Snap();
      assert OwnTargets(node.step)[i] == node.step.control.branches[i];
      ok := HandOwn(node, record, node.step.control.branches[i], start);
      BranchingStep(node, node.step.control.branches, i, record, start, here, Snap());
    }

    // ---------- joins ----------

    /** Add the record to its correlation's group; a full group goes on as one merged record. */
    method ApplyJoin(node: Node, record: Record) returns (ok: bool)
      requires Live(Some(Handoff(node.id, record))) && Has(node) && IsJoin(node)
      requires May(node.when, record.payload, ctx, true)
      modifies this
      ensures Ends(ok) && OnlyBelow(Routes(), node.id, old(Snap()), Snap())
      ensures Takes(World(), node, record, old(Snap()), Snap())
      ensures ok ==> Handles(World(), node, record, old(Snap()), Snap())
      ensures errors >= old(errors) + if ok then 0 else 1
      decreases RankOf(node.id), 4
    {
      var correlation: string := *;
      if "correlation" in record.metadata { correlation := record.metadata["correlation"]; }
      ghost var was := book;
      var group := AddToGroup(node, correlation, record);
      ghost var merged := if group.None? then [] else [Join.Merge(group.value)];
      ok := EmitGroup(node, group);
      JoinedTaken(Fixed(), World(), node, Join.Arrival(correlation, record), was, merged, Snap());
    }

    /** Send a full group on as one merged record. */
    method EmitGroup(node: Node, group: Option<seq<Record>>) returns (ok: bool)
      requires Live(None) && Has(node)
      modifies this
      ensures Ends(ok) && OnlyBelow(Routes(), node.id, old(Snap()), Snap()) && KeepsOwn(node.id, old(Snap()))
      ensures ok ==> PassesAll(World(), node, if group.None? then [] else [Join.Merge(group.value)], old(Snap()),
                               Snap())
      ensures errors >= old(errors) + if ok then 0 else 1
      decreases RankOf(node.id), 3
    {
      var merged: seq<Record> := [];
      if group.Some? {
        var m := Join.MergeRecords(group.value);
        merged := [m];
      }
      ok := ForwardAll(merged, node);
    }

    /** The locked part of a join: push, and take the group when it is ready. */
    method AddToGroup(node: Node, correlation: string, record: Record) returns (group: Option<seq<Record>>)
      requires Inv(Some(Handoff(node.id, record))) && Has(node) && IsJoin(node)
      requires May(node.when, record.payload, ctx, true)
      requires "correlation" in record.metadata ==> correlation == record.metadata["correlation"]
      modifies this`joins, this`book
      ensures Valid()
      ensures node.id in old(book).joins
      ensures book == Joined(Fixed(), old(book), node.id, Join.Arrival(correlation, record))
      ensures LogOf(book.joinOut, node.id) == LogOf(old(book).joinOut, node.id) +
                if group.None? then [] else [Join.Merge(group.value)]
    {
      JoinedSound(Fixed(), book, node.id, Join.Arrival(correlation, record));
      var id := node.id;
      var open := Join.OpenGroup(joins[id], correlation) + [record];
      if |open| >= ThresholdOf(node) {
        joins := joins[id := joins[id][correlation := []]];
        group := Some(open);
      } else {
        joins := joins[id := joins[id][correlation := open]];
        group := None;
      }
      book := Joined(Fixed(), book, id, Join.Arrival(correlation, record));
    }

    // ---------- batches ----------

    /** Buffer the record; a full batch goes on as one record. */
    method ApplyBatch(node: Node, record: Record) returns (ok: bool)
      requires Live(Some(Handoff(node.id, record))) && Has(node) && IsBatch(node)
      requires May(node.when, record.payload, ctx, true)
      modifies this
      ensures Ends(ok) && OnlyBelow(Routes(), node.id, old(Snap()), Snap())
      ensures Takes(World(), node, record, old(Snap()), Snap())
      ensures ok ==> Handles(World(), node, record, old(Snap()), Snap())
      ensures errors >= old(errors) + if ok then 0 else 1
      decreases RankOf(node.id), 4
    {
      var elapsed: bool := *;
      var flushed := AddToBatch(node, record, elapsed);
      ghost var next := BatchAfter(node, record, elapsed, old(book));
      ok := EmitBatches(node, flushed);
      BatchBelow(Routes(), node, record, elapsed, old(book), next, Snap());
      BatchTaken(World(), node, record, elapsed, flushed, old(book), next, Snap());
    }

    /** What an arrival makes of a batch node. */
    ghost function BatchAfter(node: Node, record: Record, elapsed: bool, l: Ledger): Batch.BatchState
      requires IsBatch(node) && node.id in l.batches && node.id in l.armed
    {
      Batch.Step(Batch.BatchState(l.batches[node.id], l.armed[node.id], LogOf(l.batchOut, node.id)),
                 node.step.control.size, node.step.control.windowed, Batch.Arrive(record, elapsed))
    }

    /** The locked part of a batch: push, and take the buffer when the size or the window is hit. */
    method AddToBatch(node: Node, record: Record, elapsed: bool) returns (flushed: seq<seq<Record>>)
      requires Inv(Some(Handoff(node.id, record))) && Has(node) && IsBatch(node)
      requires May(node.when, record.payload, ctx, true)
      modifies this`batches, this`armed, this`book
      ensures Valid() && node.id in old(book).batches && node.id in old(book).armed
      ensures var next := BatchAfter(node, record, elapsed, old(book));
              && book == Landed(Rebatched(old(book), node.id, Batch.Arrive(record, elapsed), next),
                                node.id, record, true)
              && next.emitted == LogOf(old(book).batchOut, node.id) + flushed
    {
      SoundBatch(Fixed(), book, Some(Handoff(node.id, record)), node.id);
      ghost var next := BatchAfter(node, record, elapsed, book);
      BatchedSound(Fixed(), book, node.id, record, elapsed, next);
      flushed := PushBatch(node, record, elapsed);
      book := Landed(Rebatched(book, node.id, Batch.Arrive(record, elapsed), next), node.id, record, true);
    }

    method PushBatch(node: Node, record: Record, elapsed: bool) returns (flushed: seq<seq<Record>>)
      requires IsBatch(node) && node.id in batches && node.id in armed
      modifies this`batches, this`armed
      ensures var buffer := old(batches)[node.id] + [record];
              var c := node.step.control;
              if Batch.Completes(c.size, c.windowed, |buffer|, old(armed)[node.id], elapsed)
              then
                batches == old(batches)[node.id := []] && armed == old(armed)[node.id := false] && flushed == [buffer]
              else
                batches == old(batches)[node.id := buffer] && armed == old(armed)[node.id := true] && flushed == []
    {
      var id, c := node.id, node.step.control;
      var buffer := batches[id] + [record];
      var sizeHit := Batch.SizeHit(c.size, |buffer|);
      var windowHit := c.windowed && armed[id] && elapsed;
      if sizeHit || windowHit {
        batches, armed := batches[id := []], armed[id := false];
        flushed := [buffer];
      } else {
        batches, armed := batches[id := buffer], armed[id := true];
        flushed := [];
      }
    }

    /** Send batches on as one record each. */
    method EmitBatches(node: Node, flushed: seq<seq<Record>>) returns (ok: bool)
      requires Live(None) && Has(node) && IsBatch(node)
      modifies this
      ensures Ends(ok) && OnlyBelow(Routes(), node.id, old(Snap()), Snap()) && KeepsOwn(node.id, old(Snap()))
      ensures ok ==> PassesAll(World(), node, Batch.BatchRecords(flushed), old(Snap()), Snap())
      ensures errors >= old(errors) + if ok then 0 else 1
      decreases RankOf(node.id), 3
    {
      ok := ForwardAll(Batch.BatchRecords(flushed), node);
    }

    // ---------- state and approval ----------

    /** Update the node's state from the record; a failing expression drops the record and changes nothing. */
    method ApplyState(node: Node, record: Record) returns (ok: bool)
      requires Live(Some(Handoff(node.id, record))) && Has(node) && IsUpdate(node)
      requires May(node.when, record.payload, ctx, true)
      modifies this
      ensures Ends(ok) && OnlyBelow(Routes(), node.id, old(Snap()), Snap())
      ensures Takes(World(), node, record, old(Snap()), Snap())
      ensures ok ==> Handles(World(), node, record, old(Snap()), Snap())
      ensures errors >= old(errors) + if ok then 0 else 1
      decreases RankOf(node.id), 4
    {
      var clock: seq<Moment> := *;
      var done := UpdateState(node, record, clock);
      ghost var here := Snap();
      ok := PassUpdated(node, record, done);
      StateTaken(Routes(), World(), node, record, clock, old(Snap()), here, Snap());
    }

    /** A record whose updates all had a value goes on, any other is an error. */
    method PassUpdated(node: Node, record: Record, done: bool) returns (ok: bool)
      requires Live(None) && Has(node)
      modifies this
      ensures Ends(ok) && OnlyBelow(Routes(), node.id, old(Snap()), Snap()) && KeepsOwn(node.id, old(Snap()))
      ensures done && ok ==> Passes(World(), node, record, old(Snap()), Snap())
      ensures !done ==> ok && errors == old(errors) + 1 && Snap() == old(Snap())
      ensures errors >= old(errors) + if ok then 0 else 1
      decreases RankOf(node.id), 3
    {
      BelowRefl(Routes(), node.id, Snap());
      if done {
        ok := Forward(record, node);
      } else {
        CountError();
        ok := true;
      }
    }

    method UpdateState(node: Node, record: Record, clock: seq<Moment>) returns (done: bool)
      requires Inv(Some(Handoff(node.id, record))) && Has(node) && IsUpdate(node)
      requires May(node.when, record.payload, ctx, true)
      modifies this`states, this`saved, this`book
      ensures Valid()
      ensures var next := StepState.NewState(node.step.control.updates, Entry(old(book).states, node.id), ctx,
                                             StepState.Input(record.payload, clock));
              && done == next.Some?
              && Entry(book.states, node.id) == if done then next else Entry(old(book).states, node.id)
      ensures forall n :: n != node.id ==> Entry(book.states, n) == Entry(old(book).states, n)
      ensures Snap() == old(Snap()).(states := Snap().states) && (!done ==> saved == old(saved))
    {
      var id, arrival := node.id, StepState.Input(record.payload, clock);
      var next := StepState.ComputeState(node.step.control.updates, Entry(states, id), ctx, arrival);
      var saves: bool := *;
      saves := saves && hasStore;
      done := next.Some?;
      var states' := if done then states[id := next.value] else states;
      var saved' := if done && saves then saved[id := next.value] else saved;
      EnterArrival(node, record, arrival, saves, next, states', saved');
      states, saved := states', saved';
    }

    /** Enter the record's arrival at the state in the books. */
    ghost method EnterArrival(node: Node, record: Record, arrival: StepState.Input, saves: bool, next: Option<Value>,
                              states': map<string, Value>, saved': map<string, Value>)
      requires Sound(Fixed(), book, Some(Handoff(node.id, record))) && LetIn(Fixed(), node.id, record) && Has(node)
      requires IsUpdate(node) && arrival.payload == record.payload
      requires next == StepState.NewState(UpdatesOf(node.step), Entry(book.states, node.id), ctx, arrival)
      requires states' == if next.Some? then book.states[node.id := next.value] else book.states
      requires saved' == if next.Some? && saves then book.saved[node.id := next.value] else book.saved
      modifies this`book
      ensures Sound(Fixed(), book, None)
      ensures book == Landed(Restated(old(book), node.id, StepState.Arrives(arrival, saves), states', saved'),
                             node.id, record, true)
    {
      var event := StepState.Arrives(arrival, saves);
      ArrivalSteps(Fixed(), book, node.id, arrival, saves, next);
      UpdatedSound(Fixed(), book, node.id, record, event, states', saved');
      book := Landed(Restated(book, node.id, event, states', saved'), node.id, record, true);
    }

    /** Park the record for approval, or pass it on when there is no store. */
    method ApplyApprove(node: Node, record: Record) returns (ok: bool)
      requires Live(Some(Handoff(node.id, record))) && Has(node) && IsApprove(node)
      requires May(node.when, record.payload, ctx, true)
      modifies this
      ensures Ends(ok) && OnlyBelow(Routes(), node.id, old(Snap()), Snap())
      ensures Takes(World(), node, record, old(Snap()), Snap())
      ensures ok ==> Handles(World(), node, record, old(Snap()), Snap())
      ensures errors >= old(errors) + if ok then 0 else 1
      decreases RankOf(node.id), 3
    {
      BelowRefl(Routes(), node.id, Snap());
      if hasStore {
        var stored := Park(node, record);
        ApprovalTaken(Routes(), World(), node, Approval(record, stored), old(Snap()), Snap());
        ok := true;
      } else {
        ok := PassThrough(node, record);
      }
    }

    /** The store takes the record, which then waits, or does not, which is an error. */
    method Park(node: Node, record: Record) returns (stored: bool)
      requires Inv(Some(Handoff(node.id, record))) && Has(node) && IsApprove(node) && hasStore
      requires May(node.when, record.payload, ctx, true)
      modifies this`parked, this`waiting, this`errors, this`book
      ensures Valid()
      ensures book == Filed(old(book), node.id, Approval(record, stored))
      ensures stored ==>
                waiting == old(waiting) + 1 && LogOf(parked, node.id) == LogOf(old(parked), node.id) + [record.payload]
      ensures !stored ==> errors == old(errors) + 1 && parked == old(parked)
      ensures errors >= old(errors)
    {
      stored := *;
      FiledSound(Fixed(), book, node.id, Approval(record, stored));
      if stored { parked := parked[node.id := LogOf(parked, node.id) + [record.payload]]; }
      book := Filed(book, node.id, Approval(record, stored));
      CountParked(stored);
    }

    method CountParked(stored: bool)
      requires Valid()
      modifies this`waiting, this`errors
      ensures Valid()
      ensures if stored then waiting == old(waiting) + 1 else errors == old(errors) + 1
      ensures errors >= old(errors)
    {
      if stored { waiting := waiting + 1; } else { errors := errors + 1; }
    }

    // ---------- checkpoints ----------

    method MaybeCheckpoint()
      requires Valid()
      modifies this`saved, this`book
      ensures Valid() && book == old(book).(saved := book.saved, stateLog := book.stateLog)
    {
      var due: bool := *;
      if due { Checkpoint(); }
    }

    /** Save every state in memory. */
    method Checkpoint()
      requires Valid()
      modifies this`saved, this`book
      ensures Valid() && book == old(book).(saved := book.saved, stateLog := book.stateLog)
      ensures hasStore ==> forall id :: id in nodes && id in states ==> EndsSaved(LogOf(book.stateLog, id))
    {
      if !hasStore { return; }
      var todo := states.Keys * nodes.Keys;
      while todo != {}
        invariant Valid() && todo <= nodes.Keys && todo <= states.Keys
        invariant book == old(book).(saved := book.saved, stateLog := book.stateLog)
        invariant forall id :: id in nodes && id in states && id !in todo ==> EndsSaved(LogOf(book.stateLog, id))
      {
        var id :| id in todo;
        todo := todo - {id};
        var saves: bool := *;
        SaveState(id, saves);
      }
    }

    method SaveState(id: string, saves: bool)
      requires Valid() && id in nodes && id in states
      modifies this`saved, this`book
      ensures Valid() && book == old(book).(saved := book.saved, stateLog := book.stateLog)
      ensures book.stateLog == old(book).stateLog[id := LogOf(old(book).stateLog, id) + [StepState.Checkpoint(saves)]]
    {
      var saved' := if saves then saved[id := states[id]] else saved;
      ghost var event := StepState.Checkpoint(saves);
      CheckpointSound(Fixed(), book, id, event, states, saved');
      book := Restated(book, id, event, states, saved');
      saved := saved';
    }

    // ---------- sources ----------

    /**
     * Put every record of a source in, in order, and walk it; an item that is an
     * error is counted and hands nothing on.
     */
    method RunSource(root: string, items: seq<Option<Record>>) returns (ok: bool)
      requires Live(None)
      modifies this
      ensures Ends(ok) && Above(Routes(), root, old(Snap()), Snap())
      ensures root !in nodes || !nodes[root].step.Source? ==> ok && Snap() == old(Snap())
      ensures ok && root in nodes && nodes[root].step.Source? ==>
                Pumped(ctx, nodes[root], items, |items|, old(Snap()), Snap()) &&
                errors >= old(errors) + ErrorItems(items)
      ensures errors >= old(errors) + if ok then 0 else 1
    {
      if root !in nodes || !nodes[root].step.Source? { return true; }
      assert RankedAt(nodes, rank, root);
      PumpedStart(ctx, nodes[root], items, Snap());
      for i := 0 to |items|
        invariant Live(None) && Above(Routes(), root, old(Snap()), Snap())
        invariant errors >= old(errors) + ErrorItems(items[..i])
        invariant Pumped(ctx, nodes[root], items, i, old(Snap()), Snap())
      {
        ErrorItemsStep(items, i);
        ok := TakeItem(nodes[root], items, i, old(Snap()));
        if !ok { return; }
      }
      assert items[..|items|] == items;
      ok := true;
    }

    method TakeItem(node: Node, items: seq<Option<Record>>, i: nat, ghost start: Snapshot) returns (ok: bool)
      requires Live(None) && Has(node) && node.step.Source? && i < |items|
      requires Above(Routes(), node.id, start, Snap()) && Pumped(ctx, node, items, i, start, Snap())
      modifies this
      ensures Ends(ok) && Above(Routes(), node.id, start, Snap())
      ensures ok ==> Pumped(ctx, node, items, i + 1, start, Snap())
      ensures items[i].None? ==> ok && errors == old(errors) + 1
      ensures errors >= old(errors) + if ok then 0 else 1
    {
      ghost var here := Snap();
      if items[i].None? {
        CountError();
        PumpedError(ctx, node, items, i, start, here);
        return true;
      }
      var record := items[i].value;
      InjectedSound(Fixed(), book, node.id, record);
      book := Injected(book, node.id, record);
      ghost var moved := Snap();
      var admitted;
      ok, admitted := Walk(record, node.id);
      AboveStep(Routes(), node.id, start, here, moved, Snap());
      if ok { PumpedRecord(Routes(), World(), node, items, i, admitted, start, here, moved, Snap()); }
    }

    method CountError()
      requires Valid()
      modifies this`errors
      ensures Valid() && errors == old(errors) + 1
    {
      errors := errors + 1;
    }

    // ---------- flushing ----------

    /**
     * Flush the batch buffers in some order. Each buffer is emptied and handed on
     * as one record, and only what lies below the node changes besides.
     */
    method FlushBatches(order: seq<string>) returns (ok: bool, ghost trace: seq<Snapshot>)
      requires Live(None) && forall i :: 0 <= i < |order| ==> order[i] in nodes && IsBatch(nodes[order[i]])
      modifies this
      ensures Ends(ok) && FlushedBelow(Routes(), order, old(Snap()), Snap())
      ensures ok ==> |trace| == |order| + 1 && trace[0] == old(Snap()) && trace[|order|] == Snap()
      ensures ok ==> FlushTrace(Fixed(), order, trace)
      ensures errors >= old(errors) + if ok then 0 else 1
    {
      trace := [Snap()];
      FlushTraceStart(Fixed(), book);
      for k := 0 to |order|
        invariant Live(None) && FlushedBelow(Routes(), order, old(Snap()), Snap()) && errors >= old(errors)
        invariant |trace| == k + 1 && trace[0] == old(Snap()) && trace[k] == Snap()
        invariant FlushTrace(Fixed(), order[..k], trace)
      {
        ghost var here := Snap();
        ok, trace := FlushNext(order[k], order[..k], trace);
        FlushedBelowStep(Routes(), order, k, old(Snap()), here, Snap());
        if !ok { return; }
        assert order[..k + 1] == order[..k] + [order[k]];
      }
      assert order[..|order|] == order;
      ok := true;
    }

    method FlushNext(id: string, ghost done: seq<string>, ghost trace: seq<Snapshot>)
      returns (ok: bool, ghost longer: seq<Snapshot>)
      requires Live(None) && id in nodes && IsBatch(nodes[id])
      requires |trace| == |done| + 1 && trace[|done|] == Snap() && FlushTrace(Fixed(), done, trace)
      modifies this
      ensures Ends(ok) && Above(Routes(), id, old(Snap()), Snap()) && Internal(old(book).moves, book.moves)
      ensures ok ==> longer == trace + [Snap()] && FlushTrace(Fixed(), done + [id], longer)
      ensures errors >= old(errors) + if ok then 0 else 1
    {
      ok := FlushOne(id);
      longer := trace + [Snap()];
      if ok { FlushTraceStep(Fixed(), done, trace, id, book); }
    }

    /** Flush one buffer: take what is in it and hand it on. */
    method FlushOne(id: string) returns (ok: bool)
      requires Live(None) && id in nodes && IsBatch(nodes[id])
      modifies this
      ensures Ends(ok) && Above(Routes(), id, old(Snap()), Snap()) && Internal(old(book).moves, book.moves)
      ensures ok ==> Flushes(Routes(), ctx, nodes[id], old(Snap()), Snap())
      ensures errors >= old(errors) + if ok then 0 else 1
    {
      assert RankedAt(nodes, rank, id);
      var records := TakeBatch(id);
      ghost var taken := Snap();
      FlushTakes(old(book), id, records, old(book).armed[id], BatchFlushed(id, old(book)));
      var flushed := if records == [] then [] else [records];
      ok := EmitBatches(nodes[id], flushed);
      FlushDone(Routes(), World(), nodes[id], records, old(Snap()), taken, Snap());
    }

    /** What a flush makes of a batch node. */
    ghost function BatchFlushed(id: string, l: Ledger): Batch.BatchState
      requires id in nodes && IsBatch(nodes[id]) && id in l.batches && id in l.armed
    {
      Batch.Step(Batch.BatchState(l.batches[id], l.armed[id], LogOf(l.batchOut, id)),
                 nodes[id].step.control.size, nodes[id].step.control.windowed, Batch.Flush)
    }

    /** Take what is buffered, leaving the window clock as it is. */
    method TakeBatch(id: string) returns (records: seq<Record>)
      requires Valid() && id in nodes && IsBatch(nodes[id])
      modifies this`batches, this`book
      ensures Valid() && id in old(book).batches && id in old(book).armed && records == old(book).batches[id]
      ensures book == Rebatched(old(book), id, Batch.Flush, BatchFlushed(id, old(book)))
    {
      SoundBatch(Fixed(), book, None, id);
      records := batches[id];
      ghost var next := BatchFlushed(id, book);
      FlushedSound(Fixed(), book, id, next);
      batches := batches[id := []];
      assert armed[id := armed[id]] == armed;
      book := Rebatched(book, id, Batch.Flush, next);
    }

    method FlushAll(order: seq<string>, sinksFlush: bool) returns (ok: bool, ghost trace: seq<Snapshot>)
      requires Live(None) && forall i :: 0 <= i < |order| ==> order[i] in nodes && IsBatch(nodes[order[i]])
      modifies this
      ensures Valid() && ok == (!Stopped() && sinksFlush)
      ensures FlushedBelow(Routes(), order, old(Snap()), Snap())
      ensures ok ==> |trace| == |order| + 1 && trace[0] == old(Snap()) && trace[|order|] == Snap()
      ensures ok ==> FlushTrace(Fixed(), order, trace)
      ensures ok && hasStore ==> forall id :: id in nodes && id in states ==> EndsSaved(LogOf(book.stateLog, id))
      ensures errors >= old(errors) + if Stopped() then 1 else 0
    {
      ok, trace := FlushBatches(order);
      if ok {
        ok := sinksFlush;
        if ok { Checkpoint(); }
      }
    }

    /**
     * The order the code walks its buffers in is not under control. If a batch
     * node is flushed before one that feeds it and has something to flush, its
     * buffer is refilled and stays so.
     */
    method FlushDownstreamFirst(order: seq<string>, i: nat, j: nat, r: nat) returns (ok: bool)
      requires Live(None) && forall k :: 0 <= k < |order| ==> order[k] in nodes && IsBatch(nodes[order[k]])
      requires Distinct(order) && i < j < |order|
      requires Feeds(nodes, order[j], r, order[i]) && TakesAll(nodes, order[i])
      requires Entry(batches, order[j]) != Some([])
      requires forall k :: 0 <= k < j && k != i ==> !Reaches(Routes(), order[k], order[j])
      modifies this
      ensures Ends(ok) && (ok ==> order[i] in batches && batches[order[i]] != [])
      ensures errors >= old(errors) + if ok then 0 else 1
    {
      ghost var trace;
      assert TargetsOf(nodes[order[j]].routes)[r] == order[i];
      NeverBack(nodes, rank, order[j], order[i]);
      ok, trace := FlushBatches(order);
      if ok {
        StillHolds(Fixed(), order, trace, order[j], j);
        DownstreamFirstRefills(Fixed(), order, trace, i, j, r, |order|);
        assert Snap().batches == trace[|order|].batches;
      }
    }

    // ---------- what a running executor guarantees ----------

    /** Every record handed to a node has been walked there, in order. */
    lemma EveryMoveLands(i: nat)
      requires Valid() && i < |book.moves|
      ensures |book.landings| == |book.moves| && LandsAs(book.moves[i], book.landings[i])
      ensures LandingOk(nodes, ctx, book.landings[i])
    {
      SoundParts(Fixed(), book, None);
    }

    /**
     * Every record a join node has admitted is in one of its groups, under its own
     * correlation if it has one: the arrivals of each correlation are released in
     * order, a threshold at a time, each group sent on merged, and the rest waits.
     */
    lemma JoinGuarantee(id: string, c: string)
      requires Valid() && id in nodes && IsJoin(nodes[id])
      ensures id in joins
      ensures var log := LogOf(book.joinLog, id);
              var s := Join.JoinRun(ThresholdOf(nodes[id]), log);
              && Arrived(log, AdmittedAt(book.landings, id))
              && LogOf(book.joinOut, id) == MergedGroups(s.released)
              && Join.Chunked(Join.Of(log, c), Join.GroupsOf(s.released, c), Join.OpenGroup(joins[id], c),
                              ThresholdOf(nodes[id]))
    {
      SoundParts(Fixed(), book, None);
      assert JoinOkAt(nodes, joins, book.joinLog, book.joinOut, id);
      assert FedAt(nodes, hasStore, book.joinLog, book.batchLog, book.approvals, book.landings, id);
      Join.JoinChunks(ThresholdOf(nodes[id]), book.joinLog[id], c);
    }

    /**
     * Once b records of a correlation have been let in at a join that waits for
     * all of its b incoming routes, it has sent on exactly one record for it: the
     * merge of those b.
     */
    lemma JoinsOnce(id: string, b: nat, c: string)
      requires Valid() && id in nodes && IsJoin(nodes[id]) && nodes[id].step.control.mode == All
      requires nodes[id].incoming == b >= 1
      requires forall i :: 0 <= i < |AdmittedAt(book.landings, id)| ==>
                 "correlation" in AdmittedAt(book.landings, id)[i].metadata
      requires |UnderCorrelation(AdmittedAt(book.landings, id), c)| == b
      ensures var s := Join.JoinRun(b, LogOf(book.joinLog, id));
              && LogOf(book.joinOut, id) == MergedGroups(s.released)
              && Join.GroupsOf(s.released, c) == [UnderCorrelation(AdmittedAt(book.landings, id), c)]
    {
      JoinGuarantee(id, c);
      ArrivedUnder(LogOf(book.joinLog, id), AdmittedAt(book.landings, id), c);
      Join.ParallelJoinsOnce(nodes[id].step.control.n, b, LogOf(book.joinLog, id), c);
    }

    /**
     * Every record a batch node has admitted is, in order, in one of its emitted
     * batches or in its buffer; so the items of the records it sent on, then the
     * payloads still buffered, are the payloads of all it admitted.
     */
    lemma BatchGuarantee(id: string)
      requires Valid() && id in nodes && IsBatch(nodes[id])
      ensures id in batches && id in armed
      ensures Batch.Keeps(Batch.BatchState(batches[id], armed[id], LogOf(book.batchOut, id)),
                          AdmittedAt(book.landings, id), nodes[id].step.control.size)
      ensures Batch.ItemsIn(Batch.BatchRecords(LogOf(book.batchOut, id))) + Batch.PayloadsOf(batches[id])
           == Batch.PayloadsOf(AdmittedAt(book.landings, id))
    {
      SoundParts(Fixed(), book, None);
      assert BatchOkAt(nodes, batches, armed, book.batchLog, book.batchOut, id);
      assert FedAt(nodes, hasStore, book.joinLog, book.batchLog, book.approvals, book.landings, id);
      Batch.BatchKeepsOrder(nodes[id].step.control.size, nodes[id].step.control.windowed, book.batchLog[id]);
      Batch.KeepsPayloads(Batch.BatchState(batches[id], armed[id], LogOf(book.batchOut, id)),
                          AdmittedAt(book.landings, id), nodes[id].step.control.size);
    }

    /** With a store, what waits for approval is what waited before and every admitted record the store took. */
    lemma ApprovalGuarantee(id: string)
      requires Valid() && id in nodes && IsApprove(nodes[id]) && hasStore
      ensures Approved(LogOf(book.approvals, id), AdmittedAt(book.landings, id))
      ensures LogOf(parked, id) == LogOf(store.parked, id) + StoredOf(LogOf(book.approvals, id))
    {
      SoundParts(Fixed(), book, None);
      assert FedAt(nodes, hasStore, book.joinLog, book.batchLog, book.approvals, book.landings, id);
      assert ParkedOkAt(store.parked, parked, book.approvals, id);
    }

    /**
     * Each record a sink has admitted made one attempt, in order. A key was sent
     * exactly as often as its sends slipped, and once more if it is marked; and at
     * least once if an attempt of it met no send error.
     */
    lemma DeliveryGuarantee(key: Delivery.Key)
      requires Valid()
      ensures Attempting(book.attempts, store.attempts, run, hash, SinkRecords(nodes, book.landings))
      ensures Delivery.Count(book.sent, key) == Delivery.SlipCount(book.attempts, key) + if key in marked then 1 else 0
      ensures (exists k: nat :: Delivery.Unfailed(book.attempts, k, key)) ==> Delivery.Count(book.sent, key) >= 1
    {
      SoundParts(Fixed(), book, None);
      Delivery.SentExactly(book.attempts, key);
      if k: nat :| Delivery.Unfailed(book.attempts, k, key) { Delivery.SentAtLeastOnce(book.attempts, k, key); }
    }

    /** An attempt was suppressed only because a record of the same identity was sent and marked before, in the run. */
    lemma SuppressionGuarantee(i: nat)
      requires Valid() && i < |book.attempts|
      requires Delivery.Suppressed(Delivery.Run(book.attempts[..i]), book.attempts[i])
      ensures exists k: nat :: k < i && Delivery.LeftMarker(book.attempts, k, book.attempts[i].key.run,
                                                            book.attempts[i].record, hash)
    {
      SoundAttempts(Fixed(), book, None);
      Delivery.SuppressedHasTwin(book.attempts, hash, i);
    }

    /** Every record a transform admitted had one turn, in order; only the last of them can have stopped the run. */
    lemma TransformGuarantee()
      requires Valid()
      ensures book.turns == TurnsAt(nodes, book.landings) && OnlyLastStops(transform, book.turns)
      ensures calls == CallsOf(transform, book.turns) && filtered == FilteredOf(transform, book.turns)
    {
      SoundParts(Fixed(), book, None);
    }

    /** A flow without transforms is never stopped. */
    lemma NeverStops()
      requires Valid() && forall id :: id in nodes ==> !nodes[id].step.Transform?
      ensures !Stopped()
    {
      TransformGuarantee();
      NoTurns(nodes, book.landings);
    }

    /**
     * A node's state in memory is the fold of its updates over exactly the records
     * it has admitted, in order and each with its own clock readings, from the
     * state the run was started with.
     */
    lemma StateGuarantee(id: string)
      requires Valid() && id in nodes
      ensures id in book.stateLog && Begun(Fixed())[id] <= book.stateLog[id]
      ensures var arrivals := StepState.ArrivalsIn(book.stateLog[id][|Begun(Fixed())[id]|..]);
              && Updating(arrivals, if IsUpdate(nodes[id]) then AdmittedAt(book.landings, id) else [])
              && Entry(states, id) ==
                   StepState.FoldFrom(StepState.Initial(nodes[id].state, Entry(store.saved, id), loads(id)),
                                      UpdatesOf(nodes[id].step), ctx, arrivals)
    {
      SoundParts(Fixed(), book, None);
      assert StateOkAt(nodes, ctx, states, saved, book.stateLog, id);
      assert StateFedAt(nodes, Begun(Fixed()), book.stateLog, book.landings, id);
      StateFolds(Fixed(), id, book.stateLog[id]);
    }

    /** While the store works, the fold goes on over all runs: no update that completed in any of them is lost. */
    lemma ResumeGuarantee(id: string)
      requires Valid() && id in nodes && nodes[id].state.Some?
      requires id in book.stateLog && StepState.StoreWorks(book.stateLog[id])
      ensures var done := StepState.Completed(nodes[id].state, UpdatesOf(nodes[id].step), ctx, book.stateLog[id]);
              Entry(states, id) ==
                Some(StepState.Fold(nodes[id].state.value, UpdatesOf(nodes[id].step), ctx, done))
    {
      SoundParts(Fixed(), book, None);
      assert StateOkAt(nodes, ctx, states, saved, book.stateLog, id);
      StepState.ResumesLoseNothing(nodes[id].state.value, UpdatesOf(nodes[id].step), ctx, book.stateLog[id]);
    }

    /** The next run can start on what this one leaves in the store, at any time. */
    lemma LeavesAStore()
      requires Valid()
      ensures Startable(nodes, ctx, hash, Store(marked, saved, parked, book.attempts, book.stateLog))
    {
      LeavesStartable(Fixed(), book, None);
    }
  }

  /**
   * From a configuration to the end of a run, on what earlier runs left in the
   * store. A flow is run exactly if it can be built, on exactly what it is given
   * (`Fixed`). The run ends well exactly if no transform stopped it and the sinks
   * flushed. Then every source has put in all its records, every one of them and
   * whatever came of it has been walked (that is `Valid`), a source that nothing
   * else feeds has handed on exactly what its records hand on, every buffer was
   * flushed along the trace, and every state in memory was saved last thing. If
   * upstream batch nodes came first, no record is left in a batch buffer.
   */
  method RunFlow(flow: Config, partials: map<string, Partial>, roots: seq<string>, items: seq<seq<Option<Record>>>,
                 order: seq<string>, ctx: Context, hash: Value -> string, run: string, transform: Behaviour,
                 hasStore: bool, loads: string -> bool, store: Store, sinksFlush: bool)
    returns (accepted: bool, ok: bool, executor: Executor?, ghost trace: seq<Snapshot>)
    requires |items| == |roots| && Distinct(roots)
    requires forall i :: 0 <= i < |order| ==> order[i] in partials && partials[order[i]].step.Control?
                                              && partials[order[i]].step.control.Batch?
    requires Delivery.Run(store.attempts).marked == store.marked && Delivery.Keyed(store.attempts, hash)
    requires PartsExplained(partials, ctx, store)
    ensures accepted <==> Buildable(flow, partials)
    ensures accepted ==>
              && executor != null && executor.Valid() && Built(flow, partials, executor.nodes)
              && executor.Fixed()
                 == Plan(executor.nodes, executor.rank, ctx, hash, run, transform, hasStore, loads, store)
              && ok == (!executor.Stopped() && sinksFlush)
              && (executor.Stopped() ==> executor.errors > 0)
    ensures ok ==> accepted && SourcesRan(executor.Fixed(), roots, items, |roots|, executor.Snap())
    ensures ok ==> RunFlushed(executor, roots, items, order, trace)
    ensures ok && hasStore ==>
              forall id :: id in executor.nodes && id in executor.states ==>
                EndsSaved(LogOf(executor.book.stateLog, id))
    ensures ok && UpstreamFirst(executor.Routes(), order) && Covers(order, executor.nodes) ==>
              AllEmpty(executor.nodes, executor.batches)
  {
    ok, trace := false, [];
    executor := Prepare(flow, partials, ctx, hash, run, transform, hasStore, loads, store);
    accepted := executor != null;
    if !accepted { return; }
    ok := RunSources(executor, roots, items);
    if !ok { return; }
    ok, trace := FinishRun(executor, roots, items, order, sinksFlush);
  }

  /** Assemble the flow and start an executor on it. */
  method Prepare(flow: Config, partials: map<string, Partial>, ctx: Context, hash: Value -> string, run: string,
                 transform: Behaviour, hasStore: bool, loads: string -> bool, store: Store)
    returns (executor: Executor?)
    requires Delivery.Run(store.attempts).marked == store.marked && Delivery.Keyed(store.attempts, hash)
    requires PartsExplained(partials, ctx, store)
    ensures executor != null <==> Buildable(flow, partials)
    ensures executor != null ==>
              && fresh(executor) && executor.Live(None) && Built(flow, partials, executor.nodes)
              && executor.Fixed()
                 == Plan(executor.nodes, executor.rank, ctx, hash, run, transform, hasStore, loads, store)
              && executor.book == Opened(executor.nodes, loads, store)
  {
    executor := null;
    var built;
    ghost var pops;
    built, pops := Assemble(flow, partials);
    if built.None? { return; }
    BuiltIsRanked(flow, partials, built.value, pops);
    ghost var rank := map id | id in built.value :: Rank(pops, id);
    BuiltExplained(flow, partials, built.value, ctx, hash, store);
    executor := new Executor(built.value, rank, ctx, hash, run, transform, hasStore, loads, store);
  }

  /** The buffers were flushed along the trace, from the end of the sources to the end of the run. */
  ghost predicate RunFlushed(executor: Executor, roots: seq<string>, items: seq<seq<Option<Record>>>,
                             order: seq<string>, trace: seq<Snapshot>)
    reads executor
  {
    && FlushTrace(executor.Fixed(), order, trace) && |items| == |roots|
    && SourcesRan(executor.Fixed(), roots, items, |roots|, trace[0]) && trace[|order|] == executor.Snap()
  }

  /** A run in which a buffer is filled at the end: the downstream batch node is flushed first. */
  method RefillReached(ctx: Context, hash: Value -> string, run: string, transform: Behaviour, record: Record)
    returns (executor: Executor, ok: bool)
    ensures fresh(executor) && executor.Valid() && executor.nodes == ChainOfBatches()
    ensures ok && "b" in executor.batches && executor.batches["b"] != []
  {
    executor := FillChain(ctx, hash, run, transform, record);
    ChainFeeds();
    ok := executor.FlushDownstreamFirst(["b", "a"], 0, 1, 0);
    executor.NeverStops();
  }

  method FillChain(ctx: Context, hash: Value -> string, run: string, transform: Behaviour, record: Record)
    returns (executor: Executor)
    ensures fresh(executor) && executor.Live(None) && executor.nodes == ChainOfBatches()
    ensures "a" in executor.batches && executor.batches["a"] != []
  {
    ChainIsRanked(ctx, hash);
    ChainFeeds();
    executor := new Executor(ChainOfBatches(), ChainRank(), ctx, hash, run, transform, false, _ => true,
                             NOTHING_STORED);
    ghost var before := executor.book;
    var ok := executor.RunSource("s", [Some(record)]);
    executor.NeverStops();
    SourceFills(executor.Fixed(), "a", record, before, executor.book);
  }

  method RunSources(executor: Executor, roots: seq<string>, items: seq<seq<Option<Record>>>) returns (ok: bool)
    requires |items| == |roots| && Distinct(roots) && executor.Live(None)
    requires executor.book.moves == [] && executor.book.handed == map[]
    modifies executor
    ensures executor.Ends(ok) && (!ok ==> executor.errors > 0)
    ensures ok ==> SourcesRan(executor.Fixed(), roots, items, |roots|, executor.Snap())
  {
    for i := 0 to |roots|
      invariant executor.Live(None) && SourcesRan(executor.Fixed(), roots, items, i, executor.Snap())
    {
      ghost var before := executor.Snap();
      assert RankedAt(executor.nodes, executor.rank, roots[i]);
      ok := executor.RunSource(roots[i], items[i]);
      if !ok { return; }
      SourcesRanStep(executor.Fixed(), roots, items, i, before, executor.Snap());
    }
    ok := true;
  }

  method FinishRun(executor: Executor, ghost roots: seq<string>, ghost items: seq<seq<Option<Record>>>,
                   order: seq<string>, sinksFlush: bool)
    returns (ok: bool, ghost trace: seq<Snapshot>)
    requires executor.Live(None) && |items| == |roots|
    requires SourcesRan(executor.Fixed(), roots, items, |roots|, executor.Snap())
    requires forall i :: 0 <= i < |order| ==> order[i] in executor.nodes && IsBatch(executor.nodes[order[i]])
    modifies executor
    ensures executor.Valid() && ok == (!executor.Stopped() && sinksFlush)
    ensures executor.Stopped() ==> executor.errors > 0
    ensures ok ==> SourcesRan(executor.Fixed(), roots, items, |roots|, executor.Snap())
    ensures ok ==> RunFlushed(executor, roots, items, order, trace)
    ensures ok && executor.hasStore ==>
              forall id :: id in executor.nodes && id in executor.states ==>
                EndsSaved(LogOf(executor.book.stateLog, id))
    ensures ok && UpstreamFirst(executor.Routes(), order) && Covers(order, executor.nodes) ==>
              AllEmpty(executor.nodes, executor.batches)
  {
    ghost var before := executor.Snap();
    ok, trace := executor.FlushAll(order, sinksFlush);
    SourcesStayRan(executor.Fixed(), roots, items, order, before, executor.Snap());
    if ok && UpstreamFirst(executor.Routes(), order) && Covers(order, executor.nodes) {
      FlushEmptiesAll(executor.Fixed(), order, trace);
    }
  }
}
