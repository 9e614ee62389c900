/**
 * What a walk may change and what each kind of step does with a record
 * (sohara-runtime/src/walker.rs, control.rs, executor.rs), as relations between
 * snapshots of an executor before and after.
 */
module Walks {
  import opened Json
  import opened Payload
  import opened Eval
  import opened Graph
  import opened Flow
  import opened Routing
  import opened Turns
  import opened Logs
  import opened Ledgers
  import Join
  import Batch
  import StepState

  // ---------- what a walk may change ----------

  /** What a walk from a node may change only below it, and all moves and turns so far. */
  datatype Snapshot = Snapshot(batches: map<string, seq<Record>>, states: map<string, Value>,
                               handed: map<string, seq<Handoff>>, joinOut: map<string, seq<Record>>,
                               batchOut: map<string, seq<seq<Record>>>, joinLog: map<string, seq<Join.Arrival>>,
                               batchLog: map<string, seq<Batch.BatchEvent>>, approvals: map<string, seq<Approval>>,
                               moves: seq<Move>, turns: seq<Turn>)

  function SnapOf(l: Ledger): Snapshot {
    Snapshot(l.batches, l.states, l.handed, l.joinOut, l.batchOut, l.joinLog, l.batchLog, l.approvals, l.moves,
             l.turns)
  }

  /** Everything the two snapshots hold for a node is the same. */
  ghost predicate SameAt(s: Snapshot, t: Snapshot, id: string) {
    && Entry(s.batches, id) == Entry(t.batches, id)
    && Entry(s.states, id) == Entry(t.states, id)
    && LogOf(s.handed, id) == LogOf(t.handed, id)
    && LogOf(s.joinOut, id) == LogOf(t.joinOut, id)
    && LogOf(s.batchOut, id) == LogOf(t.batchOut, id)
    && LogOf(s.joinLog, id) == LogOf(t.joinLog, id)
    && LogOf(s.batchLog, id) == LogOf(t.batchLog, id)
    && LogOf(s.approvals, id) == LogOf(t.approvals, id)
  }

  /** Batch and join nodes have only taken records, none was flushed. */
  ghost predicate GrowsAt(s: Snapshot, t: Snapshot, id: string) {
    && Batch.ArrivalsOnly(LogOf(s.batchLog, id), LogOf(t.batchLog, id))
    && LogOf(s.joinLog, id) <= LogOf(t.joinLog, id)
  }

  /** Moves were added, each by a node. */
  ghost predicate Internal(s: seq<Move>, t: seq<Move>) {
    s <= t && forall i :: |s| <= i < |t| ==> t[i].giver.Some?
  }

  /** Turns were added, each at a node that `from` reaches. */
  ghost predicate TurnsBelow(g: Adjacency, from: string, s: seq<Turn>, t: seq<Turn>) {
    s <= t && forall i :: |s| <= i < |t| ==> Reaches(g, from, t[i].node.id)
  }

  /** Only nodes that `from` reaches differ or had turns; nothing was flushed and no source put anything in. */
  ghost predicate OnlyBelow(g: Adjacency, from: string, s: Snapshot, t: Snapshot) {
    && Internal(s.moves, t.moves) && TurnsBelow(g, from, s.turns, t.turns)
    && (forall n {:trigger SameAt(s, t, n)} :: !Reaches(g, from, n) ==> SameAt(s, t, n))
    && (forall n {:trigger GrowsAt(s, t, n)} :: GrowsAt(s, t, n))
  }

  lemma BelowRefl(g: Adjacency, from: string, s: Snapshot)
    ensures OnlyBelow(g, from, s, s)
  {
  }

  lemma BelowThenBelow(g: Adjacency, from: string, s: Snapshot, t: Snapshot, u: Snapshot)
    requires OnlyBelow(g, from, s, t) && OnlyBelow(g, from, t, u)
    ensures OnlyBelow(g, from, s, u)
  {
    forall n | !Reaches(g, from, n) ensures SameAt(s, u, n) { assert SameAt(s, t, n) && SameAt(t, u, n); }
    forall n ensures GrowsAt(s, u, n) { assert GrowsAt(s, t, n) && GrowsAt(t, u, n); }
  }

  lemma BelowEdge(g: Adjacency, from: string, to: string, s: Snapshot, t: Snapshot)
    requires Edge(g, from, to) && OnlyBelow(g, to, s, t)
    ensures OnlyBelow(g, from, s, t)
  {
    forall n | !Reaches(g, from, n) ensures SameAt(s, t, n) {
      if Reaches(g, to, n) { EdgeThenReaches(g, from, to, n); }
    }
    forall i | |s.turns| <= i < |t.turns| ensures Reaches(g, from, t.turns[i].node.id) {
      EdgeThenReaches(g, from, to, t.turns[i].node.id);
    }
  }

  /** A change at a node itself. */
  lemma BelowOwn(g: Adjacency, from: string, s: Snapshot, t: Snapshot)
    requires Internal(s.moves, t.moves) && TurnsBelow(g, from, s.turns, t.turns) && GrowsAt(s, t, from)
    requires forall n {:trigger SameAt(s, t, n)} :: n != from ==> SameAt(s, t, n)
    ensures OnlyBelow(g, from, s, t)
  {
    ReachesSelf(g, from);
    forall n ensures GrowsAt(s, t, n) {
      if n != from { assert SameAt(s, t, n); }
    }
  }

  /** A node hands a record to one of its targets, which walks it: only what lies below the node has changed. */
  lemma HandedBelow(p: Plan, node: Node, to: string, record: Record, start: Snapshot, l: Ledger, t: Snapshot)
    requires Ranked(p.nodes, p.rank) && node.id in p.nodes && p.nodes[node.id] == node && to in TargetsOf(node.routes)
    requires OnlyBelow(NodeGraph(p.nodes), node.id, start, SnapOf(l)) && Kept(start, SnapOf(l), node.id)
    requires OnlyBelow(NodeGraph(p.nodes), to, SnapOf(Moved(l, node.id, to, record)), t)
    ensures OnlyBelow(NodeGraph(p.nodes), node.id, start, t) && Kept(start, t, node.id)
    ensures LogOf(t.handed, node.id) == LogOf(l.handed, node.id) + [Handoff(to, record)]
  {
    var g, s, here := NodeGraph(p.nodes), SnapOf(l), SnapOf(Moved(l, node.id, to, record));
    MoveBelow(g, l, node.id, to, record);
    assert RankedAt(p.nodes, p.rank, node.id);
    NeverBack(p.nodes, p.rank, node.id, to);
    assert SameAt(here, t, node.id);
    BelowEdge(g, node.id, to, here, t);
    BelowThenBelow(g, node.id, s, here, t);
    BelowThenBelow(g, node.id, start, s, t);
  }

  lemma MoveBelow(g: Adjacency, l: Ledger, giver: string, to: string, record: Record)
    ensures OnlyBelow(g, giver, SnapOf(l), SnapOf(Moved(l, giver, to, record)))
  {
    var s, here := SnapOf(l), SnapOf(Moved(l, giver, to, record));
    forall n | n != giver ensures SameAt(s, here, n) {}
    BelowOwn(g, giver, s, here);
  }

  /** One more attempt, of this record. */
  ghost predicate Attempted(before: seq<Delivery.Attempt>, after: seq<Delivery.Attempt>, run: string, record: Record,
                            hash: Value -> string) {
    |after| == |before| + 1 && after[..|before|] == before && Delivery.Offers(after[|before|], run, record, hash)
  }

  /** What `later` adds to `earlier`. */
  function Added<T>(earlier: seq<T>, later: seq<T>): seq<T> { if |earlier| <= |later| then later[|earlier|..] else [] }

  /** Nothing a node keeps has changed, apart from what it handed on. */
  ghost predicate Kept(s: Snapshot, t: Snapshot, id: string) { SameAt(s, t.(handed := s.handed), id) }

  // ---------- what a node does with a record ----------

  /** What does not change during a run. */
  datatype Setup = Setup(ctx: Context, transform: Behaviour, hasStore: bool)

  /**
   * A node that keeps records has added this one to its log, and no other; a transform's first turn was
   * for it.
   */
  ghost predicate Takes(f: Setup, node: Node, record: Record, s: Snapshot, t: Snapshot) {
    && (IsJoin(node) ==>
          exists a :: ArrivedAs(a, record) && LogOf(t.joinLog, node.id) == LogOf(s.joinLog, node.id) + [a])
    && (IsBatch(node) ==>
          exists e :: LogOf(t.batchLog, node.id) == LogOf(s.batchLog, node.id) + [Batch.Arrive(record, e)])
    && (IsApprove(node) && f.hasStore ==>
          exists b :: LogOf(t.approvals, node.id) == LogOf(s.approvals, node.id) + [Approval(record, b)])
    && (node.step.Transform? ==> s.turns + [Turn(node, record)] <= t.turns)
  }

  /** What a node that takes a record hands on, when nothing below it fails. */
  ghost predicate Handles(f: Setup, node: Node, record: Record, s: Snapshot, t: Snapshot) {
    match node.step
    case Source => Passes(f, node, record, s, t)
    case Sink => LogOf(t.handed, node.id) == LogOf(s.handed, node.id)
    case Transform => Transforms(f, node, record, s, t)
    case Control(control) => Steers(f, node, control, record, s, t)
  }

  ghost predicate Passes(f: Setup, node: Node, record: Record, s: Snapshot, t: Snapshot) {
    Forwards(node.routes, record, f.ctx, LogOf(s.handed, node.id), LogOf(t.handed, node.id))
  }

  ghost predicate PassesAll(f: Setup, node: Node, records: seq<Record>, s: Snapshot, t: Snapshot) {
    ForwardsAll(node.routes, records, f.ctx, LogOf(s.handed, node.id), LogOf(t.handed, node.id))
  }

  /** What the record's turn settles on is forwarded; the turn starts at the call after those of earlier turns. */
  ghost predicate Transforms(f: Setup, node: Node, record: Record, s: Snapshot, t: Snapshot) {
    Yields(f, node, OutcomeOf(f.transform, CallsOf(f.transform, s.turns), Turn(node, record)), s, t)
  }

  /** A record passed on goes along the routes, so do those of an expansion; a filtered or failed one does not. */
  ghost predicate Yields(f: Setup, node: Node, outcome: Outcome, s: Snapshot, t: Snapshot) {
    match outcome
    case Pass(r) => Passes(f, node, r, s, t)
    case Expand(records) => PassesAll(f, node, records, s, t)
    case _ => LogOf(t.handed, node.id) == LogOf(s.handed, node.id)
  }

  ghost predicate Steers(f: Setup, node: Node, control: Control, record: Record, s: Snapshot, t: Snapshot) {
    match control
    case Switch(cases, default) => exists to :: Switches(f, node, control, record, to, s, t)
    case Foreach(_, _, _) => exists m: Moment :: PassesAll(f, node, Children(control, record, At(f.ctx, m)), s, t)
    case Loop(_, _, _) => exists clock: seq<Moment> :: LoopsBy(f, node, control, record, clock, s, t)
    case Parallel(branches) => exists r :: Branched(node, branches, record, r, s, t)
    case Join(_, _) => PassesAll(f, node, Added(LogOf(s.joinOut, node.id), LogOf(t.joinOut, node.id)), s, t)
    case Batch(_, _) =>
      PassesAll(f, node, Batch.BatchRecords(Added(LogOf(s.batchOut, node.id), LogOf(t.batchOut, node.id))), s, t)
    case StateUpdate(updates) => exists clock: seq<Moment> :: Updates(f, node, updates, record, clock, s, t)
    case Delay => Passes(f, node, record, s, t)
    case Approve =>
      if f.hasStore then LogOf(t.handed, node.id) == LogOf(s.handed, node.id) else Passes(f, node, record, s, t)
  }

  ghost predicate Switches(f: Setup, node: Node, control: Control, record: Record, to: string, s: Snapshot, t: Snapshot)
    requires control.Switch?
  {
    && MayChoose(control.cases, control.default, record.payload, f.ctx, to)
    && LogOf(t.handed, node.id) == LogOf(s.handed, node.id) + [Handoff(to, record)]
  }

  /** The rounds of a loop whose condition was evaluated at the moments of `clock`, on the node's own state. */
  ghost predicate LoopsBy(f: Setup, node: Node, control: Control, record: Record, clock: seq<Moment>,
                          s: Snapshot, t: Snapshot)
    requires control.Loop?
  {
    var seen := StepState.Visible(Entry(s.states, node.id), record.payload);
    && |clock| == control.maxIterations && node.step == NodeStep.Control(control)
    && Loops(node, record, f.ctx, Rounds(control.whileExpr, seen, f.ctx, clock),
             LogOf(s.handed, node.id), LogOf(t.handed, node.id))
  }

  ghost predicate Branched(node: Node, branches: seq<string>, record: Record, r: Record, s: Snapshot, t: Snapshot) {
    Correlated(record, r) && LogOf(t.handed, node.id) == LogOf(s.handed, node.id) + ToAll(branches, r)
  }

  /** The state becomes the computed one and the record goes on; a failing expression changes nothing. */
  ghost predicate Updates(f: Setup, node: Node, updates: seq<Update>, record: Record, clock: seq<Moment>,
                          s: Snapshot, t: Snapshot)
  {
    var next := StepState.NewState(updates, Entry(s.states, node.id), f.ctx, StepState.Input(record.payload, clock));
    && Entry(t.states, node.id) == (if next.Some? then next else Entry(s.states, node.id))
    && if next.Some? then Passes(f, node, record, s, t) else LogOf(t.handed, node.id) == LogOf(s.handed, node.id)
  }

  lemma TakesNothing(f: Setup, node: Node, record: Record, s: Snapshot, t: Snapshot)
    requires !Keeping(node, f.hasStore) && !node.step.Transform?
    ensures Takes(f, node, record, s, t)
  {
  }

  /** A transform: the record's turn, then what forwarding its outcome changed below. */
  lemma TransformTaken(g: Adjacency, f: Setup, node: Node, record: Record, s: Snapshot, here: Snapshot, t: Snapshot)
    requires node.step.Transform? && here == s.(turns := s.turns + [Turn(node, record)])
    requires OnlyBelow(g, node.id, here, t)
    ensures OnlyBelow(g, node.id, s, t) && Takes(f, node, record, s, t)
    ensures var outcome := OutcomeOf(f.transform, CallsOf(f.transform, s.turns), Turn(node, record));
            Yields(f, node, outcome, here, t) ==> Handles(f, node, record, s, t)
  {
    ReachesSelf(g, node.id);
    BelowOwn(g, node.id, s, here);
    BelowThenBelow(g, node.id, s, here, t);
  }

  /** A join: the arrival and the merged groups, then what forwarding them changed below. */
  lemma JoinTaken(g: Adjacency, f: Setup, node: Node, record: Record, a: Join.Arrival, merged: seq<Record>,
                  s: Snapshot, here: Snapshot, t: Snapshot)
    requires IsJoin(node) && ArrivedAs(a, record)
    requires here == s.(joinLog := s.joinLog[node.id := LogOf(s.joinLog, node.id) + [a]], joinOut := here.joinOut)
    requires LogOf(here.joinOut, node.id) == LogOf(s.joinOut, node.id) + merged
    requires forall n :: n != node.id ==> LogOf(here.joinOut, n) == LogOf(s.joinOut, n)
    requires OnlyBelow(g, node.id, here, t) && Kept(here, t, node.id)
    ensures OnlyBelow(g, node.id, s, t) && Takes(f, node, record, s, t)
    ensures PassesAll(f, node, merged, here, t) ==> Handles(f, node, record, s, t)
  {
    forall n | n != node.id ensures SameAt(s, here, n) {}
    BelowOwn(g, node.id, s, here);
    BelowThenBelow(g, node.id, s, here, t);
    assert Added(LogOf(s.joinOut, node.id), LogOf(t.joinOut, node.id)) == merged;
  }

  /** The same, of the ledger before the arrival. */
  lemma JoinedTaken(p: Plan, f: Setup, node: Node, a: Join.Arrival, l: Ledger, merged: seq<Record>, t: Snapshot)
    requires node.id in p.nodes && p.nodes[node.id] == node && IsJoin(node) && node.id in l.joins
    requires ArrivedAs(a, a.record)
    requires var here := Joined(p, l, node.id, a);
             && LogOf(here.joinOut, node.id) == LogOf(l.joinOut, node.id) + merged
             && OnlyBelow(NodeGraph(p.nodes), node.id, SnapOf(here), t) && Kept(SnapOf(here), t, node.id)
    ensures OnlyBelow(NodeGraph(p.nodes), node.id, SnapOf(l), t) && Takes(f, node, a.record, SnapOf(l), t)
    ensures PassesAll(f, node, merged, SnapOf(Joined(p, l, node.id, a)), t) ==>
              Handles(f, node, a.record, SnapOf(l), t)
  {
    JoinTaken(NodeGraph(p.nodes), f, node, a.record, a, merged, SnapOf(l), SnapOf(Joined(p, l, node.id, a)), t);
  }

  /** A batch node: the arrival and what it emits, then what forwarding that changed below. */
  lemma BatchBelow(g: Adjacency, node: Node, record: Record, elapsed: bool, l: Ledger, next: Batch.BatchState,
                   t: Snapshot)
    requires OnlyBelow(g, node.id, SnapOf(Rebatched(l, node.id, Batch.Arrive(record, elapsed), next)), t)
    ensures OnlyBelow(g, node.id, SnapOf(l), t)
  {
    var s, here := SnapOf(l), SnapOf(Rebatched(l, node.id, Batch.Arrive(record, elapsed), next));
    forall n | n != node.id ensures SameAt(s, here, n) {}
    BelowOwn(g, node.id, s, here);
    BelowThenBelow(g, node.id, s, here, t);
  }

  lemma BatchTaken(f: Setup, node: Node, record: Record, elapsed: bool, flushed: seq<seq<Record>>,
                   l: Ledger, next: Batch.BatchState, t: Snapshot)
    requires IsBatch(node) && next.emitted == LogOf(l.batchOut, node.id) + flushed
    requires Kept(SnapOf(Rebatched(l, node.id, Batch.Arrive(record, elapsed), next)), t, node.id)
    ensures Takes(f, node, record, SnapOf(l), t)
    ensures PassesAll(f, node, Batch.BatchRecords(flushed), SnapOf(l), t) ==> Handles(f, node, record, SnapOf(l), t)
  {
    assert Added(LogOf(l.batchOut, node.id), LogOf(t.batchOut, node.id)) == flushed;
  }

  lemma ApprovalTaken(g: Adjacency, f: Setup, node: Node, a: Approval, s: Snapshot, t: Snapshot)
    requires IsApprove(node) && f.hasStore
    requires t == s.(approvals := s.approvals[node.id := LogOf(s.approvals, node.id) + [a]])
    ensures OnlyBelow(g, node.id, s, t) && Takes(f, node, a.record, s, t) && Handles(f, node, a.record, s, t)
  {
    forall n | n != node.id ensures SameAt(s, t, n) {}
    BelowOwn(g, node.id, s, t);
  }

  /** A state step: the new state, then what forwarding the record changed below. */
  lemma StateTaken(g: Adjacency, f: Setup, node: Node, record: Record, clock: seq<Moment>, s: Snapshot, here: Snapshot,
                   t: Snapshot)
    requires IsUpdate(node) && here == s.(states := here.states) && OnlyBelow(g, node.id, here, t)
    requires forall n :: n != node.id ==> Entry(here.states, n) == Entry(s.states, n)
    ensures OnlyBelow(g, node.id, s, t) && Takes(f, node, record, s, t)
    ensures
      var next := StepState.NewState(node.step.control.updates, Entry(s.states, node.id), f.ctx,
                                     StepState.Input(record.payload, clock));
      && Entry(here.states, node.id) == (if next.Some? then next else Entry(s.states, node.id))
      && (next.None? ==> t == here)
      && (next.Some? ==> Kept(here, t, node.id) && Passes(f, node, record, here, t))
      ==> Handles(f, node, record, s, t)
  {
    forall n | n != node.id ensures SameAt(s, here, n) {}
    BelowOwn(g, node.id, s, here);
    BelowThenBelow(g, node.id, s, here, t);
    StateDone(f, node, record, clock, s, here, t);
  }

  lemma StateDone(f: Setup, node: Node, record: Record, clock: seq<Moment>, s: Snapshot, here: Snapshot, t: Snapshot)
    requires IsUpdate(node) && here == s.(states := here.states)
    ensures
      var next := StepState.NewState(node.step.control.updates, Entry(s.states, node.id), f.ctx,
                                     StepState.Input(record.payload, clock));
      && Entry(here.states, node.id) == (if next.Some? then next else Entry(s.states, node.id))
      && (next.None? ==> t == here)
      && (next.Some? ==> Kept(here, t, node.id) && Passes(f, node, record, here, t))
      ==> Updates(f, node, node.step.control.updates, record, clock, s, t)
  {
  }

  /** The condition held at the moments `held`, with one round each, and then failed at the first of `rest`. */
  ghost predicate Looping(ctx: Context, node: Node, record: Record, s: Snapshot, t: Snapshot, held: seq<Moment>,
                          rest: seq<Moment>)
    requires node.step.Control? && node.step.control.Loop?
  {
    var seen := StepState.Visible(Entry(s.states, node.id), record.payload);
    && HoldsFor(node.step.control.whileExpr, seen, ctx, held)
    && (rest == [] || !ConditionHolds(Some(node.step.control.whileExpr), seen, At(ctx, rest[0])))
    && Loops(node, record, ctx, |held|, LogOf(s.handed, node.id), LogOf(t.handed, node.id))
  }

  /** A further evaluation of the condition, with a further round if it holds. */
  lemma LoopingStep(ctx: Context, node: Node, record: Record, s: Snapshot, here: Snapshot, t: Snapshot,
                    held: seq<Moment>, m: Moment)
    requires node.step.Control? && node.step.control.Loop? && Looping(ctx, node, record, s, here, held, [])
    requires var seen := StepState.Visible(Entry(s.states, node.id), record.payload);
             if ConditionHolds(Some(node.step.control.whileExpr), seen, At(ctx, m))
             then Loops(node, record, ctx, |held| + 1, LogOf(s.handed, node.id), LogOf(t.handed, node.id))
             else t == here
    ensures var seen := StepState.Visible(Entry(s.states, node.id), record.payload);
            if ConditionHolds(Some(node.step.control.whileExpr), seen, At(ctx, m))
            then Looping(ctx, node, record, s, t, held + [m], [])
            else Looping(ctx, node, record, s, t, held, [m])
  {
  }

  /** The record was handed to the first branches. */
  ghost predicate Branching(node: Node, branches: seq<string>, i: nat, record: Record, s: Snapshot, t: Snapshot)
    requires i <= |branches|
  {
    LogOf(t.handed, node.id) == LogOf(s.handed, node.id) + ToAll(branches[..i], record)
  }

  lemma BranchingStep(node: Node, branches: seq<string>, i: nat, record: Record, s: Snapshot, here: Snapshot,
                      t: Snapshot)
    requires i < |branches| && Branching(node, branches, i, record, s, here)
    requires LogOf(t.handed, node.id) == LogOf(here.handed, node.id) + [Handoff(branches[i], record)]
    ensures Branching(node, branches, i + 1, record, s, t)
  {
    ToAllStep(branches, i, record, LogOf(s.handed, node.id));
  }

  lemma LoopDone(f: Setup, node: Node, record: Record, held: seq<Moment>, rest: seq<Moment>, s: Snapshot, t: Snapshot)
    requires node.step.Control? && node.step.control.Loop? && |held| + |rest| == node.step.control.maxIterations
    requires var seen := StepState.Visible(Entry(s.states, node.id), record.payload);
             && HoldsFor(node.step.control.whileExpr, seen, f.ctx, held)
             && (rest == [] || !ConditionHolds(Some(node.step.control.whileExpr), seen, At(f.ctx, rest[0])))
    requires Loops(node, record, f.ctx, |held|, LogOf(s.handed, node.id), LogOf(t.handed, node.id))
    ensures Handles(f, node, record, s, t)
  {
    var seen := StepState.Visible(Entry(s.states, node.id), record.payload);
    RoundsAre(node.step.control.whileExpr, seen, f.ctx, held, rest);
    assert LoopsBy(f, node, node.step.control, record, held + rest, s, t);
  }

  // ---------- steady steps ----------

  /** Along steady routes a record goes to exactly those whose conditions hold, in order. */
  lemma SteadyPasses(f: Setup, node: Node, record: Record, s: Snapshot, t: Snapshot)
    requires Passes(f, node, record, s, t) && SteadyRoutes(node.routes)
    ensures LogOf(t.handed, node.id) == LogOf(s.handed, node.id) + Selected(node.routes, record, f.ctx)
  {
    var before, after := LogOf(s.handed, node.id), LogOf(t.handed, node.id);
    SteadySelects(node.routes, record, f.ctx, after[|before|..]);
    assert after == before + after[|before|..];
  }

  /** A switch on steady cases chooses the first that holds, else the default. */
  lemma SteadySwitch(f: Setup, node: Node, record: Record, s: Snapshot, t: Snapshot)
    requires node.step.Control? && node.step.control.Switch? && Handles(f, node, record, s, t)
    requires forall i :: 0 <= i < |node.step.control.cases| ==> Steady(node.step.control.cases[i].when)
    ensures var c := node.step.control;
            LogOf(t.handed, node.id) ==
              LogOf(s.handed, node.id) + [Handoff(Chosen(c.cases, c.default, record.payload, f.ctx), record)]
  {
    var c := node.step.control;
    var to :| Switches(f, node, c, record, to, s, t);
    SteadyChooses(c.cases, c.default, record.payload, f.ctx, to);
  }

  /**
   * A loop whose condition is steady runs to its limit if the condition holds on
   * the node's state as it was, and not at all otherwise: nothing below the node
   * changes that state.
   */
  lemma SteadyLoop(f: Setup, node: Node, record: Record, s: Snapshot, t: Snapshot)
    requires node.step.Control? && node.step.control.Loop? && Steady(node.step.control.whileExpr)
    requires Handles(f, node, record, s, t)
    ensures var c := node.step.control;
            var seen := StepState.Visible(Entry(s.states, node.id), record.payload);
            Loops(node, record, f.ctx, if ConditionHolds(Some(c.whileExpr), seen, f.ctx) then c.maxIterations else 0,
                  LogOf(s.handed, node.id), LogOf(t.handed, node.id))
  {
    var c := node.step.control;
    var clock :| LoopsBy(f, node, c, record, clock, s, t);
    SteadyRounds(c.whileExpr, StepState.Visible(Entry(s.states, node.id), record.payload), f.ctx, clock);
  }

  // ---------- what single steps hand on ----------

  /** Several records along steady routes: for one after the other those whose conditions hold. */
  lemma SteadyPassesAll(f: Setup, node: Node, records: seq<Record>, s: Snapshot, t: Snapshot)
    requires PassesAll(f, node, records, s, t) && SteadyRoutes(node.routes)
    ensures LogOf(t.handed, node.id) == LogOf(s.handed, node.id) + SelectedAll(node.routes, records, f.ctx)
  {
    var before, after := LogOf(s.handed, node.id), LogOf(t.handed, node.id);
    SteadySelectsAll(node.routes, records, f.ctx, after[|before|..]);
    assert after == before + after[|before|..];
  }

  /** A transform on steady routes: what it passed on goes to those whose conditions hold, anything else nowhere. */
  lemma SteadyTransform(f: Setup, node: Node, record: Record, s: Snapshot, t: Snapshot)
    requires node.step.Transform? && Handles(f, node, record, s, t) && SteadyRoutes(node.routes)
    ensures var before, after := LogOf(s.handed, node.id), LogOf(t.handed, node.id);
            match OutcomeOf(f.transform, CallsOf(f.transform, s.turns), Turn(node, record))
            case Pass(r) => after == before + Selected(node.routes, r, f.ctx)
            case Expand(records) => after == before + SelectedAll(node.routes, records, f.ctx)
            case _ => after == before
  {
    match OutcomeOf(f.transform, CallsOf(f.transform, s.turns), Turn(node, record))
    case Pass(r) => SteadyPasses(f, node, r, s, t);
    case Expand(records) => SteadyPassesAll(f, node, records, s, t);
    case _ =>
  }

  /** A parallel step hands every branch the record, in order and under one correlation: its own if it has one. */
  lemma ParallelHands(f: Setup, node: Node, record: Record, s: Snapshot, t: Snapshot)
    requires node.step.Control? && node.step.control.Parallel? && Handles(f, node, record, s, t)
    ensures var before, after := LogOf(s.handed, node.id), LogOf(t.handed, node.id);
            var branches := node.step.control.branches;
            && before <= after && |after| == |before| + |branches|
            && forall i :: 0 <= i < |branches| ==>
                 var h := after[|before| + i];
                 && h.to == branches[i] && h.record == after[|before|].record && h.record.payload == record.payload
                 && "correlation" in h.record.metadata
                 && ("correlation" in record.metadata ==> h.record == record)
  {
    var r :| Branched(node, node.step.control.branches, record, r, s, t);
    forall i | 0 <= i < |node.step.control.branches| {
      ToAllIs(node.step.control.branches, r, i);
    }
  }

  /** A batch step on steady routes sends each batch that became due as one record to those whose conditions hold. */
  lemma SteadyBatch(f: Setup, node: Node, record: Record, s: Snapshot, t: Snapshot)
    requires IsBatch(node) && Handles(f, node, record, s, t) && SteadyRoutes(node.routes)
    requires LogOf(s.batchOut, node.id) <= LogOf(t.batchOut, node.id)
    ensures var due := LogOf(t.batchOut, node.id)[|LogOf(s.batchOut, node.id)|..];
            LogOf(t.handed, node.id) ==
              LogOf(s.handed, node.id) + SelectedAll(node.routes, Batch.BatchRecords(due), f.ctx)
  {
    var due := LogOf(t.batchOut, node.id)[|LogOf(s.batchOut, node.id)|..];
    SteadyPassesAll(f, node, Batch.BatchRecords(due), s, t);
  }

  /** A join on steady routes sends each merged record to those whose conditions hold. */
  lemma SteadyJoin(f: Setup, node: Node, record: Record, s: Snapshot, t: Snapshot)
    requires IsJoin(node) && Handles(f, node, record, s, t) && SteadyRoutes(node.routes)
    requires LogOf(s.joinOut, node.id) <= LogOf(t.joinOut, node.id)
    ensures var due := LogOf(t.joinOut, node.id)[|LogOf(s.joinOut, node.id)|..];
            LogOf(t.handed, node.id) == LogOf(s.handed, node.id) + SelectedAll(node.routes, due, f.ctx)
  {
    SteadyPassesAll(f, node, LogOf(t.joinOut, node.id)[|LogOf(s.joinOut, node.id)|..], s, t);
  }

  /** A state step on steady updates and routes: the new state and the record go on, or neither. */
  lemma SteadyUpdate(f: Setup, node: Node, record: Record, s: Snapshot, t: Snapshot)
    requires IsUpdate(node) && Handles(f, node, record, s, t)
    requires SteadyRoutes(node.routes) && StepState.SteadyUpdates(node.step.control.updates)
    ensures var before, memory := LogOf(s.handed, node.id), Entry(s.states, node.id);
            var next := StepState.NewState(node.step.control.updates, memory, f.ctx,
                                           StepState.Input(record.payload, []));
            if next.Some?
            then
              && Entry(t.states, node.id) == next
              && LogOf(t.handed, node.id) == before + Selected(node.routes, record, f.ctx)
            else Entry(t.states, node.id) == memory && LogOf(t.handed, node.id) == before
  {
    var updates, memory := node.step.control.updates, Entry(s.states, node.id);
    var clock :| Updates(f, node, updates, record, clock, s, t);
    StepState.SteadyNewState(updates, StepState.Visible(memory, record.payload), StepState.Current(memory), f.ctx,
                             clock);
    if StepState.NewState(updates, memory, f.ctx, StepState.Input(record.payload, [])).Some? {
      SteadyPasses(f, node, record, s, t);
    }
  }
}
