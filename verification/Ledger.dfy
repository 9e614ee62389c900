/**
 * Everything an executor holds and has recorded, as one value, with what must
 * hold of it, and how each elementary step changes it and keeps it sound.
 */
module Ledgers {
  import opened Json
  import opened Payload
  import opened Eval
  import opened Graph
  import opened Flow
  import opened Routing
  import opened Turns
  import opened Logs
  import Join
  import Batch
  import Delivery
  import StepState

  /** What earlier runs left in the store, with the histories that explain it. */
  datatype Store = Store(marked: set<Delivery.Key>, saved: map<string, Value>, parked: map<string, seq<Value>>,
                         attempts: seq<Delivery.Attempt>, stateLog: map<string, seq<StepState.StateEvent>>)

  /** The histories explain the store. */
  ghost predicate Startable(nodes: map<string, Node>, ctx: Context, hash: Value -> string, store: Store) {
    && Delivery.Run(store.attempts).marked == store.marked && Delivery.Keyed(store.attempts, hash)
    && StoreExplained(nodes, ctx, store.saved, store.stateLog)
  }

  /** What is fixed during a run: the flow, what answers its transforms, and what earlier runs left behind. */
  datatype Plan = Plan(nodes: map<string, Node>, rank: map<string, nat>, ctx: Context, hash: Value -> string,
                       run: string, transform: Behaviour, hasStore: bool, loads: string -> bool, store: Store)

  /** The state logs with which the run begins. */
  ghost function Begun(p: Plan): map<string, seq<StepState.StateEvent>> {
    Resumed(p.nodes, p.store.stateLog, p.loads)
  }

  /** Buffers, states and the store, and the history of the run. */
  datatype Ledger = Ledger(
    joins: map<string, map<string, seq<Record>>>, batches: map<string, seq<Record>>, armed: map<string, bool>,
    states: map<string, Value>, marked: set<Delivery.Key>, saved: map<string, Value>, parked: map<string, seq<Value>>,
    joinLog: map<string, seq<Join.Arrival>>, joinOut: map<string, seq<Record>>,
    batchLog: map<string, seq<Batch.BatchEvent>>, batchOut: map<string, seq<seq<Record>>>,
    stateLog: map<string, seq<StepState.StateEvent>>, approvals: map<string, seq<Approval>>,
    attempts: seq<Delivery.Attempt>, sent: seq<Delivery.Key>,
    handed: map<string, seq<Handoff>>, moves: seq<Move>, landings: seq<Landing>, turns: seq<Turn>)

  /** Buffers, states and markers are what their logs make them. */
  ghost predicate Explained(p: Plan, l: Ledger) {
    && JoinsOk(p.nodes, l.joins, l.joinLog, l.joinOut)
    && BatchesOk(p.nodes, l.batches, l.armed, l.batchLog, l.batchOut)
    && StatesOk(p.nodes, p.ctx, l.states, l.saved, l.stateLog)
    && Delivery.Run(l.attempts) == Delivery.Deliveries(l.marked, l.sent)
    && ParkedOk(p.store.parked, l.parked, l.approvals)
  }

  /** What was handed on is among the moves, and the logs hold exactly what was let in. */
  ghost predicate Tracked(p: Plan, l: Ledger) {
    && HandedOk(l.handed, l.moves) && Along(p.nodes, l.moves)
    && LandingsOk(p.nodes, p.ctx, l.landings)
    && Fed(p.nodes, p.hasStore, l.joinLog, l.batchLog, l.approvals, l.landings)
    && StatesFed(p.nodes, Begun(p), l.stateLog, l.landings)
    && Attempting(l.attempts, p.store.attempts, p.run, p.hash, SinkRecords(p.nodes, l.landings))
    && Turning(p, l)
  }

  /** One turn for each record a transform admitted, and none after a failure that stops the run. */
  ghost predicate Turning(p: Plan, l: Ledger) {
    l.turns == TurnsAt(p.nodes, l.landings) && OnlyLastStops(p.transform, l.turns)
  }

  /** Targets rank lower than their node, and the histories of earlier runs explain the store. */
  ghost predicate Grounded(p: Plan) { Ranked(p.nodes, p.rank) && Startable(p.nodes, p.ctx, p.hash, p.store) }

  /** What a sound ledger consists of. */
  datatype Part = Explanation | Tracking | Arrival

  ghost predicate Holds(p: Plan, l: Ledger, due: Option<Handoff>, part: Part) {
    match part
    case Explanation => Explained(p, l)
    case Tracking => Tracked(p, l)
    case Arrival => Lands(l.moves, l.landings, due)
  }

  /** All of it: in particular every move has landed, except one that may be due. */
  ghost predicate Sound(p: Plan, l: Ledger, due: Option<Handoff>) {
    Grounded(p) && forall part :: Holds(p, l, due, part)
  }

  lemma SoundParts(p: Plan, l: Ledger, due: Option<Handoff>)
    ensures Sound(p, l, due) <==>
              Grounded(p) && Explained(p, l) && Tracked(p, l) && Lands(l.moves, l.landings, due)
  {
    assert Holds(p, l, due, Explanation) <==> Explained(p, l);
    assert Holds(p, l, due, Tracking) <==> Tracked(p, l);
    assert Holds(p, l, due, Arrival) <==> Lands(l.moves, l.landings, due);
  }

  /** The record that is due was let in at the node. */
  ghost predicate LetIn(p: Plan, id: string, record: Record) {
    id in p.nodes && May(p.nodes[id].when, record.payload, p.ctx, true)
  }

  // ---------- moving and landing ----------

  function Moved(l: Ledger, giver: string, to: string, record: Record): Ledger {
    l.(handed := l.handed[giver := LogOf(l.handed, giver) + [Handoff(to, record)]],
       moves := l.moves + [Move(Some(giver), to, record)])
  }

  lemma MovedSound(p: Plan, l: Ledger, giver: string, to: string, record: Record)
    requires Sound(p, l, None) && Edge(NodeGraph(p.nodes), giver, to)
    ensures Sound(p, Moved(l, giver, to, record), Some(Handoff(to, record)))
  {
    SoundParts(p, l, None);
    HandedOkMove(l.handed, l.moves, giver, to, record);
    LandsMove(l.moves, l.landings, Move(Some(giver), to, record));
    AlongSnoc(p.nodes, l.moves, Move(Some(giver), to, record));
    SoundParts(p, Moved(l, giver, to, record), Some(Handoff(to, record)));
  }

  function Injected(l: Ledger, to: string, record: Record): Ledger {
    l.(moves := l.moves + [Move(None, to, record)])
  }

  lemma InjectedSound(p: Plan, l: Ledger, to: string, record: Record)
    requires Sound(p, l, None)
    ensures Sound(p, Injected(l, to, record), Some(Handoff(to, record)))
  {
    SoundParts(p, l, None);
    HandedOkInjection(l.handed, l.moves, to, record);
    LandsMove(l.moves, l.landings, Move(None, to, record));
    SoundParts(p, Injected(l, to, record), Some(Handoff(to, record)));
  }

  function Landed(l: Ledger, id: string, record: Record, admitted: bool): Ledger {
    l.(landings := l.landings + [Landing(id, record, admitted)])
  }

  /** The node keeps no log of what it admits. */
  predicate Logless(node: Node, hasStore: bool) {
    !Keeping(node, hasStore) && !IsUpdate(node) && !node.step.Sink? && !node.step.Transform?
  }

  lemma LandedSound(p: Plan, l: Ledger, id: string, record: Record, admitted: bool)
    requires Sound(p, l, Some(Handoff(id, record)))
    requires id in p.nodes ==> May(p.nodes[id].when, record.payload, p.ctx, admitted)
    requires id in p.nodes && admitted ==> Logless(p.nodes[id], p.hasStore)
    ensures Sound(p, Landed(l, id, record, admitted), None)
  {
    SoundParts(p, l, Some(Handoff(id, record)));
    var landing := Landing(id, record, admitted);
    LandsDue(p, l, landing);
    FedOther(p.nodes, p.hasStore, l.joinLog, l.batchLog, l.approvals, l.landings, landing);
    StatesFedOther(p.nodes, Begun(p), l.stateLog, l.landings, landing);
    CountedOther(p, l, landing);
    SoundParts(p, Landed(l, id, record, admitted), None);
  }

  lemma LandsDue(p: Plan, l: Ledger, landing: Landing)
    requires Lands(l.moves, l.landings, Some(Handoff(landing.at, landing.record)))
    requires LandingsOk(p.nodes, p.ctx, l.landings) && LandingOk(p.nodes, p.ctx, landing)
    ensures Lands(l.moves, l.landings + [landing], None) && LandingsOk(p.nodes, p.ctx, l.landings + [landing])
  {
    LandsNow(l.moves, l.landings, Handoff(landing.at, landing.record), landing.admitted);
    LandingsOkSnoc(p.nodes, p.ctx, l.landings, landing);
  }

  /** A landing that is neither at a sink nor at a transform. */
  lemma CountedOther(p: Plan, l: Ledger, landing: Landing)
    requires landing.at in p.nodes && landing.admitted ==>
               !p.nodes[landing.at].step.Sink? && !p.nodes[landing.at].step.Transform?
    ensures var after := l.landings + [landing];
            && SinkRecords(p.nodes, after) == SinkRecords(p.nodes, l.landings)
            && TurnsAt(p.nodes, after) == TurnsAt(p.nodes, l.landings)
  {
    SinkRecordsSnoc(p.nodes, l.landings, landing);
    TurnsAtSnoc(p.nodes, l.landings, landing);
  }

  // ---------- keeping ----------

  /** A landing at a node that keeps records: what that means for everything but its own log. */
  lemma KeptElsewhere(p: Plan, l: Ledger, landing: Landing)
    requires Tracked(p, l) && Lands(l.moves, l.landings, Some(Handoff(landing.at, landing.record)))
    requires LetIn(p, landing.at, landing.record) && landing.admitted
    requires IsJoin(p.nodes[landing.at]) || IsBatch(p.nodes[landing.at]) || IsApprove(p.nodes[landing.at])
    ensures var after := l.(landings := l.landings + [landing]);
            && Lands(l.moves, after.landings, None) && LandingsOk(p.nodes, p.ctx, after.landings)
            && StatesFed(p.nodes, Begun(p), l.stateLog, after.landings)
            && SinkRecords(p.nodes, after.landings) == SinkRecords(p.nodes, l.landings)
            && Turning(p, after)
  {
    LandsDue(p, l, landing);
    StatesFedOther(p.nodes, Begun(p), l.stateLog, l.landings, landing);
    CountedOther(p, l, landing);
  }

  /** A landing at a node that keeps no records and no state. */
  lemma FedElsewhere(p: Plan, l: Ledger, landing: Landing)
    requires Tracked(p, l)
    requires landing.at in p.nodes ==>
               !Keeping(p.nodes[landing.at], p.hasStore) && !IsUpdate(p.nodes[landing.at])
    ensures var after := l.landings + [landing];
            && Fed(p.nodes, p.hasStore, l.joinLog, l.batchLog, l.approvals, after)
            && StatesFed(p.nodes, Begun(p), l.stateLog, after)
  {
    FedOther(p.nodes, p.hasStore, l.joinLog, l.batchLog, l.approvals, l.landings, landing);
    StatesFedOther(p.nodes, Begun(p), l.stateLog, l.landings, landing);
  }

  /** A join pushes the arrival and takes the group when it is ready. */
  function Joined(p: Plan, l: Ledger, id: string, a: Join.Arrival): Ledger
    requires id in p.nodes && IsJoin(p.nodes[id]) && id in l.joins
  {
    var open := Join.OpenGroup(l.joins[id], a.correlation) + [a.record];
    var full := |open| >= ThresholdOf(p.nodes[id]);
    l.(joins := l.joins[id := l.joins[id][a.correlation := if full then [] else open]],
       joinLog := l.joinLog[id := LogOf(l.joinLog, id) + [a]],
       joinOut := if full then l.joinOut[id := LogOf(l.joinOut, id) + [Join.Merge(open)]] else l.joinOut,
       landings := l.landings + [Landing(id, a.record, true)])
  }

  lemma JoinedSound(p: Plan, l: Ledger, id: string, a: Join.Arrival)
    requires Sound(p, l, Some(Handoff(id, a.record))) && LetIn(p, id, a.record) && IsJoin(p.nodes[id])
    requires ArrivedAs(a, a.record)
    ensures id in l.joins && Sound(p, Joined(p, l, id, a), None)
  {
    SoundParts(p, l, Some(Handoff(id, a.record)));
    assert JoinOkAt(p.nodes, l.joins, l.joinLog, l.joinOut, id);
    JoinsOkArrival(p.nodes, l.joins, l.joinLog, l.joinOut, id, a);
    KeptElsewhere(p, l, Landing(id, a.record, true));
    FedJoin(p.nodes, p.hasStore, l.joinLog, l.batchLog, l.approvals, l.landings, id, a);
    SoundParts(p, Joined(p, l, id, a), None);
  }

  lemma SoundBatch(p: Plan, l: Ledger, due: Option<Handoff>, id: string)
    requires Sound(p, l, due) && id in p.nodes && IsBatch(p.nodes[id])
    ensures BatchOkAt(p.nodes, l.batches, l.armed, l.batchLog, l.batchOut, id)
    ensures p.nodes[id].id == id && id in l.batches && id in l.armed
  {
    SoundParts(p, l, due);
    assert RankedAt(p.nodes, p.rank, id);
  }

  /** A batch node's new buffer, clock and batches. */
  function Rebatched(l: Ledger, id: string, ev: Batch.BatchEvent, next: Batch.BatchState): Ledger {
    l.(batches := l.batches[id := next.buffer], armed := l.armed[id := next.armed],
       batchLog := l.batchLog[id := LogOf(l.batchLog, id) + [ev]], batchOut := l.batchOut[id := next.emitted])
  }

  /** The event makes of the node's batch state what `next` says. */
  ghost predicate BatchSteps(p: Plan, l: Ledger, id: string, ev: Batch.BatchEvent, next: Batch.BatchState) {
    && id in p.nodes && IsBatch(p.nodes[id]) && id in l.batches && id in l.armed
    && next == Batch.Step(Batch.BatchState(l.batches[id], l.armed[id], LogOf(l.batchOut, id)),
                          p.nodes[id].step.control.size, p.nodes[id].step.control.windowed, ev)
  }

  lemma BatchedSound(p: Plan, l: Ledger, id: string, record: Record, elapsed: bool, next: Batch.BatchState)
    requires Sound(p, l, Some(Handoff(id, record))) && LetIn(p, id, record)
    requires BatchSteps(p, l, id, Batch.Arrive(record, elapsed), next)
    ensures Sound(p, Landed(Rebatched(l, id, Batch.Arrive(record, elapsed), next), id, record, true), None)
  {
    SoundParts(p, l, Some(Handoff(id, record)));
    assert BatchOkAt(p.nodes, l.batches, l.armed, l.batchLog, l.batchOut, id);
    BatchesOkEvent(p.nodes, l.batches, l.armed, l.batchLog, l.batchOut, id, Batch.Arrive(record, elapsed), next);
    KeptElsewhere(p, l, Landing(id, record, true));
    FedBatch(p.nodes, p.hasStore, l.joinLog, l.batchLog, l.approvals, l.landings, id, record, elapsed);
    SoundParts(p, Landed(Rebatched(l, id, Batch.Arrive(record, elapsed), next), id, record, true), None);
  }

  lemma FlushedSound(p: Plan, l: Ledger, id: string, next: Batch.BatchState)
    requires Sound(p, l, None) && BatchSteps(p, l, id, Batch.Flush, next)
    ensures Sound(p, Rebatched(l, id, Batch.Flush, next), None)
  {
    SoundParts(p, l, None);
    assert BatchOkAt(p.nodes, l.batches, l.armed, l.batchLog, l.batchOut, id);
    BatchesOkEvent(p.nodes, l.batches, l.armed, l.batchLog, l.batchOut, id, Batch.Flush, next);
    FedFlush(p.nodes, p.hasStore, l.joinLog, l.batchLog, l.approvals, l.landings, id);
    SoundParts(p, Rebatched(l, id, Batch.Flush, next), None);
  }

  function Filed(l: Ledger, id: string, a: Approval): Ledger {
    l.(parked := if a.stored then l.parked[id := LogOf(l.parked, id) + [a.record.payload]] else l.parked,
       approvals := l.approvals[id := LogOf(l.approvals, id) + [a]],
       landings := l.landings + [Landing(id, a.record, true)])
  }

  lemma FiledSound(p: Plan, l: Ledger, id: string, a: Approval)
    requires Sound(p, l, Some(Handoff(id, a.record))) && LetIn(p, id, a.record) && IsApprove(p.nodes[id])
    ensures Sound(p, Filed(l, id, a), None)
  {
    SoundParts(p, l, Some(Handoff(id, a.record)));
    FiledTracked(p, l, id, a);
    ParkedOkApproval(p.store.parked, l.parked, l.approvals, id, a);
    SoundParts(p, Filed(l, id, a), None);
  }

  lemma FiledTracked(p: Plan, l: Ledger, id: string, a: Approval)
    requires Tracked(p, l) && Lands(l.moves, l.landings, Some(Handoff(id, a.record)))
    requires LetIn(p, id, a.record) && IsApprove(p.nodes[id])
    ensures Tracked(p, Filed(l, id, a)) && Lands(l.moves, Filed(l, id, a).landings, None)
  {
    KeptElsewhere(p, l, Landing(id, a.record, true));
    FedApproval(p.nodes, p.hasStore, l.joinLog, l.batchLog, l.approvals, l.landings, id, a);
  }

  /** A delivery attempt: the marker suppresses it, or the sink sends it or not, and a marker is saved or not. */
  function Tried(l: Ledger, id: string, record: Record, a: Delivery.Attempt): Ledger {
    var next := Delivery.Step(Delivery.Deliveries(l.marked, l.sent), a);
    l.(attempts := l.attempts + [a], marked := next.marked, sent := next.sent,
       landings := l.landings + [Landing(id, record, true)])
  }

  lemma TriedSound(p: Plan, l: Ledger, id: string, record: Record, a: Delivery.Attempt)
    requires Sound(p, l, Some(Handoff(id, record))) && LetIn(p, id, record) && p.nodes[id].step.Sink?
    requires Delivery.Offers(a, p.run, record, p.hash)
    ensures Sound(p, Tried(l, id, record, a), None)
  {
    SoundParts(p, l, Some(Handoff(id, record)));
    assert (l.attempts + [a])[..|l.attempts|] == l.attempts;
    TriedTracked(p, l, id, record, a);
    SoundParts(p, Tried(l, id, record, a), None);
  }

  lemma TriedTracked(p: Plan, l: Ledger, id: string, record: Record, a: Delivery.Attempt)
    requires Tracked(p, l) && Lands(l.moves, l.landings, Some(Handoff(id, record)))
    requires LetIn(p, id, record) && p.nodes[id].step.Sink? && Delivery.Offers(a, p.run, record, p.hash)
    ensures Tracked(p, Tried(l, id, record, a)) && Lands(l.moves, Tried(l, id, record, a).landings, None)
  {
    var landing := Landing(id, record, true);
    LandsDue(p, l, landing);
    FedElsewhere(p, l, landing);
    SinkRecordsSnoc(p.nodes, l.landings, landing);
    AttemptingSnoc(l.attempts, p.store.attempts, p.run, p.hash, SinkRecords(p.nodes, l.landings), record, a);
    TurnsAtSnoc(p.nodes, l.landings, landing);
  }

  lemma SoundAttempts(p: Plan, l: Ledger, due: Option<Handoff>)
    requires Sound(p, l, due)
    ensures Delivery.Keyed(l.attempts, p.hash) && Delivery.Run(l.attempts).marked == l.marked
  {
    SoundParts(p, l, due);
    AttemptingKeyed(l.attempts, p.store.attempts, p.run, p.hash, SinkRecords(p.nodes, l.landings));
  }

  // ---------- transforms ----------

  /** A transform was run on the record until it settled. */
  function TurnTaken(l: Ledger, node: Node, record: Record): Ledger {
    l.(turns := l.turns + [Turn(node, record)], landings := l.landings + [Landing(node.id, record, true)])
  }

  lemma TurnSound(p: Plan, l: Ledger, node: Node, record: Record)
    requires Sound(p, l, Some(Handoff(node.id, record))) && LetIn(p, node.id, record)
    requires p.nodes[node.id] == node && node.step.Transform? && !Halted(p.transform, l.turns)
    ensures Sound(p, TurnTaken(l, node, record), None)
    ensures var turn, call := Turn(node, record), CallsOf(p.transform, l.turns);
            var outcome, after := OutcomeOf(p.transform, call, turn), TurnTaken(l, node, record).turns;
            && CallsOf(p.transform, after) == call + TriesOf(p.transform, call, turn)
            && (Halted(p.transform, after) <==> Stops(node, outcome))
            && FilteredOf(p.transform, after) == FilteredOf(p.transform, l.turns) + if outcome.Filtered? then 1 else 0
  {
    SoundParts(p, l, Some(Handoff(node.id, record)));
    TurnTracked(p, l, node, record);
    NextTurn(p.transform, l.turns, Turn(node, record));
    SoundParts(p, TurnTaken(l, node, record), None);
  }

  lemma TurnTracked(p: Plan, l: Ledger, node: Node, record: Record)
    requires Tracked(p, l) && Lands(l.moves, l.landings, Some(Handoff(node.id, record)))
    requires LetIn(p, node.id, record)
    requires p.nodes[node.id] == node && node.step.Transform? && !Halted(p.transform, l.turns)
    ensures Tracked(p, TurnTaken(l, node, record)) && Lands(l.moves, TurnTaken(l, node, record).landings, None)
  {
    var landing := Landing(node.id, record, true);
    LandsDue(p, l, landing);
    FedElsewhere(p, l, landing);
    SinkRecordsSnoc(p.nodes, l.landings, landing);
    TurnsAtSnoc(p.nodes, l.landings, landing);
    NextTurn(p.transform, l.turns, Turn(node, record));
  }

  // ---------- states ----------

  /** A node's state after a checkpoint. */
  function Restated(l: Ledger, id: string, ev: StepState.StateEvent, states: map<string, Value>,
                    saved: map<string, Value>)
    : Ledger
  {
    l.(states := states, saved := saved, stateLog := l.stateLog[id := LogOf(l.stateLog, id) + [ev]])
  }

  /** The event makes these of the node's state and of its entry in the store. */
  ghost predicate StateSteps(p: Plan, l: Ledger, id: string, ev: StepState.StateEvent, states: map<string, Value>,
                             saved: map<string, Value>)
  {
    && id in p.nodes
    && StepState.Step(StepState.Cell(Entry(l.states, id), Entry(l.saved, id)), p.nodes[id].state,
                      UpdatesOf(p.nodes[id].step), p.ctx, ev)
       == StepState.Cell(Entry(states, id), Entry(saved, id))
    && (forall n :: n != id ==> Entry(states, n) == Entry(l.states, n) && Entry(saved, n) == Entry(l.saved, n))
  }

  /** An arrival changes the node's state, and its entry if it is saved, when every update has a value. */
  lemma ArrivalSteps(p: Plan, l: Ledger, id: string, arrival: StepState.Input, saves: bool, next: Option<Value>)
    requires id in p.nodes
    requires next == StepState.NewState(UpdatesOf(p.nodes[id].step), Entry(l.states, id), p.ctx, arrival)
    ensures StateSteps(p, l, id, StepState.Arrives(arrival, saves),
                       if next.Some? then l.states[id := next.value] else l.states,
                       if next.Some? && saves then l.saved[id := next.value] else l.saved)
  {
  }

  lemma StateStepOk(p: Plan, l: Ledger, id: string, ev: StepState.StateEvent, states: map<string, Value>,
                    saved: map<string, Value>)
    requires StatesOk(p.nodes, p.ctx, l.states, l.saved, l.stateLog) && StateSteps(p, l, id, ev, states, saved)
    ensures StatesOk(p.nodes, p.ctx, states, saved, l.stateLog[id := LogOf(l.stateLog, id) + [ev]])
  {
    assert StateOkAt(p.nodes, p.ctx, l.states, l.saved, l.stateLog, id);
    StatesOkEvent(p.nodes, p.ctx, l.states, l.saved, l.stateLog, id, ev, states, saved);
  }

  lemma CheckpointSound(p: Plan, l: Ledger, id: string, ev: StepState.StateEvent, states: map<string, Value>,
                        saved: map<string, Value>)
    requires Sound(p, l, None) && ev.Checkpoint? && StateSteps(p, l, id, ev, states, saved)
    ensures Sound(p, Restated(l, id, ev, states, saved), None)
  {
    SoundParts(p, l, None);
    StateStepOk(p, l, id, ev, states, saved);
    StatesFedCheckpoint(p.nodes, Begun(p), l.stateLog, l.landings, id, ev);
    SoundParts(p, Restated(l, id, ev, states, saved), None);
  }

  /** A state step takes the record: it arrives, and the node's state becomes what that makes it. */
  lemma UpdatedSound(p: Plan, l: Ledger, id: string, record: Record, ev: StepState.StateEvent,
                     states: map<string, Value>, saved: map<string, Value>)
    requires Sound(p, l, Some(Handoff(id, record))) && LetIn(p, id, record) && IsUpdate(p.nodes[id])
    requires ev.Arrives? && ev.arrival.payload == record.payload && StateSteps(p, l, id, ev, states, saved)
    ensures Sound(p, Landed(Restated(l, id, ev, states, saved), id, record, true), None)
  {
    SoundParts(p, l, Some(Handoff(id, record)));
    var landing := Landing(id, record, true);
    StateStepOk(p, l, id, ev, states, saved);
    LandsDue(p, l, landing);
    FedOther(p.nodes, p.hasStore, l.joinLog, l.batchLog, l.approvals, l.landings, landing);
    StatesFedArrival(p.nodes, Begun(p), l.stateLog, l.landings, id, record, ev);
    CountedOther(p, l, landing);
    SoundParts(p, Landed(Restated(l, id, ev, states, saved), id, record, true), None);
  }

  // ---------- the start of a run ----------

  function Opened(nodes: map<string, Node>, loads: string -> bool, store: Store): Ledger {
    Ledger(NoGroups(nodes), NoBatches(nodes), NoClocks(nodes), InitialStates(nodes, store.saved, loads),
           store.marked, store.saved, store.parked, NoLogs(nodes), NoLogs(nodes), NoLogs(nodes), NoLogs(nodes),
           Resumed(nodes, store.stateLog, loads), map[],
           store.attempts, Delivery.Run(store.attempts).sent, map[], [], [], [])
  }

  lemma OpenedSound(p: Plan)
    requires Grounded(p)
    ensures Sound(p, Opened(p.nodes, p.loads, p.store), None)
  {
    StartOk(p.nodes, p.ctx, p.loads, p.store.saved, p.store.stateLog);
    StartBuffersOk(p.nodes);
    StartTrafficOk(p.nodes, p.ctx, p.hasStore, p.store.parked);
    OpenedTracked(p);
    SoundParts(p, Opened(p.nodes, p.loads, p.store), None);
  }

  lemma OpenedTracked(p: Plan)
    ensures Tracked(p, Opened(p.nodes, p.loads, p.store))
  {
    StartTrafficOk(p.nodes, p.ctx, p.hasStore, p.store.parked);
    StartStatesFed(p.nodes, Begun(p));
  }

  /** Whatever a run leaves behind, the next one can start on. */
  lemma LeavesStartable(p: Plan, l: Ledger, due: Option<Handoff>)
    requires Sound(p, l, due)
    ensures Startable(p.nodes, p.ctx, p.hash, Store(l.marked, l.saved, l.parked, l.attempts, l.stateLog))
  {
    SoundParts(p, l, due);
    AttemptingKeyed(l.attempts, p.store.attempts, p.run, p.hash, SinkRecords(p.nodes, l.landings));
    forall id | id in p.nodes
      ensures && id in l.stateLog
              && StepState.Run(p.nodes[id].state, UpdatesOf(p.nodes[id].step), p.ctx, l.stateLog[id]).saved
                 == Entry(l.saved, id)
    {
      assert StateOkAt(p.nodes, p.ctx, l.states, l.saved, l.stateLog, id);
    }
  }

  /** Within the run, a node's memory is the fold of what arrived, from what the run began with. */
  lemma StateFolds(p: Plan, id: string, log: seq<StepState.StateEvent>)
    requires Grounded(p) && id in p.nodes && Begun(p)[id] <= log && StepState.OneRun(log[|Begun(p)[id]|..])
    ensures var node := p.nodes[id];
            StepState.Run(node.state, UpdatesOf(node.step), p.ctx, log).memory
              == StepState.FoldFrom(StepState.Initial(node.state, Entry(p.store.saved, id), p.loads(id)),
                                    UpdatesOf(node.step), p.ctx, StepState.ArrivalsIn(log[|Begun(p)[id]|..]))
  {
    var node, before, begun := p.nodes[id], LogOf(p.store.stateLog, id), Begun(p)[id];
    assert begun[..|before|] == before && begun == before + [StepState.Resume(p.loads(id))];
    assert log == begun + log[|begun|..];
    StepState.MemoryIsFold(node.state, UpdatesOf(node.step), p.ctx, begun, log[|begun|..]);
  }
}
