/**
 * What an executor's buffers, states and markers owe to its history. Each node
 * that keeps records has a log of what arrived; every record handed to a node
 * is a move, and every move lands.
 */
module Logs {
  import opened Json
  import opened Payload
  import opened Eval
  import opened Graph
  import opened Flow
  import opened Routing
  import opened Turns
  import Join
  import Batch
  import Delivery
  import StepState

  predicate IsJoin(node: Node) { node.step.Control? && node.step.control.Join? }

  predicate IsBatch(node: Node) { node.step.Control? && node.step.control.Batch? }

  predicate IsApprove(node: Node) { node.step.Control? && node.step.control.Approve? }

  function ThresholdOf(node: Node): nat
    requires IsJoin(node)
  {
    Join.Threshold(node.step.control.mode, node.step.control.n, node.incoming)
  }

  function UpdatesOf(step: NodeStep): seq<Update> {
    if step.Control? && step.control.StateUpdate? then step.control.updates else []
  }

  /** The merged record of every released group. */
  function MergedGroups(released: seq<Join.Group>): (r: seq<Record>)
    ensures |r| == |released|
  {
    seq(|released|, i requires 0 <= i < |released| => Join.Merge(released[i].records))
  }

  function LogOf<T>(logs: map<string, seq<T>>, id: string): seq<T> { if id in logs then logs[id] else [] }

  function Entry<K, V>(m: map<K, V>, key: K): Option<V> { if key in m then Some(m[key]) else None }

  // ---------- what each component's fields must be ----------

  /** A join node's open groups and outgoing records are what its arrivals make them. */
  ghost predicate JoinOk(node: Node, groups: map<string, seq<Record>>, log: seq<Join.Arrival>, out: seq<Record>) {
    IsJoin(node) ==>
      var s := Join.JoinRun(ThresholdOf(node), log);
      groups == s.groups && out == MergedGroups(s.released)
  }

  ghost predicate JoinsOk(nodes: map<string, Node>, joins: map<string, map<string, seq<Record>>>,
                          log: map<string, seq<Join.Arrival>>, out: map<string, seq<Record>>)
  {
    forall id :: JoinOkAt(nodes, joins, log, out, id)
  }

  ghost predicate JoinOkAt(nodes: map<string, Node>, joins: map<string, map<string, seq<Record>>>,
                           log: map<string, seq<Join.Arrival>>, out: map<string, seq<Record>>, id: string)
  {
    id in nodes && IsJoin(nodes[id]) ==>
      id in joins && id in log && id in out && JoinOk(nodes[id], joins[id], log[id], out[id])
  }

  /** A batch node's buffer, clock and outgoing batches are what its arrivals and flushes make them. */
  ghost predicate BatchOk(node: Node, buffer: seq<Record>, armed: bool, log: seq<Batch.BatchEvent>,
                          out: seq<seq<Record>>)
  {
    IsBatch(node) ==>
      Batch.BatchRun(node.step.control.size, node.step.control.windowed, log) == Batch.BatchState(buffer, armed, out)
  }

  ghost predicate BatchesOk(nodes: map<string, Node>, batches: map<string, seq<Record>>, armed: map<string, bool>,
                            log: map<string, seq<Batch.BatchEvent>>, out: map<string, seq<seq<Record>>>)
  {
    forall id :: BatchOkAt(nodes, batches, armed, log, out, id)
  }

  ghost predicate BatchOkAt(nodes: map<string, Node>, batches: map<string, seq<Record>>, armed: map<string, bool>,
                            log: map<string, seq<Batch.BatchEvent>>, out: map<string, seq<seq<Record>>>, id: string)
  {
    id in nodes && IsBatch(nodes[id]) ==>
      && id in batches && id in armed && id in log && id in out
      && BatchOk(nodes[id], batches[id], armed[id], log[id], out[id])
  }

  /** A node's state in memory and in the store is what its arrivals, checkpoints and resumes make it. */
  ghost predicate StateOk(node: Node, ctx: Context, memory: Option<Value>, saved: Option<Value>,
                          log: seq<StepState.StateEvent>)
  {
    StepState.Run(node.state, UpdatesOf(node.step), ctx, log) == StepState.Cell(memory, saved)
  }

  ghost predicate StatesOk(nodes: map<string, Node>, ctx: Context, states: map<string, Value>,
                           saved: map<string, Value>, log: map<string, seq<StepState.StateEvent>>)
  {
    forall id :: StateOkAt(nodes, ctx, states, saved, log, id)
  }

  ghost predicate StateOkAt(nodes: map<string, Node>, ctx: Context, states: map<string, Value>,
                            saved: map<string, Value>, log: map<string, seq<StepState.StateEvent>>, id: string)
  {
    id in nodes ==> id in log && StateOk(nodes[id], ctx, Entry(states, id), Entry(saved, id), log[id])
  }

  /** The last thing that happened was a checkpoint. */
  ghost predicate EndsSaved(log: seq<StepState.StateEvent>) { log != [] && log[|log| - 1].Checkpoint? }

  // ---------- one event of one component ----------

  lemma JoinsOkArrival(nodes: map<string, Node>, joins: map<string, map<string, seq<Record>>>,
                       log: map<string, seq<Join.Arrival>>, out: map<string, seq<Record>>, id: string, a: Join.Arrival)
    requires JoinsOk(nodes, joins, log, out) && JoinOkAt(nodes, joins, log, out, id) && id in nodes && IsJoin(nodes[id])
    ensures var open := Join.OpenGroup(joins[id], a.correlation) + [a.record];
            var log' := log[id := log[id] + [a]];
            if |open| >= ThresholdOf(nodes[id])
            then JoinsOk(nodes, joins[id := joins[id][a.correlation := []]], log',
                         out[id := out[id] + [Join.Merge(open)]])
            else JoinsOk(nodes, joins[id := joins[id][a.correlation := open]], log', out)
  {
    JoinOkArrival(nodes[id], joins[id], log[id], out[id], a);
    var open := Join.OpenGroup(joins[id], a.correlation) + [a.record];
    var full := |open| >= ThresholdOf(nodes[id]);
    var joins' := joins[id := joins[id][a.correlation := if full then [] else open]];
    var log', out' := log[id := log[id] + [a]], if full then out[id := out[id] + [Join.Merge(open)]] else out;
    forall n ensures JoinOkAt(nodes, joins', log', out', n) { assert JoinOkAt(nodes, joins, log, out, n); }
  }

  lemma JoinOkArrival(node: Node, groups: map<string, seq<Record>>, log: seq<Join.Arrival>, out: seq<Record>,
                      a: Join.Arrival)
    requires IsJoin(node) && JoinOk(node, groups, log, out)
    ensures var open := Join.OpenGroup(groups, a.correlation) + [a.record];
            if |open| >= ThresholdOf(node)
            then JoinOk(node, groups[a.correlation := []], log + [a], out + [Join.Merge(open)])
            else JoinOk(node, groups[a.correlation := open], log + [a], out)
  {
    assert (log + [a])[..|log|] == log;
    MergedSnoc(Join.JoinRun(ThresholdOf(node), log).released,
               Join.Group(a.correlation, Join.OpenGroup(groups, a.correlation) + [a.record]));
  }

  lemma MergedSnoc(released: seq<Join.Group>, g: Join.Group)
    ensures MergedGroups(released + [g]) == MergedGroups(released) + [Join.Merge(g.records)]
  {
  }

  lemma BatchesOkEvent(nodes: map<string, Node>, batches: map<string, seq<Record>>, armed: map<string, bool>,
                       log: map<string, seq<Batch.BatchEvent>>, out: map<string, seq<seq<Record>>>, id: string,
                       ev: Batch.BatchEvent, next: Batch.BatchState)
    requires BatchesOk(nodes, batches, armed, log, out) && BatchOkAt(nodes, batches, armed, log, out, id)
    requires id in nodes && IsBatch(nodes[id])
    requires var c := nodes[id].step.control;
             next == Batch.Step(Batch.BatchState(batches[id], armed[id], out[id]), c.size, c.windowed, ev)
    ensures BatchesOk(nodes, batches[id := next.buffer], armed[id := next.armed], log[id := log[id] + [ev]],
                      out[id := next.emitted])
  {
    assert (log[id] + [ev])[..|log[id]|] == log[id];
    assert BatchOk(nodes[id], next.buffer, next.armed, log[id] + [ev], next.emitted);
    var batches', armed' := batches[id := next.buffer], armed[id := next.armed];
    var log', out' := log[id := log[id] + [ev]], out[id := next.emitted];
    forall n ensures BatchOkAt(nodes, batches', armed', log', out', n) {
      assert BatchOkAt(nodes, batches, armed, log, out, n);
    }
  }

  lemma StatesOkEvent(nodes: map<string, Node>, ctx: Context, states: map<string, Value>, saved: map<string, Value>,
                      log: map<string, seq<StepState.StateEvent>>, id: string, ev: StepState.StateEvent,
                      states': map<string, Value>, saved': map<string, Value>)
    requires StatesOk(nodes, ctx, states, saved, log) && StateOkAt(nodes, ctx, states, saved, log, id) && id in nodes
    requires StepState.Step(StepState.Cell(Entry(states, id), Entry(saved, id)), nodes[id].state,
                            UpdatesOf(nodes[id].step), ctx, ev)
          == StepState.Cell(Entry(states', id), Entry(saved', id))
    requires forall n :: n != id ==> Entry(states', n) == Entry(states, n) && Entry(saved', n) == Entry(saved, n)
    ensures StatesOk(nodes, ctx, states', saved', log[id := log[id] + [ev]])
  {
    assert (log[id] + [ev])[..|log[id]|] == log[id];
    assert StateOk(nodes[id], ctx, Entry(states', id), Entry(saved', id), log[id] + [ev]);
    var log' := log[id := log[id] + [ev]];
    forall n ensures StateOkAt(nodes, ctx, states', saved', log', n) {
      assert StateOkAt(nodes, ctx, states, saved, log, n);
    }
  }

  // ---------- moves and landings ----------

  /** A record handed to a node, by another node or by the stream of a source. */
  datatype Move = Move(giver: Option<string>, to: string, record: Record)

  /** A walk at a node, and whether the node's condition let the record in. */
  datatype Landing = Landing(at: string, record: Record, admitted: bool)

  function HandedBy(moves: seq<Move>, id: string): seq<Handoff> {
    if moves == [] then []
    else
      var k := |moves| - 1;
      HandedBy(moves[..k], id) + if moves[k].giver == Some(id) then [Handoff(moves[k].to, moves[k].record)] else []
  }

  /** The records the stream of a source put in. */
  function InjectedAt(moves: seq<Move>, id: string): seq<Record> {
    if moves == [] then []
    else
      var k := |moves| - 1;
      InjectedAt(moves[..k], id) + if moves[k].giver == None && moves[k].to == id then [moves[k].record] else []
  }

  function MovedTo(moves: seq<Move>, id: string): seq<Record> {
    if moves == [] then []
    else
      var k := |moves| - 1;
      MovedTo(moves[..k], id) + if moves[k].to == id then [moves[k].record] else []
  }

  function AdmittedAt(landings: seq<Landing>, id: string): seq<Record> {
    if landings == [] then []
    else
      var k := |landings| - 1;
      AdmittedAt(landings[..k], id) + if landings[k].at == id && landings[k].admitted then [landings[k].record] else []
  }

  lemma HandedBySnoc(moves: seq<Move>, m: Move, id: string)
    ensures HandedBy(moves + [m], id) ==
              HandedBy(moves, id) + if m.giver == Some(id) then [Handoff(m.to, m.record)] else []
  {
    assert (moves + [m])[..|moves|] == moves;
  }

  lemma InjectedSnoc(moves: seq<Move>, m: Move, id: string)
    ensures InjectedAt(moves + [m], id)
         == InjectedAt(moves, id) + if m.giver == None && m.to == id then [m.record] else []
  {
    assert (moves + [m])[..|moves|] == moves;
  }

  lemma AdmittedSnoc(landings: seq<Landing>, l: Landing, id: string)
    ensures AdmittedAt(landings + [l], id)
         == AdmittedAt(landings, id) + if l.at == id && l.admitted then [l.record] else []
  {
    assert (landings + [l])[..|landings|] == landings;
  }

  /** What every node handed on is recorded among the moves. */
  ghost predicate HandedOk(handed: map<string, seq<Handoff>>, moves: seq<Move>) {
    forall id :: HandedOkAt(handed, moves, id)
  }

  ghost predicate HandedOkAt(handed: map<string, seq<Handoff>>, moves: seq<Move>, id: string) {
    LogOf(handed, id) == HandedBy(moves, id)
  }

  lemma HandedOkMove(handed: map<string, seq<Handoff>>, moves: seq<Move>, giver: string, to: string, record: Record)
    requires HandedOk(handed, moves)
    ensures HandedOk(handed[giver := LogOf(handed, giver) + [Handoff(to, record)]],
                     moves + [Move(Some(giver), to, record)])
  {
    var handed' := handed[giver := LogOf(handed, giver) + [Handoff(to, record)]];
    var m := Move(Some(giver), to, record);
    forall id ensures HandedOkAt(handed', moves + [m], id) {
      assert HandedOkAt(handed, moves, id);
      HandedBySnoc(moves, m, id);
    }
  }

  lemma HandedOkInjection(handed: map<string, seq<Handoff>>, moves: seq<Move>, to: string, record: Record)
    requires HandedOk(handed, moves)
    ensures HandedOk(handed, moves + [Move(None, to, record)])
  {
    var m := Move(None, to, record);
    forall id ensures HandedOkAt(handed, moves + [m], id) {
      assert HandedOkAt(handed, moves, id);
      HandedBySnoc(moves, m, id);
    }
  }

  /** Nodes hand records on along their routes only. */
  ghost predicate Along(nodes: map<string, Node>, moves: seq<Move>) {
    forall i :: 0 <= i < |moves| ==> AlongRoute(nodes, moves[i])
  }

  ghost predicate AlongRoute(nodes: map<string, Node>, m: Move) {
    m.giver.Some? ==> Edge(NodeGraph(nodes), m.giver.value, m.to)
  }

  lemma AlongSnoc(nodes: map<string, Node>, moves: seq<Move>, m: Move)
    requires Along(nodes, moves) && AlongRoute(nodes, m)
    ensures Along(nodes, moves + [m])
  {
  }

  ghost predicate LandsAs(m: Move, l: Landing) { l.at == m.to && l.record == m.record }

  ghost predicate AllLanded(moves: seq<Move>, landings: seq<Landing>) {
    |landings| == |moves| && forall i :: 0 <= i < |moves| ==> LandsAs(moves[i], landings[i])
  }

  /** Every move has landed, in order, except the one that is due. */
  ghost predicate Lands(moves: seq<Move>, landings: seq<Landing>, due: Option<Handoff>) {
    if due.None? then AllLanded(moves, landings)
    else
      && moves != [] && AllLanded(moves[..|moves| - 1], landings)
      && moves[|moves| - 1].to == due.value.to && moves[|moves| - 1].record == due.value.record
  }

  lemma LandsMove(moves: seq<Move>, landings: seq<Landing>, m: Move)
    requires Lands(moves, landings, None)
    ensures Lands(moves + [m], landings, Some(Handoff(m.to, m.record)))
  {
    assert (moves + [m])[..|moves|] == moves;
  }

  lemma LandsNow(moves: seq<Move>, landings: seq<Landing>, due: Handoff, admitted: bool)
    requires Lands(moves, landings, Some(due))
    ensures Lands(moves, landings + [Landing(due.to, due.record, admitted)], None)
  {
    var longer, k := landings + [Landing(due.to, due.record, admitted)], |moves| - 1;
    forall i | 0 <= i < |moves| ensures LandsAs(moves[i], longer[i]) {
      if i < k { assert LandsAs(moves[..k][i], landings[i]); }
    }
  }

  /** A node's condition could come out as recorded. */
  ghost predicate LandingOk(nodes: map<string, Node>, ctx: Context, l: Landing) {
    l.at in nodes ==> May(nodes[l.at].when, l.record.payload, ctx, l.admitted)
  }

  ghost predicate LandingsOk(nodes: map<string, Node>, ctx: Context, landings: seq<Landing>) {
    forall i :: 0 <= i < |landings| ==> LandingOk(nodes, ctx, landings[i])
  }

  lemma LandingsOkSnoc(nodes: map<string, Node>, ctx: Context, landings: seq<Landing>, l: Landing)
    requires LandingsOk(nodes, ctx, landings) && LandingOk(nodes, ctx, l)
    ensures LandingsOk(nodes, ctx, landings + [l])
  {
  }

  // ---------- logs are fed by landings ----------

  /** A record that reached an approval step with a store, and whether the store took it. */
  datatype Approval = Approval(record: Record, stored: bool)

  function StoredOf(approvals: seq<Approval>): seq<Value> {
    if approvals == [] then []
    else
      var k := |approvals| - 1;
      StoredOf(approvals[..k]) + if approvals[k].stored then [approvals[k].record.payload] else []
  }

  /** What is parked is what earlier runs parked and what the store took since. */
  ghost predicate ParkedOk(before: map<string, seq<Value>>, parked: map<string, seq<Value>>,
                           approvals: map<string, seq<Approval>>)
  {
    forall id :: ParkedOkAt(before, parked, approvals, id)
  }

  ghost predicate ParkedOkAt(before: map<string, seq<Value>>, parked: map<string, seq<Value>>,
                             approvals: map<string, seq<Approval>>, id: string)
  {
    LogOf(parked, id) == LogOf(before, id) + StoredOf(LogOf(approvals, id))
  }

  lemma ParkedOkApproval(before: map<string, seq<Value>>, parked: map<string, seq<Value>>,
                         approvals: map<string, seq<Approval>>, id: string, a: Approval)
    requires ParkedOk(before, parked, approvals)
    ensures ParkedOk(before, if a.stored then parked[id := LogOf(parked, id) + [a.record.payload]] else parked,
                     approvals[id := LogOf(approvals, id) + [a]])
  {
    var parked' := if a.stored then parked[id := LogOf(parked, id) + [a.record.payload]] else parked;
    var approvals' := approvals[id := LogOf(approvals, id) + [a]];
    forall n ensures ParkedOkAt(before, parked', approvals', n) {
      assert ParkedOkAt(before, parked, approvals, n);
      if n == id {
        ParkedSnoc(LogOf(before, id), LogOf(parked, id), LogOf(approvals, id), a);
      } else {
        assert LogOf(parked', n) == LogOf(parked, n) && LogOf(approvals', n) == LogOf(approvals, n);
      }
    }
  }

  lemma ParkedSnoc(before: seq<Value>, parked: seq<Value>, approvals: seq<Approval>, a: Approval)
    requires parked == before + StoredOf(approvals)
    ensures (if a.stored then parked + [a.record.payload] else parked) == before + StoredOf(approvals + [a])
  {
    assert (approvals + [a])[..|approvals|] == approvals;
    assert StoredOf(approvals) + [] == StoredOf(approvals);
  }

  /** The arrivals of a join are these records, each under its own correlation if it has one. */
  ghost predicate Arrived(log: seq<Join.Arrival>, records: seq<Record>) {
    |log| == |records| && forall i :: 0 <= i < |log| ==> ArrivedAs(log[i], records[i])
  }

  ghost predicate ArrivedAs(a: Join.Arrival, r: Record) {
    a.record == r && ("correlation" in r.metadata ==> a.correlation == r.metadata["correlation"])
  }

  ghost predicate Approved(log: seq<Approval>, records: seq<Record>) {
    |log| == |records| && forall i :: 0 <= i < |log| ==> log[i].record == records[i]
  }

  /** What a keeping node has in its log is exactly what it admitted, in order. */
  ghost predicate FedAt(nodes: map<string, Node>, hasStore: bool, joinLog: map<string, seq<Join.Arrival>>,
                        batchLog: map<string, seq<Batch.BatchEvent>>, approvals: map<string, seq<Approval>>,
                        landings: seq<Landing>, id: string)
  {
    id in nodes ==>
      && (IsJoin(nodes[id]) ==> Arrived(LogOf(joinLog, id), AdmittedAt(landings, id)))
      && (IsBatch(nodes[id]) ==> Batch.Arrivals(LogOf(batchLog, id)) == AdmittedAt(landings, id))
      && (IsApprove(nodes[id]) && hasStore ==> Approved(LogOf(approvals, id), AdmittedAt(landings, id)))
  }

  ghost predicate Fed(nodes: map<string, Node>, hasStore: bool, joinLog: map<string, seq<Join.Arrival>>,
                      batchLog: map<string, seq<Batch.BatchEvent>>, approvals: map<string, seq<Approval>>,
                      landings: seq<Landing>)
  {
    forall id :: FedAt(nodes, hasStore, joinLog, batchLog, approvals, landings, id)
  }

  /** The node keeps a log of what it admits. */
  predicate Keeping(node: Node, hasStore: bool) { IsJoin(node) || IsBatch(node) || (IsApprove(node) && hasStore) }

  lemma FedOther(nodes: map<string, Node>, hasStore: bool, joinLog: map<string, seq<Join.Arrival>>,
                 batchLog: map<string, seq<Batch.BatchEvent>>, approvals: map<string, seq<Approval>>,
                 landings: seq<Landing>, l: Landing)
    requires Fed(nodes, hasStore, joinLog, batchLog, approvals, landings)
    requires l.admitted && l.at in nodes ==> !Keeping(nodes[l.at], hasStore)
    ensures Fed(nodes, hasStore, joinLog, batchLog, approvals, landings + [l])
  {
    forall id ensures FedAt(nodes, hasStore, joinLog, batchLog, approvals, landings + [l], id) {
      assert FedAt(nodes, hasStore, joinLog, batchLog, approvals, landings, id);
      AdmittedSnoc(landings, l, id);
    }
  }

  lemma FedJoin(nodes: map<string, Node>, hasStore: bool, joinLog: map<string, seq<Join.Arrival>>,
                batchLog: map<string, seq<Batch.BatchEvent>>, approvals: map<string, seq<Approval>>,
                landings: seq<Landing>, id: string, a: Join.Arrival)
    requires Fed(nodes, hasStore, joinLog, batchLog, approvals, landings)
    requires id in nodes && IsJoin(nodes[id]) && ArrivedAs(a, a.record)
    ensures Fed(nodes, hasStore, joinLog[id := LogOf(joinLog, id) + [a]], batchLog, approvals,
                landings + [Landing(id, a.record, true)])
  {
    var log', l := joinLog[id := LogOf(joinLog, id) + [a]], Landing(id, a.record, true);
    forall n ensures FedAt(nodes, hasStore, log', batchLog, approvals, landings + [l], n) {
      assert FedAt(nodes, hasStore, joinLog, batchLog, approvals, landings, n);
      AdmittedSnoc(landings, l, n);
    }
  }

  lemma FedBatch(nodes: map<string, Node>, hasStore: bool, joinLog: map<string, seq<Join.Arrival>>,
                 batchLog: map<string, seq<Batch.BatchEvent>>, approvals: map<string, seq<Approval>>,
                 landings: seq<Landing>, id: string, record: Record, elapsed: bool)
    requires Fed(nodes, hasStore, joinLog, batchLog, approvals, landings)
    requires id in nodes && IsBatch(nodes[id])
    ensures Fed(nodes, hasStore, joinLog, batchLog[id := LogOf(batchLog, id) + [Batch.Arrive(record, elapsed)]],
                approvals, landings + [Landing(id, record, true)])
  {
    var ev, l := Batch.Arrive(record, elapsed), Landing(id, record, true);
    var log' := batchLog[id := LogOf(batchLog, id) + [ev]];
    Batch.ArrivalsSnoc(LogOf(batchLog, id), ev);
    forall n ensures FedAt(nodes, hasStore, joinLog, log', approvals, landings + [l], n) {
      assert FedAt(nodes, hasStore, joinLog, batchLog, approvals, landings, n);
      AdmittedSnoc(landings, l, n);
    }
  }

  lemma FedFlush(nodes: map<string, Node>, hasStore: bool, joinLog: map<string, seq<Join.Arrival>>,
                 batchLog: map<string, seq<Batch.BatchEvent>>, approvals: map<string, seq<Approval>>,
                 landings: seq<Landing>, id: string)
    requires Fed(nodes, hasStore, joinLog, batchLog, approvals, landings)
    ensures Fed(nodes, hasStore, joinLog, batchLog[id := LogOf(batchLog, id) + [Batch.Flush]], approvals, landings)
  {
    var log' := batchLog[id := LogOf(batchLog, id) + [Batch.Flush]];
    Batch.ArrivalsSnoc(LogOf(batchLog, id), Batch.Flush);
    assert Batch.Arrivals(LogOf(batchLog, id)) + [] == Batch.Arrivals(LogOf(batchLog, id));
    forall n ensures FedAt(nodes, hasStore, joinLog, log', approvals, landings, n) {
      assert FedAt(nodes, hasStore, joinLog, batchLog, approvals, landings, n);
    }
  }

  lemma FedApproval(nodes: map<string, Node>, hasStore: bool, joinLog: map<string, seq<Join.Arrival>>,
                    batchLog: map<string, seq<Batch.BatchEvent>>, approvals: map<string, seq<Approval>>,
                    landings: seq<Landing>, id: string, a: Approval)
    requires Fed(nodes, hasStore, joinLog, batchLog, approvals, landings)
    requires id in nodes && IsApprove(nodes[id])
    ensures Fed(nodes, hasStore, joinLog, batchLog, approvals[id := LogOf(approvals, id) + [a]],
                landings + [Landing(id, a.record, true)])
  {
    var log', l := approvals[id := LogOf(approvals, id) + [a]], Landing(id, a.record, true);
    forall n ensures FedAt(nodes, hasStore, joinLog, batchLog, log', landings + [l], n) {
      assert FedAt(nodes, hasStore, joinLog, batchLog, approvals, landings, n);
      AdmittedSnoc(landings, l, n);
    }
  }

  /** The records that sinks admitted, in order. */
  function SinkRecords(nodes: map<string, Node>, landings: seq<Landing>): seq<Record> {
    if landings == [] then []
    else
      var k := |landings| - 1;
      var l := landings[k];
      SinkRecords(nodes, landings[..k]) +
      if l.admitted && l.at in nodes && nodes[l.at].step.Sink? then [l.record] else []
  }

  lemma SinkRecordsSnoc(nodes: map<string, Node>, landings: seq<Landing>, l: Landing)
    ensures SinkRecords(nodes, landings + [l]) == SinkRecords(nodes, landings) +
              if l.admitted && l.at in nodes && nodes[l.at].step.Sink? then [l.record] else []
  {
    assert (landings + [l])[..|landings|] == landings;
  }

  /** After those of earlier runs, the delivery attempts are one for each record a sink admitted, in order. */
  ghost predicate Attempting(attempts: seq<Delivery.Attempt>, earlier: seq<Delivery.Attempt>, run: string,
                             hash: Value -> string, records: seq<Record>) {
    && earlier <= attempts && |attempts| == |earlier| + |records|
    && forall i :: 0 <= i < |records| ==> Delivery.Offers(attempts[|earlier| + i], run, records[i], hash)
  }

  lemma AttemptingSnoc(attempts: seq<Delivery.Attempt>, earlier: seq<Delivery.Attempt>, run: string,
                       hash: Value -> string, records: seq<Record>, record: Record, a: Delivery.Attempt)
    requires Attempting(attempts, earlier, run, hash, records) && Delivery.Offers(a, run, record, hash)
    ensures Attempting(attempts + [a], earlier, run, hash, records + [record])
  {
  }

  lemma AttemptingKeyed(attempts: seq<Delivery.Attempt>, earlier: seq<Delivery.Attempt>, run: string,
                        hash: Value -> string, records: seq<Record>)
    requires Attempting(attempts, earlier, run, hash, records) && Delivery.Keyed(earlier, hash)
    ensures Delivery.Keyed(attempts, hash)
  {
    forall i | 0 <= i < |attempts| ensures Delivery.Offers(attempts[i], attempts[i].key.run, attempts[i].record, hash) {
      if i < |earlier| {
        assert attempts[i] == earlier[i];
      } else {
        assert Delivery.Offers(attempts[|earlier| + (i - |earlier|)], run, records[i - |earlier|], hash);
      }
    }
  }

  /** The records that transforms admitted, in order. */
  function TurnsAt(nodes: map<string, Node>, landings: seq<Landing>): seq<Turn> {
    if landings == [] then []
    else
      var k := |landings| - 1;
      var l := landings[k];
      TurnsAt(nodes, landings[..k]) +
      if l.admitted && l.at in nodes && nodes[l.at].step.Transform? then [Turn(nodes[l.at], l.record)] else []
  }

  lemma TurnsAtSnoc(nodes: map<string, Node>, landings: seq<Landing>, l: Landing)
    ensures TurnsAt(nodes, landings + [l]) == TurnsAt(nodes, landings) +
              (if l.admitted && l.at in nodes && nodes[l.at].step.Transform? then [Turn(nodes[l.at], l.record)] else [])
  {
    assert (landings + [l])[..|landings|] == landings;
  }

  // ---------- state steps are fed by landings ----------

  predicate IsUpdate(node: Node) { node.step.Control? && node.step.control.StateUpdate? }

  /** One arrival for each record, with its payload. */
  ghost predicate Updating(arrivals: seq<StepState.Input>, records: seq<Record>) {
    |arrivals| == |records| && forall i :: 0 <= i < |arrivals| ==> arrivals[i].payload == records[i].payload
  }

  /**
   * Since the run began, with the log `begun`, the arrivals at a state step are exactly the records it
   * admitted, in order; elsewhere there are none.
   */
  ghost predicate StateFedAt(nodes: map<string, Node>, begun: map<string, seq<StepState.StateEvent>>,
                             log: map<string, seq<StepState.StateEvent>>, landings: seq<Landing>, id: string)
  {
    id in nodes ==>
      && id in begun && id in log && begun[id] <= log[id] && StepState.OneRun(log[id][|begun[id]|..])
      && Updating(StepState.ArrivalsIn(log[id][|begun[id]|..]),
                  if IsUpdate(nodes[id]) then AdmittedAt(landings, id) else [])
  }

  ghost predicate StatesFed(nodes: map<string, Node>, begun: map<string, seq<StepState.StateEvent>>,
                            log: map<string, seq<StepState.StateEvent>>, landings: seq<Landing>)
  {
    forall id :: StateFedAt(nodes, begun, log, landings, id)
  }

  lemma StatesFedOther(nodes: map<string, Node>, begun: map<string, seq<StepState.StateEvent>>,
                       log: map<string, seq<StepState.StateEvent>>, landings: seq<Landing>, l: Landing)
    requires StatesFed(nodes, begun, log, landings) && (l.admitted && l.at in nodes ==> !IsUpdate(nodes[l.at]))
    ensures StatesFed(nodes, begun, log, landings + [l])
  {
    forall id ensures StateFedAt(nodes, begun, log, landings + [l], id) {
      assert StateFedAt(nodes, begun, log, landings, id);
      AdmittedSnoc(landings, l, id);
    }
  }

  lemma StateFedEvent(begun: seq<StepState.StateEvent>, log: seq<StepState.StateEvent>, records: seq<Record>,
                      ev: StepState.StateEvent, more: seq<Record>)
    requires begun <= log && StepState.OneRun(log[|begun|..]) && !ev.Resume?
    requires Updating(StepState.ArrivalsIn(log[|begun|..]), records)
    requires Updating(if ev.Arrives? then [ev.arrival] else [], more)
    ensures begun <= log + [ev] && StepState.OneRun((log + [ev])[|begun|..])
    ensures Updating(StepState.ArrivalsIn((log + [ev])[|begun|..]), records + more)
  {
    StepState.ArrivalsInSnoc(log[|begun|..], ev);
    assert (log + [ev])[|begun|..] == log[|begun|..] + [ev];
  }

  lemma StatesFedArrival(nodes: map<string, Node>, begun: map<string, seq<StepState.StateEvent>>,
                         log: map<string, seq<StepState.StateEvent>>, landings: seq<Landing>, id: string,
                         record: Record, ev: StepState.StateEvent)
    requires StatesFed(nodes, begun, log, landings) && id in nodes && IsUpdate(nodes[id])
    requires ev.Arrives? && ev.arrival.payload == record.payload
    ensures StatesFed(nodes, begun, log[id := LogOf(log, id) + [ev]], landings + [Landing(id, record, true)])
  {
    var log', l := log[id := LogOf(log, id) + [ev]], Landing(id, record, true);
    forall n ensures StateFedAt(nodes, begun, log', landings + [l], n) {
      assert StateFedAt(nodes, begun, log, landings, n);
      AdmittedSnoc(landings, l, n);
      if n == id { StateFedEvent(begun[id], log[id], AdmittedAt(landings, id), ev, [record]); }
    }
  }

  lemma StatesFedCheckpoint(nodes: map<string, Node>, begun: map<string, seq<StepState.StateEvent>>,
                            log: map<string, seq<StepState.StateEvent>>, landings: seq<Landing>, id: string,
                            ev: StepState.StateEvent)
    requires StatesFed(nodes, begun, log, landings) && ev.Checkpoint?
    ensures StatesFed(nodes, begun, log[id := LogOf(log, id) + [ev]], landings)
  {
    var log' := log[id := LogOf(log, id) + [ev]];
    forall n ensures StateFedAt(nodes, begun, log', landings, n) {
      assert StateFedAt(nodes, begun, log, landings, n);
      if n == id && id in nodes {
        var records := if IsUpdate(nodes[id]) then AdmittedAt(landings, id) else [];
        StateFedEvent(begun[id], log[id], records, ev, []);
        assert records + [] == records;
      }
    }
  }

  // ---------- the start of a run ----------

  /** Node states are loaded for the nodes that declare one, where the load succeeds. */
  function InitialStates(nodes: map<string, Node>, saved: map<string, Value>, loads: string -> bool)
    : map<string, Value>
  {
    map id | id in nodes && nodes[id].state.Some? ::
      StepState.Initial(nodes[id].state, Entry(saved, id), loads(id)).value
  }

  /** The store holds what the logged events left in it. */
  ghost predicate StoreExplained(nodes: map<string, Node>, ctx: Context, saved: map<string, Value>,
                                 log: map<string, seq<StepState.StateEvent>>)
  {
    forall id :: id in nodes ==>
      id in log && StepState.Run(nodes[id].state, UpdatesOf(nodes[id].step), ctx, log[id]).saved == Entry(saved, id)
  }

  /** Every node's log with the resume that starts this run. */
  function Resumed(nodes: map<string, Node>, log: map<string, seq<StepState.StateEvent>>, loads: string -> bool)
    : map<string, seq<StepState.StateEvent>>
  {
    map id | id in nodes :: LogOf(log, id) + [StepState.Resume(loads(id))]
  }

  lemma StartOk(nodes: map<string, Node>, ctx: Context, loads: string -> bool, saved: map<string, Value>,
                log0: map<string, seq<StepState.StateEvent>>)
    requires StoreExplained(nodes, ctx, saved, log0)
    ensures StatesOk(nodes, ctx, InitialStates(nodes, saved, loads), saved, Resumed(nodes, log0, loads))
  {
    var states, log := InitialStates(nodes, saved, loads), Resumed(nodes, log0, loads);
    forall id ensures StateOkAt(nodes, ctx, states, saved, log, id) {
      if id in nodes { assert log[id][..|LogOf(log0, id)|] == LogOf(log0, id); }
    }
  }

  function NoGroups(nodes: map<string, Node>): map<string, map<string, seq<Record>>> {
    map id | id in nodes && IsJoin(nodes[id]) :: map[]
  }

  function NoBatches(nodes: map<string, Node>): map<string, seq<Record>> {
    map id | id in nodes && IsBatch(nodes[id]) :: []
  }

  function NoClocks(nodes: map<string, Node>): map<string, bool> { map id | id in nodes :: false }

  function NoLogs<T>(nodes: map<string, Node>): map<string, seq<T>> { map id | id in nodes :: [] }

  lemma StartBuffersOk(nodes: map<string, Node>)
    ensures JoinsOk(nodes, NoGroups(nodes), NoLogs(nodes), NoLogs(nodes))
    ensures BatchesOk(nodes, NoBatches(nodes), NoClocks(nodes), NoLogs(nodes), NoLogs(nodes))
  {
    var log: map<string, seq<Join.Arrival>>, out: map<string, seq<Record>> := NoLogs(nodes), NoLogs(nodes);
    forall id ensures JoinOkAt(nodes, NoGroups(nodes), log, out, id) {
      if id in nodes { assert MergedGroups([]) == []; }
    }
  }

  lemma StartStatesFed(nodes: map<string, Node>, begun: map<string, seq<StepState.StateEvent>>)
    requires nodes.Keys <= begun.Keys
    ensures StatesFed(nodes, begun, begun, [])
  {
    forall id ensures StateFedAt(nodes, begun, begun, [], id) {
      if id in nodes { assert begun[id][|begun[id]|..] == []; }
    }
  }

  lemma StartTrafficOk(nodes: map<string, Node>, ctx: Context, hasStore: bool, parked: map<string, seq<Value>>)
    ensures HandedOk(map[], []) && Lands([], [], None) && LandingsOk(nodes, ctx, [])
    ensures Fed(nodes, hasStore, NoLogs(nodes), NoLogs(nodes), map[], []) && ParkedOk(parked, parked, map[])
  {
    var joinLog: map<string, seq<Join.Arrival>> := NoLogs(nodes);
    var batchLog: map<string, seq<Batch.BatchEvent>> := NoLogs(nodes);
    forall id ensures FedAt(nodes, hasStore, joinLog, batchLog, map[], [], id) {
      assert LogOf(joinLog, id) == [] && LogOf(batchLog, id) == [];
    }
    forall id ensures ParkedOkAt(parked, parked, map[], id) {
      assert LogOf(parked, id) + [] == LogOf(parked, id);
    }
  }

  // ---------- what moves say about logs ----------

  /** A node without a condition admits everything that is moved to it. */
  lemma {:induction false} UnconditionalAdmits(nodes: map<string, Node>, ctx: Context, moves: seq<Move>,
                                               landings: seq<Landing>, id: string)
    requires Lands(moves, landings, None) && LandingsOk(nodes, ctx, landings)
    requires id in nodes && nodes[id].when.None?
    ensures AdmittedAt(landings, id) == MovedTo(moves, id)
    decreases |moves|
  {
    if moves != [] {
      var k := |moves| - 1;
      assert LandsAs(moves[k], landings[k]) && LandingOk(nodes, ctx, landings[k]);
      assert AllLanded(moves[..k], landings[..k]) by {
        forall i | 0 <= i < k ensures LandsAs(moves[..k][i], landings[..k][i]) {
          assert LandsAs(moves[i], landings[i]);
        }
      }
      UnconditionalAdmits(nodes, ctx, moves[..k], landings[..k], id);
    }
  }

  /** A node that has handed on more to a target has moved more to it. */
  lemma {:induction false} HandedIsMoved(moves: seq<Move>, more: seq<Move>, giver: string, to: string, i: nat)
    requires |HandedBy(moves, giver)| <= i < |HandedBy(moves + more, giver)|
    requires HandedBy(moves + more, giver)[i].to == to
    ensures |MovedTo(moves + more, to)| > |MovedTo(moves, to)|
    decreases |more|
  {
    assert more == [] ==> moves + more == moves;
    if more != [] {
      var k := |more| - 1;
      assert (moves + more)[..|moves + more| - 1] == moves + more[..k];
      if i < |HandedBy(moves + more[..k], giver)| {
        HandedIsMoved(moves, more[..k], giver, to, i);
      } else {
        MovedToGrows(moves, more[..k], to);
      }
    }
  }

  lemma {:induction false} MovedToGrows(moves: seq<Move>, more: seq<Move>, to: string)
    ensures |MovedTo(moves, to)| <= |MovedTo(moves + more, to)|
    decreases |more|
  {
    if more == [] {
      assert moves + more == moves;
    } else {
      var k := |more| - 1;
      assert (moves + more)[..|moves + more| - 1] == moves + more[..k];
      MovedToGrows(moves, more[..k], to);
    }
  }

  lemma MovedToOnly(moves: seq<Move>, later: seq<Move>, to: string)
    requires moves <= later
    ensures |MovedTo(moves, to)| <= |MovedTo(later, to)|
  {
    assert later == moves + later[|moves|..];
    MovedToGrows(moves, later[|moves|..], to);
  }

  lemma HandedIsMovedTo(moves: seq<Move>, later: seq<Move>, giver: string, to: string, i: nat)
    requires moves <= later && |HandedBy(moves, giver)| <= i < |HandedBy(later, giver)|
    requires HandedBy(later, giver)[i].to == to
    ensures |MovedTo(later, to)| > |MovedTo(moves, to)|
  {
    assert later == moves + later[|moves|..];
    HandedIsMoved(moves, later[|moves|..], giver, to, i);
  }
}
