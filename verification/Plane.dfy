/**
 * The control plane's registry (sohara-plane/src/registry.rs, reconcile.rs):
 * declared instances, reported states and one queue of numbered commands per
 * node. Every command ever issued to a node is kept as history in `log`.
 */
module Plane {
  import opened Json
  import Supervisor

  type Op = Supervisor.Command

  datatype Decl = Decl(id: string, node: string, flowId: Option<string>, desired: Supervisor.Desired, admin: bool)

  datatype Report = Report(id: string, state: Supervisor.InstanceState, trigger: Option<string>)

  datatype Command = Command(number: nat, op: Op, instance: string)

  datatype Registered = Registered(instances: map<string, Decl>, actual: map<string, seq<Report>>,
                                   pending: map<string, seq<Command>>, log: map<string, seq<Command>>)

  function Entry<T>(m: map<string, seq<T>>, node: string): seq<T> { if node in m then m[node] else [] }

  function Queue(p: Registered, node: string): seq<Command> { Entry(p.pending, node) }

  function Log(p: Registered, node: string): seq<Command> { Entry(p.log, node) }

  // ---------- deciding on commands ----------

  /** The operation that moves an instance toward its desired state, if any. */
  function DesiredOp(desired: Supervisor.Desired, state: Supervisor.InstanceState): Option<Op> {
    match desired
    case DesiredRunning =>
      if state.Stopped? || state.Failed? then Some(Supervisor.Start)
      else if state.Paused? then Some(Supervisor.Resume)
      else None
    case DesiredPaused =>
      if state.Running? then Some(Supervisor.Pause)
      else if state.Stopped? || state.Failed? then Some(Supervisor.Start)
      else None
    case DesiredStopped =>
      if state.Running? || state.Paused? || state.Starting? || state.Restarting? then Some(Supervisor.Stop) else None
  }

  /** Which operation an instance needs: never a restart, a start only where nothing runs, a stop only to stop. */
  lemma OperationIs(desired: Supervisor.Desired, state: Supervisor.InstanceState)
    ensures var op, down := DesiredOp(desired, state), state.Stopped? || state.Failed?;
            && (op == Some(Supervisor.Start) <==> desired != Supervisor.DesiredStopped && down)
            && (op == Some(Supervisor.Resume) <==> desired == Supervisor.DesiredRunning && state.Paused?)
            && (op == Some(Supervisor.Pause) <==> desired == Supervisor.DesiredPaused && state.Running?)
            && (op == Some(Supervisor.Stop) <==>
                  desired == Supervisor.DesiredStopped && !down && !state.Stopping?)
            && op != Some(Supervisor.Restart)
  {
  }

  predicate Asked(queue: seq<Command>, op: Op, instance: string) {
    exists i :: 0 <= i < |queue| && queue[i].op == op && queue[i].instance == instance
  }

  function FindReport(reports: seq<Report>, id: string): Option<Report> {
    if reports == [] then None
    else if reports[0].id == id then Some(reports[0])
    else FindReport(reports[1..], id)
  }

  /** The operation to queue for one declared instance. */
  function DesiredCommand(decl: Decl, actual: Option<Report>, queue: seq<Command>): Option<Op> {
    if actual.None? then None
    else
      var op := DesiredOp(decl.desired, actual.value.state);
      if op.None? || Asked(queue, op.value, decl.id) then None else op
  }

  /** One declared instance handled by a reconcile. */
  function Enqueued(p: Registered, node: string, decl: Decl, reports: seq<Report>): Registered {
    var op := DesiredCommand(decl, FindReport(reports, decl.id), Queue(p, node));
    if op.None? then p
    else
      var command := Command(|Log(p, node)| + 1, op.value, decl.id);
      p.(pending := p.pending[node := Queue(p, node) + [command]], log := p.log[node := Log(p, node) + [command]])
  }

  function EnqueuedAll(p: Registered, node: string, declared: seq<Decl>, reports: seq<Report>): (q: Registered)
    ensures q.instances == p.instances
    decreases |declared|
  {
    if declared == [] then p
    else
      var k := |declared| - 1;
      Enqueued(EnqueuedAll(p, node, declared[..k], reports), node, declared[k], reports)
  }

  /** `order` is an iteration order of a map with these keys. */
  predicate IsOrder(order: seq<string>, keys: set<string>) {
    && (forall i :: 0 <= i < |order| ==> order[i] in keys)
    && (forall id :: id in keys ==> id in order)
    && (forall i, j :: 0 <= i < j < |order| ==> order[i] != order[j])
  }

  /** The declared instances of one node, in map iteration order. */
  function DeclaredFor(instances: map<string, Decl>, node: string, order: seq<string>): seq<Decl>
    requires forall i :: 0 <= i < |order| ==> order[i] in instances
    decreases |order|
  {
    if order == [] then []
    else
      var k := |order| - 1;
      var before := DeclaredFor(instances, node, order[..k]);
      if instances[order[k]].node == node then before + [instances[order[k]]] else before
  }

  function WithDeclared(p: Registered, decl: Decl): Registered { p.(instances := p.instances[decl.id := decl]) }

  function WithRemoved(p: Registered, id: string): Registered { p.(instances := p.instances - {id}) }

  function WithDesired(p: Registered, id: string, desired: Supervisor.Desired): Registered {
    if id in p.instances then p.(instances := p.instances[id := p.instances[id].(desired := desired)]) else p
  }

  /** A heartbeat: the reports are recorded and the declared instances reconciled. */
  function Beaten(p: Registered, node: string, reports: seq<Report>, order: seq<string>): (q: Registered)
    requires IsOrder(order, p.instances.Keys)
    ensures q.instances == p.instances
  {
    var reported := p.(actual := p.actual[node := reports]);
    EnqueuedAll(reported, node, DeclaredFor(p.instances, node, order), reports)
  }

  function Without(queue: seq<Command>, number: nat): seq<Command> {
    if queue == [] then []
    else if queue[0].number == number then Without(queue[1..], number)
    else [queue[0]] + Without(queue[1..], number)
  }

  /** An acknowledgement clears its number from the queue of every node. */
  function Acked(p: Registered, number: nat): Registered {
    p.(pending := map node | node in p.pending :: Without(p.pending[node], number))
  }

  // ---------- the registry in place ----------

  class Registry {
    var instances: map<string, Decl>
    var actual: map<string, seq<Report>>
    var pending: map<string, seq<Command>>
    var counter: map<string, nat>
    ghost var log: map<string, seq<Command>>

    ghost predicate Valid()
      reads this
    {
      log.Keys == counter.Keys && forall node :: node in counter ==> counter[node] == |log[node]|
    }

    ghost function Now(): Registered
      reads this
    {
      Registered(instances, actual, pending, log)
    }

    constructor ()
      ensures Valid() && Now() == Registered(map[], map[], map[], map[])
    {
      instances, actual, pending, counter := map[], map[], map[], map[];
      log := map[];
    }

    method DeclareInstance(decl: Decl)
      requires Valid()
      modifies this`instances
      ensures Valid() && Now() == WithDeclared(old(Now()), decl)
    {
      instances := instances[decl.id := decl];
    }

    method RemoveInstance(id: string)
      requires Valid()
      modifies this`instances
      ensures Valid() && Now() == WithRemoved(old(Now()), id)
    {
      instances := instances - {id};
    }

    method SetDesired(id: string, desired: Supervisor.Desired)
      requires Valid()
      modifies this`instances
      ensures Valid() && Now() == WithDesired(old(Now()), id, desired)
    {
      if id in instances { instances := instances[id := instances[id].(desired := desired)]; }
    }

    method ListDeclared(node: string, order: seq<string>) returns (declared: seq<Decl>)
      requires IsOrder(order, instances.Keys)
      ensures declared == DeclaredFor(instances, node, order)
    {
      declared := [];
      for i := 0 to |order|
        invariant declared == DeclaredFor(instances, node, order[..i])
      {
        assert order[..i + 1][..i] == order[..i];
        if instances[order[i]].node == node { declared := declared + [instances[order[i]]]; }
      }
      assert order[..|order|] == order;
    }

    method Enqueue(node: string, op: Op, instance: string)
      requires Valid()
      modifies this
      ensures Valid() && instances == old(instances) && actual == old(actual)
      ensures var command := Command(|Entry(old(log), node)| + 1, op, instance);
              && pending == old(pending)[node := Entry(old(pending), node) + [command]]
              && log == old(log)[node := Entry(old(log), node) + [command]]
    {
      var number := (if node in counter then counter[node] else 0) + 1;
      counter := counter[node := number];
      var command := Command(number, op, instance);
      pending := pending[node := Entry(pending, node) + [command]];
      log := log[node := Entry(log, node) + [command]];
    }

    method EnqueueReconcile(node: string, declared: seq<Decl>, reports: seq<Report>)
      requires Valid()
      modifies this
      ensures Valid() && Now() == EnqueuedAll(old(Now()), node, declared, reports)
    {
      for i := 0 to |declared|
        invariant Valid() && Now() == EnqueuedAll(old(Now()), node, declared[..i], reports)
      {
        assert declared[..i + 1][..i] == declared[..i];
        var op := DesiredCommand(declared[i], FindReport(reports, declared[i].id), Entry(pending, node));
        if op.Some? { Enqueue(node, op.value, declared[i].id); }
      }
      assert declared[..|declared|] == declared;
    }

    method Heartbeat(node: string, reports: seq<Report>, order: seq<string>)
      returns (commands: seq<Command>, desired: seq<Decl>)
      requires Valid() && IsOrder(order, instances.Keys)
      modifies this
      ensures Valid() && Now() == Beaten(old(Now()), node, reports, order)
      ensures commands == Queue(Now(), node)
      ensures desired == DeclaredFor(old(instances), node, order)
    {
      actual := actual[node := reports];
      desired := ListDeclared(node, order);
      EnqueueReconcile(node, desired, reports);
      commands := Entry(pending, node);
    }

    method Ack(number: nat)
      requires Valid()
      modifies this`pending
      ensures Valid() && Now() == Acked(old(Now()), number)
    {
      pending := map node | node in pending :: Without(pending[node], number);
    }
  }

  // ---------- what a queue always looks like ----------

  predicate Increasing(commands: seq<Command>) {
    forall i, j :: 0 <= i < j < |commands| ==> commands[i].number < commands[j].number
  }

  /** Every command is the one issued under its number. */
  predicate From(commands: seq<Command>, log: seq<Command>) {
    forall i :: 0 <= i < |commands| ==> 1 <= commands[i].number <= |log| && log[commands[i].number - 1] == commands[i]
  }

  /** The two do not ask the same operation of the same instance. */
  predicate Differ(a: Command, b: Command) { a.instance != b.instance || a.op != b.op }

  predicate Distinct(queue: seq<Command>) { forall i, j :: 0 <= i < j < |queue| ==> Differ(queue[i], queue[j]) }

  /** Nothing issued after a command that is still queued asks the same as it does. */
  predicate Exclusive(queue: seq<Command>, log: seq<Command>) {
    forall i, k :: 0 <= i < |queue| && queue[i].number <= k < |log| ==> Differ(queue[i], log[k])
  }

  predicate Numbered(log: seq<Command>) { forall i :: 0 <= i < |log| ==> log[i].number == i + 1 }

  /** A queue holds commands of the log, in order, and what it holds was not issued again. */
  predicate LaneOk(queue: seq<Command>, log: seq<Command>) {
    Numbered(log) && From(queue, log) && Increasing(queue) && Exclusive(queue, log)
  }

  lemma LaneDistinct(queue: seq<Command>, log: seq<Command>)
    requires LaneOk(queue, log)
    ensures Distinct(queue)
  {
    forall i, j | 0 <= i < j < |queue| ensures Differ(queue[i], queue[j]) {
      assert Differ(queue[i], log[queue[j].number - 1]);
    }
  }

  lemma LaneAppend(queue: seq<Command>, log: seq<Command>, op: Op, instance: string)
    requires LaneOk(queue, log) && !Asked(queue, op, instance)
    ensures var command := Command(|log| + 1, op, instance); LaneOk(queue + [command], log + [command])
  {
  }

  /** `q` is `p` with the same commands appended to the queue and the log of one node. */
  ghost predicate Extends(p: Registered, q: Registered, node: string, added: seq<Command>) {
    && Queue(q, node) == Queue(p, node) + added
    && Log(q, node) == Log(p, node) + added
    && q.instances == p.instances
    && (forall other :: other != node ==> Queue(q, other) == Queue(p, other) && Log(q, other) == Log(p, other))
  }

  lemma EnqueuedExtends(p: Registered, node: string, decl: Decl, reports: seq<Report>) returns (added: seq<Command>)
    requires LaneOk(Queue(p, node), Log(p, node))
    ensures Extends(p, Enqueued(p, node, decl, reports), node, added)
    ensures LaneOk(Queue(p, node) + added, Log(p, node) + added)
  {
    var op := DesiredCommand(decl, FindReport(reports, decl.id), Queue(p, node));
    added := [];
    if op.Some? {
      LaneAppend(Queue(p, node), Log(p, node), op.value, decl.id);
      added := [Command(|Log(p, node)| + 1, op.value, decl.id)];
    } else {
      assert Queue(p, node) + added == Queue(p, node) && Log(p, node) + added == Log(p, node);
    }
  }

  lemma ExtendsTwice(p: Registered, q: Registered, r: Registered, node: string, first: seq<Command>,
                     second: seq<Command>)
    requires Extends(p, q, node, first) && Extends(q, r, node, second)
    ensures Extends(p, r, node, first + second)
  {
    assert Queue(p, node) + first + second == Queue(p, node) + (first + second);
    assert Log(p, node) + first + second == Log(p, node) + (first + second);
  }

  /** A reconcile appends the same commands to the node's queue and log and touches no other node. */
  lemma {:induction false} EnqueuedAllExtends(p: Registered, node: string, declared: seq<Decl>, reports: seq<Report>)
    returns (added: seq<Command>)
    requires LaneOk(Queue(p, node), Log(p, node))
    ensures Extends(p, EnqueuedAll(p, node, declared, reports), node, added)
    ensures LaneOk(Queue(p, node) + added, Log(p, node) + added)
    decreases |declared|
  {
    if declared == [] {
      added := [];
      assert Queue(p, node) + added == Queue(p, node) && Log(p, node) + added == Log(p, node);
    } else {
      var k := |declared| - 1;
      var first := EnqueuedAllExtends(p, node, declared[..k], reports);
      var before := EnqueuedAll(p, node, declared[..k], reports);
      var second := EnqueuedExtends(before, node, declared[k], reports);
      added := first + second;
      ExtendsTwice(p, before, EnqueuedAll(p, node, declared, reports), node, first, second);
    }
  }

  lemma LaneTail(queue: seq<Command>, log: seq<Command>)
    requires LaneOk(queue, log) && queue != []
    ensures LaneOk(queue[1..], log)
  {
  }

  lemma LaneCons(c: Command, queue: seq<Command>, kept: seq<Command>, log: seq<Command>)
    requires LaneOk([c] + queue, log) && LaneOk(kept, log) && (forall d :: d in kept ==> d in queue)
    ensures LaneOk([c] + kept, log)
  {
    var all := [c] + queue;
    assert all[0] == c;
    forall j | 0 <= j < |kept| ensures c.number < kept[j].number {
      assert kept[j] in queue;
      var i :| 0 <= i < |queue| && queue[i] == kept[j];
      assert all[i + 1] == kept[j];
    }
    assert From([c], log);
  }

  lemma {:induction false} WithoutKeeps(queue: seq<Command>, number: nat, log: seq<Command>)
    requires LaneOk(queue, log)
    ensures LaneOk(Without(queue, number), log)
    ensures forall c :: c in Without(queue, number) <==> c in queue && c.number != number
  {
    if queue != [] {
      LaneTail(queue, log);
      WithoutKeeps(queue[1..], number, log);
      assert queue == [queue[0]] + queue[1..];
      LaneCons(queue[0], queue[1..], Without(queue[1..], number), log);
    }
  }
}
