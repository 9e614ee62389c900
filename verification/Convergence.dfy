/**
 * Rounds of heartbeat, execution and acknowledgement in which nothing is lost,
 * spawns and admin posts succeed and no process crashes: how fast the managed
 * instances of a node come to agree with what the plane desires.
 */
module Convergence {
  import opened Json
  import opened Numbers
  import Supervisor
  import opened Plane
  import opened Agent
  import opened Protocol

  // ---------- one instance ----------

  /** Addresses are found and spawns succeed; a post is accepted exactly while a child is held. */
  function Helpful(s: Supervisor.Supervised): Supervisor.World {
    Supervisor.World(true, true, s.child, false, Supervisor.Unreachable)
  }

  const GOOD := Supervisor.World(true, true, true, false, Supervisor.Unreachable)

  /** At rest, with a known admin address for every child. */
  predicate Calm(s: Supervisor.Supervised) { Supervisor.Settled(s) && (s.child ==> s.admin) }

  /** Desired `stopped` is met by a stopped or a failed instance. */
  predicate Agrees(desired: Supervisor.Desired, state: Supervisor.InstanceState) {
    match desired
    case DesiredRunning => state == Supervisor.Running
    case DesiredPaused => state == Supervisor.Paused
    case DesiredStopped => state == Supervisor.Stopped || state == Supervisor.Failed
  }

  function Drained(now: Supervisor.Supervised, mailbox: seq<Op>): Supervisor.Supervised
    decreases |mailbox|
  {
    if mailbox == [] then now else Drained(Supervisor.Handled(now, mailbox[0], Helpful(now)), mailbox[1..])
  }

  lemma {:induction false} DrainedCalm(now: Supervisor.Supervised, mailbox: seq<Op>)
    requires Calm(now)
    ensures Calm(Drained(now, mailbox))
    decreases |mailbox|
  {
    if mailbox != [] { DrainedCalm(Supervisor.Handled(now, mailbox[0], Helpful(now)), mailbox[1..]); }
  }

  /** The operations one round sends to an instance in this state. */
  function OpsNeeded(desired: Supervisor.Desired, state: Supervisor.InstanceState): seq<Op> {
    var op := DesiredOp(desired, state);
    if op.Some? then [op.value] else []
  }

  function Moved(desired: Supervisor.Desired, s: Supervisor.Supervised): Supervisor.Supervised {
    Drained(s, OpsNeeded(desired, s.state))
  }

  lemma MovedOnce(desired: Supervisor.Desired, s: Supervisor.Supervised)
    requires Calm(s)
    ensures Calm(Moved(desired, s))
    ensures var op := DesiredOp(desired, s.state);
            Moved(desired, s) == if op.Some? then Supervisor.Handled(s, op.value, Helpful(s)) else s
  {
    var ops := OpsNeeded(desired, s.state);
    DrainedCalm(s, ops);
    if ops != [] {
      var next := Supervisor.Handled(s, ops[0], Helpful(s));
      assert ops[1..] == [] && Drained(next, []) == next;
    }
  }

  /** Agreement is reached within two moves; exactly a settled instance that agrees needs no operation. */
  lemma MovedTwiceAgrees(desired: Supervisor.Desired, s: Supervisor.Supervised)
    requires Calm(s)
    ensures Agrees(desired, Moved(desired, Moved(desired, s)).state)
    ensures Agrees(desired, s.state) <==> OpsNeeded(desired, s.state) == []
  {
    MovedOnce(desired, s);
    MovedOnce(desired, Moved(desired, s));
  }

  /** A launch ends in its desired state. */
  lemma LaunchAgrees(admin: bool, desired: Supervisor.Desired)
    ensures Calm(Supervisor.Launched(admin, desired, GOOD))
    ensures Agrees(desired, Supervisor.Launched(admin, desired, GOOD).state)
  {
  }

  // ---------- what a reconcile sends ----------

  /** The operations sent to one instance by a list of commands. */
  function OpsFor(commands: seq<Command>, id: string): seq<Op> {
    if commands == [] then []
    else if commands[0].instance == id then [commands[0].op] + OpsFor(commands[1..], id)
    else OpsFor(commands[1..], id)
  }

  lemma {:induction false} OpsForAppend(commands: seq<Command>, c: Command, id: string)
    ensures OpsFor(commands + [c], id) == OpsFor(commands, id) + if c.instance == id then [c.op] else []
  {
    if commands == [] {
      assert ([] + [c])[1..] == [];
    } else {
      assert (commands + [c])[1..] == commands[1..] + [c];
      OpsForAppend(commands[1..], c, id);
    }
  }

  lemma {:induction false} OpsForAsked(commands: seq<Command>, id: string, op: Op)
    requires OpsFor(commands, id) == []
    ensures !Asked(commands, op, id)
  {
    if commands != [] {
      OpsForAsked(commands[1..], id, op);
      forall i | 0 <= i < |commands| ensures commands[i].op != op || commands[i].instance != id {
        assert i > 0 ==> commands[1..][i - 1] == commands[i];
      }
    }
  }

  /** The reports give the state of every manager and of nothing else. */
  predicate Faithful(reports: seq<Report>, managers: map<string, Manager>) {
    && (forall i :: 0 <= i < |reports| ==>
          reports[i].id in managers && reports[i].state == managers[reports[i].id].now.state)
    && (forall id :: id in managers ==> exists i :: 0 <= i < |reports| && reports[i].id == id)
  }

  lemma {:induction false} FindReportFacts(reports: seq<Report>, id: string)
    ensures FindReport(reports, id).None? <==> forall i :: 0 <= i < |reports| ==> reports[i].id != id
    ensures FindReport(reports, id).Some? ==>
              FindReport(reports, id).value in reports && FindReport(reports, id).value.id == id
  {
    if reports != [] {
      FindReportFacts(reports[1..], id);
      assert reports == [reports[0]] + reports[1..];
    }
  }

  /** What the plane sends to a declared instance, given the managers. */
  function Wanted(decl: Decl, managers: map<string, Manager>): seq<Op> {
    if decl.id in managers then OpsNeeded(decl.desired, managers[decl.id].now.state) else []
  }

  ghost predicate DistinctIds(declared: seq<Decl>) {
    forall i, j :: 0 <= i < j < |declared| ==> declared[i].id != declared[j].id
  }

  lemma EnqueuedOps(p: Registered, node: string, decl: Decl, reports: seq<Report>, managers: map<string, Manager>,
                    id: string)
    requires Faithful(reports, managers)
    requires decl.id == id ==> OpsFor(Queue(p, node), id) == []
    ensures OpsFor(Queue(Enqueued(p, node, decl, reports), node), id)
            == OpsFor(Queue(p, node), id) + if decl.id == id then Wanted(decl, managers) else []
  {
    var op := DesiredCommand(decl, FindReport(reports, decl.id), Queue(p, node));
    if op.Some? {
      OpsForAppend(Queue(p, node), Command(|Log(p, node)| + 1, op.value, decl.id), id);
    }
    if decl.id == id {
      if id in managers {
        CommandWanted(p, node, decl, reports, managers);
      } else {
        Unreported(reports, managers, id);
      }
    }
  }

  lemma Unreported(reports: seq<Report>, managers: map<string, Manager>, id: string)
    requires Faithful(reports, managers) && id !in managers
    ensures FindReport(reports, id).None?
  {
    FindReportFacts(reports, id);
  }

  /** Where nothing is queued for it, a declared instance with a manager gets the operation it needs. */
  lemma CommandWanted(p: Registered, node: string, decl: Decl, reports: seq<Report>, managers: map<string, Manager>)
    requires Faithful(reports, managers) && decl.id in managers && OpsFor(Queue(p, node), decl.id) == []
    ensures DesiredCommand(decl, FindReport(reports, decl.id), Queue(p, node))
         == DesiredOp(decl.desired, managers[decl.id].now.state)
  {
    FindReportFacts(reports, decl.id);
    var needed := DesiredOp(decl.desired, managers[decl.id].now.state);
    if needed.Some? { OpsForAsked(Queue(p, node), decl.id, needed.value); }
  }

  /** From an empty queue, an instance that is not declared gets nothing. */
  lemma {:induction false} OpsForUndeclared(p: Registered, node: string, declared: seq<Decl>, reports: seq<Report>,
                                            managers: map<string, Manager>, id: string)
    requires Faithful(reports, managers) && Queue(p, node) == []
    requires forall i :: 0 <= i < |declared| ==> declared[i].id != id
    ensures OpsFor(Queue(EnqueuedAll(p, node, declared, reports), node), id) == []
    decreases |declared|
  {
    if declared != [] {
      var k := |declared| - 1;
      OpsForUndeclared(p, node, declared[..k], reports, managers, id);
      EnqueuedOps(EnqueuedAll(p, node, declared[..k], reports), node, declared[k], reports, managers, id);
    }
  }

  /** From an empty queue, a declared instance gets exactly the operation it needs. */
  lemma {:induction false} OpsForDeclared(p: Registered, node: string, declared: seq<Decl>, reports: seq<Report>,
                                          managers: map<string, Manager>, i: nat)
    requires Faithful(reports, managers) && Queue(p, node) == []
    requires i < |declared| && DistinctIds(declared)
    ensures OpsFor(Queue(EnqueuedAll(p, node, declared, reports), node), declared[i].id) ==
              Wanted(declared[i], managers)
    decreases |declared|
  {
    var k := |declared| - 1;
    if i < k {
      OpsForDeclared(p, node, declared[..k], reports, managers, i);
    } else {
      OpsForUndeclared(p, node, declared[..k], reports, managers, declared[i].id);
    }
    EnqueuedOps(EnqueuedAll(p, node, declared[..k], reports), node, declared[k], reports, managers, declared[i].id);
  }

  // ---------- what an agent passes on ----------

  function ToldAll(managers: map<string, Manager>, commands: seq<Command>): map<string, Manager>
    decreases |commands|
  {
    if commands == [] then managers else ToldAll(Told(managers, commands[0]), commands[1..])
  }

  lemma {:induction false} ToldAllAt(managers: map<string, Manager>, commands: seq<Command>, id: string)
    ensures id in ToldAll(managers, commands) <==> id in managers
    ensures id in managers ==>
      ToldAll(managers, commands)[id] == managers[id].(mailbox := managers[id].mailbox + OpsFor(commands, id))
    decreases |commands|
  {
    if commands != [] {
      ToldAllAt(Told(managers, commands[0]), commands[1..], id);
    }
  }

  /** The node's agent executes everything it received; each acknowledgement arrives. */
  function WorkedOff(s: System, node: string): (t: System)
    ensures t.plane.instances == s.plane.instances && AgentOf(t, node).inbox == []
    decreases |AgentOf(s, node).inbox|
  {
    if AgentOf(s, node).inbox == [] then s
    else
      var number := AgentOf(s, node).inbox[0].number;
      WorkedOff(Next(Next(s, Execute(node)), Deliver(number)), node)
  }

  lemma {:induction false} WithoutAbsent(queue: seq<Command>, number: nat)
    requires forall i :: 0 <= i < |queue| ==> queue[i].number > number
    ensures Without(queue, number) == queue
  {
    if queue != [] { WithoutAbsent(queue[1..], number); }
  }

  lemma WithoutHead(queue: seq<Command>)
    requires Increasing(queue) && queue != []
    ensures Without(queue, queue[0].number) == queue[1..]
  {
    WithoutAbsent(queue[1..], queue[0].number);
  }

  lemma WorkedOffOnce(s: System, node: string)
    requires AgentOf(s, node).inbox != [] && AgentOf(s, node).inbox == Queue(s.plane, node)
    requires Increasing(Queue(s.plane, node))
    ensures var number := AgentOf(s, node).inbox[0].number;
            var t := Next(Next(s, Execute(node)), Deliver(number));
            && t.plane.instances == s.plane.instances && t.plane.log == s.plane.log
            && Queue(t.plane, node) == Queue(s.plane, node)[1..] == AgentOf(t, node).inbox
            && AgentOf(t, node).last == Max(AgentOf(s, node).last, number)
            && AgentOf(t, node).managers == Told(AgentOf(s, node).managers, AgentOf(s, node).inbox[0])
  {
    WithoutHead(Queue(s.plane, node));
  }

  /** Working off a queue empties it and passes every command on. */
  lemma {:induction false} WorkedOffFacts(s: System, node: string, issued: nat)
    requires AgentOf(s, node).inbox == Queue(s.plane, node) && Increasing(Queue(s.plane, node))
    requires AgentOf(s, node).last <= issued
    requires forall i :: 0 <= i < |Queue(s.plane, node)| ==> Queue(s.plane, node)[i].number <= issued
    ensures var t := WorkedOff(s, node);
            && t.plane.instances == s.plane.instances && t.plane.log == s.plane.log
            && Queue(t.plane, node) == [] == AgentOf(t, node).inbox
            && AgentOf(t, node).last <= issued
            && AgentOf(t, node).managers == ToldAll(AgentOf(s, node).managers, Queue(s.plane, node))
    decreases |AgentOf(s, node).inbox|
  {
    var inbox := AgentOf(s, node).inbox;
    if inbox != [] {
      WorkedOffOnce(s, node);
      WorkedOffFacts(Next(Next(s, Execute(node)), Deliver(inbox[0].number)), node, issued);
    }
  }

  // ---------- one round ----------

  function DrainedAll(managers: map<string, Manager>): map<string, Manager> {
    map id | id in managers :: Manager(Drained(managers[id].now, managers[id].mailbox), [])
  }

  function Managed(s: System, node: string, order: seq<string>): map<string, Manager>
    requires IsOrder(order, s.plane.instances.Keys)
  {
    Reconciled(DrainedAll(AgentOf(s, node).managers), DeclaredFor(s.plane.instances, node, order), GOOD)
  }

  /** Heartbeat, execution with acknowledgements, and the managers acting: steps of the system. */
  function Round(s: System, node: string, reports: seq<Report>, order: seq<string>): (t: System)
    requires IsOrder(order, s.plane.instances.Keys) && AgentOf(s, node).inbox == []
    ensures t.plane.instances == s.plane.instances && AgentOf(t, node).inbox == []
  {
    var done := WorkedOff(Next(s, Heartbeat(node, reports, order, true)), node);
    Next(done, Manage(node, Managed(done, node, order)))
  }

  /** Every declaration is kept under its own id. */
  predicate Keyed(instances: map<string, Decl>) { forall id :: id in instances ==> instances[id].id == id }

  /** The instances declared on a node. */
  predicate Declared(s: System, node: string, id: string) {
    id in s.plane.instances && s.plane.instances[id].node == node
  }

  predicate AtRest(m: Manager) { m.mailbox == [] && Calm(m.now) }

  /** Between rounds: nothing received is unexecuted, no executed command is still queued, every manager is at rest. */
  ghost predicate Ready(s: System, node: string) {
    && Keyed(s.plane.instances)
    && AgentOf(s, node).inbox == []
    && LaneOk(Queue(s.plane, node), Log(s.plane, node))
    && AgentOf(s, node).last <= |Log(s.plane, node)|
    && (forall i :: 0 <= i < |Queue(s.plane, node)| ==> Queue(s.plane, node)[i].number > AgentOf(s, node).last)
    && (forall id :: id in AgentOf(s, node).managers ==> AtRest(AgentOf(s, node).managers[id]))
  }

  lemma {:induction false} AboveAll(commands: seq<Command>, last: nat)
    requires forall i :: 0 <= i < |commands| ==> commands[i].number > last
    ensures Above(commands, last) == commands
  {
    if commands != [] { AboveAll(commands[1..], last); }
  }

  lemma {:induction false} DeclaredForFacts(instances: map<string, Decl>, node: string, order: seq<string>)
    requires Keyed(instances) && forall i :: 0 <= i < |order| ==> order[i] in instances
    requires forall i, j :: 0 <= i < j < |order| ==> order[i] != order[j]
    ensures var declared := DeclaredFor(instances, node, order);
            && DistinctIds(declared)
            && (forall i :: 0 <= i < |declared| ==> declared[i].id in order && declared[i] == instances[declared[i].id])
            && (forall i :: 0 <= i < |declared| ==> declared[i].node == node)
    decreases |order|
  {
    if order != [] {
      DeclaredForFacts(instances, node, order[..|order| - 1]);
    }
  }

  lemma {:induction false} DeclaredForLists(instances: map<string, Decl>, node: string, order: seq<string>, id: string)
    returns (i: nat)
    requires forall i :: 0 <= i < |order| ==> order[i] in instances
    requires id in order && instances[id].node == node
    ensures i < |DeclaredFor(instances, node, order)| && DeclaredFor(instances, node, order)[i] == instances[id]
    decreases |order|
  {
    var k := |order| - 1;
    if order[k] == id {
      i := |DeclaredFor(instances, node, order[..k])|;
    } else {
      assert order == order[..k] + [order[k]];
      i := DeclaredForLists(instances, node, order[..k], id);
    }
  }

  /** The state of the system when the commands of a round are worked off. */
  /** The queue after a heartbeat: in order, new to the agent, and numbered as issued. */
  lemma BeatenLane(p: Registered, node: string, reports: seq<Report>, order: seq<string>, last: nat)
    requires LaneOk(Queue(p, node), Log(p, node)) && IsOrder(order, p.instances.Keys) && last <= |Log(p, node)|
    requires forall i :: 0 <= i < |Queue(p, node)| ==> Queue(p, node)[i].number > last
    ensures var q := Beaten(p, node, reports, order);
            && q.instances == p.instances && |Log(q, node)| >= |Log(p, node)| && Numbered(Log(q, node))
            && Increasing(Queue(q, node))
            && (forall i :: 0 <= i < |Queue(q, node)| ==> last < Queue(q, node)[i].number <= |Log(q, node)|)
  {
    var added := BeatenExtends(p, node, reports, order);
    NewNumbersAbove(Queue(p, node), Log(p, node), added, last);
  }

  lemma NewNumbersAbove(queue: seq<Command>, log: seq<Command>, added: seq<Command>, last: nat)
    requires Numbered(log + added) && last <= |log| && forall i :: 0 <= i < |queue| ==> queue[i].number > last
    ensures forall i :: 0 <= i < |queue + added| ==> (queue + added)[i].number > last
  {
    forall i | 0 <= i < |queue + added| ensures (queue + added)[i].number > last {
      if i >= |queue| { assert (log + added)[|log| + i - |queue|] == (queue + added)[i]; }
    }
  }

  lemma RoundWorkedOff(s: System, node: string, reports: seq<Report>, order: seq<string>)
    requires Ready(s, node) && IsOrder(order, s.plane.instances.Keys)
    ensures var queue := Queue(Beaten(s.plane, node, reports, order), node);
            var t := Round(s, node, reports, order);
            && t.plane.instances == s.plane.instances
            && Log(t.plane, node) == Log(Beaten(s.plane, node, reports, order), node)
            && Numbered(Log(t.plane, node)) && AgentOf(t, node).last <= |Log(t.plane, node)|
            && Queue(t.plane, node) == [] == AgentOf(t, node).inbox
            && AgentOf(t, node).managers ==
               Reconciled(DrainedAll(ToldAll(AgentOf(s, node).managers, queue)),
                          DeclaredFor(s.plane.instances, node, order), GOOD)
  {
    BeatenLane(s.plane, node, reports, order, AgentOf(s, node).last);
    var plane := Beaten(s.plane, node, reports, order);
    AboveAll(Queue(plane, node), AgentOf(s, node).last);
    WorkedOffFacts(Next(s, Heartbeat(node, reports, order, true)), node, |Log(plane, node)|);
  }

  /** What one round makes of a declared instance: it gets what was queued for it, or is launched. */
  lemma RoundAt(s: System, node: string, reports: seq<Report>, order: seq<string>, id: string)
    requires Ready(s, node) && IsOrder(order, s.plane.instances.Keys) && Declared(s, node, id)
    ensures var queue := Queue(Beaten(s.plane, node, reports, order), node);
            var before, after := AgentOf(s, node).managers, AgentOf(Round(s, node, reports, order), node).managers;
            && id in after
            && after[id] == if id in before then Manager(Drained(before[id].now, OpsFor(queue, id)), [])
                            else Launch(s.plane.instances[id], GOOD)
  {
    var queue := Queue(Beaten(s.plane, node, reports, order), node);
    var managers := AgentOf(s, node).managers;
    RoundWorkedOff(s, node, reports, order);
    ToldAllAt(managers, queue, id);
    var declared := DeclaredFor(s.plane.instances, node, order);
    DeclaredForFacts(s.plane.instances, node, order);
    var i := DeclaredForLists(s.plane.instances, node, order, id);
    assert declared[i].id == id;
    var drained := DrainedAll(ToldAll(managers, queue));
    if id in managers {
      assert [] + OpsFor(queue, id) == OpsFor(queue, id);
      ReconciledAt(drained, declared, GOOD, id);
    } else {
      ReconciledLaunches(drained, declared, GOOD, i);
    }
  }

  /** After a round the node manages exactly its declared instances. */
  lemma RoundManagesDeclared(s: System, node: string, reports: seq<Report>, order: seq<string>, id: string)
    requires Ready(s, node) && IsOrder(order, s.plane.instances.Keys)
    ensures id in AgentOf(Round(s, node, reports, order), node).managers <==> Declared(s, node, id)
  {
    RoundWorkedOff(s, node, reports, order);
    var queue := Queue(Beaten(s.plane, node, reports, order), node);
    var drained := DrainedAll(ToldAll(AgentOf(s, node).managers, queue));
    var declared := DeclaredFor(s.plane.instances, node, order);
    DeclaredForFacts(s.plane.instances, node, order);
    ReconciledAt(drained, declared, GOOD, id);
    if Declared(s, node, id) {
      var i := DeclaredForLists(s.plane.instances, node, order, id);
      assert declared[i].id == id;
    }
  }

  /** A round leaves the node ready for the next, with an empty queue. */
  lemma RoundReady(s: System, node: string, reports: seq<Report>, order: seq<string>)
    requires Ready(s, node) && IsOrder(order, s.plane.instances.Keys)
    ensures var t := Round(s, node, reports, order); Ready(t, node) && Queue(t.plane, node) == []
  {
    RoundWorkedOff(s, node, reports, order);
    var t := Round(s, node, reports, order);
    forall id | id in AgentOf(t, node).managers ensures AtRest(AgentOf(t, node).managers[id]) {
      RoundManagesDeclared(s, node, reports, order, id);
      RoundAt(s, node, reports, order, id);
      if id in AgentOf(s, node).managers {
        DrainedCalm(AgentOf(s, node).managers[id].now, OpsFor(Queue(Beaten(s.plane, node, reports, order), node), id));
      } else {
        LaunchAgrees(s.plane.instances[id].admin, s.plane.instances[id].desired);
      }
    }
  }

  /** From an empty queue, a round moves each managed instance once toward its desired state. */
  lemma RoundMoves(s: System, node: string, reports: seq<Report>, order: seq<string>, id: string)
    requires Ready(s, node) && IsOrder(order, s.plane.instances.Keys) && Queue(s.plane, node) == []
    requires Faithful(reports, AgentOf(s, node).managers)
    requires Declared(s, node, id) && id in AgentOf(s, node).managers
    ensures var t := Round(s, node, reports, order);
            && id in AgentOf(t, node).managers
            && AgentOf(t, node).managers[id].now ==
                 Moved(s.plane.instances[id].desired, AgentOf(s, node).managers[id].now)
  {
    RoundAt(s, node, reports, order, id);
    DeclaredForFacts(s.plane.instances, node, order);
    var i := DeclaredForLists(s.plane.instances, node, order, id);
    var reported := s.plane.(actual := s.plane.actual[node := reports]);
    OpsForDeclared(reported, node, DeclaredFor(s.plane.instances, node, order), reports, AgentOf(s, node).managers, i);
  }

  // ---------- convergence ----------

  /** The instance is managed and agrees with its desired state. */
  predicate InAgreement(s: System, node: string, id: string) {
    && id in s.plane.instances && id in AgentOf(s, node).managers
    && Agrees(s.plane.instances[id].desired, AgentOf(s, node).managers[id].now.state)
  }

  /**
   * From any settled state with an empty queue, two rounds bring every
   * declared instance of the node into agreement.
   */
  lemma TwoRoundsAgree(s: System, node: string, reports: seq<Report>, order: seq<string>,
                       reports': seq<Report>, order': seq<string>, id: string)
    requires Ready(s, node) && Queue(s.plane, node) == [] && Declared(s, node, id)
    requires IsOrder(order, s.plane.instances.Keys) && Faithful(reports, AgentOf(s, node).managers)
    requires IsOrder(order', s.plane.instances.Keys)
    requires Faithful(reports', AgentOf(Round(s, node, reports, order), node).managers)
    ensures var t := Round(s, node, reports, order);
            InAgreement(Round(t, node, reports', order'), node, id)
  {
    RoundWorkedOff(s, node, reports, order);
    RoundReady(s, node, reports, order);
    var t := Round(s, node, reports, order);
    RoundWorkedOff(t, node, reports', order');
    RoundAt(s, node, reports, order, id);
    RoundMoves(t, node, reports', order', id);
    var decl := s.plane.instances[id];
    if id in AgentOf(s, node).managers {
      RoundMoves(s, node, reports, order, id);
      MovedTwiceAgrees(decl.desired, AgentOf(s, node).managers[id].now);
    } else {
      LaunchAgrees(decl.admin, decl.desired);
      MovedTwiceAgrees(decl.desired, AgentOf(t, node).managers[id].now);
      MovedOnce(decl.desired, AgentOf(t, node).managers[id].now);
    }
  }

  /** Commands left over in the queue cost one round more: afterwards the queue is empty. */
  lemma ThreeRoundsAgree(s: System, node: string, reports: seq<Report>, order: seq<string>, reports': seq<Report>,
                         order': seq<string>,
                         reports'': seq<Report>, order'': seq<string>, id: string)
    requires Ready(s, node) && Declared(s, node, id)
    requires IsOrder(order, s.plane.instances.Keys) && IsOrder(order', s.plane.instances.Keys)
    requires IsOrder(order'', s.plane.instances.Keys)
    requires Faithful(reports', AgentOf(Round(s, node, reports, order), node).managers)
    requires Faithful(reports'', AgentOf(Round(Round(s, node, reports, order), node, reports', order'), node).managers)
    ensures InAgreement(Round(Round(Round(s, node, reports, order), node, reports', order'), node, reports'', order''),
                        node, id)
  {
    RoundWorkedOff(s, node, reports, order);
    RoundReady(s, node, reports, order);
    TwoRoundsAgree(Round(s, node, reports, order), node, reports', order', reports'', order'', id);
  }

  /** In agreement, a round issues nothing and changes nothing. */
  lemma AgreementIsFinal(s: System, node: string, reports: seq<Report>, order: seq<string>)
    requires Ready(s, node) && Queue(s.plane, node) == []
    requires IsOrder(order, s.plane.instances.Keys) && Faithful(reports, AgentOf(s, node).managers)
    requires forall id :: Declared(s, node, id) ==> InAgreement(s, node, id)
    requires forall id :: id in AgentOf(s, node).managers ==> Declared(s, node, id)
    ensures var t := Round(s, node, reports, order);
            && Log(t.plane, node) == Log(s.plane, node) && Queue(t.plane, node) == []
            && AgentOf(t, node).managers == AgentOf(s, node).managers
  {
    NothingQueued(s, node, reports, order);
    RoundWorkedOff(s, node, reports, order);
    var t := Round(s, node, reports, order);
    forall id ensures id in AgentOf(t, node).managers <==> id in AgentOf(s, node).managers {
      RoundManagesDeclared(s, node, reports, order, id);
    }
    forall id | id in AgentOf(s, node).managers ensures AgentOf(t, node).managers[id] == AgentOf(s, node).managers[id] {
      assert Declared(s, node, id);
      RoundAt(s, node, reports, order, id);
    }
  }

  lemma NothingQueued(s: System, node: string, reports: seq<Report>, order: seq<string>)
    requires Ready(s, node) && Queue(s.plane, node) == []
    requires IsOrder(order, s.plane.instances.Keys) && Faithful(reports, AgentOf(s, node).managers)
    requires forall id :: Declared(s, node, id) ==> InAgreement(s, node, id)
    ensures var p := Beaten(s.plane, node, reports, order); Queue(p, node) == [] && Log(p, node) == Log(s.plane, node)
  {
    var managers := AgentOf(s, node).managers;
    var reported := s.plane.(actual := s.plane.actual[node := reports]);
    var declared := DeclaredFor(s.plane.instances, node, order);
    var added := EnqueuedAllExtends(reported, node, declared, reports);
    DeclaredForFacts(s.plane.instances, node, order);
    if added != [] {
      var id := added[0].instance;
      if i: nat :| i < |declared| && declared[i].id == id {
        OpsForDeclared(reported, node, declared, reports, managers, i);
        assert Declared(s, node, id) && InAgreement(s, node, id);
        MovedTwiceAgrees(declared[i].desired, managers[id].now);
        assert false;
      } else {
        OpsForUndeclared(reported, node, declared, reports, managers, id);
        assert false;
      }
    }
  }

  // ---------- changes of mind ----------

  /** A change of declarations alone leaves a node ready. */
  lemma StillReady(s: System, node: string, instances: map<string, Decl>)
    requires Ready(s, node) && Keyed(instances)
    ensures Ready(s.(plane := s.plane.(instances := instances)), node)
  {
  }

  /** Two rounds after an instance is declared, or declared anew, it is managed and in the declared state. */
  lemma DeclaredConverges(s: System, node: string, decl: Decl, reports: seq<Report>, order: seq<string>,
                          reports': seq<Report>, order': seq<string>)
    requires Ready(s, node) && Queue(s.plane, node) == [] && decl.node == node
    requires var keys := s.plane.instances.Keys + {decl.id}; IsOrder(order, keys) && IsOrder(order', keys)
    requires Faithful(reports, AgentOf(s, node).managers)
    requires Faithful(reports', AgentOf(Round(Next(s, Declare(decl)), node, reports, order), node).managers)
    ensures var u := Round(Round(Next(s, Declare(decl)), node, reports, order), node, reports', order');
            decl.id in AgentOf(u, node).managers && Agrees(decl.desired, AgentOf(u, node).managers[decl.id].now.state)
  {
    StillReady(s, node, s.plane.instances[decl.id := decl]);
    TwoRoundsAgree(Next(s, Declare(decl)), node, reports, order, reports', order', decl.id);
  }

  /** Two rounds after the desired state of an instance is changed, the instance is in it. */
  lemma DesiredChangeConverges(s: System, node: string, id: string, desired: Supervisor.Desired,
                               reports: seq<Report>, order: seq<string>, reports': seq<Report>, order': seq<string>)
    requires Ready(s, node) && Queue(s.plane, node) == [] && Declared(s, node, id)
    requires IsOrder(order, s.plane.instances.Keys) && IsOrder(order', s.plane.instances.Keys)
    requires Faithful(reports, AgentOf(s, node).managers)
    requires Faithful(reports', AgentOf(Round(Next(s, SetDesired(id, desired)), node, reports, order), node).managers)
    ensures var u := Round(Round(Next(s, SetDesired(id, desired)), node, reports, order), node, reports', order');
            id in AgentOf(u, node).managers && Agrees(desired, AgentOf(u, node).managers[id].now.state)
  {
    StillReady(s, node, WithDesired(s.plane, id, desired).instances);
    TwoRoundsAgree(Next(s, SetDesired(id, desired)), node, reports, order, reports', order', id);
  }

  /** One round after an instance is removed it is no longer managed, and every other declared one still is. */
  lemma RemovedIsDropped(s: System, node: string, id: string, reports: seq<Report>, order: seq<string>, other: string)
    requires Ready(s, node) && IsOrder(order, s.plane.instances.Keys - {id})
    ensures var managers := AgentOf(Round(Next(s, Remove(id)), node, reports, order), node).managers;
            id !in managers && (other != id ==> (other in managers <==> Declared(s, node, other)))
  {
    StillReady(s, node, s.plane.instances - {id});
    RoundManagesDeclared(Next(s, Remove(id)), node, reports, order, id);
    RoundManagesDeclared(Next(s, Remove(id)), node, reports, order, other);
  }

  // ---------- an acknowledgement lets the operation through again ----------

  lemma AskedStays(p: Registered, node: string, decl: Decl, reports: seq<Report>, op: Op, id: string)
    requires Asked(Queue(p, node), op, id)
    ensures Asked(Queue(Enqueued(p, node, decl, reports), node), op, id)
  {
    var i :| 0 <= i < |Queue(p, node)| && Queue(p, node)[i].op == op && Queue(p, node)[i].instance == id;
    assert Queue(Enqueued(p, node, decl, reports), node)[i] == Queue(p, node)[i];
  }

  lemma AskedNow(p: Registered, node: string, decl: Decl, reports: seq<Report>, op: Op)
    requires FindReport(reports, decl.id).Some?
    requires DesiredOp(decl.desired, FindReport(reports, decl.id).value.state) == Some(op)
    ensures Asked(Queue(Enqueued(p, node, decl, reports), node), op, decl.id)
  {
    if !Asked(Queue(p, node), op, decl.id) {
      var command := Command(|Log(p, node)| + 1, op, decl.id);
      var queue := Queue(Enqueued(p, node, decl, reports), node);
      assert queue == Queue(p, node) + [command] && queue[|Queue(p, node)|] == command;
    }
  }

  /** After a reconcile every declared instance that was reported to need an operation has asked for it. */
  lemma {:induction false} AskedAfter(p: Registered, node: string, declared: seq<Decl>, reports: seq<Report>, i: nat,
                                      op: Op)
    requires i < |declared| && FindReport(reports, declared[i].id).Some?
    requires DesiredOp(declared[i].desired, FindReport(reports, declared[i].id).value.state) == Some(op)
    ensures Asked(Queue(EnqueuedAll(p, node, declared, reports), node), op, declared[i].id)
    decreases |declared|
  {
    var k := |declared| - 1;
    var before := EnqueuedAll(p, node, declared[..k], reports);
    if i == k {
      AskedNow(before, node, declared[k], reports, op);
    } else {
      AskedAfter(p, node, declared[..k], reports, i, op);
      AskedStays(before, node, declared[k], reports, op, declared[i].id);
    }
  }

  /** What a reconcile adds to a queue has a new number. */
  lemma NewlyAsked(queue: seq<Command>, log: seq<Command>, added: seq<Command>, op: Op, id: string)
    returns (d: Command)
    requires LaneOk(queue + added, log + added) && !Asked(queue, op, id) && Asked(queue + added, op, id)
    ensures d in queue + added && d.op == op && d.instance == id && d.number > |log|
  {
    var all := queue + added;
    var i :| 0 <= i < |all| && all[i].op == op && all[i].instance == id;
    d := all[i];
    assert forall j :: 0 <= j < |queue| ==> all[j] == queue[j];
    assert i >= |queue|;
    assert (log + added)[|log| + i - |queue|] == d;
  }

  lemma OnlyItAsked(queue: seq<Command>, log: seq<Command>, c: Command)
    requires LaneOk(queue, log) && c in queue
    ensures !Asked(Without(queue, c.number), c.op, c.instance)
  {
    WithoutKeeps(queue, c.number, log);
    LaneDistinct(queue, log);
    var rest := Without(queue, c.number);
    forall i | 0 <= i < |rest| ensures rest[i].op != c.op || rest[i].instance != c.instance {
      assert rest[i] in rest;
      var j :| 0 <= j < |queue| && queue[j] == rest[i];
      var k :| 0 <= k < |queue| && queue[k] == c;
      assert Differ(queue[j], queue[k]) || Differ(queue[k], queue[j]);
    }
  }

  /**
   * The converse of the blocking: once an acknowledgement of a queued command's
   * number arrives, the next heartbeat that reports the need has the operation
   * issued again, under a new number.
   */
  lemma AckUnblocks(s: System, node: string, c: Command, reports: seq<Report>, order: seq<string>, arrives: bool)
    returns (d: Command)
    requires Inv(s) && c in Queue(s.plane, node) && c.number in s.acks && IsOrder(order, s.plane.instances.Keys)
    requires Declared(s, node, c.instance) && s.plane.instances[c.instance].id == c.instance
    requires FindReport(reports, c.instance).Some?
    requires DesiredOp(s.plane.instances[c.instance].desired, FindReport(reports, c.instance).value.state) == Some(c.op)
    requires arrives ==> AgentOf(s, node).inbox == []
    ensures var t := Next(Next(s, Deliver(c.number)), Heartbeat(node, reports, order, arrives));
            d in Queue(t.plane, node) && d.op == c.op && d.instance == c.instance && d.number > |Log(s.plane, node)|
  {
    var plane := Next(s, Deliver(c.number)).plane;
    assert NodeOkAt(s, node);
    OnlyItAsked(Queue(s.plane, node), Log(s.plane, node), c);
    WithoutKeeps(Queue(s.plane, node), c.number, Log(s.plane, node));
    d := BeatenAsks(plane, node, reports, order, c.instance, c.op);
  }

  lemma BeatenAsks(p: Registered, node: string, reports: seq<Report>, order: seq<string>, id: string, op: Op)
    returns (d: Command)
    requires LaneOk(Queue(p, node), Log(p, node)) && !Asked(Queue(p, node), op, id)
    requires IsOrder(order, p.instances.Keys) && id in p.instances
    requires p.instances[id].node == node && p.instances[id].id == id && FindReport(reports, id).Some?
    requires DesiredOp(p.instances[id].desired, FindReport(reports, id).value.state) == Some(op)
    ensures d in Queue(Beaten(p, node, reports, order), node) && d.op == op && d.instance == id
    ensures d.number > |Log(p, node)|
  {
    var i := DeclaredForLists(p.instances, node, order, id);
    AskedAfter(p.(actual := p.actual[node := reports]), node, DeclaredFor(p.instances, node, order), reports, i, op);
    var added := BeatenExtends(p, node, reports, order);
    d := NewlyAsked(Queue(p, node), Log(p, node), added, op, id);
  }
}
