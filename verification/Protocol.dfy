/**
 * The plane and its agents as one system: heartbeat responses and
 * acknowledgements may be lost, delayed or repeated, and instances are
 * declared, changed and removed at any time.
 */
module Protocol {
  import opened Plane
  import opened Agent
  import Supervisor
  import Json

  /** `acks` holds the numbers acknowledged by some agent; the network may deliver each any number of times. */
  datatype System = System(plane: Registered, agents: map<string, Working>, acks: set<nat>)

  function AgentOf(s: System, node: string): Working { if node in s.agents then s.agents[node] else IDLE }

  datatype Step =
    | Declare(decl: Decl)
    | SetDesired(id: string, desired: Supervisor.Desired)
    | Remove(id: string)
      /** The plane answers a heartbeat; the answer may be lost. */
    | Heartbeat(node: string, reports: seq<Report>, order: seq<string>, arrives: bool)
      /** The agent executes the next command it received and sends an acknowledgement. */
    | Execute(node: string)
      /** An acknowledgement arrives at the plane. */
    | Deliver(number: nat)
      /** The agent's managers act, or the agent adds and removes managers. */
    | Manage(node: string, managers: map<string, Manager>)

  predicate Enabled(s: System, step: Step) {
    match step
    case Heartbeat(node, _, order, arrives) =>
      IsOrder(order, s.plane.instances.Keys) && (arrives ==> AgentOf(s, node).inbox == [])
    case Execute(node) => AgentOf(s, node).inbox != []
    case Deliver(number) => number in s.acks
    case _ => true
  }

  function Next(s: System, step: Step): System
    requires Enabled(s, step)
  {
    match step
    case Declare(decl) => s.(plane := WithDeclared(s.plane, decl))
    case SetDesired(id, desired) => s.(plane := WithDesired(s.plane, id, desired))
    case Remove(id) => s.(plane := WithRemoved(s.plane, id))
    case Heartbeat(node, reports, order, arrives) =>
      var plane := Beaten(s.plane, node, reports, order);
      if arrives then
        s.(plane := plane, agents := s.agents[node := Received(AgentOf(s, node), Queue(plane, node))])
      else s.(plane := plane)
    case Execute(node) =>
      var a := AgentOf(s, node);
      s.(agents := s.agents[node := Executed(a)], acks := s.acks + {a.inbox[0].number})
    case Deliver(number) => s.(plane := Acked(s.plane, number))
    case Manage(node, managers) => s.(agents := s.agents[node := AgentOf(s, node).(managers := managers)])
  }

  /** A fresh plane with declared instances and no agent heard from. */
  predicate Initial(s: System) {
    s.plane.pending == map[] && s.plane.log == map[] && s.agents == map[] && s.acks == {}
  }

  ghost predicate IsRun(s: System, steps: seq<Step>)
    decreases |steps|
  {
    steps == [] || (Enabled(s, steps[0]) && IsRun(Next(s, steps[0]), steps[1..]))
  }

  function After(s: System, steps: seq<Step>): System
    requires IsRun(s, steps)
    decreases |steps|
  {
    if steps == [] then s else After(Next(s, steps[0]), steps[1..])
  }

  // ---------- the invariant of one node ----------

  predicate Holds(commands: seq<Command>, number: nat) {
    exists i :: 0 <= i < |commands| && commands[i].number == number
  }

  /** The executed commands are issued ones, each executed once, in order, up to number `last`. */
  predicate HandledOk(a: Working, log: seq<Command>) {
    && From(a.handled, log) && Increasing(a.handled)
    && (forall i :: 0 <= i < |a.handled| ==> a.handled[i].number <= a.last)
    && (if a.handled == [] then a.last == 0 else a.handled[|a.handled| - 1].number == a.last)
  }

  /** The received commands are issued ones, in order, and all newer than `last`. */
  predicate InboxOk(a: Working, log: seq<Command>) {
    From(a.inbox, log) && Increasing(a.inbox) && forall i :: 0 <= i < |a.inbox| ==> a.inbox[i].number > a.last
  }

  /** No number up to `last` was passed over, none above it is missing from the queue or from what was received. */
  predicate NoneMissing(a: Working, queue: seq<Command>, issued: nat, elsewhere: set<nat>) {
    && (forall q: nat :: 1 <= q <= a.last ==> Holds(a.handled, q) || q in elsewhere)
    && (forall q: nat :: a.last < q <= issued ==> Holds(queue, q) || q in elsewhere)
    && (forall q: nat :: a.inbox != [] && a.last < q <= a.inbox[|a.inbox| - 1].number ==>
          Holds(a.inbox, q) || q in elsewhere)
  }

  predicate NodeOk(queue: seq<Command>, log: seq<Command>, a: Working, elsewhere: set<nat>) {
    && LaneOk(queue, log) && HandledOk(a, log) && InboxOk(a, log)
    && a.last <= |log| && NoneMissing(a, queue, |log|, elsewhere)
  }

  lemma NodeGrows(queue: seq<Command>, log: seq<Command>, a: Working, elsewhere: set<nat>, added: seq<Command>)
    requires NodeOk(queue, log, a, elsewhere) && LaneOk(queue + added, log + added)
    ensures NodeOk(queue + added, log + added, a, elsewhere)
  {
    var longer := queue + added;
    forall q: nat | a.last < q <= |log + added| ensures Holds(longer, q) || q in elsewhere {
      if q <= |log| {
        if Holds(queue, q) {
          var i :| 0 <= i < |queue| && queue[i].number == q;
          assert longer[i].number == q;
        }
      } else {
        var k := q - |log| - 1;
        assert (log + added)[q - 1] == added[k] == longer[|queue| + k];
      }
    }
    FromGrows(a.handled, log, added);
    FromGrows(a.inbox, log, added);
  }

  lemma FromGrows(commands: seq<Command>, log: seq<Command>, added: seq<Command>)
    requires From(commands, log)
    ensures From(commands, log + added)
  {
  }

  /** Of an ordered queue, the commands above `last` are a suffix. */
  lemma {:induction false} AboveIsSuffix(commands: seq<Command>, last: nat) returns (k: nat)
    requires Increasing(commands)
    ensures k <= |commands| && Above(commands, last) == commands[k..]
    ensures forall i :: 0 <= i < |commands| ==> (commands[i].number > last <==> i >= k)
  {
    if commands == [] {
      k := 0;
    } else {
      k := AboveIsSuffix(commands[1..], last);
      forall i | 1 <= i < |commands| ensures commands[i].number > last <==> i >= k + 1 {
        assert commands[i] == commands[1..][i - 1];
      }
      if commands[0].number <= last {
        k := k + 1;
      } else {
        assert |commands| > 1 ==> commands[1].number > last;
      }
    }
  }

  lemma NodeReceives(queue: seq<Command>, log: seq<Command>, a: Working, elsewhere: set<nat>)
    requires NodeOk(queue, log, a, elsewhere)
    ensures NodeOk(queue, log, Received(a, queue), elsewhere)
  {
    var inbox := Above(queue, a.last);
    var k := AboveIsSuffix(queue, a.last);
    SuffixFrom(queue, k, log);
    SuffixIncreasing(queue, k);
    forall q: nat | inbox != [] && a.last < q <= inbox[|inbox| - 1].number ensures Holds(inbox, q) || q in elsewhere {
      if q !in elsewhere {
        assert Holds(queue, q);
        SuffixHolds(queue, k, q);
      }
    }
  }

  lemma SuffixFrom(commands: seq<Command>, k: nat, log: seq<Command>)
    requires k <= |commands| && From(commands, log)
    ensures From(commands[k..], log)
  {
  }

  lemma SuffixIncreasing(commands: seq<Command>, k: nat)
    requires k <= |commands| && Increasing(commands)
    ensures Increasing(commands[k..])
  {
  }

  lemma SuffixHolds(queue: seq<Command>, k: nat, q: nat)
    requires k <= |queue| && Holds(queue, q) && forall i :: 0 <= i < k ==> queue[i].number != q
    ensures Holds(queue[k..], q)
  {
    var i :| 0 <= i < |queue| && queue[i].number == q;
    assert queue[k..][i - k] == queue[i];
  }

  lemma NodeExecutes(queue: seq<Command>, log: seq<Command>, a: Working, elsewhere: set<nat>)
    requires NodeOk(queue, log, a, elsewhere) && a.inbox != []
    ensures NodeOk(queue, log, Executed(a), elsewhere)
  {
    var b := Executed(a);
    ExecutedOk(a, log);
    forall q: nat | 1 <= q <= b.last ensures Holds(b.handled, q) || q in elsewhere {
      HandledOrMissing(a, q);
    }
    forall q: nat | b.inbox != [] && b.last < q <= b.inbox[|b.inbox| - 1].number
      ensures Holds(b.inbox, q) || q in elsewhere
    {
      if q !in elsewhere {
        var i :| 0 <= i < |a.inbox| && a.inbox[i].number == q;
        assert b.inbox[i - 1].number == q;
      }
    }
  }

  lemma ExecutedOk(a: Working, log: seq<Command>)
    requires HandledOk(a, log) && InboxOk(a, log) && a.inbox != []
    ensures HandledOk(Executed(a), log) && InboxOk(Executed(a), log)
  {
    SuffixFrom(a.inbox, 1, log);
    SuffixIncreasing(a.inbox, 1);
  }

  /** A number the agent has passed by executing: executed, or neither executed nor received. */
  lemma HandledOrMissing(a: Working, q: nat)
    requires a.inbox != []
    ensures Holds(a.handled, q) || q == a.inbox[0].number ==> Holds(Executed(a).handled, q)
    ensures a.last < q < a.inbox[0].number && Increasing(a.inbox) ==> !Holds(a.inbox, q)
  {
    var handled := Executed(a).handled;
    assert handled[|a.handled|] == a.inbox[0];
    if Holds(a.handled, q) {
      var i :| 0 <= i < |a.handled| && a.handled[i].number == q;
      assert handled[i].number == q;
    }
  }

  lemma NodeAcked(queue: seq<Command>, log: seq<Command>, a: Working, elsewhere: set<nat>, number: nat)
    requires NodeOk(queue, log, a, elsewhere) && (Holds(a.handled, number) || number in elsewhere)
    ensures NodeOk(Without(queue, number), log, a, elsewhere)
  {
    WithoutKeeps(queue, number, log);
    var kept := Without(queue, number);
    forall q: nat | a.last < q <= |log| ensures Holds(kept, q) || q in elsewhere {
      if q !in elsewhere {
        var i :| 0 <= i < |queue| && queue[i].number == q;
        assert queue[i] in kept;
      }
    }
  }

  lemma NodeSeesMore(queue: seq<Command>, log: seq<Command>, a: Working, elsewhere: set<nat>, more: set<nat>)
    requires NodeOk(queue, log, a, elsewhere) && elsewhere <= more
    ensures NodeOk(queue, log, a, more)
  {
  }

  // ---------- the invariant of the system ----------

  /** The numbers executed by agents other than this node's. */
  function Elsewhere(agents: map<string, Working>, node: string): set<nat> {
    set other, i | other in agents && other != node && 0 <= i < |agents[other].handled| ::
      agents[other].handled[i].number
  }

  ghost predicate NodeOkAt(s: System, node: string) {
    NodeOk(Queue(s.plane, node), Log(s.plane, node), AgentOf(s, node), Elsewhere(s.agents, node))
  }

  ghost predicate AckEarned(agents: map<string, Working>, number: nat) {
    exists node :: node in agents && Holds(agents[node].handled, number)
  }

  ghost predicate Inv(s: System) {
    && (forall node :: NodeOkAt(s, node))
    && (forall number :: number in s.acks ==> AckEarned(s.agents, number))
  }

  lemma InitialInv(s: System)
    requires Initial(s)
    ensures Inv(s)
  {
  }

  lemma DeclarationsKeep(s: System, instances: map<string, Decl>)
    requires Inv(s)
    ensures Inv(s.(plane := s.plane.(instances := instances)))
  {
    var t := s.(plane := s.plane.(instances := instances));
    forall node ensures NodeOkAt(t, node) {
      assert NodeOkAt(s, node);
    }
  }

  lemma AnsweredKeeps(s: System, node: string, reports: seq<Report>, order: seq<string>)
    requires Inv(s) && IsOrder(order, s.plane.instances.Keys)
    ensures Inv(s.(plane := Beaten(s.plane, node, reports, order)))
  {
    var t := s.(plane := Beaten(s.plane, node, reports, order));
    assert NodeOkAt(s, node);
    var added := BeatenExtends(s.plane, node, reports, order);
    NodeGrows(Queue(s.plane, node), Log(s.plane, node), AgentOf(s, node), Elsewhere(s.agents, node), added);
    forall n ensures NodeOkAt(t, n) {
      if n != node { SameLane(s, t, n); }
    }
  }

  lemma SameLane(s: System, t: System, n: string)
    requires Inv(s) && t.agents == s.agents
    requires Queue(t.plane, n) == Queue(s.plane, n) && Log(t.plane, n) == Log(s.plane, n)
    ensures NodeOkAt(t, n)
  {
    assert NodeOkAt(s, n);
  }

  /** A heartbeat appends the same commands to the node's queue and log and touches no other node. */
  lemma BeatenExtends(p: Registered, node: string, reports: seq<Report>, order: seq<string>)
    returns (added: seq<Command>)
    requires LaneOk(Queue(p, node), Log(p, node)) && IsOrder(order, p.instances.Keys)
    ensures Extends(p, Beaten(p, node, reports, order), node, added)
    ensures LaneOk(Queue(p, node) + added, Log(p, node) + added)
  {
    var reported := p.(actual := p.actual[node := reports]);
    added := EnqueuedAllExtends(reported, node, DeclaredFor(p.instances, node, order), reports);
  }

  lemma ElsewhereGrows(s: System, t: System, node: string)
    requires forall n :: n in s.agents ==> n in t.agents && s.agents[n].handled <= t.agents[n].handled
    ensures Elsewhere(s.agents, node) <= Elsewhere(t.agents, node)
  {
    forall q | q in Elsewhere(s.agents, node) ensures q in Elsewhere(t.agents, node) {
      var n, i :| n in s.agents && n != node && 0 <= i < |s.agents[n].handled| && s.agents[n].handled[i].number == q;
      assert t.agents[n].handled[i].number == q;
    }
  }

  /** An agent that executes nothing new leaves what the other nodes see unchanged. */
  lemma AgentChangeKeeps(s: System, node: string, a: Working)
    requires Inv(s) && a.handled == AgentOf(s, node).handled
    requires NodeOk(Queue(s.plane, node), Log(s.plane, node), a, Elsewhere(s.agents, node))
    ensures Inv(s.(agents := s.agents[node := a]))
  {
    var t := s.(agents := s.agents[node := a]);
    forall n ensures NodeOkAt(t, n) {
      assert NodeOkAt(s, n);
      ElsewhereGrows(s, t, n);
      NodeSeesMore(Queue(s.plane, n), Log(s.plane, n), AgentOf(t, n), Elsewhere(s.agents, n), Elsewhere(t.agents, n));
    }
    forall number | number in t.acks ensures AckEarned(t.agents, number) {
      assert AckEarned(s.agents, number);
      var n :| n in s.agents && Holds(s.agents[n].handled, number);
      assert n in t.agents && t.agents[n].handled == s.agents[n].handled;
    }
  }

  lemma ExecuteKeeps(s: System, node: string)
    requires Inv(s) && AgentOf(s, node).inbox != []
    ensures Inv(Next(s, Execute(node)))
  {
    var a := AgentOf(s, node);
    var t := Next(s, Execute(node));
    forall n ensures NodeOkAt(t, n) {
      assert NodeOkAt(s, n);
      if n == node { NodeExecutes(Queue(s.plane, n), Log(s.plane, n), a, Elsewhere(s.agents, n)); }
      ElsewhereGrows(s, t, n);
      NodeSeesMore(Queue(s.plane, n), Log(s.plane, n), AgentOf(t, n), Elsewhere(s.agents, n), Elsewhere(t.agents, n));
    }
    forall number | number in t.acks ensures AckEarned(t.agents, number) {
      ExecuteEarns(s, node, number);
    }
  }

  lemma ExecuteEarns(s: System, node: string, number: nat)
    requires Inv(s) && AgentOf(s, node).inbox != []
    requires number in Next(s, Execute(node)).acks
    ensures AckEarned(Next(s, Execute(node)).agents, number)
  {
    var a := AgentOf(s, node);
    var t := Next(s, Execute(node));
    if number in s.acks {
      assert AckEarned(s.agents, number);
      var n :| n in s.agents && Holds(s.agents[n].handled, number);
      var i :| 0 <= i < |s.agents[n].handled| && s.agents[n].handled[i].number == number;
      assert t.agents[n].handled[i].number == number;
    } else {
      assert t.agents[node].handled[|a.handled|].number == number;
    }
  }

  lemma DeliverKeeps(s: System, number: nat)
    requires Inv(s) && number in s.acks
    ensures Inv(Next(s, Deliver(number)))
  {
    var t := Next(s, Deliver(number));
    assert AckEarned(s.agents, number);
    var m :| m in s.agents && Holds(s.agents[m].handled, number);
    forall n ensures NodeOkAt(t, n) {
      assert NodeOkAt(s, n);
      assert Queue(t.plane, n) == Without(Queue(s.plane, n), number);
      NodeAcked(Queue(s.plane, n), Log(s.plane, n), AgentOf(s, n), Elsewhere(s.agents, n), number);
    }
  }

  lemma HeartbeatKeeps(s: System, step: Step)
    requires Inv(s) && step.Heartbeat? && Enabled(s, step)
    ensures Inv(Next(s, step))
  {
    AnsweredKeeps(s, step.node, step.reports, step.order);
    var t := s.(plane := Beaten(s.plane, step.node, step.reports, step.order));
    if step.arrives {
      assert NodeOkAt(t, step.node);
      NodeReceives(Queue(t.plane, step.node), Log(t.plane, step.node), AgentOf(t, step.node),
                   Elsewhere(t.agents, step.node));
      AgentChangeKeeps(t, step.node, Received(AgentOf(t, step.node), Queue(t.plane, step.node)));
    }
  }

  lemma NextKeeps(s: System, step: Step)
    requires Inv(s) && Enabled(s, step)
    ensures Inv(Next(s, step))
  {
    match step
    case Declare(decl) => DeclarationsKeep(s, s.plane.instances[decl.id := decl]);
    case SetDesired(id, desired) => DeclarationsKeep(s, WithDesired(s.plane, id, desired).instances);
    case Remove(id) => DeclarationsKeep(s, s.plane.instances - {id});
    case Heartbeat(_, _, _, _) => HeartbeatKeeps(s, step);
    case Execute(node) => ExecuteKeeps(s, node);
    case Deliver(number) => DeliverKeeps(s, number);
    case Manage(node, managers) =>
      assert NodeOkAt(s, node);
      AgentChangeKeeps(s, node, AgentOf(s, node).(managers := managers));
  }

  lemma {:induction false} RunKeeps(s: System, steps: seq<Step>)
    requires Inv(s) && IsRun(s, steps)
    ensures Inv(After(s, steps))
    decreases |steps|
  {
    if steps != [] {
      NextKeeps(s, steps[0]);
      RunKeeps(Next(s, steps[0]), steps[1..]);
    }
  }

  // ---------- what every run guarantees ----------

  /** Each agent executes each command at most once, in the order of issue, and exactly as issued. */
  lemma HandledOnceInOrder(s: System, steps: seq<Step>, node: string)
    requires Initial(s) && IsRun(s, steps)
    ensures var t := After(s, steps);
            Increasing(AgentOf(t, node).handled) && From(AgentOf(t, node).handled, Log(t.plane, node))
  {
    InitialInv(s);
    RunKeeps(s, steps);
    assert NodeOkAt(After(s, steps), node);
  }

  /** No two queued commands of a node ask the same operation of the same instance. */
  lemma QueueHasNoDuplicates(s: System, steps: seq<Step>, node: string)
    requires Initial(s) && IsRun(s, steps)
    ensures Distinct(Queue(After(s, steps).plane, node))
  {
    InitialInv(s);
    RunKeeps(s, steps);
    assert NodeOkAt(After(s, steps), node);
    LaneDistinct(Queue(After(s, steps).plane, node), Log(After(s, steps).plane, node));
  }

  /** Every issued number is executed here or still queued here, unless another node executed the same number. */
  lemma NothingLost(s: System, steps: seq<Step>, node: string, number: nat)
    requires Initial(s) && IsRun(s, steps)
    requires 1 <= number <= |Log(After(s, steps).plane, node)|
    ensures var t := After(s, steps);
            || Holds(AgentOf(t, node).handled, number)
            || (number > AgentOf(t, node).last && Holds(Queue(t.plane, node), number))
            || number in Elsewhere(t.agents, node)
  {
    InitialInv(s);
    RunKeeps(s, steps);
    assert NodeOkAt(After(s, steps), node);
  }

  /** With one node, the executed commands are exactly the first `last` ones issued. */
  lemma OneNodeHasNoGaps(s: System, steps: seq<Step>, node: string)
    requires Initial(s) && IsRun(s, steps)
    requires After(s, steps).agents.Keys <= {node}
    ensures var t := After(s, steps);
            var a := AgentOf(t, node);
            a.last <= |Log(t.plane, node)| && a.handled == Log(t.plane, node)[..a.last]
  {
    InitialInv(s);
    RunKeeps(s, steps);
    var t := After(s, steps);
    assert NodeOkAt(t, node);
    assert Elsewhere(t.agents, node) == {};
    GaplessIsPrefix(AgentOf(t, node).handled, Log(t.plane, node), AgentOf(t, node).last);
  }

  ghost predicate Gapless(handled: seq<Command>, last: nat) {
    && Increasing(handled)
    && (forall i :: 0 <= i < |handled| ==> 1 <= handled[i].number <= last)
    && (forall q: nat :: 1 <= q <= last ==> Holds(handled, q))
  }

  lemma {:induction false} GaplessNumber(handled: seq<Command>, last: nat, i: nat)
    requires Gapless(handled, last) && i < |handled|
    ensures handled[i].number == i + 1
    decreases i
  {
    forall j | 0 <= j < i ensures handled[j].number == j + 1 {
      GaplessNumber(handled, last, j);
    }
    assert i > 0 ==> handled[i - 1].number == i;
    assert i + 1 <= handled[i].number <= last;
    assert Holds(handled, i + 1);
    var j :| 0 <= j < |handled| && handled[j].number == i + 1;
  }

  lemma GaplessIsPrefix(handled: seq<Command>, log: seq<Command>, last: nat)
    requires From(handled, log) && last <= |log| && Gapless(handled, last)
    ensures handled == log[..last]
  {
    forall i | 0 <= i < |handled| ensures handled[i].number == i + 1 && handled[i] == log[i] {
      GaplessNumber(handled, last, i);
    }
    assert last > 0 ==> Holds(handled, last);
    assert handled != [] ==> handled[|handled| - 1].number == |handled|;
    assert |handled| == last;
  }

  // ---------- a lost acknowledgement ----------

  lemma {:induction false} WithoutKeepsOthers(queue: seq<Command>, number: nat, c: Command)
    requires c in queue && c.number != number
    ensures c in Without(queue, number)
  {
    if queue[0] != c { WithoutKeepsOthers(queue[1..], number, c); }
  }

  /** A queued command stays queued while no acknowledgement of its number arrives. */
  lemma BeatenKeepsQueued(p: Registered, n: string, reports: seq<Report>, order: seq<string>, node: string, c: Command)
    requires LaneOk(Queue(p, n), Log(p, n)) && IsOrder(order, p.instances.Keys) && c in Queue(p, node)
    ensures c in Queue(Beaten(p, n, reports, order), node)
  {
    var added := BeatenExtends(p, n, reports, order);
    assert c in Queue(p, node) + added;
  }

  lemma {:induction false} StaysQueued(s: System, steps: seq<Step>, node: string, c: Command)
    requires Inv(s) && IsRun(s, steps) && c in Queue(s.plane, node)
    requires forall k :: 0 <= k < |steps| ==> steps[k] != Deliver(c.number)
    ensures c in Queue(After(s, steps).plane, node)
    decreases |steps|
  {
    if steps != [] {
      var t := Next(s, steps[0]);
      NextKeeps(s, steps[0]);
      match steps[0] {
        case Heartbeat(n, reports, order, _) =>
          assert NodeOkAt(s, n);
          BeatenKeepsQueued(s.plane, n, reports, order, node, c);
        case Deliver(number) => WithoutKeepsOthers(Queue(s.plane, node), number, c);
        case _ =>
      }
      assert c in Queue(t.plane, node);
      StaysQueued(t, steps[1..], node, c);
    }
  }

  lemma {:induction false} HandledGrows(s: System, steps: seq<Step>, node: string)
    requires IsRun(s, steps)
    ensures AgentOf(s, node).handled <= AgentOf(After(s, steps), node).handled
    decreases |steps|
  {
    if steps != [] { HandledGrows(Next(s, steps[0]), steps[1..], node); }
  }

  /**
   * While no acknowledgement of a queued command's number arrives, from this node
   * or any other, the plane issues nothing to the node that asks the same of the
   * same instance. If the command has been executed, its agent never executes
   * such a command again either: losing the acknowledgement withholds the
   * operation from the instance.
   */
  lemma LostAckBlocks(s: System, steps: seq<Step>, node: string, c: Command)
    requires Inv(s) && IsRun(s, steps) && c in Queue(s.plane, node)
    requires forall k :: 0 <= k < |steps| ==> steps[k] != Deliver(c.number)
    ensures var t := After(s, steps);
            && c in Queue(t.plane, node)
            && (forall k :: c.number <= k < |Log(t.plane, node)| ==> Differ(c, Log(t.plane, node)[k]))
    ensures var before, after := AgentOf(s, node).handled, AgentOf(After(s, steps), node).handled;
            && before <= after
            && (c.number <= AgentOf(s, node).last ==> forall i :: |before| <= i < |after| ==> Differ(c, after[i]))
  {
    var t := After(s, steps);
    StaysQueued(s, steps, node, c);
    RunKeeps(s, steps);
    HandledGrows(s, steps, node);
    assert NodeOkAt(s, node) && NodeOkAt(t, node);
    QueuedExcludes(Queue(t.plane, node), Log(t.plane, node), c);
    if c.number <= AgentOf(s, node).last {
      LaterHandled(AgentOf(s, node), AgentOf(t, node), Log(s.plane, node), Log(t.plane, node), c);
    }
  }

  lemma QueuedExcludes(queue: seq<Command>, log: seq<Command>, c: Command)
    requires LaneOk(queue, log) && c in queue
    ensures c.number >= 1 && forall k :: c.number <= k < |log| ==> Differ(c, log[k])
  {
    var i :| 0 <= i < |queue| && queue[i] == c;
  }

  lemma LaterHandled(a: Working, b: Working, log: seq<Command>, later: seq<Command>, c: Command)
    requires HandledOk(a, log) && HandledOk(b, later) && a.handled <= b.handled && 1 <= c.number <= a.last
    requires forall k :: c.number <= k < |later| ==> Differ(c, later[k])
    ensures forall i :: |a.handled| <= i < |b.handled| ==> Differ(c, b.handled[i])
  {
    forall i | |a.handled| <= i < |b.handled| ensures Differ(c, b.handled[i]) {
      assert b.handled[|a.handled| - 1] == a.handled[|a.handled| - 1];
      assert b.handled[i].number > a.last;
      assert later[b.handled[i].number - 1] == b.handled[i];
    }
  }

  /** One node with one instance that should run. */
  function OneNode(node: string, id: string): System {
    System(Registered(map[id := Decl(id, node, Json.None, Supervisor.DesiredRunning, false)], map[], map[], map[]),
           map[], {})
  }

  function DownReport(id: string, state: Supervisor.InstanceState): seq<Report> { [Report(id, state, Json.None)] }

  lemma StartQueued(p: Registered, node: string, id: string, state: Supervisor.InstanceState)
    requires p.instances == OneNode(node, id).plane.instances && (state.Stopped? || state.Failed?)
    ensures DesiredOp(Supervisor.DesiredRunning, state) == Json.Some(Supervisor.Start)
    ensures var start := Command(|Log(p, node)| + 1, Supervisor.Start, id);
            var q := Beaten(p, node, DownReport(id, state), [id]);
            && q.instances == p.instances && q.actual == p.actual[node := DownReport(id, state)]
            && (Asked(Queue(p, node), Supervisor.Start, id) ==> q.pending == p.pending && q.log == p.log)
            && (!Asked(Queue(p, node), Supervisor.Start, id) ==>
                  && q.pending == p.pending[node := Queue(p, node) + [start]]
                  && q.log == p.log[node := Log(p, node) + [start]])
  {
    var decl := p.instances[id];
    assert [id][..0] == [] && DeclaredFor(p.instances, node, []) == [];
    assert DeclaredFor(p.instances, node, [id]) == [decl];
    var reported := p.(actual := p.actual[node := DownReport(id, state)]);
    assert [decl][..0] == [] && EnqueuedAll(reported, node, [decl][..0], DownReport(id, state)) == reported;
    assert FindReport(DownReport(id, state), id) == Json.Some(Report(id, state, Json.None));
  }

  /** The start was executed, its acknowledgement has not arrived, and the instance is down again. */
  function Stuck(node: string, id: string, state: Supervisor.InstanceState): System {
    var start := [Command(1, Supervisor.Start, id)];
    System(Registered(OneNode(node, id).plane.instances, map[node := DownReport(id, state)], map[node := start],
                      map[node := start]),
           map[node := Working(1, [], start, map[])], {1})
  }

  lemma StuckReached(node: string, id: string, state: Supervisor.InstanceState) returns (steps: seq<Step>)
    requires state.Stopped? || state.Failed?
    ensures Initial(OneNode(node, id)) && IsRun(OneNode(node, id), steps)
    ensures After(OneNode(node, id), steps) == Stuck(node, id, state)
  {
    var s := OneNode(node, id);
    var start := Command(1, Supervisor.Start, id);
    var beat := Heartbeat(node, DownReport(id, state), [id], true);
    StartQueued(s.plane, node, id, state);
    assert [] + [start] == [start];
    assert Above([start], 0) == [start] by { assert [start][1..] == []; }
    var s1 := Next(s, beat);
    var s2 := Next(s1, Execute(node));
    assert s2.agents == map[node := Working(1, [], [start], map[])] && s2.acks == {1};
    assert Asked(Queue(s2.plane, node), Supervisor.Start, id) by { assert [start][0] == start; }
    StartQueued(s2.plane, node, id, state);
    assert Above([start], 1) == [] by { assert [start][1..] == []; }
    assert Next(s2, beat) == Stuck(node, id, state);
    RunCons(s2, beat, []);
    RunCons(s1, Execute(node), [beat] + []);
    RunCons(s, beat, [Execute(node)] + ([beat] + []));
    steps := [beat] + ([Execute(node)] + ([beat] + []));
  }

  /**
   * So a stopped instance that should run can be left without a start: in the
   * state just reached the plane has nothing else to send, and however the run
   * goes on, no start is executed until an acknowledgement numbered 1 arrives.
   */
  lemma StoppedForGood(node: string, id: string, state: Supervisor.InstanceState, more: seq<Step>)
    requires (state.Stopped? || state.Failed?) && IsRun(Stuck(node, id, state), more)
    requires forall k :: 0 <= k < |more| ==> more[k] != Deliver(1)
    ensures var after := AgentOf(After(Stuck(node, id, state), more), node).handled;
            forall i :: 1 <= i < |after| ==> Differ(Command(1, Supervisor.Start, id), after[i])
  {
    var steps := StuckReached(node, id, state);
    InitialInv(OneNode(node, id));
    RunKeeps(OneNode(node, id), steps);
    assert Queue(Stuck(node, id, state).plane, node)[0] == Command(1, Supervisor.Start, id);
    LostAckBlocks(Stuck(node, id, state), more, node, Command(1, Supervisor.Start, id));
  }

  // ---------- why one node only ----------

  function StopDecl(id: string, node: string): Decl { Decl(id, node, Json.None, Supervisor.DesiredStopped, false) }

  function RunningReport(id: string): seq<Report> { [Report(id, Supervisor.Running, Json.None)] }

  /** Two nodes, each asked to stop its one instance. */
  function TwoNodes(a: string, b: string, x: string, y: string): System {
    System(Registered(map[x := StopDecl(x, a), y := StopDecl(y, b)], map[], map[], map[]), map[], {})
  }

  lemma OnlyDeclared(instances: map<string, Decl>, order: seq<string>, node: string, id: string)
    requires IsOrder(order, instances.Keys) && |order| == 2
    requires id in order && instances[id] == StopDecl(id, node)
    requires forall other :: other in instances && other != id ==> instances[other].node != node
    ensures DeclaredFor(instances, node, order) == [StopDecl(id, node)]
  {
    assert order[..1][..0] == [] && order[..1][0] == order[0];
    assert DeclaredFor(instances, node, order[..1]) == if order[0] == id then [StopDecl(id, node)] else [];
  }

  lemma StopQueued(p: Registered, node: string, id: string)
    requires node !in p.pending && node !in p.log
    ensures var issued := [Command(1, Supervisor.Stop, id)];
            EnqueuedAll(p, node, [StopDecl(id, node)], RunningReport(id))
            == p.(pending := p.pending[node := issued], log := p.log[node := issued])
  {
    var declared := [StopDecl(id, node)];
    assert declared[..0] == [];
    assert EnqueuedAll(p, node, declared[..0], RunningReport(id)) == p;
    assert FindReport(RunningReport(id), id) == Json.Some(Report(id, Supervisor.Running, Json.None));
    assert !Asked([], Supervisor.Stop, id);
    var command := Command(1, Supervisor.Stop, id);
    assert [] + [command] == [command];
  }

  lemma FirstStop(p: Registered, order: seq<string>, node: string, id: string)
    requires IsOrder(order, p.instances.Keys) && |order| == 2
    requires id in order && p.instances[id] == StopDecl(id, node)
    requires forall other :: other in p.instances && other != id ==> p.instances[other].node != node
    requires node !in p.pending && node !in p.log
    ensures var q := Beaten(p, node, RunningReport(id), order);
            var issued := [Command(1, Supervisor.Stop, id)];
            q.pending == p.pending[node := issued] && q.log == p.log[node := issued] && q.instances == p.instances
  {
    OnlyDeclared(p.instances, order, node, id);
    StopQueued(p.(actual := p.actual[node := RunningReport(id)]), node, id);
  }

  /**
   * With two nodes a command can be lost: one node's acknowledgement clears
   * the equally numbered command of the other, which never gets to execute it.
   */
  lemma AcknowledgedElsewhere(a: string, b: string, x: string, y: string) returns (steps: seq<Step>)
    requires a != b && x != y
    ensures Initial(TwoNodes(a, b, x, y)) && IsRun(TwoNodes(a, b, x, y), steps)
    ensures var t := After(TwoNodes(a, b, x, y), steps);
            |Log(t.plane, b)| == 1 && Queue(t.plane, b) == [] && AgentOf(t, b) == IDLE
  {
    var s, order := TwoNodes(a, b, x, y), [x, y];
    var answerB, answerA := Heartbeat(b, RunningReport(y), order, false), Heartbeat(a, RunningReport(x), order, true);
    FirstStop(s.plane, order, b, y);
    var s1 := Next(s, answerB);
    FirstStop(s1.plane, order, a, x);
    var s2 := Next(s1, answerA);
    var stop := Command(1, Supervisor.Stop, x);
    assert Above([stop], 0) == [stop] by { assert [stop][1..] == []; }
    var s3 := Next(s2, Execute(a));
    var s4 := Next(s3, Deliver(1));
    var other := Command(1, Supervisor.Stop, y);
    assert Without([other], 1) == [] by { assert [other][1..] == []; }
    RunOfFour(s, answerB, answerA, Execute(a), Deliver(1));
    steps := [answerB, answerA, Execute(a), Deliver(1)];
  }

  lemma RunCons(s: System, step: Step, rest: seq<Step>)
    requires Enabled(s, step) && IsRun(Next(s, step), rest)
    ensures IsRun(s, [step] + rest) && After(s, [step] + rest) == After(Next(s, step), rest)
  {
    assert ([step] + rest)[1..] == rest;
  }

  lemma RunOfFour(s: System, k1: Step, k2: Step, k3: Step, k4: Step)
    requires Enabled(s, k1) && Enabled(Next(s, k1), k2)
    requires Enabled(Next(Next(s, k1), k2), k3) && Enabled(Next(Next(Next(s, k1), k2), k3), k4)
    ensures IsRun(s, [k1, k2, k3, k4])
    ensures After(s, [k1, k2, k3, k4]) == Next(Next(Next(Next(s, k1), k2), k3), k4)
  {
    var s1 := Next(s, k1);
    var s2 := Next(s1, k2);
    var s3 := Next(s2, k3);
    assert [k4] + [] == [k4] && [k3] + [k4] == [k3, k4] && [k2] + [k3, k4] == [k2, k3, k4];
    assert [k1] + [k2, k3, k4] == [k1, k2, k3, k4];
    RunCons(s3, k4, []);
    RunCons(s2, k3, [k4]);
    RunCons(s1, k2, [k3, k4]);
    RunCons(s, k1, [k2, k3, k4]);
  }
}
