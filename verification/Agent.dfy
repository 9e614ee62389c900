/**
 * The node agent (sohara-agent/src/agent.rs): it executes the commands of a
 * heartbeat response in order, skipping those numbered at or below the last
 * one it has executed, and keeps its set of instance managers equal to the
 * plane's desired set. A manager has a mailbox of operations sent to it.
 */
module Agent {
  import opened Json
  import opened Numbers
  import Supervisor
  import Plane

  datatype Manager = Manager(now: Supervisor.Supervised, mailbox: seq<Plane.Op>)

  /** An agent: the commands it has still to execute and, as history, those it has executed. */
  datatype Working = Working(last: nat, inbox: seq<Plane.Command>, handled: seq<Plane.Command>,
                             managers: map<string, Manager>)

  const IDLE := Working(0, [], [], map[])

  /** The commands numbered above `last`. */
  function Above(commands: seq<Plane.Command>, last: nat): seq<Plane.Command> {
    if commands == [] then []
    else if commands[0].number <= last then Above(commands[1..], last)
    else [commands[0]] + Above(commands[1..], last)
  }

  function Received(a: Working, commands: seq<Plane.Command>): Working { a.(inbox := Above(commands, a.last)) }

  function Told(managers: map<string, Manager>, command: Plane.Command): map<string, Manager> {
    if command.instance !in managers then managers
    else
      var m := managers[command.instance];
      managers[command.instance := m.(mailbox := m.mailbox + [command.op])]
  }

  function Executed(a: Working): Working
    requires a.inbox != []
  {
    var command := a.inbox[0];
    Working(Max(a.last, command.number), a.inbox[1..], a.handled + [command], Told(a.managers, command))
  }

  function ExecutedAll(a: Working): Working
    decreases |a.inbox|
  {
    if a.inbox == [] then a else ExecutedAll(Executed(a))
  }

  /** What is above `last` is exactly the commands with a higher number. */
  lemma {:induction false} AboveIs(commands: seq<Plane.Command>, last: nat, c: Plane.Command)
    ensures multiset(Above(commands, last))[c] == if c.number > last then multiset(commands)[c] else 0
  {
    if commands != [] {
      AboveIs(commands[1..], last, c);
      assert commands == [commands[0]] + commands[1..];
    }
  }

  /** An agent works off its whole inbox, in order. */
  lemma {:induction false} ExecutesAll(a: Working)
    ensures ExecutedAll(a).inbox == [] && ExecutedAll(a).handled == a.handled + a.inbox
    ensures ExecutedAll(a).last >= a.last
    ensures forall i :: 0 <= i < |a.inbox| ==> ExecutedAll(a).last >= a.inbox[i].number
    decreases |a.inbox|
  {
    if a.inbox == [] {
      assert a.handled + [] == a.handled;
    } else {
      ExecutesAll(Executed(a));
      assert a.inbox == [a.inbox[0]] + a.inbox[1..];
      assert a.handled + [a.inbox[0]] + a.inbox[1..] == a.handled + a.inbox;
    }
  }

  // ---------- the set of managers ----------

  function Launch(decl: Plane.Decl, w: Supervisor.World): Manager {
    Manager(Supervisor.Launched(decl.admin, decl.desired, w), [])
  }

  /** Managers for every desired instance that had none. */
  function WithMissing(managers: map<string, Manager>, desired: seq<Plane.Decl>,
                       w: Supervisor.World): map<string, Manager>
    decreases |desired|
  {
    if desired == [] then managers
    else
      var k := |desired| - 1;
      var before := WithMissing(managers, desired[..k], w);
      if desired[k].id in before then before else before[desired[k].id := Launch(desired[k], w)]
  }

  function Ids(desired: seq<Plane.Decl>): set<string> { set i | 0 <= i < |desired| :: desired[i].id }

  function Reconciled(managers: map<string, Manager>, desired: seq<Plane.Decl>,
                      w: Supervisor.World): map<string, Manager> {
    var all := WithMissing(managers, desired, w);
    map id | id in all && id in Ids(desired) :: all[id]
  }

  lemma IdsAppend(desired: seq<Plane.Decl>, id: string)
    requires desired != []
    ensures id in Ids(desired) <==> id in Ids(desired[..|desired| - 1]) || id == desired[|desired| - 1].id
  {
    var k := |desired| - 1;
    if id in Ids(desired) {
      var i :| 0 <= i < |desired| && desired[i].id == id;
      assert i < k ==> desired[..k][i] == desired[i];
    }
  }

  lemma {:induction false} WithMissingAt(managers: map<string, Manager>, desired: seq<Plane.Decl>, w: Supervisor.World,
                                         id: string)
    ensures id in WithMissing(managers, desired, w) <==> id in managers || id in Ids(desired)
    ensures id in managers ==> WithMissing(managers, desired, w)[id] == managers[id]
    decreases |desired|
  {
    if desired != [] {
      WithMissingAt(managers, desired[..|desired| - 1], w, id);
      IdsAppend(desired, id);
    }
  }

  /** Reconciling leaves exactly the desired instances, those already managed as they were. */
  lemma ReconciledAt(managers: map<string, Manager>, desired: seq<Plane.Decl>, w: Supervisor.World, id: string)
    ensures id in Reconciled(managers, desired, w) <==> id in Ids(desired)
    ensures id in managers && id in Ids(desired) ==> Reconciled(managers, desired, w)[id] == managers[id]
  {
    WithMissingAt(managers, desired, w, id);
  }

  lemma {:induction false} WithMissingLaunches(managers: map<string, Manager>, desired: seq<Plane.Decl>,
                                               w: Supervisor.World, i: nat)
    requires i < |desired| && desired[i].id !in managers
    requires forall j :: 0 <= j < i ==> desired[j].id != desired[i].id
    ensures desired[i].id in WithMissing(managers, desired, w)
    ensures WithMissing(managers, desired, w)[desired[i].id] == Launch(desired[i], w)
    decreases |desired|
  {
    var k := |desired| - 1;
    if i < k {
      WithMissingLaunches(managers, desired[..k], w, i);
    } else {
      WithMissingAt(managers, desired[..k], w, desired[k].id);
    }
  }

  /** An instance without a manager is launched in its desired state. */
  lemma ReconciledLaunches(managers: map<string, Manager>, desired: seq<Plane.Decl>, w: Supervisor.World, i: nat)
    requires i < |desired| && desired[i].id !in managers
    requires forall j :: 0 <= j < i ==> desired[j].id != desired[i].id
    ensures desired[i].id in Reconciled(managers, desired, w)
    ensures Reconciled(managers, desired, w)[desired[i].id] == Launch(desired[i], w)
  {
    WithMissingLaunches(managers, desired, w, i);
  }

  // ---------- the agent in place ----------

  class NodeAgent {
    var lastSeq: nat
    var managers: map<string, Manager>
    ghost var handled: seq<Plane.Command>

    ghost function Now(): Working
      reads this
    {
      Working(lastSeq, [], handled, managers)
    }

    constructor (started: map<string, Manager>)
      ensures Now() == IDLE.(managers := started)
    {
      lastSeq, managers, handled := 0, started, [];
    }

    /** One turn of the agent's loop: a lost response changes nothing. */
    method HandleResponse(response: Option<(seq<Plane.Command>, seq<Plane.Decl>)>,
                          w: Supervisor.World) returns (acks: seq<nat>)
      modifies this
      ensures response.None? ==> acks == [] && Now() == old(Now())
      ensures response.Some? ==>
        var worked := ExecutedAll(Received(old(Now()), response.value.0));
        var newer := Above(response.value.0, old(lastSeq));
        && Now() == worked.(managers := Reconciled(worked.managers, response.value.1, w))
        && |acks| == |newer| && forall i :: 0 <= i < |acks| ==> acks[i] == newer[i].number
    {
      acks := [];
      if response.Some? {
        acks := Dispatch(response.value.0);
        Reconcile(response.value.1, w);
      }
    }

    /** Passes one command to its manager; false for an unknown instance. */
    method Execute(command: Plane.Command) returns (ok: bool)
      modifies this`managers
      ensures ok <==> command.instance in old(managers)
      ensures managers == Told(old(managers), command)
      ensures forall id :: id in managers <==> id in old(managers)
      ensures forall id :: id in managers && id != command.instance ==> managers[id] == old(managers)[id]
      ensures ok ==>
                managers[command.instance].now == old(managers)[command.instance].now &&
                managers[command.instance].mailbox == old(managers)[command.instance].mailbox + [command.op]
    {
      ok := command.instance in managers;
      if ok {
        var m := managers[command.instance];
        managers := managers[command.instance := m.(mailbox := m.mailbox + [command.op])];
      }
    }

    /** Executes a response's commands, acknowledging each one executed. */
    method Dispatch(commands: seq<Plane.Command>) returns (acks: seq<nat>)
      modifies this
      ensures Now() == ExecutedAll(Received(old(Now()), commands))
      ensures |acks| == |Above(commands, old(lastSeq))|
      ensures forall i :: 0 <= i < |acks| ==> acks[i] == Above(commands, old(lastSeq))[i].number
    {
      acks := [];
      var highest := lastSeq;
      ghost var now := Received(Now(), commands);
      for i := 0 to |commands|
        invariant lastSeq == old(lastSeq)
        invariant now == Working(highest, Above(commands[i..], lastSeq), handled, managers)
        invariant ExecutedAll(now) == ExecutedAll(Received(old(Now()), commands))
        invariant |acks| + |now.inbox| == |Above(commands, lastSeq)|
        invariant Above(commands, lastSeq)[|acks|..] == now.inbox
        invariant forall j :: 0 <= j < |acks| ==> acks[j] == Above(commands, lastSeq)[j].number
      {
        assert commands[i..][1..] == commands[i + 1..];
        if commands[i].number > lastSeq {
          var _ := Execute(commands[i]);
          handled := handled + [commands[i]];
          highest := Max(highest, commands[i].number);
          acks := acks + [commands[i].number];
          now := Executed(now);
        }
      }
      lastSeq := highest;
    }

    method Reconcile(desired: seq<Plane.Decl>, w: Supervisor.World)
      modifies this`managers
      ensures managers == Reconciled(old(managers), desired, w)
    {
      for i := 0 to |desired|
        invariant managers == WithMissing(old(managers), desired[..i], w)
      {
        assert desired[..i + 1][..i] == desired[..i];
        if desired[i].id !in managers { managers := managers[desired[i].id := Launch(desired[i], w)]; }
      }
      assert desired[..|desired|] == desired;
      managers := map id | id in managers && id in Ids(desired) :: managers[id];
    }
  }
}
