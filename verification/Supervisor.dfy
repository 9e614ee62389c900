/**
 * The supervisor of one instance (sohara-agent/src/process.rs, instance.rs,
 * policy.rs): lifecycle commands, exit detection, health probing and restarts.
 * Spawning, signalling and probing are answers of the world.
 */
module Supervisor {
  import opened Json
  import opened Numbers

  datatype InstanceState = Starting | Running | Paused | Restarting | Stopping | Stopped | Failed

  datatype Command = Start | Stop | Restart | Pause | Resume

  datatype Policy = Policy(restart: bool, maxRestarts: nat, backoffMs: nat, healthFailures: nat)

  datatype Spec = Spec(healthEnabled: bool, policy: Policy)

  datatype Probe = Unreachable | Report(healthy: bool, paused: bool)

  /** What the world answers during one step. */
  datatype World = World(addressFound: bool, spawns: bool, postAccepted: bool, childExited: bool, probe: Probe)

  datatype Supervised = Supervised(state: InstanceState, paused: bool, healthy: bool, restarts: nat, admin: bool,
                                   child: bool, attempts: nat, failures: nat)

  // ---------- restart policy ----------

  const U64_MAX: nat := 0xFFFF_FFFF_FFFF_FFFF

  const BACKOFF_CAP: nat := 60_000

  /** A number doubled n times. */
  function Doubled(x: nat, n: nat): nat { if n == 0 then x else 2 * Doubled(x, n - 1) }

  /** How long to wait before a restart, if one is allowed: doubling per attempt, saturating at 64 bits, capped. */
  function RestartBackoff(policy: Policy, attempts: nat): Option<nat> {
    if !policy.restart || attempts >= policy.maxRestarts then None
    else Some(Min(Min(Doubled(policy.backoffMs, Min(attempts, 10)), U64_MAX), BACKOFF_CAP))
  }

  /** Doubling is multiplying by the shifted factor. */
  lemma {:induction false} DoubledIsProduct(x: nat, n: nat)
    ensures Doubled(x, n) == x * Pow2(n)
  {
    if n > 0 { DoubledIsProduct(x, n - 1); }
  }

  lemma {:induction false} DoubledMonotone(x: nat, a: nat, b: nat)
    requires a <= b
    ensures Doubled(x, a) <= Doubled(x, b)
    decreases b
  {
    if a < b { DoubledMonotone(x, a, b - 1); }
  }

  /** Later restarts never wait less, and none waits more than a minute. */
  lemma BackoffMonotone(policy: Policy, a: nat, b: nat)
    requires a <= b && RestartBackoff(policy, b).Some?
    ensures RestartBackoff(policy, a).Some?
    ensures RestartBackoff(policy, a).value <= RestartBackoff(policy, b).value <= BACKOFF_CAP
  {
    DoubledMonotone(policy.backoffMs, Min(a, 10), Min(b, 10));
  }

  /**
   * A restart is allowed while restarts are on and the budget is not used up; the
   * wait is the backoff times two to the attempts, at most ten of them counted,
   * and at most 2^64 - 1 and one minute.
   */
  lemma BackoffIs(policy: Policy, attempts: nat)
    ensures RestartBackoff(policy, attempts).Some? <==> policy.restart && attempts < policy.maxRestarts
    ensures RestartBackoff(policy, attempts).Some? ==>
              var full := policy.backoffMs * Pow2(if attempts <= 10 then attempts else 10);
              var wait := RestartBackoff(policy, attempts).value;
              && (full <= 60_000 ==> wait == full)
              && (full > 60_000 ==> wait == 60_000)
  {
    DoubledIsProduct(policy.backoffMs, Min(attempts, 10));
  }

  // ---------- one step ----------

  function Spawned(s: Supervised, w: World): Supervised {
    var known := s.(admin := s.admin || w.addressFound);
    if w.spawns then known.(child := true, state := Running, healthy := true)
    else known.(state := Failed, healthy := false)
  }

  function Posted(s: Supervised, w: World, paused: bool): Supervised {
    if s.admin && w.postAccepted then s.(paused := paused, state := if paused then Paused else Running) else s
  }

  function Handled(s: Supervised, command: Command, w: World): Supervised {
    match command
    case Start => if s.state == Stopped || s.state == Failed then Spawned(s, w) else s
    case Stop => s.(child := false, state := Stopped)
    case Restart => Spawned(s.(child := false), w)
    case Pause => Posted(s, w, true)
    case Resume => Posted(s, w, false)
  }

  /** Restart according to the policy, or give up. */
  function Recovered(s: Supervised, policy: Policy, w: World): Supervised {
    var n := s.attempts + 1;
    var counted := s.(attempts := n, restarts := n, child := false);
    if RestartBackoff(policy, n).Some? then Spawned(counted, w).(failures := 0)
    else counted.(state := Failed, healthy := false)
  }

  function FailedProbe(s: Supervised, policy: Policy, w: World): Supervised {
    var failing := s.(failures := s.failures + 1);
    if failing.failures >= policy.healthFailures then Recovered(failing, policy, w) else failing
  }

  function GoodProbe(s: Supervised, paused: bool): Supervised {
    s.(failures := 0, healthy := true, paused := paused,
       state := if paused then Paused else if s.state == Paused then Running else s.state)
  }

  predicate Probes(s: Supervised, spec: Spec, w: World) {
    !(s.child && w.childExited) && spec.healthEnabled && s.child && s.admin
  }

  function Ticked(s: Supervised, spec: Spec, w: World): Supervised {
    if s.child && w.childExited then
      if s.state == Stopping then s.(child := false, state := Stopped)
      else Recovered(s.(child := false), spec.policy, w)
    else if !Probes(s, spec, w) then s
    else if w.probe.Report? && w.probe.healthy then GoodProbe(s, w.probe.paused)
    else FailedProbe(s, spec.policy, w)
  }

  const FRESH := Supervised(Starting, false, false, 0, false, false, 0, 0)

  datatype Desired = DesiredRunning | DesiredPaused | DesiredStopped

  /** The start of supervision, with or without a configured admin address. */
  function Launched(admin: bool, desired: Desired, w: World): Supervised {
    var s := FRESH.(admin := admin);
    match desired
    case DesiredStopped => s.(state := Stopped)
    case DesiredRunning => Spawned(s, w)
    case DesiredPaused => Posted(Spawned(s, w), w, true)
  }

  // ---------- the supervisor in place ----------

  class Instance {
    const spec: Spec
    var state: InstanceState
    var paused: bool
    var healthy: bool
    var restarts: nat
    var admin: bool
    var child: bool
    var attempts: nat
    var failures: nat

    ghost function Now(): Supervised
      reads this
    {
      Supervised(state, paused, healthy, restarts, admin, child, attempts, failures)
    }

    constructor (spec: Spec, admin: bool, desired: Desired, w: World)
      ensures this.spec == spec && Now() == Launched(admin, desired, w)
    {
      this.spec, this.admin := spec, admin;
      state, paused, healthy, restarts := Starting, false, false, 0;
      child, attempts, failures := false, 0, 0;
      new;
      if desired != DesiredStopped {
        SpawnChild(w);
        if desired == DesiredPaused { PauseInstance(w); }
      } else {
        state := Stopped;
      }
    }

    method SpawnChild(w: World)
      modifies this
      ensures Now() == Spawned(old(Now()), w)
    {
      if !admin { admin := w.addressFound; }
      state := Starting;
      if w.spawns {
        child := true;
        state, healthy := Running, true;
      } else {
        state := Failed;
        healthy := false;
      }
    }

    method TerminateChild()
      modifies this`child
      ensures !child
    {
      child := false;
    }

    method PauseInstance(w: World)
      modifies this
      ensures Now() == Posted(old(Now()), w, true)
    {
      if !admin { return; }
      if w.postAccepted { paused, state := true, Paused; }
    }

    method ResumeInstance(w: World)
      modifies this
      ensures Now() == Posted(old(Now()), w, false)
    {
      if !admin { return; }
      if w.postAccepted { paused, state := false, Running; }
    }

    method HandleCommand(command: Command, w: World)
      modifies this
      ensures Now() == Handled(old(Now()), command, w)
    {
      match command
      case Start =>
        if state == Stopped || state == Failed { SpawnChild(w); }
      case Stop =>
        state := Stopping;
        TerminateChild();
        state := Stopped;
      case Restart =>
        state := Restarting;
        TerminateChild();
        SpawnChild(w);
      case Pause => PauseInstance(w);
      case Resume => ResumeInstance(w);
    }

    method RestartOrFail(w: World)
      modifies this
      ensures Now() == Recovered(old(Now()), spec.policy, w)
    {
      attempts := attempts + 1;
      restarts := attempts;
      var backoff := RestartBackoff(spec.policy, attempts);
      if backoff.Some? {
        state := Restarting;
        TerminateChild();
        SpawnChild(w);
        failures := 0;
      } else {
        TerminateChild();
        state := Failed;
        healthy := false;
      }
    }

    method CheckHealthRestart(w: World)
      modifies this
      ensures old(failures) >= spec.policy.healthFailures ==> Now() == Recovered(old(Now()), spec.policy, w)
      ensures old(failures) < spec.policy.healthFailures ==> Now() == old(Now())
    {
      if failures >= spec.policy.healthFailures { RestartOrFail(w); }
    }

    method ApplyHealth(ok: bool, isPaused: bool, w: World)
      modifies this
      ensures Now() == if ok then GoodProbe(old(Now()), isPaused) else FailedProbe(old(Now()), spec.policy, w)
    {
      if !ok {
        failures := failures + 1;
        CheckHealthRestart(w);
        return;
      }
      failures := 0;
      healthy, paused := true, isPaused;
      state := if isPaused then Paused else if state == Paused then Running else state;
    }

    method SuperviseTick(w: World)
      modifies this
      ensures Now() == Ticked(old(Now()), spec, w)
    {
      if child && w.childExited {
        child := false;
        if state == Stopping {
          state := Stopped;
          return;
        }
        RestartOrFail(w);
        return;
      }
      if !spec.healthEnabled || !child { return; }
      if !admin { return; }
      match w.probe
      case Report(ok, isPaused) => ApplyHealth(ok, isPaused, w);
      case Unreachable =>
        failures := failures + 1;
        CheckHealthRestart(w);
    }
  }

  // ---------- what holds between steps ----------

  /** At rest: a child is held exactly while running or paused, and a failed instance is not healthy. */
  predicate Settled(s: Supervised) {
    && (s.state == Running || s.state == Paused || s.state == Stopped || s.state == Failed)
    && (s.child <==> s.state == Running || s.state == Paused)
    && (s.state == Failed ==> !s.healthy)
  }

  datatype Event = Order(command: Command, world: World) | Tick(world: World)

  function Next(s: Supervised, spec: Spec, ev: Event): Supervised {
    match ev
    case Order(command, w) => Handled(s, command, w)
    case Tick(w) => Ticked(s, spec, w)
  }

  /** The event posts to the admin address while no child is held, and the post is accepted. */
  predicate StrayPost(s: Supervised, ev: Event) {
    ev.Order? && (ev.command == Pause || ev.command == Resume) && s.admin && ev.world.postAccepted && !s.child
  }

  /** What a command does to an instance at rest. */
  lemma CommandsDo(s: Supervised, spec: Spec, w: World)
    requires Settled(s)
    ensures var t := Next(s, spec, Order(Start, w));
            if s.child then t == s
            else
              && t.child == w.spawns == t.healthy && t.state == (if w.spawns then Running else Failed)
              && t.admin == (s.admin || w.addressFound)
              && (t.paused, t.restarts, t.attempts, t.failures) == (s.paused, s.restarts, s.attempts, s.failures)
    ensures var t := Next(s, spec, Order(Stop, w)); t == s.(state := Stopped, child := false)
    ensures var t := Next(s, spec, Order(Restart, w));
            && t.child == w.spawns == t.healthy && t.state == (if w.spawns then Running else Failed)
            && t.admin == (s.admin || w.addressFound)
            && (t.paused, t.restarts, t.attempts, t.failures) == (s.paused, s.restarts, s.attempts, s.failures)
    ensures Next(s, spec, Order(Pause, w)) ==
              if s.admin && w.postAccepted then s.(state := Paused, paused := true) else s
    ensures Next(s, spec, Order(Resume, w)) ==
              if s.admin && w.postAccepted then s.(state := Running, paused := false) else s
  {
  }

  /** The tick sees a crash, or a failed probe that fills the count. */
  predicate NeedsRecovery(s: Supervised, spec: Spec, w: World) {
    s.child && (w.childExited || (spec.healthEnabled && s.admin && !(w.probe.Report? && w.probe.healthy)
                                  && s.failures + 1 >= spec.policy.healthFailures))
  }

  /** What a tick does to an instance at rest that needs no recovery: nothing where none is probed. */
  lemma TicksDo(s: Supervised, spec: Spec, w: World)
    requires Settled(s) && !NeedsRecovery(s, spec, w)
    ensures var t := Next(s, spec, Tick(w));
            var probed := s.child && spec.healthEnabled && s.admin;
            && (!probed ==> t == s)
            && (probed && w.probe.Report? && w.probe.healthy ==>
                  t == s.(failures := 0, healthy := true, paused := w.probe.paused,
                          state := if w.probe.paused then Paused else Running))
            && (probed && !(w.probe.Report? && w.probe.healthy) ==> t == s.(failures := s.failures + 1))
  {
  }

  /** A recovery is counted, and spawns anew if restarts are on and the budget is not used up. */
  lemma RecoveriesDo(s: Supervised, spec: Spec, w: World)
    requires Settled(s) && NeedsRecovery(s, spec, w)
    ensures var t, n := Next(s, spec, Tick(w)), s.attempts + 1;
            && t.attempts == t.restarts == n && t.paused == s.paused
            && if spec.policy.restart && n < spec.policy.maxRestarts
               then
                 && t.child == w.spawns == t.healthy && t.state == (if w.spawns then Running else Failed)
                 && t.failures == 0 && t.admin == (s.admin || w.addressFound)
               else !t.child && !t.healthy && t.state == Failed && t.admin == s.admin
  {
    BackoffIs(spec.policy, s.attempts + 1);
  }

  /** From rest, a command or tick ends at rest unless a stray post is accepted, and then it never does. */
  lemma NextSettledIff(s: Supervised, spec: Spec, ev: Event)
    requires Settled(s)
    ensures Settled(Next(s, spec, ev)) <==> !StrayPost(s, ev)
  {
  }

  function Run(s: Supervised, spec: Spec, log: seq<Event>): Supervised {
    if log == [] then s else Next(Run(s, spec, log[..|log| - 1]), spec, log[|log| - 1])
  }

  ghost predicate NoStrayPosts(s: Supervised, spec: Spec, log: seq<Event>) {
    forall k :: 0 <= k < |log| ==> !StrayPost(Run(s, spec, log[..k]), log[k])
  }

  /** A launch ends at rest unless the pause of an instance that failed to spawn is accepted. */
  lemma LaunchedSettledIff(admin: bool, desired: Desired, w: World)
    ensures Settled(Launched(admin, desired, w)) <==>
              !(desired == DesiredPaused && (admin || w.addressFound) && w.postAccepted && !w.spawns)
  {
  }

  /** The state before each event, and after the last, is at rest. */
  ghost predicate AlwaysSettled(s: Supervised, spec: Spec, log: seq<Event>) {
    forall k :: 0 <= k <= |log| ==> SettledAt(s, spec, log, k)
  }

  ghost predicate SettledAt(s: Supervised, spec: Spec, log: seq<Event>, k: nat)
    requires k <= |log|
  {
    Settled(Run(s, spec, log[..k]))
  }

  lemma SettledStep(s: Supervised, spec: Spec, log: seq<Event>, k: nat)
    requires k < |log| && SettledAt(s, spec, log, k)
    ensures SettledAt(s, spec, log, k + 1) <==> !StrayPost(Run(s, spec, log[..k]), log[k])
  {
    assert log[..k + 1][..k] == log[..k];
    NextSettledIff(Run(s, spec, log[..k]), spec, log[k]);
  }

  lemma {:induction false} SettledUpTo(s: Supervised, spec: Spec, log: seq<Event>, k: nat)
    requires Settled(s) && NoStrayPosts(s, spec, log) && k <= |log|
    ensures SettledAt(s, spec, log, k)
  {
    if k > 0 {
      SettledUpTo(s, spec, log, k - 1);
      SettledStep(s, spec, log, k - 1);
    }
  }

  /**
   * A run of commands and ticks is at rest between all steps if and only if no
   * stray post is accepted on the way.
   */
  lemma RunSettledIff(s: Supervised, spec: Spec, log: seq<Event>)
    requires Settled(s)
    ensures AlwaysSettled(s, spec, log) <==> NoStrayPosts(s, spec, log)
  {
    if AlwaysSettled(s, spec, log) {
      forall k | 0 <= k < |log| ensures !StrayPost(Run(s, spec, log[..k]), log[k]) {
        assert SettledAt(s, spec, log, k) && SettledAt(s, spec, log, k + 1);
        SettledStep(s, spec, log, k);
      }
    }
    if NoStrayPosts(s, spec, log) {
      forall k | 0 <= k <= |log| ensures SettledAt(s, spec, log, k) { SettledUpTo(s, spec, log, k); }
    }
  }

  /** So, without stray posts, no tick ever sees an instance stopping. */
  lemma NeverStopping(s: Supervised, spec: Spec, log: seq<Event>, k: nat)
    requires Settled(s) && NoStrayPosts(s, spec, log) && k <= |log|
    ensures Run(s, spec, log[..k]).state != Stopping
  {
    SettledUpTo(s, spec, log, k);
  }

  /** A stray post can be reached: an instance launched stopped, with an address, whose pause is accepted. */
  lemma StrayPostReached(w: World, v: World, spec: Spec)
    requires v.postAccepted
    ensures var s := Launched(true, DesiredStopped, w);
            && Settled(s) && !NoStrayPosts(s, spec, [Order(Pause, v)])
            && Run(s, spec, [Order(Pause, v)]).state == Paused && !Run(s, spec, [Order(Pause, v)]).child
  {
    var s, log := Launched(true, DesiredStopped, w), [Order(Pause, v)];
    assert log[..0] == [] && Run(s, spec, log[..0]) == s;
    assert StrayPost(Run(s, spec, log[..0]), log[0]);
  }

  // ---------- restarts ----------

  /** A crash or a probe leads to a restart attempt. */
  predicate Recovers(s: Supervised, spec: Spec, ev: Event) {
    ev.Tick? && ((s.child && ev.world.childExited && s.state != Stopping) || ProbeTriggers(s, spec, ev))
  }

  predicate ProbeFails(s: Supervised, spec: Spec, ev: Event) {
    ev.Tick? && Probes(s, spec, ev.world) && !(ev.world.probe.Report? && ev.world.probe.healthy)
  }

  predicate ProbeTriggers(s: Supervised, spec: Spec, ev: Event) {
    ProbeFails(s, spec, ev) && s.failures + 1 >= spec.policy.healthFailures
  }

  /** The attempt is within the budget. */
  predicate Respawns(s: Supervised, spec: Spec, ev: Event) {
    Recovers(s, spec, ev) && RestartBackoff(spec.policy, s.attempts + 1).Some?
  }

  predicate ProbeSucceeds(s: Supervised, spec: Spec, ev: Event) {
    ev.Tick? && Probes(s, spec, ev.world) && ev.world.probe.Report? && ev.world.probe.healthy
  }

  /** What an event does that the counters depend on. */
  datatype Mark = Mark(recovers: bool, respawns: bool, goodProbe: bool, failedProbe: bool)

  function MarkOf(s: Supervised, spec: Spec, ev: Event): Mark {
    Mark(Recovers(s, spec, ev), Respawns(s, spec, ev), ProbeSucceeds(s, spec, ev), ProbeFails(s, spec, ev))
  }

  /** The marks of the events of a run. */
  function Marks(s: Supervised, spec: Spec, log: seq<Event>): (marks: seq<Mark>)
    ensures |marks| == |log|
  {
    if log == [] then []
    else
      var k := |log| - 1;
      Marks(s, spec, log[..k]) + [MarkOf(Run(s, spec, log[..k]), spec, log[k])]
  }

  function AttemptsAfter(attempts: nat, m: Mark): nat { if m.recovers then attempts + 1 else attempts }

  function FailuresAfter(failures: nat, m: Mark): nat {
    if m.goodProbe || m.respawns then 0 else if m.failedProbe then failures + 1 else failures
  }

  /** A step counts an attempt when it recovers. */
  lemma StepCountsAttempts(s: Supervised, spec: Spec, ev: Event)
    ensures Next(s, spec, ev).attempts == AttemptsAfter(s.attempts, MarkOf(s, spec, ev))
  {
  }

  /** A good probe or a respawn clears the failures, a failed probe adds one. */
  lemma StepCountsFailures(s: Supervised, spec: Spec, ev: Event)
    ensures Next(s, spec, ev).failures == FailuresAfter(s.failures, MarkOf(s, spec, ev))
  {
  }

  function Attempts(start: nat, marks: seq<Mark>): nat {
    if marks == [] then start else AttemptsAfter(Attempts(start, marks[..|marks| - 1]), marks[|marks| - 1])
  }

  function Failures(start: nat, marks: seq<Mark>): nat {
    if marks == [] then start else FailuresAfter(Failures(start, marks[..|marks| - 1]), marks[|marks| - 1])
  }

  /** The counters of a run are those its marks give. */
  lemma {:induction false} RunCounts(s: Supervised, spec: Spec, log: seq<Event>)
    ensures Run(s, spec, log).attempts == Attempts(s.attempts, Marks(s, spec, log))
    ensures Run(s, spec, log).failures == Failures(s.failures, Marks(s, spec, log))
  {
    if log != [] {
      var k := |log| - 1;
      RunCounts(s, spec, log[..k]);
      StepCountsAttempts(Run(s, spec, log[..k]), spec, log[k]);
      StepCountsFailures(Run(s, spec, log[..k]), spec, log[k]);
      assert Marks(s, spec, log)[..k] == Marks(s, spec, log[..k]);
    }
  }

  /** The waits before the automatic respawns. */
  function Waits(policy: Policy, start: nat, marks: seq<Mark>): seq<nat> {
    if marks == [] then []
    else
      var k := |marks| - 1;
      var backoff := RestartBackoff(policy, Attempts(start, marks[..k]) + 1);
      Waits(policy, start, marks[..k]) + if marks[k].respawns && backoff.Some? then [backoff.value] else []
  }

  /** The waits are within the budget, capped and never shrink; the last one belongs to attempt `last`. */
  predicate WaitsInBudget(waits: seq<nat>, policy: Policy, first: nat, last: nat, now: nat) {
    && first + |waits| <= now
    && (forall i :: 0 <= i < |waits| ==> waits[i] <= BACKOFF_CAP)
    && (forall i, j :: 0 <= i < j < |waits| ==> waits[i] <= waits[j])
    && (waits != [] ==> policy.restart && first + |waits| < policy.maxRestarts)
    && (waits != [] ==> last <= now && RestartBackoff(policy, last) == Some(waits[|waits| - 1]))
  }

  lemma WaitAppended(waits: seq<nat>, policy: Policy, first: nat, last: nat, now: nat)
    requires WaitsInBudget(waits, policy, first, last, now)
    requires RestartBackoff(policy, now + 1).Some?
    ensures WaitsInBudget(waits + [RestartBackoff(policy, now + 1).value], policy, first, now + 1, now + 1)
  {
    BackoffMonotone(policy, if waits == [] then now + 1 else last, now + 1);
    var longer := waits + [RestartBackoff(policy, now + 1).value];
    forall i | 0 <= i < |waits| ensures longer[i] <= longer[|waits|] {
      assert longer[i] == waits[i] <= waits[|waits| - 1];
    }
  }

  /** A respawn at this event is a recovery with a wait allowed by the policy. */
  predicate PermittedAt(policy: Policy, start: nat, marks: seq<Mark>, i: nat)
    requires i < |marks|
  {
    marks[i].respawns ==> marks[i].recovers && RestartBackoff(policy, Attempts(start, marks[..i]) + 1).Some?
  }

  ghost predicate Permitted(policy: Policy, start: nat, marks: seq<Mark>) {
    forall i :: 0 <= i < |marks| ==> PermittedAt(policy, start, marks, i)
  }

  lemma PermittedBefore(policy: Policy, start: nat, marks: seq<Mark>)
    requires marks != [] && Permitted(policy, start, marks)
    ensures Permitted(policy, start, marks[..|marks| - 1])
  {
    var k := |marks| - 1;
    forall i | 0 <= i < k ensures PermittedAt(policy, start, marks[..k], i) {
      assert PermittedAt(policy, start, marks, i) && marks[..k][..i] == marks[..i];
    }
  }

  lemma {:induction false} WaitsBounded(policy: Policy, start: nat, marks: seq<Mark>) returns (last: nat)
    requires Permitted(policy, start, marks)
    ensures WaitsInBudget(Waits(policy, start, marks), policy, start, last, Attempts(start, marks))
  {
    if marks == [] {
      last := 0;
    } else {
      var k := |marks| - 1;
      PermittedBefore(policy, start, marks);
      last := WaitsBounded(policy, start, marks[..k]);
      assert PermittedAt(policy, start, marks, k);
      var now := Attempts(start, marks[..k]);
      if marks[k].respawns && RestartBackoff(policy, now + 1).Some? {
        WaitAppended(Waits(policy, start, marks[..k]), policy, start, last, now);
        last := now + 1;
      } else {
        assert Waits(policy, start, marks) == Waits(policy, start, marks[..k]);
      }
    }
  }

  /** A respawn is one of the recoveries, with a wait allowed by the policy. */
  lemma {:induction false} RespawnsRecover(s: Supervised, spec: Spec, log: seq<Event>, i: nat)
    requires i < |log| && Marks(s, spec, log)[i].respawns
    ensures Marks(s, spec, log)[i].recovers
    ensures RestartBackoff(spec.policy, Attempts(s.attempts, Marks(s, spec, log)[..i]) + 1).Some?
  {
    var k := |log| - 1;
    assert Marks(s, spec, log)[..k] == Marks(s, spec, log[..k]);
    if i < k {
      RespawnsRecover(s, spec, log[..k], i);
      assert Marks(s, spec, log)[..i] == Marks(s, spec, log[..k])[..i];
    } else {
      RunCounts(s, spec, log[..k]);
    }
  }

  /**
   * Over every interleaving of commands, crashes and probes from a launch, at
   * most max(0, max_restarts - 1) automatic respawns happen, none with
   * restarts off, and their waits never shrink and never exceed a minute.
   */
  lemma RestartBudget(admin: bool, desired: Desired, w: World, spec: Spec, log: seq<Event>)
    ensures var marks := Marks(Launched(admin, desired, w), spec, log);
            var waits := Waits(spec.policy, 0, marks);
            && |waits| == RespawnCount(marks)
            && |waits| <= (if spec.policy.maxRestarts == 0 then 0 else spec.policy.maxRestarts - 1)
            && (!spec.policy.restart ==> waits == [])
            && (forall i, j :: 0 <= i < j < |waits| ==> waits[i] <= waits[j])
            && (forall i :: 0 <= i < |waits| ==> waits[i] <= BACKOFF_CAP)
  {
    var s := Launched(admin, desired, w);
    var marks := Marks(s, spec, log);
    forall i | 0 <= i < |marks| ensures PermittedAt(spec.policy, 0, marks, i) {
      if marks[i].respawns { RespawnsRecover(s, spec, log, i); }
    }
    var _ := WaitsBounded(spec.policy, 0, marks);
    EveryRespawnWaits(spec.policy, 0, marks);
  }

  function RespawnCount(marks: seq<Mark>): nat {
    if marks == [] then 0 else RespawnCount(marks[..|marks| - 1]) + if marks[|marks| - 1].respawns then 1 else 0
  }

  lemma {:induction false} EveryRespawnWaits(policy: Policy, start: nat, marks: seq<Mark>)
    requires Permitted(policy, start, marks)
    ensures |Waits(policy, start, marks)| == RespawnCount(marks)
  {
    if marks != [] {
      var k := |marks| - 1;
      PermittedBefore(policy, start, marks);
      EveryRespawnWaits(policy, start, marks[..k]);
      assert PermittedAt(policy, start, marks, k);
    }
  }

  // ---------- health probes ----------

  /** The failed probes among some events. */
  function FailedProbes(marks: seq<Mark>): nat {
    if marks == [] then 0 else FailedProbes(marks[..|marks| - 1]) + if marks[|marks| - 1].failedProbe then 1 else 0
  }

  /** No good probe and no automatic respawn among some events. */
  predicate Undisturbed(marks: seq<Mark>) {
    forall i :: 0 <= i < |marks| ==> !marks[i].goodProbe && !marks[i].respawns
  }

  /** The failure counter is the number of failed probes in an undisturbed stretch up to now. */
  lemma {:induction false} FailuresAreAStreak(marks: seq<Mark>) returns (from: nat)
    ensures from <= |marks| && Undisturbed(marks[from..]) && FailedProbes(marks[from..]) == Failures(0, marks)
  {
    if marks == [] {
      from := 0;
    } else {
      var k := |marks| - 1;
      from := FailuresAreAStreak(marks[..k]);
      if marks[k].goodProbe || marks[k].respawns {
        from := |marks|;
      } else {
        assert marks[from..] == marks[..k][from..] + [marks[k]];
        assert marks[from..][..k - from] == marks[..k][from..];
      }
    }
  }

  /**
   * A recovery caused by a probe ends at least `health_failures` failed probes
   * with no good probe and no automatic respawn between them.
   */
  lemma ProbeRestartNeedsFailures(s: Supervised, spec: Spec, log: seq<Event>, ev: Event) returns (from: nat)
    requires s.failures == 0 && ProbeTriggers(Run(s, spec, log), spec, ev)
    ensures from <= |log| && Undisturbed(Marks(s, spec, log)[from..])
    ensures FailedProbes(Marks(s, spec, log)[from..]) + 1 >= spec.policy.healthFailures
  {
    from := FailuresAreAStreak(Marks(s, spec, log));
    RunCounts(s, spec, log);
  }
}
