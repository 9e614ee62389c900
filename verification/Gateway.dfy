/**
 * The gateway's choice of instances for a request (sohara-plane/src/gateway.rs):
 * running instances of the route's flow, ordered by a hash of the sticky key
 * or rotated round robin. The hash function is a parameter.
 */
module Gateway {
  import opened Json
  import opened Plane
  import Supervisor
  import opened Numbers

  datatype Target = Target(id: string, trigger: string)

  datatype Route = Route(id: string, flowId: string, byHash: bool)

  type Hash = string -> nat

  // ---------- eligible targets ----------

  /** Where to reach an instance: it belongs to the flow, was reported running and has a trigger address. */
  function TargetOf(decl: Decl, actual: map<string, seq<Report>>, flowId: string): Option<Target> {
    if decl.flowId != Some(flowId) then None
    else
      var report := FindReport(Entry(actual, decl.node), decl.id);
      if report.None? || report.value.state != Supervisor.Running || report.value.trigger.None? then None
      else Some(Target(decl.id, report.value.trigger.value))
  }

  /** The k-th of some reports is the first about the instance. */
  ghost predicate FirstReport(reports: seq<Report>, id: string, k: nat) {
    k < |reports| && reports[k].id == id && forall j :: 0 <= j < k ==> reports[j].id != id
  }

  lemma {:induction false} FindReportIs(reports: seq<Report>, id: string)
    ensures FindReport(reports, id).None? <==> forall j :: 0 <= j < |reports| ==> reports[j].id != id
    ensures forall k: nat :: FirstReport(reports, id, k) ==> FindReport(reports, id) == Some(reports[k])
  {
    if reports != [] {
      FindReportIs(reports[1..], id);
      forall k: nat | FirstReport(reports, id, k) ensures FindReport(reports, id) == Some(reports[k]) {
        if k > 0 {
          forall j | 0 <= j < k - 1 ensures reports[1..][j].id != id { assert reports[j + 1].id != id; }
          assert reports[0].id != id && FirstReport(reports[1..], id, k - 1);
        }
      }
      assert forall j :: 0 <= j < |reports| - 1 ==> reports[1..][j] == reports[j + 1];
    }
  }

  lemma {:induction false} SomeFirst(reports: seq<Report>, id: string) returns (k: nat)
    requires exists j :: 0 <= j < |reports| && reports[j].id == id
    ensures FirstReport(reports, id, k)
  {
    if reports[0].id == id {
      k := 0;
    } else {
      var j :| 0 <= j < |reports| && reports[j].id == id;
      assert reports[1..][j - 1].id == id;
      k := SomeFirst(reports[1..], id);
      k := k + 1;
    }
  }

  /**
   * An instance is a target exactly if it belongs to the flow and the first
   * report its node made about it says that it runs and where its trigger is.
   */
  lemma TargetMeans(decl: Decl, actual: map<string, seq<Report>>, flowId: string, t: Target)
    ensures TargetOf(decl, actual, flowId) == Some(t) <==>
              && t.id == decl.id && decl.flowId == Some(flowId) && decl.node in actual
              && exists k: nat :: FirstReport(actual[decl.node], decl.id, k)
                                  && actual[decl.node][k].state == Supervisor.Running
                                  && actual[decl.node][k].trigger == Some(t.trigger)
  {
    var reports := Entry(actual, decl.node);
    FindReportIs(reports, decl.id);
    if FindReport(reports, decl.id).Some? { var k := SomeFirst(reports, decl.id); }
  }

  function RunningTargets(instances: map<string, Decl>, actual: map<string, seq<Report>>, flowId: string,
                          order: seq<string>): seq<Target>
    requires forall i :: 0 <= i < |order| ==> order[i] in instances
    decreases |order|
  {
    if order == [] then []
    else
      var k := |order| - 1;
      var before := RunningTargets(instances, actual, flowId, order[..k]);
      var target := TargetOf(instances[order[k]], actual, flowId);
      if target.Some? then before + [target.value] else before
  }

  // ---------- sorting by hash ----------

  /** Puts a target behind all those with a hash no greater. */
  function Insert(hash: Hash, sorted: seq<Target>, t: Target): (r: seq<Target>)
    ensures multiset(r) == multiset(sorted) + multiset{t}
  {
    if sorted == [] then [t]
    else
      var k := |sorted| - 1;
      assert sorted == sorted[..k] + [sorted[k]];
      if hash(sorted[k].id) <= hash(t.id) then sorted + [t] else Insert(hash, sorted[..k], t) + [sorted[k]]
  }

  /** The stable sort by hash. */
  function Sorted(hash: Hash, targets: seq<Target>): (r: seq<Target>)
    ensures multiset(r) == multiset(targets)
  {
    if targets == [] then []
    else
      var k := |targets| - 1;
      assert targets == targets[..k] + [targets[k]];
      Insert(hash, Sorted(hash, targets[..k]), targets[k])
  }

  predicate InOrder(hash: Hash, s: seq<Target>) {
    forall i, j :: 0 <= i < j < |s| ==> hash(s[i].id) <= hash(s[j].id)
  }

  predicate DistinctHashes(hash: Hash, s: seq<Target>) {
    forall i, j :: 0 <= i < j < |s| ==> hash(s[i].id) != hash(s[j].id)
  }

  lemma {:induction false} InsertBelow(hash: Hash, sorted: seq<Target>, t: Target, bound: nat)
    requires hash(t.id) <= bound && forall i :: 0 <= i < |sorted| ==> hash(sorted[i].id) <= bound
    ensures forall i :: 0 <= i < |Insert(hash, sorted, t)| ==> hash(Insert(hash, sorted, t)[i].id) <= bound
  {
    if sorted != [] { InsertBelow(hash, sorted[..|sorted| - 1], t, bound); }
  }

  lemma {:induction false} InsertInOrder(hash: Hash, sorted: seq<Target>, t: Target)
    requires InOrder(hash, sorted)
    ensures InOrder(hash, Insert(hash, sorted, t))
  {
    if sorted != [] {
      var k := |sorted| - 1;
      if hash(sorted[k].id) > hash(t.id) {
        InsertInOrder(hash, sorted[..k], t);
        InsertBelow(hash, sorted[..k], t, hash(sorted[k].id));
      }
    }
  }

  lemma {:induction false} SortedInOrder(hash: Hash, targets: seq<Target>)
    ensures InOrder(hash, Sorted(hash, targets))
  {
    if targets != [] {
      var k := |targets| - 1;
      SortedInOrder(hash, targets[..k]);
      InsertInOrder(hash, Sorted(hash, targets[..k]), targets[k]);
    }
  }

  lemma InsertLast(hash: Hash, sorted: seq<Target>, t: Target)
    requires sorted != [] ==> hash(sorted[|sorted| - 1].id) <= hash(t.id)
    ensures Insert(hash, sorted, t) == sorted + [t]
  {
  }

  lemma SortedStep(hash: Hash, targets: seq<Target>, k: nat)
    requires k < |targets|
    ensures Sorted(hash, targets[..k + 1]) == Insert(hash, Sorted(hash, targets[..k]), targets[k])
  {
    assert targets[..k + 1][..k] == targets[..k];
  }

  /** What is in order already stays as it is. */
  lemma {:induction false} SortedStable(hash: Hash, targets: seq<Target>)
    requires InOrder(hash, targets)
    ensures Sorted(hash, targets) == targets
    decreases |targets|
  {
    if targets != [] {
      var k := |targets| - 1;
      SortedStable(hash, targets[..k]);
      InsertLast(hash, targets[..k], targets[k]);
    }
  }

  // ---------- the order does not depend on where the list came from ----------

  lemma TwiceCounts(s: seq<Target>, i: nat, j: nat)
    requires i < j < |s| && s[i] == s[j]
    ensures multiset(s)[s[i]] >= 2
  {
    assert s == s[..j] + s[j..];
    assert s[..j][i] in multiset(s[..j]) && s[j..][0] in multiset(s[j..]);
  }

  lemma {:induction false} CountedTwice(s: seq<Target>, t: Target) returns (i: nat, j: nat)
    requires multiset(s)[t] >= 2
    ensures i < j < |s| && s[i] == t == s[j]
  {
    var k := |s| - 1;
    assert s == s[..k] + [s[k]];
    if s[k] == t {
      assert t in multiset(s[..k]);
      j := k;
      i :| 0 <= i < k && s[..k][i] == t;
    } else {
      i, j := CountedTwice(s[..k], t);
    }
  }

  lemma MemberOf(s: seq<Target>, t: Target) returns (i: nat)
    requires t in multiset(s)
    ensures i < |s| && s[i] == t
  {
    i :| 0 <= i < |s| && s[i] == t;
  }

  /** A repeated hash is a property of the targets, not of their order. */
  lemma RepeatedHash(hash: Hash, a: seq<Target>, b: seq<Target>, i: nat, j: nat)
    requires multiset(a) == multiset(b) && i < j < |b| && hash(b[i].id) == hash(b[j].id)
    ensures !DistinctHashes(hash, a)
  {
    assert b[i] in multiset(a) && b[j] in multiset(a);
    if b[i] == b[j] {
      TwiceCounts(b, i, j);
      var p, q := CountedTwice(a, b[i]);
    } else {
      var p := MemberOf(a, b[i]);
      var q := MemberOf(a, b[j]);
      assert p < q || q < p;
    }
  }

  lemma DistinctHashesPermute(hash: Hash, a: seq<Target>, b: seq<Target>)
    requires multiset(a) == multiset(b) && DistinctHashes(hash, a)
    ensures DistinctHashes(hash, b)
  {
    forall i, j | 0 <= i < j < |b| ensures hash(b[i].id) != hash(b[j].id) {
      if hash(b[i].id) == hash(b[j].id) { RepeatedHash(hash, a, b, i, j); }
    }
  }

  lemma {:induction false} OneOrder(hash: Hash, a: seq<Target>, b: seq<Target>)
    requires InOrder(hash, a) && InOrder(hash, b) && multiset(a) == multiset(b) && DistinctHashes(hash, b)
    ensures a == b
    decreases |a|
  {
    SameLength(a, b);
    if a != [] {
      var k := |a| - 1;
      SameLast(hash, a, b);
      SameFronts(a, b);
      OneOrder(hash, a[..k], b[..k]);
      assert a == a[..k] + [a[k]] && b == b[..k] + [b[k]];
    }
  }

  lemma SameFronts(a: seq<Target>, b: seq<Target>)
    requires |a| == |b| > 0 && multiset(a) == multiset(b) && a[|a| - 1] == b[|b| - 1]
    ensures multiset(a[..|a| - 1]) == multiset(b[..|b| - 1])
  {
    DropLast(a);
    DropLast(b);
  }

  lemma SameLength(a: seq<Target>, b: seq<Target>)
    requires multiset(a) == multiset(b)
    ensures |a| == |b|
  {
    assert |multiset(a)| == |a| && |multiset(b)| == |b|;
  }

  lemma DropLast(a: seq<Target>)
    requires a != []
    ensures multiset(a[..|a| - 1]) == multiset(a) - multiset{a[|a| - 1]}
  {
    assert a == a[..|a| - 1] + [a[|a| - 1]];
  }

  lemma SameLast(hash: Hash, a: seq<Target>, b: seq<Target>)
    requires InOrder(hash, a) && InOrder(hash, b) && multiset(a) == multiset(b) && DistinctHashes(hash, b)
    requires |a| == |b| > 0
    ensures a[|a| - 1] == b[|b| - 1]
  {
    var k := |a| - 1;
    assert a[k] in multiset(b) && b[k] in multiset(a);
    var i := MemberOf(b, a[k]);
    var j := MemberOf(a, b[k]);
    assert hash(b[i].id) <= hash(b[k].id) && hash(a[j].id) <= hash(a[k].id);
  }

  /** With distinct hashes every arrangement of the same targets is ordered alike. */
  lemma SortedPermute(hash: Hash, a: seq<Target>, b: seq<Target>)
    requires multiset(a) == multiset(b) && DistinctHashes(hash, a)
    ensures Sorted(hash, a) == Sorted(hash, b)
  {
    SortedInOrder(hash, a);
    SortedInOrder(hash, b);
    DistinctHashesPermute(hash, a, Sorted(hash, b));
    OneOrder(hash, Sorted(hash, a), Sorted(hash, b));
  }

  predicate DistinctTargets(s: seq<Target>) { forall i, j :: 0 <= i < j < |s| ==> s[i] != s[j] }

  function Swapped(s: seq<Target>, i: nat): (r: seq<Target>)
    requires i + 1 < |s|
    ensures multiset(r) == multiset(s)
  {
    assert s == s[..i] + [s[i], s[i + 1]] + s[i + 2..];
    s[..i] + [s[i + 1], s[i]] + s[i + 2..]
  }

  /** Another arrangement of targets with a repeated hash is ordered differently. */
  lemma RepeatedHashShows(hash: Hash, a: seq<Target>) returns (b: seq<Target>)
    requires DistinctTargets(a) && !DistinctHashes(hash, a)
    ensures multiset(b) == multiset(a) && Sorted(hash, b) != Sorted(hash, a)
  {
    var s := Sorted(hash, a);
    SortedInOrder(hash, a);
    if DistinctHashes(hash, s) { DistinctHashesPermute(hash, s, a); }
    var i: nat, j: nat :| i < j < |s| && hash(s[i].id) == hash(s[j].id);
    assert hash(s[i].id) <= hash(s[i + 1].id) <= hash(s[j].id);
    if s[i] == s[i + 1] {
      TwiceCounts(s, i, i + 1);
      var p, q := CountedTwice(a, s[i]);
      assert false;
    }
    b := Swapped(s, i);
    SwappedInOrder(hash, s, i);
    SortedStable(hash, b);
    assert b[i] == s[i + 1];
  }

  lemma SwappedInOrder(hash: Hash, s: seq<Target>, i: nat)
    requires i + 1 < |s| && InOrder(hash, s) && hash(s[i].id) == hash(s[i + 1].id)
    ensures InOrder(hash, Swapped(s, i))
  {
    var r := Swapped(s, i);
    forall p, q | 0 <= p < q < |r| ensures hash(r[p].id) <= hash(r[q].id) {
      assert hash(r[p].id) == hash(s[p].id) && hash(r[q].id) == hash(s[q].id);
    }
  }

  /** The hash order ignores the order of the list exactly when no two targets share a hash. */
  lemma OrderIgnoredIff(hash: Hash, a: seq<Target>)
    requires DistinctTargets(a)
    ensures (forall b :: multiset(b) == multiset(a) ==> Sorted(hash, b) == Sorted(hash, a)) <==> DistinctHashes(hash, a)
  {
    if DistinctHashes(hash, a) {
      forall b | multiset(b) == multiset(a) ensures Sorted(hash, b) == Sorted(hash, a) {
        SortedPermute(hash, a, b);
      }
    } else {
      var b := RepeatedHashShows(hash, a);
      assert multiset(b) == multiset(a) && Sorted(hash, b) != Sorted(hash, a);
    }
  }

  // ---------- adding and removing an instance ----------

  lemma {:induction false} InsertAt(hash: Hash, sorted: seq<Target>, t: Target) returns (p: nat)
    ensures p <= |sorted| && Insert(hash, sorted, t) == sorted[..p] + [t] + sorted[p..]
  {
    var k := |sorted| - 1;
    if sorted == [] || hash(sorted[k].id) <= hash(t.id) {
      p := |sorted|;
      assert sorted[..p] == sorted && sorted[p..] == [];
    } else {
      p := InsertAt(hash, sorted[..k], t);
      assert sorted[..k][..p] == sorted[..p];
      assert sorted[p..] == sorted[..k][p..] + [sorted[k]];
    }
  }

  lemma {:induction false} InsertsThere(hash: Hash, sorted: seq<Target>, t: Target, p: nat)
    requires p <= |sorted| && (p > 0 ==> hash(sorted[p - 1].id) <= hash(t.id))
    requires forall j :: p <= j < |sorted| ==> hash(sorted[j].id) > hash(t.id)
    ensures Insert(hash, sorted, t) == sorted[..p] + [t] + sorted[p..]
  {
    var k := |sorted| - 1;
    if p == |sorted| {
      assert sorted[..p] == sorted && sorted[p..] == [];
    } else {
      InsertsThere(hash, sorted[..k], t, p);
      SlotBeforeLast(sorted, t, p);
    }
  }

  lemma SlotBeforeLast(s: seq<Target>, t: Target, p: nat)
    requires p < |s|
    ensures var k := |s| - 1; s[..k][..p] + [t] + s[..k][p..] + [s[k]] == s[..p] + [t] + s[p..]
  {
  }

  /**
   * The targets `b` are the targets `a` and one more: the newcomer is slotted
   * into the order of the others, which is kept. So removing an instance that
   * is not the first choice keeps the first choice, and adding one keeps it
   * or moves it to the newcomer.
   */
  lemma OneMoreTarget(hash: Hash, a: seq<Target>, b: seq<Target>, t: Target) returns (p: nat)
    requires multiset(b) == multiset(a) + multiset{t} && DistinctHashes(hash, b)
    ensures p <= |Sorted(hash, a)| && Sorted(hash, b) == Sorted(hash, a)[..p] + [t] + Sorted(hash, a)[p..]
    ensures a != [] && Sorted(hash, b)[0] != t ==> Sorted(hash, a) != [] && Sorted(hash, b)[0] == Sorted(hash, a)[0]
  {
    var c := a + [t];
    assert c[..|a|] == a;
    SortedPermute(hash, b, c);
    p := InsertAt(hash, Sorted(hash, a), t);
    assert |Sorted(hash, a)| == |multiset(a)| == |a|;
  }

  // ---------- eligible targets do not depend on map order ----------

  /** The targets are exactly those of the eligible instances, each once, in whatever order the map is walked. */
  lemma {:induction false} RunningTargetsAre(instances: map<string, Decl>, actual: map<string, seq<Report>>,
                                             flowId: string,
                                             order: seq<string>, t: Target)
    requires forall id :: id in instances ==> instances[id].id == id
    requires forall i :: 0 <= i < |order| ==> order[i] in instances
    requires forall i, j :: 0 <= i < j < |order| ==> order[i] != order[j]
    ensures multiset(RunningTargets(instances, actual, flowId, order))[t] ==
            if t.id in order && TargetOf(instances[t.id], actual, flowId) == Some(t) then 1 else 0
    decreases |order|
  {
    if order != [] {
      var k := |order| - 1;
      RunningTargetsAre(instances, actual, flowId, order[..k], t);
      assert order == order[..k] + [order[k]];
      assert t.id == order[k] ==> t.id !in order[..k];
    }
  }

  lemma RunningTargetsPermute(instances: map<string, Decl>, actual: map<string, seq<Report>>, flowId: string,
                              order: seq<string>, other: seq<string>)
    requires forall id :: id in instances ==> instances[id].id == id
    requires IsOrder(order, instances.Keys) && IsOrder(other, instances.Keys)
    ensures multiset(RunningTargets(instances, actual, flowId, order)) ==
              multiset(RunningTargets(instances, actual, flowId, other))
  {
    forall t: Target
      ensures multiset(RunningTargets(instances, actual, flowId, order))[t] ==
                multiset(RunningTargets(instances, actual, flowId, other))[t]
    {
      RunningTargetsAre(instances, actual, flowId, order, t);
      RunningTargetsAre(instances, actual, flowId, other, t);
    }
  }

  /**
   * With distinct hashes, the candidates for a sticky key do not depend on the order the registry's
   * map is walked in.
   */
  lemma StickyChoiceIsDetermined(instances: map<string, Decl>, actual: map<string, seq<Report>>, flowId: string,
                                 hash: Hash,
                                 order: seq<string>, other: seq<string>)
    requires forall id :: id in instances ==> instances[id].id == id
    requires IsOrder(order, instances.Keys) && IsOrder(other, instances.Keys)
    requires DistinctHashes(hash, RunningTargets(instances, actual, flowId, order))
    ensures Sorted(hash, RunningTargets(instances, actual, flowId, order)) ==
              Sorted(hash, RunningTargets(instances, actual, flowId, other))
  {
    RunningTargetsPermute(instances, actual, flowId, order, other);
    SortedPermute(hash, RunningTargets(instances, actual, flowId, order),
                  RunningTargets(instances, actual, flowId, other));
  }

  // ---------- round robin ----------

  /** The target whose turn it is. */
  function Lead(targets: seq<Target>, counter: nat): Target
    requires targets != []
  {
    targets[counter % |targets|]
  }

  function Rotated(targets: seq<Target>, counter: nat): (r: seq<Target>)
    requires targets != []
    ensures |r| == |targets| && r[0] == Lead(targets, counter)
  {
    var shift := counter % |targets|;
    targets[shift..] + targets[..shift]
  }

  /** A rotation starts at the counter and takes the targets round in a circle. */
  lemma RotatedIs(targets: seq<Target>, counter: nat, i: nat)
    requires i < |targets|
    ensures var n, shift := |targets|, counter % |targets|;
            Rotated(targets, counter)[i] == if shift + i < n then targets[shift + i] else targets[shift + i - n]
  {
  }

  type Choice = nat -> Target

  /** How often a target is the first choice in consecutive calls, from a counter on. */
  function TimesFirst(first: Choice, counter: nat, calls: nat, t: Target): nat
    decreases calls
  {
    if calls == 0 then 0
    else (if first(counter) == t then 1 else 0) + TimesFirst(first, counter + 1, calls - 1, t)
  }

  lemma {:induction false} TimesFirstSplit(first: Choice, counter: nat, calls: nat, more: nat, t: Target)
    ensures TimesFirst(first, counter, calls + more, t) ==
              TimesFirst(first, counter, calls, t) + TimesFirst(first, counter + calls, more, t)
    decreases calls
  {
    if calls > 0 { TimesFirstSplit(first, counter + 1, calls - 1, more, t); }
  }

  /** `first` is what a round-robin call on these targets puts first. */
  ghost predicate PutsFirst(first: Choice, targets: seq<Target>) {
    targets != [] && forall counter :: first(counter) == Lead(targets, counter)
  }

  /** From place `from` to the end of the list, a target is first once if it is yet to come. */
  lemma {:induction false} FirstTurn(first: Choice, targets: seq<Target>, from: nat, i: nat)
    requires PutsFirst(first, targets) && DistinctTargets(targets) && i < |targets| && from <= |targets|
    ensures TimesFirst(first, from, |targets| - from, targets[i]) == if from <= i then 1 else 0
    decreases |targets| - from
  {
    if from < |targets| {
      FirstTurn(first, targets, from + 1, i);
      SmallRemainder(from, |targets|);
      assert first(from) == Lead(targets, from) == targets[from];
    }
  }

  predicate Repeats(first: Choice, counter: nat, n: nat) { first(counter + n) == first(counter) }

  lemma Slide(first: Choice, counter: nat, n: nat, t: Target)
    requires Repeats(first, counter, n)
    ensures TimesFirst(first, counter + 1, n, t) == TimesFirst(first, counter, n, t)
  {
    TimesFirstSplit(first, counter, n, 1, t);
    assert TimesFirst(first, counter + n, 1, t) == if first(counter) == t then 1 else 0;
  }

  lemma Periodic(first: Choice, targets: seq<Target>, counter: nat)
    requires PutsFirst(first, targets)
    ensures Repeats(first, counter, |targets|)
  {
    PeriodicRemainder(counter, |targets|);
    assert first(counter) == Lead(targets, counter);
    assert first(counter + |targets|) == Lead(targets, counter + |targets|);
  }

  ghost predicate RepeatsBelow(first: Choice, counter: nat, n: nat) {
    forall c :: 0 <= c < counter ==> Repeats(first, c, n)
  }

  lemma PeriodicBelow(first: Choice, targets: seq<Target>, counter: nat)
    requires PutsFirst(first, targets)
    ensures RepeatsBelow(first, counter, |targets|)
  {
    forall c | 0 <= c < counter ensures Repeats(first, c, |targets|) {
      Periodic(first, targets, c);
    }
  }

  lemma {:induction false} SlideTo(first: Choice, n: nat, counter: nat, t: Target)
    requires RepeatsBelow(first, counter, n)
    ensures TimesFirst(first, counter, n, t) == TimesFirst(first, 0, n, t)
    decreases counter
  {
    if counter > 0 {
      SlideTo(first, n, counter - 1, t);
      Slide(first, counter - 1, n, t);
    }
  }

  /** Every full turn chooses each target once, wherever it starts. */
  lemma FullTurn(first: Choice, targets: seq<Target>, counter: nat, t: Target)
    requires PutsFirst(first, targets) && DistinctTargets(targets) && t in targets
    ensures TimesFirst(first, counter, |targets|, t) == 1
  {
    var i :| 0 <= i < |targets| && targets[i] == t;
    FirstTurn(first, targets, 0, i);
    PeriodicBelow(first, targets, counter);
    SlideTo(first, |targets|, counter, t);
  }

  lemma {:induction false} TurnsAreFair(first: Choice, n: nat, counter: nat, turns: nat, calls: nat, t: Target)
    requires (forall c :: TimesFirst(first, c, n, t) == 1) && calls == turns * n
    ensures TimesFirst(first, counter, calls, t) == turns
    decreases turns
  {
    if turns > 0 {
      var rest := (turns - 1) * n;
      assert calls == n + rest;
      TurnsAreFair(first, n, counter + n, turns - 1, rest, t);
      TimesFirstSplit(first, counter, n, rest, t);
    }
  }

  /** Over any `turns * n` consecutive counter values each of n targets leads `turns` times. */
  lemma FairTurns(first: Choice, targets: seq<Target>, counter: nat, turns: nat, t: Target)
    requires PutsFirst(first, targets) && DistinctTargets(targets) && t in targets
    ensures TimesFirst(first, counter, turns * |targets|, t) == turns
  {
    forall c: nat ensures TimesFirst(first, c, |targets|, t) == 1 {
      FullTurn(first, targets, c, t);
    }
    TurnsAreFair(first, |targets|, counter, turns, turns * |targets|, t);
  }

  // ---------- consecutive calls ----------

  function Count(counters: map<string, nat>, route: string): nat { if route in counters then counters[route] else 0 }

  function Counted(counters: map<string, nat>, route: string): map<string, nat> {
    counters[route := Count(counters, route) + 1]
  }

  /** How often a target comes first in consecutive round-robin calls for a route, the counters moving on with each. */
  function FirstChoices(counters: map<string, nat>, route: string, targets: seq<Target>, calls: nat, t: Target): nat
    requires targets != []
    decreases calls
  {
    if calls == 0 then 0
    else
      (if Rotated(targets, Count(counters, route))[0] == t then 1 else 0)
      + FirstChoices(Counted(counters, route), route, targets, calls - 1, t)
  }

  lemma {:induction false} FirstChoicesCount(first: Choice, counters: map<string, nat>, route: string,
                                             targets: seq<Target>, calls: nat, t: Target)
    requires PutsFirst(first, targets)
    ensures FirstChoices(counters, route, targets, calls, t) == TimesFirst(first, Count(counters, route), calls, t)
    decreases calls
  {
    if calls > 0 {
      assert first(Count(counters, route)) == Lead(targets, Count(counters, route));
      FirstChoicesCount(first, Counted(counters, route), route, targets, calls - 1, t);
    }
  }

  /**
   * Over any `turns * n` consecutive round-robin calls for a route whose n
   * targets stay the same, whatever the counters hold at first, each target is
   * the first choice `turns` times.
   */
  lemma RoundRobinIsFair(counters: map<string, nat>, route: string, targets: seq<Target>, turns: nat, t: Target)
    requires DistinctTargets(targets) && t in targets
    ensures FirstChoices(counters, route, targets, turns * |targets|, t) == turns
  {
    var first: Choice := (counter: nat) => Lead(targets, counter);
    FirstChoicesCount(first, counters, route, targets, turns * |targets|, t);
    FairTurns(first, targets, Count(counters, route), turns, t);
  }

  // ---------- the gateway's counters in place ----------

  function Triggers(targets: seq<Target>): (r: seq<string>)
    ensures |r| == |targets| && forall i :: 0 <= i < |r| ==> r[i] == targets[i].trigger
  {
    seq(|targets|, i requires 0 <= i < |targets| => targets[i].trigger)
  }

  /** The order of instances for a sticky key. */
  function KeyHash(hash: (string, string) -> nat, key: string): Hash { id => hash(key, id) }

  /** The candidates of a request: in order of the sticky key's hash, or in turn. */
  function Candidates(route: Route, hashKey: Option<string>, hash: (string, string) -> nat, counters: map<string, nat>,
                      targets: seq<Target>): seq<Target>
    requires targets != []
  {
    if route.byHash && hashKey.Some? then Sorted(KeyHash(hash, hashKey.value), targets)
    else Rotated(targets, Count(counters, route.id))
  }

  function CountersAfter(route: Route, hashKey: Option<string>, counters: map<string, nat>): map<string, nat> {
    if route.byHash && hashKey.Some? then counters else Counted(counters, route.id)
  }

  /** With a sticky key: the targets in order of `hash(key, id)`; the counters are for all other requests. */
  lemma CandidatesAre(route: Route, hashKey: Option<string>, hash: (string, string) -> nat,
                      counters: map<string, nat>, targets: seq<Target>)
    requires targets != []
    ensures var ordered := Candidates(route, hashKey, hash, counters, targets);
            var after := CountersAfter(route, hashKey, counters);
            && multiset(ordered) == multiset(targets)
            && (route.byHash && hashKey.Some? ==>
                  && after == counters
                  && forall i, j :: 0 <= i < j < |ordered| ==>
                                      hash(hashKey.value, ordered[i].id) <= hash(hashKey.value, ordered[j].id))
            && (!(route.byHash && hashKey.Some?) ==>
                  var used := if route.id in counters then counters[route.id] else 0;
                  && ordered[0] == targets[used % |targets|] && after == counters[route.id := used + 1])
  {
    if route.byHash && hashKey.Some? {
      SortedInOrder(KeyHash(hash, hashKey.value), targets);
    } else {
      var shift := Count(counters, route.id) % |targets|;
      assert targets == targets[..shift] + targets[shift..];
    }
  }

  class Selector {
    const hash: (string, string) -> nat
    var roundRobin: map<string, nat>

    constructor (hash: (string, string) -> nat)
      ensures this.hash == hash && roundRobin == map[]
    {
      this.hash, roundRobin := hash, map[];
    }

    method ListRunning(instances: map<string, Decl>, actual: map<string, seq<Report>>, flowId: string,
                       order: seq<string>)
      returns (targets: seq<Target>)
      requires IsOrder(order, instances.Keys)
      ensures targets == RunningTargets(instances, actual, flowId, order)
    {
      targets := [];
      for i := 0 to |order|
        invariant targets == RunningTargets(instances, actual, flowId, order[..i])
      {
        assert order[..i + 1][..i] == order[..i];
        var target := TargetOf(instances[order[i]], actual, flowId);
        if target.Some? { targets := targets + [target.value]; }
      }
      assert order[..|order|] == order;
    }

    /** Stable insertion sort. */
    method SortByHash(order: Hash, targets: seq<Target>) returns (sorted: seq<Target>)
      ensures sorted == Sorted(order, targets)
    {
      sorted := [];
      for k := 0 to |targets|
        invariant sorted == Sorted(order, targets[..k])
      {
        SortedStep(order, targets, k);
        sorted := InsertByHash(order, sorted, targets[k]);
      }
      assert targets[..|targets|] == targets;
    }

    method InsertByHash(order: Hash, sorted: seq<Target>, t: Target) returns (r: seq<Target>)
      ensures r == Insert(order, sorted, t)
    {
      var p := |sorted|;
      while p > 0 && order(sorted[p - 1].id) > order(t.id)
        invariant 0 <= p <= |sorted|
        invariant forall j :: p <= j < |sorted| ==> order(sorted[j].id) > order(t.id)
      {
        p := p - 1;
      }
      InsertsThere(order, sorted, t, p);
      r := sorted[..p] + [t] + sorted[p..];
    }

    /** Move the first target to the end, as often as the shift says. */
    method RotateLeft(targets: seq<Target>, shift: nat) returns (r: seq<Target>)
      requires shift <= |targets|
      ensures r == targets[shift..] + targets[..shift]
    {
      r := targets;
      for i := 0 to shift
        invariant r == targets[i..] + targets[..i]
      {
        assert targets[..i + 1] == targets[..i] + [targets[i]];
        r := r[1..] + [r[0]];
      }
    }

    /** Sorted for a sticky key; otherwise rotated, and the route's counter moves on by one. */
    method OrderTargets(route: Route, hashKey: Option<string>, targets: seq<Target>) returns (triggers: seq<string>)
      requires targets != []
      modifies this
      ensures triggers == Triggers(Candidates(route, hashKey, hash, old(roundRobin), targets))
      ensures roundRobin == CountersAfter(route, hashKey, old(roundRobin))
    {
      var ordered;
      if route.byHash && hashKey.Some? {
        ordered := SortByHash(KeyHash(hash, hashKey.value), targets);
      } else {
        var counter := Count(roundRobin, route.id);
        roundRobin := roundRobin[route.id := counter + 1];
        ordered := RotateLeft(targets, counter % |targets|);
      }
      triggers := ListTriggers(ordered);
    }

    method ListTriggers(ordered: seq<Target>) returns (triggers: seq<string>)
      ensures triggers == Triggers(ordered)
    {
      triggers := [];
      for i := 0 to |ordered|
        invariant triggers == Triggers(ordered[..i])
      {
        assert Triggers(ordered[..i + 1]) == Triggers(ordered[..i]) + [ordered[i].trigger];
        triggers := triggers + [ordered[i].trigger];
      }
      assert ordered[..|ordered|] == ordered;
    }

    /** No eligible instance gives no candidate and leaves the counters alone. */
    method SelectTargets(instances: map<string, Decl>, actual: map<string, seq<Report>>, route: Route,
                         hashKey: Option<string>, order: seq<string>)
      returns (triggers: seq<string>)
      requires IsOrder(order, instances.Keys)
      modifies this
      ensures var targets := RunningTargets(instances, actual, route.flowId, order);
              if targets == [] then triggers == [] && roundRobin == old(roundRobin)
              else
                && triggers == Triggers(Candidates(route, hashKey, hash, old(roundRobin), targets))
                && roundRobin == CountersAfter(route, hashKey, old(roundRobin))
    {
      var targets := ListRunning(instances, actual, route.flowId, order);
      if targets == [] { return []; }
      triggers := OrderTargets(route, hashKey, targets);
    }
  }
}
