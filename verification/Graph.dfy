/**
 * Directed multigraphs given by target lists, and Kahn's cycle check as the
 * runtime runs it (sohara-runtime/src/routes.rs) and as the configuration runs
 * it (sohara-config/src/validate.rs).
 */
module Graph {

  type Adjacency = map<string, seq<string>>

  function Targets(g: Adjacency, id: string): seq<string> {
    if id in g then g[id] else []
  }

  ghost predicate Edge(g: Adjacency, a: string, b: string) { b in Targets(g, a) }

  ghost predicate IsPath(g: Adjacency, p: seq<string>) {
    p != [] && forall i, j :: 0 <= i < j < |p| && j == i + 1 ==> Edge(g, p[i], p[j])
  }

  ghost predicate PathBetween(g: Adjacency, p: seq<string>, a: string, b: string) {
    IsPath(g, p) && p[0] == a && p[|p| - 1] == b
  }

  /** A path, possibly of no edges, leads from `a` to `b`. */
  ghost predicate Reaches(g: Adjacency, a: string, b: string) {
    exists p :: PathBetween(g, p, a, b)
  }

  ghost predicate IsCycle(g: Adjacency, p: seq<string>) {
    IsPath(g, p) && |p| >= 2 && p[0] == p[|p| - 1]
  }

  ghost predicate Acyclic(g: Adjacency) { !exists p :: IsCycle(g, p) }

  // ---------- paths ----------

  lemma ReachesSelf(g: Adjacency, a: string)
    ensures Reaches(g, a, a)
  {
    assert PathBetween(g, [a], a, a);
  }

  lemma EdgeThenReaches(g: Adjacency, a: string, b: string, c: string)
    requires Edge(g, a, b) && Reaches(g, b, c)
    ensures Reaches(g, a, c)
  {
    var p :| PathBetween(g, p, b, c);
    assert PathBetween(g, [a] + p, a, c);
  }

  lemma ReachesThenEdge(g: Adjacency, a: string, b: string, c: string)
    requires Reaches(g, a, b) && Edge(g, b, c)
    ensures Reaches(g, a, c)
  {
    var p :| PathBetween(g, p, a, b);
    var q := p + [c];
    forall i | 0 <= i < |q| - 1 ensures Edge(g, q[i], q[i + 1]) {
      assert q[i + 1] == if i + 1 < |p| then p[i + 1] else c;
    }
    assert PathBetween(g, q, a, c);
  }

  lemma {:induction false} AlongPath(g: Adjacency, a: string, p: seq<string>, k: nat)
    requires IsPath(g, p) && k < |p| && Reaches(g, a, p[0])
    ensures Reaches(g, a, p[k])
  {
    if k > 0 {
      AlongPath(g, a, p, k - 1);
      ReachesThenEdge(g, a, p[k - 1], p[k]);
    }
  }

  // ---------- topological orders ----------

  /** Every node of `order` comes after all nodes with an edge to it. */
  ghost predicate InOrder(g: Adjacency, order: seq<string>) {
    forall i, m :: 0 <= i < |order| && Edge(g, m, order[i]) ==> m in order[..i]
  }

  /** `order` lists the ids once each, every node after all nodes with an edge to it. */
  ghost predicate Topological(g: Adjacency, ids: set<string>, order: seq<string>) {
    && (forall n :: n in order <==> n in ids)
    && (forall i, j :: 0 <= i < j < |order| ==> order[i] != order[j])
    && InOrder(g, order)
  }

  /** Number of nodes from `id` to the end of the order; it falls along every edge. */
  ghost function Rank(order: seq<string>, id: string): nat {
    if order == [] then 0 else if order[0] == id then |order| else Rank(order[1..], id)
  }

  lemma {:induction false} RankAt(order: seq<string>, i: nat)
    requires i < |order| && forall j, k :: 0 <= j < k < |order| ==> order[j] != order[k]
    ensures Rank(order, order[i]) == |order| - i
  {
    if i > 0 {
      assert order[i] == order[1..][i - 1];
      RankAt(order[1..], i - 1);
    }
  }

  lemma RankFalls(g: Adjacency, ids: set<string>, order: seq<string>, a: string, b: string)
    requires Topological(g, ids, order) && Edge(g, a, b) && b in ids
    ensures Rank(order, b) < Rank(order, a)
  {
    var i :| 0 <= i < |order| && order[i] == b;
    assert a in order[..i];
    var j :| 0 <= j < i && order[j] == a;
    RankAt(order, i);
    RankAt(order, j);
  }

  /** A graph with a topological order has no cycle. */
  lemma TopologicalIsAcyclic(g: Adjacency, ids: set<string>, order: seq<string>)
    requires Topological(g, ids, order) && TargetsKnown(g, ids)
    ensures Acyclic(g)
  {
    forall p | IsCycle(g, p) ensures false {
      RankFallsAlong(g, ids, order, p, |p| - 1);
    }
  }

  lemma {:induction false} RankFallsAlong(g: Adjacency, ids: set<string>, order: seq<string>, p: seq<string>, k: nat)
    requires Topological(g, ids, order) && TargetsKnown(g, ids) && IsPath(g, p) && 0 < k < |p|
    ensures Rank(order, p[k]) < Rank(order, p[0])
  {
    assert Edge(g, p[k - 1], p[k]);
    RankFalls(g, ids, order, p[k - 1], p[k]);
    if k > 1 { RankFallsAlong(g, ids, order, p, k - 1); }
  }

  // ---------- a set without sources holds a cycle ----------

  lemma {:induction false} Pigeonhole(p: seq<string>, u: set<string>)
    requires (forall i :: 0 <= i < |p| ==> p[i] in u) && |p| > |u|
    ensures exists i, j :: 0 <= i < j < |p| && p[i] == p[j]
  {
    if j :| 1 <= j < |p| && p[j] == p[0] {
    } else {
      var rest := p[1..];
      Pigeonhole(rest, u - {p[0]});
      var i, j :| 0 <= i < j < |rest| && rest[i] == rest[j];
      assert p[i + 1] == p[j + 1];
    }
  }

  ghost predicate HasSource(g: Adjacency, u: set<string>, n: string) {
    exists m :: m in u && Edge(g, m, n)
  }

  /** Every node of `u` has an edge from a node of `u`. */
  ghost predicate Sourceless(g: Adjacency, u: set<string>) {
    forall n {:trigger HasSource(g, u, n)} :: n in u ==> HasSource(g, u, n)
  }

  lemma {:induction false} BackwardPath(g: Adjacency, u: set<string>, n: string, k: nat) returns (p: seq<string>)
    requires Sourceless(g, u) && n in u
    ensures |p| == k + 1 && IsPath(g, p) && forall i :: 0 <= i < |p| ==> p[i] in u
  {
    if k == 0 {
      p := [n];
    } else {
      var tail := BackwardPath(g, u, n, k - 1);
      assert HasSource(g, u, tail[0]);
      var m :| m in u && Edge(g, m, tail[0]);
      p := [m] + tail;
    }
  }

  lemma SourcelessHasCycle(g: Adjacency, u: set<string>)
    requires Sourceless(g, u) && u != {}
    ensures !Acyclic(g)
  {
    var n :| n in u;
    var p := BackwardPath(g, u, n, |u|);
    Pigeonhole(p, u);
    var i, j :| 0 <= i < j < |p| && p[i] == p[j];
    LoopIsCycle(g, p, i, j);
  }

  lemma LoopIsCycle(g: Adjacency, p: seq<string>, i: nat, j: nat)
    requires IsPath(g, p) && i < j < |p| && p[i] == p[j]
    ensures IsCycle(g, p[i..j + 1])
  {
    var q := p[i..j + 1];
    forall k | 0 <= k < |q| - 1 ensures Edge(g, q[k], q[k + 1]) {
      assert q[k] == p[i + k] && q[k + 1] == p[i + k + 1];
    }
  }

  // ---------- in-degrees ----------

  /** Number of edges into `n` from the nodes of `from`. */
  ghost function Degree(g: Adjacency, from: set<string>, n: string): nat {
    if from == {} then 0
    else
      var m :| m in from;
      multiset(Targets(g, m))[n] + Degree(g, from - {m}, n)
  }

  lemma {:induction false} DegreeSplit(g: Adjacency, from: set<string>, m: string, n: string)
    requires m in from
    ensures Degree(g, from, n) == multiset(Targets(g, m))[n] + Degree(g, from - {m}, n)
    decreases from
  {
    var k :| k in from && Degree(g, from, n) == multiset(Targets(g, k))[n] + Degree(g, from - {k}, n);
    if k != m {
      DegreeSplit(g, from - {k}, m, n);
      DegreeSplit(g, from - {m}, k, n);
      assert from - {k} - {m} == from - {m} - {k};
    }
  }

  lemma {:induction false} DegreePositive(g: Adjacency, from: set<string>, n: string)
    ensures Degree(g, from, n) > 0 <==> HasSource(g, from, n)
    decreases from
  {
    if HasSource(g, from, n) {
      var m :| m in from && Edge(g, m, n);
      DegreeSplit(g, from, m, n);
    } else if from != {} {
      var m :| m in from && Degree(g, from, n) == multiset(Targets(g, m))[n] + Degree(g, from - {m}, n);
      DegreePositive(g, from - {m}, n);
    }
  }

  // ---------- Kahn's algorithm ----------

  ghost predicate TargetsKnown(g: Adjacency, ids: set<string>) {
    forall m, n :: Edge(g, m, n) ==> n in ids
  }

  ghost predicate SourcesKnown(g: Adjacency, ids: set<string>) {
    forall m :: m in g && g[m] != [] ==> m in ids
  }

  /** One in-degree per id, counting every route. */
  method IndegreeMap(g: Adjacency, ids: set<string>) returns (indegree: map<string, nat>)
    ensures indegree.Keys == ids
    ensures forall n :: n in ids ==> indegree[n] == Degree(g, g.Keys, n)
  {
    indegree := map n | n in ids :: 0;
    var todo := g.Keys;
    while todo != {}
      invariant todo <= g.Keys && indegree.Keys == ids
      invariant forall n :: n in ids ==> indegree[n] + Degree(g, todo, n) == Degree(g, g.Keys, n)
    {
      var m :| m in todo;
      forall n ensures Degree(g, todo, n) == multiset(g[m])[n] + Degree(g, todo - {m}, n) {
        DegreeSplit(g, todo, m, n);
      }
      indegree := RaiseAll(indegree, g[m]);
      todo := todo - {m};
    }
  }

  /** Raise the in-degree of each known target by its multiplicity. */
  method RaiseAll(indegree0: map<string, nat>, targets: seq<string>) returns (indegree: map<string, nat>)
    ensures indegree.Keys == indegree0.Keys
    ensures forall n :: n in indegree0 ==> indegree[n] == indegree0[n] + multiset(targets)[n]
  {
    indegree := indegree0;
    for j := 0 to |targets|
      invariant indegree.Keys == indegree0.Keys
      invariant forall n :: n in indegree0 ==> indegree[n] == indegree0[n] + multiset(targets[..j])[n]
    {
      assert targets[..j + 1] == targets[..j] + [targets[j]];
      if targets[j] in indegree {
        indegree := indegree[targets[j] := indegree[targets[j]] + 1];
      }
    }
    assert targets[..|targets|] == targets;
  }

  /** `ready` lists once each the ids outside `done` with in-degree zero. */
  ghost predicate Ready(ready: seq<string>, indegree: map<string, nat>, done: set<string>) {
    && (forall i, j :: 0 <= i < j < |ready| ==> ready[i] != ready[j])
    && (forall n :: n in ready <==> n in indegree && n !in done && indegree[n] == 0)
  }

  /** The inner loop: lower the in-degree of each target and queue those that reach zero. */
  method LowerAll(indegree0: map<string, nat>, ready0: seq<string>, targets: seq<string>,
                  ghost left: map<string, nat>, ghost done: set<string>)
    returns (indegree: map<string, nat>, ready: seq<string>)
    requires left.Keys == indegree0.Keys && Ready(ready0, indegree0, done)
    requires forall n :: n in indegree0 ==> indegree0[n] == left[n] + multiset(targets)[n]
    requires forall t :: t in targets ==> t in indegree0 && t !in done
    ensures indegree == left && Ready(ready, indegree, done)
  {
    indegree, ready := indegree0, ready0;
    assert targets[0..] == targets;
    for j := 0 to |targets|
      invariant indegree.Keys == left.Keys && Ready(ready, indegree, done)
      invariant forall n :: n in left ==> indegree[n] == left[n] + multiset(targets[j..])[n]
    {
      var to := targets[j];
      CountsAfter(targets, j);
      ReadyAfterLower(ready, indegree, done, to);
      indegree := indegree[to := indegree[to] - 1];
      if indegree[to] == 0 { ready := ready + [to]; }
    }
    assert targets[|targets|..] == [];
  }

  lemma CountsAfter(targets: seq<string>, j: nat)
    requires j < |targets|
    ensures multiset(targets[j..]) == multiset(targets[j + 1..]) + multiset{targets[j]}
  {
    assert targets[j..] == [targets[j]] + targets[j + 1..];
  }

  lemma ReadyAfterLower(ready: seq<string>, indegree: map<string, nat>, done: set<string>, to: string)
    requires Ready(ready, indegree, done) && to in indegree && to !in done && indegree[to] > 0
    ensures Ready(if indegree[to] == 1 then ready + [to] else ready, indegree[to := indegree[to] - 1], done)
  {
  }

  /** In-degrees counting only the edges from nodes not yet popped. */
  ghost function Degrees(g: Adjacency, ids: set<string>, popped: set<string>): map<string, nat> {
    map n | n in ids :: Degree(g, g.Keys - popped, n)
  }

  /** What holds between two pops: `order` has been popped, `ready` is what can be popped. */
  ghost predicate Popping(g: Adjacency, ids: set<string>, indegree: map<string, nat>, ready: seq<string>,
                          order: seq<string>, popped: set<string>)
  {
    && indegree == Degrees(g, ids, popped) && Ready(ready, indegree, popped)
    && popped <= ids && Topological(g, popped, order)
  }

  /** Pop nodes of in-degree zero until none is left. */
  method PopAll(g: Adjacency, ids: set<string>) returns (visited: nat, ghost order: seq<string>,
                                                         ghost popped: set<string>)
    requires TargetsKnown(g, ids)
    ensures visited == |popped| && popped <= ids
    ensures Topological(g, popped, order)
    ensures forall n :: n in ids - popped ==> HasSource(g, g.Keys - popped, n)
    ensures forall n :: n in popped ==> !HasSource(g, g.Keys - popped, n)
  {
    var indegree := IndegreeMap(g, ids);
    var ready := CollectZeros(indegree);
    visited := 0;
    order, popped := [], {};
    StartPopping(g, ids, indegree, ready);
    while ready != []
      invariant Popping(g, ids, indegree, ready, order, popped)
      invariant visited == |popped|
      decreases |ids - popped|
    {
      var id := ready[|ready| - 1];
      PopStep(g, ids, indegree, ready, order, popped);
      Shrinks(ids, popped, id);
      indegree, ready := PopOne(g, ids, indegree, ready, order, popped);
      visited := visited + 1;
      order, popped := order + [id], popped + {id};
    }
    NothingReady(g, ids, indegree, order, popped);
  }

  method PopOne(g: Adjacency, ids: set<string>, indegree0: map<string, nat>, ready0: seq<string>,
                ghost order: seq<string>, ghost popped: set<string>)
    returns (indegree: map<string, nat>, ready: seq<string>)
    requires ready0 != [] && TargetsKnown(g, ids) && Popping(g, ids, indegree0, ready0, order, popped)
    ensures var id := ready0[|ready0| - 1];
            Popping(g, ids, indegree, ready, order + [id], popped + {id})
  {
    var id := ready0[|ready0| - 1];
    ghost var done := popped + {id};
    PopStep(g, ids, indegree0, ready0, order, popped);
    indegree, ready := LowerAll(indegree0, ready0[..|ready0| - 1], Targets(g, id), Degrees(g, ids, done), done);
  }

  lemma StartPopping(g: Adjacency, ids: set<string>, indegree: map<string, nat>, ready: seq<string>)
    requires indegree.Keys == ids && forall n :: n in ids ==> indegree[n] == Degree(g, g.Keys, n)
    requires Ready(ready, indegree, {})
    ensures Popping(g, ids, indegree, ready, [], {})
  {
    assert g.Keys - {} == g.Keys;
  }

  /** Popping the last ready id: what the inner loop starts from. */
  lemma PopStep(g: Adjacency, ids: set<string>, indegree: map<string, nat>, ready: seq<string>,
                order: seq<string>, popped: set<string>)
    requires Popping(g, ids, indegree, ready, order, popped) && ready != [] && TargetsKnown(g, ids)
    ensures var id := ready[|ready| - 1];
            var done := popped + {id};
            && id in ids - popped && done <= ids && Topological(g, done, order + [id])
            && Ready(ready[..|ready| - 1], indegree, done)
            && (forall n :: n in indegree ==> indegree[n] == Degrees(g, ids, done)[n] + multiset(Targets(g, id))[n])
            && (forall t :: t in Targets(g, id) ==> t in indegree && t !in done)
  {
    var id := ready[|ready| - 1];
    PopIsTopological(g, ids, order, popped, id);
    DegreesAfterPop(g, ids, popped, id);
    TargetsNotPopped(g, ids, order + [id], popped + {id}, id);
    PoppedLeavesReady(ready, indegree, popped);
  }

  lemma NothingReady(g: Adjacency, ids: set<string>, indegree: map<string, nat>, order: seq<string>,
                     popped: set<string>)
    requires Popping(g, ids, indegree, [], order, popped)
    ensures forall n :: n in ids - popped ==> HasSource(g, g.Keys - popped, n)
    ensures forall n :: n in popped ==> !HasSource(g, g.Keys - popped, n)
  {
    forall n | n in ids ensures n !in popped <==> HasSource(g, g.Keys - popped, n) {
      DegreePositive(g, g.Keys - popped, n);
      if n in popped {
        var i :| 0 <= i < |order| && order[i] == n;
        forall m | Edge(g, m, n) ensures m in popped { assert m in order[..i]; }
      } else {
        assert n !in [] && indegree[n] != 0;
      }
    }
  }

  lemma PoppedLeavesReady(ready: seq<string>, indegree: map<string, nat>, popped: set<string>)
    requires ready != [] && Ready(ready, indegree, popped)
    ensures Ready(ready[..|ready| - 1], indegree, popped + {ready[|ready| - 1]})
  {
  }

  lemma TargetsNotPopped(g: Adjacency, ids: set<string>, order: seq<string>, done: set<string>, id: string)
    requires TargetsKnown(g, ids) && Topological(g, done, order) && order != [] && order[|order| - 1] == id
    ensures forall t :: t in Targets(g, id) ==> t in ids && t !in done
  {
    forall t | t in Targets(g, id) ensures t in ids && t !in done {
      assert Edge(g, id, t);
      TargetNotPopped(g, order, t);
    }
  }

  lemma Shrinks(ids: set<string>, popped: set<string>, id: string)
    requires id in ids - popped
    ensures |ids - (popped + {id})| < |ids - popped|
  {
    assert ids - popped == (ids - (popped + {id})) + {id};
  }

  /**
   * The runtime check. It accepts exactly the acyclic graphs whose edges all
   * start at known ids; in-degrees never go below zero. `order` is the order
   * in which nodes are popped.
   */
  method CheckAcyclic(g: Adjacency, ids: set<string>) returns (ok: bool, ghost order: seq<string>)
    requires TargetsKnown(g, ids)
    ensures ok <==> Acyclic(g) && SourcesKnown(g, ids)
    ensures ok ==> Topological(g, ids, order)
  {
    var visited;
    ghost var popped;
    visited, order, popped := PopAll(g, ids);
    ok := visited == |ids|;
    if ok {
      SubsetOfSameSize(popped, ids);
      TopologicalIsAcyclic(g, ids, order);
      KnownSources(g, ids);
    } else if SourcesKnown(g, ids) {
      LeftoverIsCyclic(g, ids, popped);
    }
  }

  /** The configuration check, on the nodes that occur in the edges: it accepts exactly the acyclic graphs. */
  method CheckConfigAcyclic(g: Adjacency) returns (ok: bool)
    ensures ok <==> Acyclic(g)
  {
    var ids := g.Keys + (set m, n | m in g && n in g[m] :: n);
    assert TargetsKnown(g, ids);
    ghost var order;
    ok, order := CheckAcyclic(g, ids);
  }

  lemma LeftoverIsCyclic(g: Adjacency, ids: set<string>, popped: set<string>)
    requires SourcesKnown(g, ids) && popped <= ids && popped != ids
    requires forall n :: n in ids - popped ==> HasSource(g, g.Keys - popped, n)
    ensures !Acyclic(g)
  {
    var stuck := ids - popped;
    forall n | n in stuck ensures HasSource(g, stuck, n) {
      assert HasSource(g, g.Keys - popped, n);
      var m :| m in g.Keys - popped && Edge(g, m, n);
      assert m in stuck;
    }
    assert popped + stuck == ids;
    SourcelessHasCycle(g, stuck);
  }

  lemma KnownSources(g: Adjacency, ids: set<string>)
    requires TargetsKnown(g, ids)
    requires forall n :: n in ids ==> !HasSource(g, g.Keys - ids, n)
    ensures SourcesKnown(g, ids)
  {
    forall m | m in g && g[m] != [] ensures m in ids {
      assert Edge(g, m, g[m][0]);
      assert !HasSource(g, g.Keys - ids, g[m][0]);
    }
  }

  lemma SubsetOfSameSize(a: set<string>, b: set<string>)
    requires a <= b && |a| == |b|
    ensures a == b
  {
    assert |b - a| == |b| - |a|;
  }

  /** The ids with in-degree zero, in some order. */
  method CollectZeros(indegree: map<string, nat>) returns (ready: seq<string>)
    ensures Ready(ready, indegree, {})
  {
    ready := [];
    var todo := indegree.Keys;
    while todo != {}
      invariant todo <= indegree.Keys
      invariant forall n :: n in ready <==> n in indegree && n !in todo && indegree[n] == 0
      invariant forall i, j :: 0 <= i < j < |ready| ==> ready[i] != ready[j]
    {
      var n :| n in todo;
      todo := todo - {n};
      if indegree[n] == 0 { ready := ready + [n]; }
    }
  }

  lemma PopIsTopological(g: Adjacency, ids: set<string>, order: seq<string>, popped: set<string>, id: string)
    requires Topological(g, popped, order) && id in ids && id !in popped
    requires Degree(g, g.Keys - popped, id) == 0
    ensures Topological(g, popped + {id}, order + [id])
  {
    DegreePositive(g, g.Keys - popped, id);
    var longer := order + [id];
    forall i, m | 0 <= i < |longer| && Edge(g, m, longer[i]) ensures m in longer[..i] {
      if i == |order| {
        assert m in g && m in order && longer[..i] == order;
      } else {
        assert longer[..i] == order[..i];
      }
    }
  }

  /** No edge leads from the last popped node back into the order. */
  lemma TargetNotPopped(g: Adjacency, order: seq<string>, to: string)
    requires order != [] && InOrder(g, order) && Edge(g, order[|order| - 1], to)
    requires forall i, j :: 0 <= i < j < |order| ==> order[i] != order[j]
    ensures to !in order
  {
  }

  lemma DegreesAfterPop(g: Adjacency, ids: set<string>, popped: set<string>, id: string)
    requires id !in popped
    ensures var before, after := Degrees(g, ids, popped), Degrees(g, ids, popped + {id});
            forall n :: n in ids ==> before[n] == after[n] + multiset(Targets(g, id))[n]
  {
    forall n | n in ids
      ensures Degree(g, g.Keys - popped, n) == Degree(g, g.Keys - (popped + {id}), n) + multiset(Targets(g, id))[n]
    {
      if id in g {
        DegreeSplit(g, g.Keys - popped, id, n);
        assert g.Keys - popped - {id} == g.Keys - (popped + {id});
      } else {
        assert g.Keys - popped == g.Keys - (popped + {id});
      }
    }
  }
}
