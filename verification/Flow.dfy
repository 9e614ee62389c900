/**
 * Flow graphs: wiring the routes of a configured flow, checking them and
 * assembling the nodes (sohara-runtime/src/graph.rs, sohara-runtime/src/routes.rs).
 */
module Flow {
  import opened Json
  import opened Ast
  import opened Graph
  import Grammar
  import Parsing

  datatype Route = Route(to: string, when: Option<Expr>)

  datatype Case = Case(when: Expr, to: string)

  datatype JoinMode = Any | All | N

  datatype Update = Update(field: string, expr: Expr)

  datatype Control =
    | Switch(cases: seq<Case>, default: string)
    | Foreach(over: Expr, asField: Option<string>, maxIterations: nat)
    | Loop(whileExpr: Expr, maxIterations: nat, body: Option<string>)
    | Parallel(branches: seq<string>)
    | Join(mode: JoinMode, n: nat)
    | Delay
    | Batch(size: Option<nat>, windowed: bool)
    | StateUpdate(updates: seq<Update>)
    | Approve

  datatype Policy = Fail | Continue | Retry(max: nat)

  datatype NodeStep = Source | Transform | Sink | Control(control: Control)

  /** A built step before its routes are known. */
  datatype Partial = Partial(step: NodeStep, when: Option<Expr>, policy: Policy, state: Option<Value>)

  /** An edge, with the text of its condition if it has one. */
  datatype EdgeConfig = EdgeConfig(from: string, to: string, when: Option<string>)

  /** The declared step ids in order, and the edges; no edges means implicit chaining. */
  datatype Config = Config(steps: seq<string>, edges: seq<EdgeConfig>)

  datatype Node = Node(id: string, step: NodeStep, when: Option<Expr>, policy: Policy, state: Option<Value>,
                       routes: seq<Route>, incoming: nat)

  type Routes = map<string, seq<Route>>

  // ---------- what is wired ----------

  /** The targets a control node names itself. */
  function OwnTargets(step: NodeStep): seq<string> {
    match step
    case Control(Switch(cases, default)) => seq(|cases|, i requires 0 <= i < |cases| => cases[i].to) + [default]
    case Control(Parallel(branches)) => branches
    case Control(Loop(_, _, Some(to))) => [to]
    case _ => []
  }

  predicate HasExplicitRoutes(partials: map<string, Partial>, id: string) {
    id in partials &&
    match partials[id].step
    case Control(Switch(_, _)) => true
    case Control(Parallel(_)) => true
    case Control(Loop(_, _, Some(_))) => true
    case _ => false
  }

  function Plain(targets: seq<string>): (r: seq<Route>)
    ensures |r| == |targets| && forall i :: 0 <= i < |r| ==> r[i] == Route(targets[i], None)
  {
    seq(|targets|, i requires 0 <= i < |targets| => Route(targets[i], None))
  }

  /** Implicit chaining: a step leads to the next one unless it routes explicitly. */
  function ChainRoutes(steps: seq<string>, partials: map<string, Partial>, id: string): seq<Route> {
    if |steps| < 2 then []
    else
      var k := |steps| - 1;
      ChainRoutes(steps[..k], partials, id)
      + if steps[k - 1] == id && !HasExplicitRoutes(partials, id) then [Route(steps[k], None)] else []
  }

  function ParsedWhen(edge: EdgeConfig): Option<Expr> {
    if edge.when.None? then None else Grammar.Parse(edge.when.value)
  }

  predicate EdgeParses(edge: EdgeConfig) { edge.when.Some? ==> ParsedWhen(edge).Some? }

  /** Read an edge's condition, if it has one. */
  method ReadCondition(edge: EdgeConfig) returns (ok: bool, when: Option<Expr>)
    ensures ok == EdgeParses(edge) && when == ParsedWhen(edge)
  {
    ok, when := true, None;
    if edge.when.Some? {
      when := Parsing.ParseText(edge.when.value);
      ok := when.Some?;
    }
  }

  predicate EdgesParse(edges: seq<EdgeConfig>) { forall i :: 0 <= i < |edges| ==> EdgeParses(edges[i]) }

  function EdgeRoutes(edges: seq<EdgeConfig>, id: string): seq<Route> {
    if edges == [] then []
    else
      var k := |edges| - 1;
      EdgeRoutes(edges[..k], id) + if edges[k].from == id then [Route(edges[k].to, ParsedWhen(edges[k]))] else []
  }

  function BaseRoutes(flow: Config, partials: map<string, Partial>, id: string): seq<Route> {
    if flow.edges == [] then ChainRoutes(flow.steps, partials, id) else EdgeRoutes(flow.edges, id)
  }

  function ExtraRoutes(partials: map<string, Partial>, id: string): seq<Route> {
    if id in partials then Plain(OwnTargets(partials[id].step)) else []
  }

  /** All routes of an id: configured ones first, then the ones its control node names. */
  function Wired(flow: Config, partials: map<string, Partial>, id: string): seq<Route> {
    BaseRoutes(flow, partials, id) + ExtraRoutes(partials, id)
  }

  function RoutesOf(routes: Routes, id: string): seq<Route> { if id in routes then routes[id] else [] }

  function AddRoutes(routes: Routes, id: string, more: seq<Route>): (r: Routes)
    ensures forall n :: RoutesOf(r, n) == RoutesOf(routes, n) + if n == id then more else []
  {
    routes[id := RoutesOf(routes, id) + more]
  }

  // ---------- the wiring loops ----------

  method WireRoutes(flow: Config, partials: map<string, Partial>) returns (r: Option<Routes>)
    ensures r.None? <==> !EdgesParse(flow.edges)
    ensures r.Some? ==> forall id :: RoutesOf(r.value, id) == Wired(flow, partials, id)
  {
    var routes: Routes := map[];
    if flow.edges == [] {
      routes := WireChain(flow.steps, partials);
    } else {
      var wired := WireEdges(flow.edges);
      if wired.None? { return None; }
      routes := wired.value;
    }
    routes := WireOwn(routes, flow, partials);
    return Some(routes);
  }

  /** The routes that control steps name themselves, after those wired already. */
  method WireOwn(wired: Routes, flow: Config, partials: map<string, Partial>) returns (routes: Routes)
    requires forall id :: RoutesOf(wired, id) == BaseRoutes(flow, partials, id)
    ensures forall id :: RoutesOf(routes, id) == Wired(flow, partials, id)
  {
    routes := wired;
    var todo := partials.Keys;
    while todo != {}
      invariant todo <= partials.Keys
      invariant forall id :: RoutesOf(routes, id) == BaseRoutes(flow, partials, id) +
                                                     (if id in todo then [] else ExtraRoutes(partials, id))
    {
      var id :| id in todo;
      todo := todo - {id};
      var extra := Plain(OwnTargets(partials[id].step));
      routes := AddRoutes(routes, id, extra);
    }
  }

  method WireChain(steps: seq<string>, partials: map<string, Partial>) returns (routes: Routes)
    ensures forall id :: RoutesOf(routes, id) == ChainRoutes(steps, partials, id)
  {
    routes := map[];
    if |steps| < 2 { return; }
    for k := 1 to |steps|
      invariant forall id :: RoutesOf(routes, id) == ChainRoutes(steps[..k], partials, id)
    {
      assert steps[..k + 1][..k] == steps[..k];
      if !HasExplicitRoutes(partials, steps[k - 1]) {
        routes := AddRoutes(routes, steps[k - 1], [Route(steps[k], None)]);
      }
    }
    assert steps[..|steps|] == steps;
  }

  method WireEdges(edges: seq<EdgeConfig>) returns (r: Option<Routes>)
    ensures r.None? <==> !EdgesParse(edges)
    ensures r.Some? ==> EdgesWired(r.value, edges)
  {
    var routes: Routes := map[];
    for k := 0 to |edges|
      invariant forall i :: 0 <= i < k ==> EdgeParses(edges[i])
      invariant EdgesWired(routes, edges[..k])
    {
      var ok, when := ReadCondition(edges[k]);
      if !ok { return None; }
      routes := WireEdge(routes, edges, k, when);
    }
    assert edges[..|edges|] == edges;
    return Some(routes);
  }

  method WireEdge(routes: Routes, edges: seq<EdgeConfig>, k: nat, when: Option<Expr>) returns (next: Routes)
    requires k < |edges| && EdgesWired(routes, edges[..k]) && when == ParsedWhen(edges[k])
    ensures EdgesWired(next, edges[..k + 1])
  {
    EdgesWiredStep(routes, edges, k);
    next := AddRoutes(routes, edges[k].from, [Route(edges[k].to, when)]);
  }

  ghost predicate EdgesWired(routes: Routes, edges: seq<EdgeConfig>) {
    forall id :: RoutesOf(routes, id) == EdgeRoutes(edges, id)
  }

  lemma EdgesWiredStep(routes: Routes, edges: seq<EdgeConfig>, k: nat)
    requires k < |edges| && EdgesWired(routes, edges[..k])
    ensures EdgesWired(AddRoutes(routes, edges[k].from, [Route(edges[k].to, ParsedWhen(edges[k]))]), edges[..k + 1])
  {
    assert edges[..k + 1][..k] == edges[..k];
  }

  // ---------- the wired graph ----------

  function TargetsOf(routes: seq<Route>): (r: seq<string>)
    ensures |r| == |routes| && forall i :: 0 <= i < |r| ==> r[i] == routes[i].to
  {
    seq(|routes|, i requires 0 <= i < |routes| => routes[i].to)
  }

  function AsGraph(routes: Routes): Adjacency { map id | id in routes :: TargetsOf(routes[id]) }

  /** The ids that may have routes. */
  function Origins(flow: Config, partials: map<string, Partial>): set<string> {
    var starts := set i | 0 <= i < |flow.edges| :: flow.edges[i].from;
    partials.Keys + starts + (set i | 0 <= i < |flow.steps| :: flow.steps[i])
  }

  /** The graph of a configured flow. */
  function WiredGraph(flow: Config, partials: map<string, Partial>): Adjacency {
    map id | id in Origins(flow, partials) :: TargetsOf(Wired(flow, partials, id))
  }

  lemma {:induction false} EdgeRoutesFromOrigins(edges: seq<EdgeConfig>, id: string)
    requires EdgeRoutes(edges, id) != []
    ensures exists i :: 0 <= i < |edges| && edges[i].from == id
  {
    if edges[|edges| - 1].from != id {
      EdgeRoutesFromOrigins(edges[..|edges| - 1], id);
      var i :| 0 <= i < |edges| - 1 && edges[..|edges| - 1][i].from == id;
      assert edges[i].from == id;
    }
  }

  lemma {:induction false} ChainRoutesFromOrigins(steps: seq<string>, partials: map<string, Partial>, id: string)
    requires ChainRoutes(steps, partials, id) != []
    ensures exists i :: 0 <= i < |steps| && steps[i] == id
  {
    if steps[|steps| - 2] != id {
      ChainRoutesFromOrigins(steps[..|steps| - 1], partials, id);
      var i :| 0 <= i < |steps| - 1 && steps[..|steps| - 1][i] == id;
      assert steps[i] == id;
    }
  }

  /** The wired graph has the wired routes, for every id. */
  lemma WiredGraphTargets(flow: Config, partials: map<string, Partial>, id: string)
    ensures Targets(WiredGraph(flow, partials), id) == TargetsOf(Wired(flow, partials, id))
  {
    if id !in Origins(flow, partials) && Wired(flow, partials, id) != [] {
      if flow.edges == [] {
        ChainRoutesFromOrigins(flow.steps, partials, id);
      } else {
        EdgeRoutesFromOrigins(flow.edges, id);
      }
    }
  }

  /** Number of routes that point at an id. */
  ghost function Incoming(g: Adjacency, id: string): nat { Degree(g, g.Keys, id) }

  // ---------- graphs with the same edges ----------

  ghost predicate SameTargets(g: Adjacency, h: Adjacency) {
    forall id :: Targets(g, id) == Targets(h, id)
  }

  lemma SameEdgesSameCycles(g: Adjacency, h: Adjacency)
    requires SameTargets(g, h)
    ensures Acyclic(g) <==> Acyclic(h)
  {
    if p :| IsCycle(g, p) { assert IsCycle(h, p); }
    if p :| IsCycle(h, p) { assert IsCycle(g, p); }
  }

  lemma SameEdgesSameSources(g: Adjacency, h: Adjacency, ids: set<string>)
    requires SameTargets(g, h)
    ensures SourcesKnown(g, ids) <==> SourcesKnown(h, ids)
  {
    assert forall m :: m in g && g[m] != [] <==> Targets(g, m) != [];
    assert forall m :: m in h && h[m] != [] <==> Targets(h, m) != [];
  }

  lemma {:induction false} SameEdgesSameDegree(g: Adjacency, h: Adjacency, a: set<string>, b: set<string>, n: string)
    requires SameTargets(g, h)
    requires forall m :: m in a && m !in b ==> Targets(g, m) == []
    requires forall m :: m in b && m !in a ==> Targets(h, m) == []
    ensures Degree(g, a, n) == Degree(h, b, n)
    decreases |a + b|
  {
    if m :| m in a {
      DegreeSplit(g, a, m, n);
      if m in b {
        DegreeSplit(h, b, m, n);
      } else {
        assert b - {m} == b;
      }
      assert (a - {m}) + (b - {m}) < a + b;
      SetSmaller((a - {m}) + (b - {m}), a + b);
      SameEdgesSameDegree(g, h, a - {m}, b - {m}, n);
    } else if m :| m in b {
      DegreeSplit(h, b, m, n);
      SetSmaller(a + (b - {m}), a + b);
      SameEdgesSameDegree(g, h, a, b - {m}, n);
    }
  }

  lemma SetSmaller(a: set<string>, b: set<string>)
    requires a < b
    ensures |a| < |b|
  {
    assert b == a + (b - a);
  }

  /** The map built by the wiring loops has the edges and in-degrees of the wired graph. */
  lemma WiredAgrees(flow: Config, partials: map<string, Partial>, routes: Routes)
    requires forall id :: RoutesOf(routes, id) == Wired(flow, partials, id)
    ensures var g, w := AsGraph(routes), WiredGraph(flow, partials);
            && SameTargets(g, w)
            && (Acyclic(g) <==> Acyclic(w))
            && (SourcesKnown(g, partials.Keys) <==> SourcesKnown(w, partials.Keys))
            && forall n :: Incoming(g, n) == Incoming(w, n)
  {
    var g, w := AsGraph(routes), WiredGraph(flow, partials);
    forall id ensures Targets(g, id) == Targets(w, id) {
      WiredGraphTargets(flow, partials, id);
      assert RoutesOf(routes, id) == Wired(flow, partials, id);
    }
    SameEdgesSameCycles(g, w);
    SameEdgesSameSources(g, w, partials.Keys);
    forall n ensures Incoming(g, n) == Incoming(w, n) { SameEdgesSameDegree(g, w, g.Keys, w.Keys, n); }
  }

  // ---------- checks and assembly ----------

  ghost predicate NoSelfLoop(g: Adjacency) { forall n :: !Edge(g, n, n) }

  method ValidateTargets(g: Adjacency, ids: set<string>) returns (ok: bool)
    ensures ok <==> TargetsKnown(g, ids) && NoSelfLoop(g)
  {
    var todo := g.Keys;
    while todo != {}
      invariant todo <= g.Keys
      invariant forall m, n :: m !in todo && Edge(g, m, n) ==> n in ids && m != n
    {
      var from :| from in todo;
      for j := 0 to |g[from]|
        invariant forall i :: 0 <= i < j ==> g[from][i] in ids && g[from][i] != from
      {
        var to := g[from][j];
        assert Edge(g, from, to);
        if to !in ids || from == to { return false; }
      }
      todo := todo - {from};
    }
    return true;
  }

  method CountIncoming(g: Adjacency) returns (incoming: map<string, nat>)
    ensures forall n :: CountOf(incoming, n) == Incoming(g, n)
  {
    var all := set m, n | m in g && n in g[m] :: n;
    incoming := IndegreeMap(g, all);
    forall n | n !in all ensures Degree(g, g.Keys, n) == 0 { DegreePositive(g, g.Keys, n); }
  }

  function CountOf(incoming: map<string, nat>, id: string): nat { if id in incoming then incoming[id] else 0 }

  function MakeNode(id: string, p: Partial, routes: seq<Route>, incoming: nat): Node {
    Node(id, p.step, p.when, p.policy, p.state, routes, incoming)
  }

  ghost predicate SinksHaveNoRoutes(partials: map<string, Partial>, routes: Routes) {
    forall id :: id in partials && partials[id].step.Sink? ==> RoutesOf(routes, id) == []
  }

  method AssembleNodes(partials: map<string, Partial>, routes: Routes, incoming: map<string, nat>)
    returns (r: Option<map<string, Node>>)
    ensures r.Some? <==> SinksHaveNoRoutes(partials, routes)
    ensures r.Some? ==> r.value.Keys == partials.Keys && forall id :: id in partials ==>
              r.value[id] == MakeNode(id, partials[id], RoutesOf(routes, id), CountOf(incoming, id))
  {
    var nodes: map<string, Node> := map[];
    var todo := partials.Keys;
    while todo != {}
      invariant todo <= partials.Keys && nodes.Keys == partials.Keys - todo
      invariant forall id :: id in nodes ==>
                  nodes[id] == MakeNode(id, partials[id], RoutesOf(routes, id), CountOf(incoming, id))
      invariant forall id :: id in nodes && partials[id].step.Sink? ==> RoutesOf(routes, id) == []
    {
      var id :| id in todo;
      todo := todo - {id};
      if partials[id].step.Sink? && RoutesOf(routes, id) != [] { return None; }
      nodes := nodes[id := MakeNode(id, partials[id], RoutesOf(routes, id), CountOf(incoming, id))];
    }
    return Some(nodes);
  }

  /** What wired routes must satisfy to be built. */
  ghost predicate RoutesBuildable(partials: map<string, Partial>, routes: Routes) {
    var g, ids := AsGraph(routes), partials.Keys;
    TargetsKnown(g, ids) && SourcesKnown(g, ids) && Acyclic(g) && SinksHaveNoRoutes(partials, routes)
  }

  method AssembleRoutes(partials: map<string, Partial>, routes: Routes)
    returns (r: Option<map<string, Node>>, ghost order: seq<string>)
    ensures r.Some? <==> RoutesBuildable(partials, routes)
    ensures r.Some? ==> Topological(AsGraph(routes), partials.Keys, order)
    ensures r.Some? ==> r.value.Keys == partials.Keys && forall id :: id in partials ==>
              r.value[id] == MakeNode(id, partials[id], RoutesOf(routes, id), Incoming(AsGraph(routes), id))
  {
    order := [];
    var g := AsGraph(routes);
    var incoming := CountIncoming(g);
    var valid := ValidateTargets(g, partials.Keys);
    if !valid {
      if exists n :: Edge(g, n, n) { SelfLoopIsCycle(g); }
      return None, order;
    }
    var acyclic;
    acyclic, order := CheckAcyclic(g, partials.Keys);
    if !acyclic { return None, order; }
    var nodes := AssembleNodes(partials, routes, incoming);
    return nodes, order;
  }

  lemma SelfLoopIsCycle(g: Adjacency)
    requires exists n :: Edge(g, n, n)
    ensures !Acyclic(g)
  {
    var n :| Edge(g, n, n);
    assert IsCycle(g, [n, n]);
  }

  /** What a configuration must satisfy to be built. */
  ghost predicate Buildable(flow: Config, partials: map<string, Partial>) {
    var g := WiredGraph(flow, partials);
    && EdgesParse(flow.edges)
    && TargetsKnown(g, partials.Keys) && SourcesKnown(g, partials.Keys)
    && Acyclic(g)
    && forall id :: id in partials && partials[id].step.Sink? ==> Wired(flow, partials, id) == []
  }

  /** Graph assembly accepts exactly the buildable flows, and builds each node with its wired routes. */
  method Assemble(flow: Config, partials: map<string, Partial>)
    returns (r: Option<map<string, Node>>, ghost order: seq<string>)
    ensures r.Some? <==> Buildable(flow, partials)
    ensures r.Some? ==> Built(flow, partials, r.value) && Topological(WiredGraph(flow, partials), partials.Keys, order)
  {
    var wired := WireRoutes(flow, partials);
    if wired.None? { return None, []; }
    r, order := AssembleRoutes(partials, wired.value);
    WiredAgrees(flow, partials, wired.value);
    BuildableAgrees(flow, partials, wired.value);
    if r.Some? {
      BuiltAgrees(flow, partials, wired.value, r.value);
      TopologicalAgrees(AsGraph(wired.value), WiredGraph(flow, partials), partials.Keys, order);
    }
  }

  /** The nodes of a built flow: the configured steps with their wired routes and incoming counts. */
  ghost predicate Built(flow: Config, partials: map<string, Partial>, nodes: map<string, Node>) {
    nodes.Keys == partials.Keys && forall id :: id in partials ==>
      nodes[id] == MakeNode(id, partials[id], Wired(flow, partials, id), Incoming(WiredGraph(flow, partials), id))
  }

  lemma BuildableAgrees(flow: Config, partials: map<string, Partial>, routes: Routes)
    requires EdgesParse(flow.edges)
    requires forall id :: RoutesOf(routes, id) == Wired(flow, partials, id)
    requires SameTargets(AsGraph(routes), WiredGraph(flow, partials))
    ensures RoutesBuildable(partials, routes) <==> Buildable(flow, partials)
  {
    var g, w := AsGraph(routes), WiredGraph(flow, partials);
    SameEdgesSameCycles(g, w);
    SameEdgesSameSources(g, w, partials.Keys);
    SameEdgesSameTargets(g, w, partials.Keys);
    assert SinksHaveNoRoutes(partials, routes) <==>
           forall id :: id in partials && partials[id].step.Sink? ==> Wired(flow, partials, id) == [];
  }

  lemma SameEdgesSameTargets(g: Adjacency, h: Adjacency, ids: set<string>)
    requires SameTargets(g, h)
    ensures TargetsKnown(g, ids) <==> TargetsKnown(h, ids)
  {
    assert forall m, n :: Edge(g, m, n) <==> Edge(h, m, n);
  }

  lemma BuiltAgrees(flow: Config, partials: map<string, Partial>, routes: Routes, nodes: map<string, Node>)
    requires nodes.Keys == partials.Keys && forall id :: id in partials ==>
               nodes[id] == MakeNode(id, partials[id], RoutesOf(routes, id), Incoming(AsGraph(routes), id))
    requires forall id :: RoutesOf(routes, id) == Wired(flow, partials, id)
    requires forall id :: Incoming(AsGraph(routes), id) == Incoming(WiredGraph(flow, partials), id)
    ensures Built(flow, partials, nodes)
  {
  }

  lemma TopologicalAgrees(g: Adjacency, h: Adjacency, ids: set<string>, order: seq<string>)
    requires SameTargets(g, h) && Topological(g, ids, order)
    ensures Topological(h, ids, order)
  {
  }

  /** Along routes the rank never rises. */
  lemma {:induction false} ReachedIsRanked(nodes: map<string, Node>, rank: map<string, nat>, p: seq<string>, k: nat)
    requires Ranked(nodes, rank) && IsPath(NodeGraph(nodes), p) && p[0] in nodes && k < |p|
    ensures p[k] in nodes && p[0] in rank && p[k] in rank && rank[p[k]] <= rank[p[0]]
  {
    assert RankedAt(nodes, rank, p[0]);
    if k > 0 {
      ReachedIsRanked(nodes, rank, p, k - 1);
      assert RankedAt(nodes, rank, p[k - 1]) && Edge(NodeGraph(nodes), p[k - 1], p[k]);
    }
  }

  /** A node is never reached again from one of its targets. */
  lemma NeverBack(nodes: map<string, Node>, rank: map<string, nat>, id: string, t: string)
    requires Ranked(nodes, rank) && id in nodes && Edge(NodeGraph(nodes), id, t)
    ensures !Reaches(NodeGraph(nodes), t, id)
  {
    assert RankedAt(nodes, rank, id);
    forall p | PathBetween(NodeGraph(nodes), p, t, id) ensures false {
      ReachedIsRanked(nodes, rank, p, |p| - 1);
    }
  }

  // ---------- what the executor relies on ----------

  function NodeGraph(nodes: map<string, Node>): Adjacency { map id | id in nodes :: TargetsOf(nodes[id].routes) }

  /** Every target the node walks to is a node of smaller rank, and is among its routes. */
  ghost predicate RankedAt(nodes: map<string, Node>, rank: map<string, nat>, id: string) {
    id in nodes ==>
    && id in rank && nodes[id].id == id
    && (forall t :: t in TargetsOf(nodes[id].routes) ==> t in nodes && t in rank && rank[t] < rank[id])
    && (forall t :: t in OwnTargets(nodes[id].step) ==> t in TargetsOf(nodes[id].routes))
  }

  ghost predicate Ranked(nodes: map<string, Node>, rank: map<string, nat>) {
    forall id :: RankedAt(nodes, rank, id)
  }

  /**
   * In an assembled graph the targets a control node walks to are among its
   * wired routes, and the pop order of the cycle check ranks the nodes so that
   * the rank falls on every route.
   */
  lemma BuiltIsRanked(flow: Config, partials: map<string, Partial>, nodes: map<string, Node>, order: seq<string>)
    requires Buildable(flow, partials) && Built(flow, partials, nodes)
    requires Topological(WiredGraph(flow, partials), partials.Keys, order)
    ensures Ranked(nodes, map id | id in nodes :: Rank(order, id))
  {
    var rank := map id | id in nodes :: Rank(order, id);
    forall id ensures RankedAt(nodes, rank, id) {
      if id in nodes { NodeIsRanked(flow, partials, nodes[id], order, id); }
    }
  }

  lemma NodeIsRanked(flow: Config, partials: map<string, Partial>, node: Node, order: seq<string>, id: string)
    requires Buildable(flow, partials) && Topological(WiredGraph(flow, partials), partials.Keys, order)
    requires id in partials && node.routes == Wired(flow, partials, id) && node.step == partials[id].step
    ensures forall t :: t in TargetsOf(node.routes) ==> t in partials && Rank(order, t) < Rank(order, id)
    ensures forall t :: t in OwnTargets(node.step) ==> t in TargetsOf(node.routes)
  {
    forall t | t in TargetsOf(node.routes) ensures t in partials && Rank(order, t) < Rank(order, id) {
      RouteFalls(flow, partials, order, id, t);
    }
    forall t | t in OwnTargets(node.step) ensures t in TargetsOf(node.routes) {
      OwnTargetIsWired(flow, partials, id, t);
    }
  }

  lemma RouteFalls(flow: Config, partials: map<string, Partial>, order: seq<string>, id: string, t: string)
    requires Buildable(flow, partials) && Topological(WiredGraph(flow, partials), partials.Keys, order)
    requires t in TargetsOf(Wired(flow, partials, id))
    ensures t in partials && Rank(order, t) < Rank(order, id)
  {
    WiredGraphTargets(flow, partials, id);
    assert Edge(WiredGraph(flow, partials), id, t);
    RankFalls(WiredGraph(flow, partials), partials.Keys, order, id, t);
  }

  lemma OwnTargetIsWired(flow: Config, partials: map<string, Partial>, id: string, t: string)
    requires id in partials && t in OwnTargets(partials[id].step)
    ensures t in TargetsOf(Wired(flow, partials, id))
  {
    var base, own := BaseRoutes(flow, partials, id), OwnTargets(partials[id].step);
    var i :| 0 <= i < |own| && own[i] == t;
    assert Wired(flow, partials, id)[|base| + i] == Plain(own)[i];
    assert TargetsOf(Wired(flow, partials, id))[|base| + i] == t;
  }

  // ---------- which routes are wired ----------

  /** Without edges, a step leads to the next one and the last to none, unless it routes explicitly. */
  lemma {:induction false} ChainIs(steps: seq<string>, partials: map<string, Partial>, i: nat)
    requires i < |steps| && forall j, k :: 0 <= j < k < |steps| ==> steps[j] != steps[k]
    ensures ChainRoutes(steps, partials, steps[i]) ==
              if i + 1 < |steps| && !HasExplicitRoutes(partials, steps[i]) then [Route(steps[i + 1], None)] else []
    decreases |steps|
  {
    var k := |steps| - 1;
    if |steps| >= 2 {
      if i < k { ChainIs(steps[..k], partials, i); } else { ChainOfOthers(steps[..k], partials, steps[i]); }
    }
  }

  lemma {:induction false} ChainOfOthers(steps: seq<string>, partials: map<string, Partial>, id: string)
    requires id !in steps
    ensures ChainRoutes(steps, partials, id) == []
    decreases |steps|
  {
    if |steps| >= 2 { ChainOfOthers(steps[..|steps| - 1], partials, id); }
  }

  /** With edges, each leads from its start to its end, in the order declared, on its own condition. */
  lemma {:induction false} EdgesLead(edges: seq<EdgeConfig>, more: seq<EdgeConfig>, edge: EdgeConfig, id: string)
    ensures EdgeRoutes([edge], id) == if edge.from == id then [Route(edge.to, ParsedWhen(edge))] else []
    ensures edge.when.None? ==> ParsedWhen(edge) == None
    ensures edge.when.Some? ==> ParsedWhen(edge) == Grammar.Parse(edge.when.value)
    ensures EdgeRoutes([], id) == [] && EdgeRoutes(edges + more, id) == EdgeRoutes(edges, id) + EdgeRoutes(more, id)
    decreases |more|
  {
    assert [edge][..0] == [];
    if more == [] {
      assert edges + more == edges;
      assert EdgeRoutes(edges, id) + [] == EdgeRoutes(edges, id);
    } else {
      var k := |more| - 1;
      assert (edges + more)[..|edges + more| - 1] == edges + more[..k];
      EdgesLead(edges, more[..k], edge, id);
    }
  }

  /** Switches, parallel steps and loops with a body route explicitly, and only these name targets of their own. */
  lemma ExplicitIffTargets(partials: map<string, Partial>, id: string)
    requires id in partials
    ensures var step := partials[id].step;
            && (HasExplicitRoutes(partials, id) <==>
                  step.Control? && (step.control.Switch? || step.control.Parallel?
                                    || (step.control.Loop? && step.control.body.Some?)))
            && (OwnTargets(step) != [] ==> HasExplicitRoutes(partials, id))
            && (step.Control? && step.control.Switch? ==>
                  && |OwnTargets(step)| == |step.control.cases| + 1
                  && OwnTargets(step)[|step.control.cases|] == step.control.default
                  && forall i :: 0 <= i < |step.control.cases| ==> OwnTargets(step)[i] == step.control.cases[i].to)
            && (step.Control? && step.control.Parallel? ==> OwnTargets(step) == step.control.branches)
            && (step.Control? && step.control.Loop? && step.control.body.Some? ==>
                  OwnTargets(step) == [step.control.body.value])
  {
  }

  /** The configured routes come first, then one for each target the step names itself, without condition. */
  lemma WiredIs(flow: Config, partials: map<string, Partial>, id: string)
    requires id in partials
    ensures var base := if flow.edges == [] then ChainRoutes(flow.steps, partials, id) else EdgeRoutes(flow.edges, id);
            var wired, n := Wired(flow, partials, id), |base|;
            && n <= |wired| && wired[..n] == base && TargetsOf(wired[n..]) == OwnTargets(partials[id].step)
            && forall i :: n <= i < |wired| ==> wired[i].when == None
  {
    var base, own := BaseRoutes(flow, partials, id), ExtraRoutes(partials, id);
    PlainTargets(OwnTargets(partials[id].step));
    TwoParts(base, own);
  }

  lemma PlainTargets(targets: seq<string>)
    ensures TargetsOf(Plain(targets)) == targets
  {
  }

  lemma TwoParts(first: seq<Route>, second: seq<Route>)
    ensures (first + second)[..|first|] == first && (first + second)[|first|..] == second
    ensures forall i :: |first| <= i < |first + second| ==> (first + second)[i] == second[i - |first|]
  {
  }

  /**
   * A flow is accepted exactly if every condition parses, every route leads from
   * a known step to a known step, no walk along routes comes back to where it
   * started, and no sink has a route.
   */
  lemma AcceptedMeans(flow: Config, partials: map<string, Partial>)
    ensures Buildable(flow, partials) <==>
              && (forall i :: 0 <= i < |flow.edges| && flow.edges[i].when.Some? ==>
                    Grammar.Parse(flow.edges[i].when.value).Some?)
              && (forall id, t :: RouteKnown(flow, partials, id, t))
              && !(exists p :: LoopsBack(flow, partials, p))
              && (forall id :: id in partials && partials[id].step.Sink? ==> Wired(flow, partials, id) == [])
  {
    ParsesMean(flow.edges);
    RoutesKnown(flow, partials);
    LoopsBackIsCycle(flow, partials);
  }

  lemma ParsesMean(edges: seq<EdgeConfig>)
    ensures EdgesParse(edges) <==>
              forall i :: 0 <= i < |edges| && edges[i].when.Some? ==> Grammar.Parse(edges[i].when.value).Some?
  {
    if EdgesParse(edges) {
      forall i | 0 <= i < |edges| && edges[i].when.Some? ensures Grammar.Parse(edges[i].when.value).Some? {
        assert EdgeParses(edges[i]);
      }
    }
  }

  lemma LoopsBackIsCycle(flow: Config, partials: map<string, Partial>)
    ensures Acyclic(WiredGraph(flow, partials)) <==> !exists p :: LoopsBack(flow, partials, p)
  {
    var g := WiredGraph(flow, partials);
    forall id ensures Targets(g, id) == TargetsOf(Wired(flow, partials, id)) { WiredGraphTargets(flow, partials, id); }
    if p :| IsCycle(g, p) {
      forall i, j | 0 <= i < j < |p| && j == i + 1 ensures p[j] in TargetsOf(Wired(flow, partials, p[i])) {
        assert Edge(g, p[i], p[j]);
      }
      assert LoopsBack(flow, partials, p);
    }
    if p :| LoopsBack(flow, partials, p) {
      forall i, j | 0 <= i < j < |p| && j == i + 1 ensures Edge(g, p[i], p[j]) {}
      assert IsCycle(g, p);
    }
  }

  /** A walk of at least one step along wired routes that ends where it started. */
  ghost predicate LoopsBack(flow: Config, partials: map<string, Partial>, p: seq<string>) {
    && |p| >= 2 && p[0] == p[|p| - 1]
    && forall i, j :: 0 <= i < j < |p| && j == i + 1 ==> p[j] in TargetsOf(Wired(flow, partials, p[i]))
  }

  /** A route leads from a known step to a known step. */
  ghost predicate RouteKnown(flow: Config, partials: map<string, Partial>, id: string, t: string) {
    t in TargetsOf(Wired(flow, partials, id)) ==> id in partials && t in partials
  }

  lemma RoutesKnown(flow: Config, partials: map<string, Partial>)
    ensures var g := WiredGraph(flow, partials);
            TargetsKnown(g, partials.Keys) && SourcesKnown(g, partials.Keys) <==>
              forall id, t :: RouteKnown(flow, partials, id, t)
  {
    var g, ids := WiredGraph(flow, partials), partials.Keys;
    forall id ensures Targets(g, id) == TargetsOf(Wired(flow, partials, id)) { WiredGraphTargets(flow, partials, id); }
    if TargetsKnown(g, ids) && SourcesKnown(g, ids) {
      forall id, t ensures RouteKnown(flow, partials, id, t) {
        if t in Targets(g, id) { assert Edge(g, id, t) && id in g && g[id] != []; }
      }
    }
    if forall id, t :: RouteKnown(flow, partials, id, t) {
      forall m, n | Edge(g, m, n) ensures n in ids { assert RouteKnown(flow, partials, m, n); }
      forall m | m in g && g[m] != [] ensures m in ids { assert RouteKnown(flow, partials, m, Targets(g, m)[0]); }
    }
  }

  /** A built node is the configured step under its id, with its wired routes; nothing else is built. */
  lemma NodesAre(flow: Config, partials: map<string, Partial>, nodes: map<string, Node>, id: string)
    requires Built(flow, partials, nodes)
    ensures id in nodes <==> id in partials
    ensures id in partials ==>
              var node, p := nodes[id], partials[id];
              && node.id == id && node.step == p.step && node.when == p.when && node.policy == p.policy
              && node.state == p.state && node.routes == Wired(flow, partials, id)
              && (node.incoming == 0 <==> forall m :: id !in TargetsOf(Wired(flow, partials, m)))
  {
    var g := WiredGraph(flow, partials);
    forall m ensures Targets(g, m) == TargetsOf(Wired(flow, partials, m)) { WiredGraphTargets(flow, partials, m); }
    DegreePositive(g, g.Keys, id);
  }
}
