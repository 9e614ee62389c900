/** The reachability warnings of a built graph (sohara-runtime/src/warnings.rs). */
module Reachability {
  import opened Graph

  /** Some start leads to `n`. */
  ghost predicate ReachableFrom(g: Adjacency, starts: seq<string>, n: string) {
    exists s :: s in starts && Reaches(g, s, n)
  }

  ghost predicate Closed(g: Adjacency, seen: set<string>, stack: seq<string>) {
    forall a, b :: a in seen && Edge(g, a, b) ==> b in seen || b in stack
  }

  /** The set holds everything the search can meet. */
  ghost predicate Bounds(g: Adjacency, starts: seq<string>, all: set<string>) {
    (forall s :: s in starts ==> s in all) && (forall a, b :: Edge(g, a, b) ==> b in all)
  }

  lemma BoundExists(g: Adjacency, starts: seq<string>) returns (all: set<string>)
    ensures Bounds(g, starts, all)
  {
    all := (set s | s in starts) + (set a, b | a in g && b in g[a] :: b);
  }

  /** What holds between two rounds of the search. */
  ghost predicate Searching(g: Adjacency, starts: seq<string>, all: set<string>, seen: set<string>,
                            stack: seq<string>) {
    && Closed(g, seen, stack)
    && (forall s :: s in starts ==> s in seen || s in stack)
    && (forall n :: n in seen || n in stack ==> n in all && ReachableFrom(g, starts, n))
  }

  /** Depth-first search from the starts finds exactly what they reach. */
  method Reach(g: Adjacency, starts: seq<string>) returns (seen: set<string>)
    ensures forall n :: n in seen <==> ReachableFrom(g, starts, n)
  {
    seen := {};
    var stack := starts;
    ghost var all := BoundExists(g, starts);
    SearchStart(g, starts, all);
    while stack != []
      invariant Searching(g, starts, all, seen, stack)
      decreases |all - seen|, |stack|
    {
      seen, stack := Visit(g, starts, all, seen, stack);
    }
    SearchEnd(g, starts, all, seen);
  }

  /** One round: take the top of the stack and, if it is new, push its targets. */
  method Visit(g: Adjacency, ghost starts: seq<string>, ghost all: set<string>, seen0: set<string>, stack0: seq<string>)
    returns (seen: set<string>, stack: seq<string>)
    requires Bounds(g, starts, all) && Searching(g, starts, all, seen0, stack0) && stack0 != []
    ensures Searching(g, starts, all, seen, stack)
    ensures (seen == seen0 && |stack| < |stack0|) || |all - seen| < |all - seen0|
  {
    var id := stack0[|stack0| - 1];
    SearchStep(g, starts, all, seen0, stack0);
    seen, stack := seen0, stack0[..|stack0| - 1];
    if id in seen { return; }
    seen := seen + {id};
    if id in g {
      stack := stack + g[id];
    } else {
      assert stack + [] == stack;
    }
  }

  lemma SearchStart(g: Adjacency, starts: seq<string>, all: set<string>)
    requires Bounds(g, starts, all)
    ensures Searching(g, starts, all, {}, starts)
  {
    forall s | s in starts ensures ReachableFrom(g, starts, s) { ReachesSelf(g, s); }
  }

  lemma SearchStep(g: Adjacency, starts: seq<string>, all: set<string>, seen: set<string>, stack: seq<string>)
    requires Bounds(g, starts, all) && Searching(g, starts, all, seen, stack) && stack != []
    ensures var id, rest := stack[|stack| - 1], stack[..|stack| - 1];
            if id in seen then Searching(g, starts, all, seen, rest)
            else Searching(g, starts, all, seen + {id}, rest + Targets(g, id)) && |all - (seen + {id})| < |all - seen|
  {
    var id, rest := stack[|stack| - 1], stack[..|stack| - 1];
    assert forall n :: n in stack <==> n in rest || n == id;
    if id !in seen {
      Shrinks(all, seen, id);
      forall b | b in Targets(g, id) ensures b in all && ReachableFrom(g, starts, b) {
        assert Edge(g, id, b);
        OneMoreEdge(g, starts, id, b);
      }
    }
  }

  lemma SearchEnd(g: Adjacency, starts: seq<string>, all: set<string>, seen: set<string>)
    requires Searching(g, starts, all, seen, [])
    ensures forall n :: n in seen <==> ReachableFrom(g, starts, n)
  {
    forall n | ReachableFrom(g, starts, n) ensures n in seen { ClosedHoldsAll(g, starts, seen, n); }
  }

  lemma OneMoreEdge(g: Adjacency, starts: seq<string>, a: string, b: string)
    requires ReachableFrom(g, starts, a) && Edge(g, a, b)
    ensures ReachableFrom(g, starts, b)
  {
    var s :| s in starts && Reaches(g, s, a);
    ReachesThenEdge(g, s, a, b);
  }

  lemma ClosedHoldsAll(g: Adjacency, starts: seq<string>, seen: set<string>, n: string)
    requires Closed(g, seen, []) && (forall s :: s in starts ==> s in seen) && ReachableFrom(g, starts, n)
    ensures n in seen
  {
    var s :| s in starts && Reaches(g, s, n);
    var p :| PathBetween(g, p, s, n);
    ClosedAlongPath(g, seen, p, |p| - 1);
  }

  lemma {:induction false} ClosedAlongPath(g: Adjacency, seen: set<string>, p: seq<string>, k: nat)
    requires Closed(g, seen, []) && IsPath(g, p) && p[0] in seen && k < |p|
    ensures p[k] in seen
  {
    if k > 0 {
      ClosedAlongPath(g, seen, p, k - 1);
      assert Edge(g, p[k - 1], p[k]);
    }
  }

  // ---------- both directions ----------

  ghost predicate Reversed(forward: Adjacency, backward: Adjacency) {
    forall a, b :: Edge(forward, a, b) <==> Edge(backward, b, a)
  }

  /** Push `to` onto the list of `from`. */
  function Push(g: Adjacency, from: string, to: string): (r: Adjacency)
    ensures forall a, b :: Edge(r, a, b) <==> Edge(g, a, b) || (a == from && b == to)
  {
    g[from := Targets(g, from) + [to]]
  }

  /** The routes of every node, forwards and backwards. */
  method Adjacencies(routes: Adjacency) returns (forward: Adjacency, backward: Adjacency)
    ensures forall a, b :: Edge(forward, a, b) <==> Edge(routes, a, b)
    ensures Reversed(forward, backward)
  {
    forward, backward := map[], map[];
    var todo := routes.Keys;
    while todo != {}
      invariant todo <= routes.Keys && Reversed(forward, backward)
      invariant forall a, b :: Edge(forward, a, b) <==> a !in todo && Edge(routes, a, b)
    {
      var id :| id in todo;
      todo := todo - {id};
      var targets := routes[id];
      for j := 0 to |targets|
        invariant Reversed(forward, backward)
        invariant forall a, b :: Edge(forward, a, b) <==>
                    (a !in todo && a != id && Edge(routes, a, b)) || (a == id && b in targets[..j])
      {
        assert targets[..j + 1] == targets[..j] + [targets[j]];
        forward := Push(forward, id, targets[j]);
        backward := Push(backward, targets[j], id);
      }
      assert targets[..|targets|] == targets;
    }
  }

  lemma ReversedPath(forward: Adjacency, backward: Adjacency, a: string, b: string)
    requires Reversed(forward, backward) && Reaches(forward, a, b)
    ensures Reaches(backward, b, a)
  {
    var p :| PathBetween(forward, p, a, b);
    var q := seq(|p|, i requires 0 <= i < |p| => p[|p| - 1 - i]);
    forall i | 0 <= i < |q| - 1 ensures Edge(backward, q[i], q[i + 1]) {
      assert q[i] == p[|p| - 2 - i + 1] && q[i + 1] == p[|p| - 2 - i];
      assert Edge(forward, p[|p| - 2 - i], p[|p| - 2 - i + 1]);
    }
    assert PathBetween(backward, q, b, a);
  }

  /**
   * The two warnings: what no source reaches, and what reaches no sink. The
   * second searches backwards from the sinks.
   */
  method Unreachable(routes: Adjacency, roots: seq<string>, sinks: seq<string>, ids: set<string>)
    returns (cutOff: set<string>, deadEnds: set<string>)
    ensures forall n :: n in cutOff <==> n in ids && !exists r :: r in roots && Reaches(routes, r, n)
    ensures forall n :: n in deadEnds <==> n in ids && n !in sinks && !exists s :: s in sinks && Reaches(routes, n, s)
  {
    var forward, backward := Adjacencies(routes);
    var fromSource := Reach(forward, roots);
    var toSink := Reach(backward, sinks);
    cutOff := set n | n in ids && n !in fromSource;
    deadEnds := set n | n in ids && n !in toSink && n !in sinks;
    forall a, b ensures Reaches(forward, a, b) <==> Reaches(routes, a, b) { SameEdges(forward, routes, a, b); }
    forall a, b ensures Reaches(routes, a, b) <==> Reaches(backward, b, a) {
      SameEdges(forward, routes, a, b);
      if Reaches(forward, a, b) { ReversedPath(forward, backward, a, b); }
      if Reaches(backward, b, a) { ReversedPath(backward, forward, b, a); }
    }
  }

  lemma SameEdges(g: Adjacency, h: Adjacency, a: string, b: string)
    requires forall x, y :: Edge(g, x, y) <==> Edge(h, x, y)
    ensures Reaches(g, a, b) <==> Reaches(h, a, b)
  {
    if p :| PathBetween(g, p, a, b) { assert PathBetween(h, p, a, b); }
    if p :| PathBetween(h, p, a, b) { assert PathBetween(g, p, a, b); }
  }
}
