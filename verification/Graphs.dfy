/** Undirected graphs with bounded degrees, and reachability in them. */
module Graphs {
  import opened Sets

  /** The neighbours of each node. */
  type Graph = seq<set<nat>>

  ghost predicate Undirected(g: Graph) {
    && (forall a, b :: 0 <= a < |g| && b in g[a] ==> b < |g| && a != b)
    && (forall a, b :: 0 <= a < |g| && 0 <= b < |g| && b in g[a] ==> a in g[b])
  }

  ghost predicate Capped(g: Graph, caps: seq<nat>) {
    |caps| == |g| && forall a :: 0 <= a < |g| ==> |g[a]| <= caps[a]
  }

  ghost predicate Grows(g: Graph, h: Graph) {
    |g| == |h| && forall a :: 0 <= a < |g| ==> g[a] <= h[a]
  }

  function WithEdge(g: Graph, a: nat, b: nat): Graph
    requires a < |g| && b < |g|
  {
    var h := g[a := g[a] + {b}];
    h[b := h[b] + {a}]
  }

  lemma EdgeAdded(g: Graph, a: nat, b: nat)
    requires a < |g| && b < |g| && a != b && b !in g[a] && Undirected(g)
    ensures var h := WithEdge(g, a, b);
            && Undirected(h) && Grows(g, h) && b in h[a]
            && |h[a]| == |g[a]| + 1 && |h[b]| == |g[b]| + 1
            && forall c :: 0 <= c < |g| && c != a && c != b ==> h[c] == g[c]
  {
    assert a !in g[b];
  }

  // ---- Reachability

  ghost predicate Path(g: Graph, nodes: set<nat>, p: seq<nat>) {
    && p != [] && (forall i :: 0 <= i < |p| ==> p[i] in nodes && p[i] < |g|)
    && forall i :: 0 <= i < |p| - 1 ==> p[i + 1] in g[p[i]]
  }

  ghost predicate Goes(g: Graph, nodes: set<nat>, p: seq<nat>, a: nat, b: nat) {
    Path(g, nodes, p) && p[0] == a && p[|p| - 1] == b
  }

  ghost predicate Reaches(g: Graph, nodes: set<nat>, a: nat, b: nat) { exists p :: Goes(g, nodes, p, a, b) }

  ghost predicate Connected(g: Graph, nodes: set<nat>) {
    forall a, b :: a in nodes && b in nodes ==> Reaches(g, nodes, a, b)
  }

  lemma ReachesEdge(g: Graph, nodes: set<nat>, a: nat, b: nat)
    requires a in nodes && b in nodes && a < |g| && b < |g| && b in g[a]
    ensures Reaches(g, nodes, a, b)
  {
    assert Goes(g, nodes, [a, b], a, b);
  }

  lemma ReachesOn(g: Graph, nodes: set<nat>, a: nat, b: nat, c: nat)
    requires Reaches(g, nodes, a, b) && Reaches(g, nodes, b, c)
    ensures Reaches(g, nodes, a, c)
  {
    var p :| Goes(g, nodes, p, a, b);
    var q :| Goes(g, nodes, q, b, c);
    var r := p + q[1..];
    forall i | 0 <= i < |r| - 1 ensures r[i + 1] in g[r[i]] {
      if i >= |p| - 1 { assert r[i] == q[i - (|p| - 1)] && r[i + 1] == q[i + 1 - (|p| - 1)]; }
    }
    assert Goes(g, nodes, r, a, c);
  }

  lemma ReachesBack(g: Graph, nodes: set<nat>, a: nat, b: nat)
    requires Undirected(g) && Reaches(g, nodes, a, b)
    ensures Reaches(g, nodes, b, a)
  {
    var p :| Goes(g, nodes, p, a, b);
    var r := Reversed(p);
    forall i | 0 <= i < |r| - 1 ensures r[i + 1] in g[r[i]] {
      var j := |p| - 2 - i;
      assert p[j + 1] in g[p[j]] && r[i] == p[j + 1] && r[i + 1] == p[j];
    }
    assert Goes(g, nodes, r, b, a);
  }

  lemma ReachesMore(g: Graph, h: Graph, some: set<nat>, nodes: set<nat>, a: nat, b: nat)
    requires Grows(g, h) && some <= nodes && Reaches(g, some, a, b)
    ensures Reaches(h, nodes, a, b)
  {
    var p :| Goes(g, some, p, a, b);
    forall i | 0 <= i < |p| - 1 ensures p[i + 1] in h[p[i]] {
      assert p[i + 1] in g[p[i]] && p[i] < |g|;
    }
    assert Goes(h, nodes, p, a, b);
  }

  lemma ConnectedMore(g: Graph, h: Graph, nodes: set<nat>)
    requires Grows(g, h) && Connected(g, nodes)
    ensures Connected(h, nodes)
  {
    hide Reaches;
    forall a, b | a in nodes && b in nodes ensures Reaches(h, nodes, a, b) { ReachesMore(g, h, nodes, nodes, a, b); }
  }

  /** All reached from one node: all reach each other. */
  lemma ConnectedFrom(g: Graph, nodes: set<nat>, root: nat)
    requires Undirected(g) && forall a :: a in nodes ==> Reaches(g, nodes, root, a)
    ensures Connected(g, nodes)
  {
    hide Reaches, Undirected;
    forall a, b | a in nodes && b in nodes ensures Reaches(g, nodes, a, b) {
      ReachesBack(g, nodes, root, a);
      ReachesOn(g, nodes, a, root, b);
    }
  }

  /** Two connected parts with an edge between them. */
  lemma ConnectedJoin(g: Graph, left: set<nat>, right: set<nat>, a: nat, b: nat)
    requires Undirected(g) && Connected(g, left) && Connected(g, right) && a in left && b in right && a < |g| && b in g[a]
    ensures Connected(g, left + right)
  {
    hide Reaches;
    var nodes := left + right;
    GrowsSelf(g);
    ReachesEdge(g, nodes, a, b);
    forall c | c in nodes ensures Reaches(g, nodes, a, c) {
      if c in left {
        ReachesMore(g, g, left, nodes, a, c);
      } else {
        ReachesMore(g, g, right, nodes, b, c);
        ReachesOn(g, nodes, a, b, c);
      }
    }
    ConnectedFrom(g, nodes, a);
  }

  lemma GrowsSelf(g: Graph)
    ensures Grows(g, g)
  {}

  lemma GrowsOn(g: Graph, h: Graph, k: Graph)
    requires Grows(g, h) && Grows(h, k)
    ensures Grows(g, k)
  {}

  /** Nodes in a row, each linked to the next. */
  ghost predicate Chained(g: Graph, nodes: seq<nat>) {
    (forall i :: 0 <= i < |nodes| ==> nodes[i] < |g|) && forall i :: 0 <= i < |nodes| - 1 ==> nodes[i + 1] in g[nodes[i]]
  }

  lemma ChainedConnected(g: Graph, nodes: seq<nat>)
    requires Undirected(g) && Chained(g, nodes)
    ensures Connected(g, Elements(nodes))
  {
    hide Reaches;
    if nodes != [] {
      var all := Elements(nodes);
      forall a | a in all ensures Reaches(g, all, nodes[0], a) {
        var i :| 0 <= i < |nodes| && nodes[i] == a;
        ChainReaches(g, nodes, i);
      }
      ConnectedFrom(g, all, nodes[0]);
    }
  }

  lemma ChainReaches(g: Graph, nodes: seq<nat>, i: nat)
    requires Chained(g, nodes) && i < |nodes|
    ensures Reaches(g, Elements(nodes), nodes[0], nodes[i])
  {
    assert Goes(g, Elements(nodes), nodes[..i + 1], nodes[0], nodes[i]);
  }
}
