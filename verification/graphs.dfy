/** Flow graphs over blocks 0..n-1, paths through them, and dominance as a statement about paths. */
module Graphs {

  /** A flow graph as two adjacency lists; block 0 is the root. */
  datatype Graph = Graph(succ: seq<seq<nat>>, pred: seq<seq<nat>>)
  {
    predicate Edge(u: nat, v: nat) {
      u < |succ| && v in succ[u]
    }

    predicate BackEdge(u: nat, v: nat) {
      v < |pred| && u in pred[v]
    }

    /** The lists stay in range and mirror each other. */
    ghost predicate Valid() {
      && 0 < |succ| == |pred|
      && (forall u: nat, v: nat :: Edge(u, v) ==> v < |succ|)
      && (forall u: nat, v: nat :: Edge(u, v) <==> BackEdge(u, v))
    }
  }

  ghost predicate IsPath(g: Graph, p: seq<nat>) {
    && |p| > 0
    && (forall i :: 0 <= i < |p| ==> p[i] < |g.succ|)
    && (forall i, j :: 0 <= i && j == i + 1 && j < |p| ==> g.Edge(p[i], p[j]))
  }

  ghost predicate PathFromTo(g: Graph, p: seq<nat>, a: nat, b: nat) {
    IsPath(g, p) && p[0] == a && p[|p| - 1] == b
  }

  ghost predicate Reachable(g: Graph, v: nat) {
    exists p :: PathFromTo(g, p, 0, v)
  }

  /** Every block is reachable from the root: what BuildDomTree asks of its callers. */
  ghost predicate AllReachable(g: Graph) {
    forall v :: 0 <= v < |g.succ| ==> Reachable(g, v)
  }

  /** b dominates c: every path from the root to c passes through b. */
  ghost predicate Dom(g: Graph, b: nat, c: nat) {
    forall p :: PathFromTo(g, p, 0, c) ==> b in p
  }

  function Join(p: seq<nat>, q: seq<nat>): seq<nat>
    requires |q| > 0
  {
    p + q[1..]
  }

  lemma JoinPaths(g: Graph, p: seq<nat>, q: seq<nat>, a: nat, b: nat, c: nat)
    requires PathFromTo(g, p, a, b) && PathFromTo(g, q, b, c)
    ensures PathFromTo(g, Join(p, q), a, c)
    ensures forall x :: x in Join(p, q) ==> x in p || x in q
  {
    var r := Join(p, q);
    assert forall k :: 0 <= k < |q| ==> r[|p| - 1 + k] == q[k];
    forall i, j | 0 <= i && j == i + 1 && j < |r|
      ensures g.Edge(r[i], r[j])
    {
      if i >= |p| - 1 {
        assert r[i] == q[i - |p| + 1] && r[j] == q[j - |p| + 1];
      }
    }
  }

  lemma SubPath(g: Graph, p: seq<nat>, i: nat, j: nat)
    requires IsPath(g, p) && i <= j < |p|
    ensures PathFromTo(g, p[i..j + 1], p[i], p[j])
  {
  }

  lemma ExtendPath(g: Graph, p: seq<nat>, a: nat, b: nat, c: nat)
    requires PathFromTo(g, p, a, b) && g.Edge(b, c) && c < |g.succ|
    ensures PathFromTo(g, p + [c], a, c)
  {
  }

  /** Dominance is transitive. */
  lemma DomTransitive(g: Graph, a: nat, b: nat, c: nat)
    requires Dom(g, a, b) && Dom(g, b, c)
    ensures Dom(g, a, c)
  {
    forall p | PathFromTo(g, p, 0, c)
      ensures a in p
    {
      var k :| 0 <= k < |p| && p[k] == b;
      SubPath(g, p, 0, k);
      assert a in p[0..k + 1];
    }
  }

  /** i strictly dominates c, and every strict dominator of c dominates i. */
  ghost predicate ImmediateDom(g: Graph, i: nat, c: nat) {
    i != c && Dom(g, i, c) && forall e :: 0 <= e < |g.succ| && e != c && Dom(g, e, c) ==> Dom(g, e, i)
  }

  /** With the immediate dominator i of c at hand, dominance of c steps to i. */
  lemma DomUp(g: Graph, b: nat, c: nat, i: nat)
    requires ImmediateDom(g, i, c) && b < |g.succ|
    ensures Dom(g, b, c) <==> b == c || Dom(g, b, i)
  {
    if Dom(g, b, i) {
      DomTransitive(g, b, i, c);
    }
    assert Dom(g, c, c);
  }

  /** A strict dominator of c dominates each predecessor of c. */
  lemma DomOfPred(g: Graph, i: nat, x: nat, c: nat)
    requires Dom(g, i, c) && i != c && g.Edge(x, c) && c < |g.succ|
    ensures Dom(g, i, x)
  {
    forall p | PathFromTo(g, p, 0, x)
      ensures i in p
    {
      ExtendPath(g, p, 0, x, c);
      assert i in p + [c];
    }
  }

  /** The same blocks with every edge turned around. */
  function Invert(g: Graph): Graph {
    Graph(g.pred, g.succ)
  }

  /** n post-dominates x: every path from x to the exit, block 0, passes through n. */
  ghost predicate PostDom(g: Graph, n: nat, x: nat) {
    forall p :: PathFromTo(g, p, x, 0) ==> n in p
  }

  function Reversed(p: seq<nat>): (r: seq<nat>)
    ensures |r| == |p| && forall k :: 0 <= k < |p| ==> r[k] == p[|p| - 1 - k]
  {
    seq(|p|, k requires 0 <= k < |p| => p[|p| - 1 - k])
  }

  lemma ReversedPath(g: Graph, p: seq<nat>, a: nat, b: nat)
    requires g.Valid() && PathFromTo(g, p, a, b)
    ensures PathFromTo(Invert(g), Reversed(p), b, a)
  {
    var r := Reversed(p);
    forall i, j | 0 <= i && j == i + 1 && j < |r|
      ensures Invert(g).Edge(r[i], r[j])
    {
      assert g.Edge(p[|p| - 1 - j], p[|p| - 1 - i]);
      assert g.BackEdge(r[j], r[i]);
    }
  }

  lemma InvertValid(g: Graph)
    requires g.Valid()
    ensures Invert(g).Valid() && Invert(Invert(g)) == g
  {
    forall u: nat, v: nat
      ensures Invert(g).Edge(u, v) <==> Invert(g).BackEdge(u, v)
      ensures Invert(g).Edge(u, v) ==> v < |g.pred|
    {
      assert Invert(g).Edge(u, v) <==> g.BackEdge(v, u);
      assert Invert(g).BackEdge(u, v) <==> g.Edge(v, u);
    }
  }

  /** Dominance in the inverted graph is post-dominance in the graph. */
  lemma InvertedDom(g: Graph, n: nat, x: nat)
    requires g.Valid()
    ensures Dom(Invert(g), n, x) <==> PostDom(g, n, x)
  {
    InvertValid(g);
    if Dom(Invert(g), n, x) {
      forall p | PathFromTo(g, p, x, 0)
        ensures n in p
      {
        ReversedPath(g, p, x, 0);
        var k :| 0 <= k < |p| && Reversed(p)[k] == n;
      }
    }
    if PostDom(g, n, x) {
      forall p | PathFromTo(Invert(g), p, 0, x)
        ensures n in p
      {
        ReversedPath(Invert(g), p, 0, x);
        var k :| 0 <= k < |p| && Reversed(p)[k] == n;
      }
    }
  }
}
