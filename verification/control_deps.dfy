/** Control dependence read off the post-dominator tree, as FindControlDeps computes it. */
module ControlDeps {
  import opened Graphs
  import opened DomTree
  import opened DfsForest

  /** Block n is control dependent on c: c has an edge into something n post-dominates, and n does
      not strictly post-dominate c itself. */
  ghost predicate ControlDependent(g: Graph, n: nat, c: nat) {
    exists x :: DependsVia(g, n, c, x)
  }

  ghost predicate DependsVia(g: Graph, n: nat, c: nat, x: nat) {
    x < |g.succ| && g.Edge(c, x) && PostDom(g, n, x) && !(n != c && PostDom(g, n, c))
  }

  /** What the traversal records: the same, without the edge from c to itself. */
  ghost predicate Recorded(g: Graph, n: nat, c: nat) {
    exists x :: x != c && DependsVia(g, n, c, x)
  }

  /** c has an edge into another block that c post-dominates. */
  ghost predicate LoopsBack(g: Graph, c: nat) {
    exists x: nat :: x != c && x < |g.succ| && g.Edge(c, x) && PostDom(g, c, x)
  }

  /** The one dependence the traversal misses: a block on itself, through nothing but its own loop edge. */
  lemma MissedExactly(g: Graph, n: nat, c: nat)
    requires g.Valid() && n < |g.succ| && c < |g.succ|
    ensures ControlDependent(g, n, c) && !Recorded(g, n, c) <==>
            n == c && g.Edge(c, c) && !LoopsBack(g, c)
    ensures Recorded(g, n, c) ==> ControlDependent(g, n, c)
  {
    if n == c && g.Edge(c, c) {
      assert DependsVia(g, c, c, c);
    }
    if ControlDependent(g, n, c) && !Recorded(g, n, c) {
      var x :| DependsVia(g, n, c, x);
      assert x == c && n == c;
      assert forall y: nat :: y != c && y < |g.succ| && g.Edge(c, y) && PostDom(g, c, y) ==> DependsVia(g, c, c, y);
    }
    if n == c && Recorded(g, n, c) {
      var x :| x != c && DependsVia(g, n, c, x);
      assert g.Edge(c, x) && PostDom(g, c, x);
    }
  }

  /** Nothing is missed exactly when every self loop sits on a block that also closes a longer loop. */
  ghost predicate LoopsCovered(g: Graph) {
    forall c :: 0 <= c < |g.succ| && g.Edge(c, c) ==> LoopsBack(g, c)
  }

  lemma CompleteIff(g: Graph)
    requires g.Valid()
    ensures (forall n, c :: 0 <= n < |g.succ| && 0 <= c < |g.succ| ==>
      (Recorded(g, n, c) <==> ControlDependent(g, n, c))) <==> LoopsCovered(g)
  {
    forall n, c | 0 <= n < |g.succ| && 0 <= c < |g.succ|
      ensures Recorded(g, n, c) ==> ControlDependent(g, n, c)
      ensures !(ControlDependent(g, n, c) && !Recorded(g, n, c)) <==>
              !(n == c && g.Edge(c, c) && !LoopsBack(g, c))
    {
      MissedExactly(g, n, c);
    }
    if !LoopsCovered(g) {
      var c :| 0 <= c < |g.succ| && g.Edge(c, c) && !LoopsBack(g, c);
      assert ControlDependent(g, c, c) && !Recorded(g, c, c);
    }
  }

  /** The tree read through immediate dominators is dominance. */
  lemma {:induction false} TreeIsDom(g: Graph, rank: seq<int>, idom: seq<int>, b: nat, c: nat)
    requires Ranked(rank, idom) && |idom| == |g.succ| && b < |idom| && c < |idom|
    requires forall w :: 0 < w < |idom| ==> ImmediateDom(g, idom[w], w)
    ensures TreeAnc(rank, idom, b, c) <==> Dom(g, b, c)
    decreases rank[c]
  {
    if c == 0 {
      assert PathFromTo(g, [0], 0, 0);
    } else {
      DomUp(g, b, c, idom[c]);
      TreeIsDom(g, rank, idom, b, idom[c]);
    }
  }

  /** The walk up from x, now at n (or past the root), has recorded the dominators of x it passed. */
  ghost predicate Passed(rank: seq<int>, idom: seq<int>, x: nat, n: int, m: nat)
    requires Ranked(rank, idom) && x < |idom| && m < |idom| && NIL <= n < |idom|
  {
    TreeAnc(rank, idom, m, x) && (n == NIL || !TreeAnc(rank, idom, m, n))
  }

  /** Where the walk for an edge x to c of the inverted graph ends, and what it has then passed. */
  lemma WalkEnds(g: Graph, rank: seq<int>, idom: seq<int>, x: nat, c: nat, n: int, m: nat)
    requires Ranked(rank, idom) && |idom| == |g.succ| && x < |idom| && c < |idom| && m < |idom| && NIL <= n < |idom|
    requires idom[0] == NIL && (forall w :: 0 < w < |idom| ==> ImmediateDom(g, idom[w], w))
    requires n == idom[c]
    ensures Passed(rank, idom, x, n, m) <==> Dom(g, m, x) && !(m != c && Dom(g, m, c))
  {
    hide ImmediateDom, Dom;
    TreeIsDom(g, rank, idom, m, x);
    TreeIsDom(g, rank, idom, m, c);
    if c > 0 && TreeAnc(rank, idom, m, idom[c]) {
      AncRank(rank, idom, m, idom[c]);
    }
  }

  /** The stop block of the walk lies above its start. */
  lemma StopAbove(g: Graph, rank: seq<int>, idom: seq<int>, x: nat, c: nat)
    requires Ranked(rank, idom) && |idom| == |g.succ| && x < |idom| && 0 < c < |idom| && g.Edge(x, c)
    requires forall w :: 0 < w < |idom| ==> ImmediateDom(g, idom[w], w)
    ensures TreeAnc(rank, idom, idom[c], x)
  {
    DomOfPred(g, idom[c], x, c);
    TreeIsDom(g, rank, idom, idom[c], x);
  }

  /** One step up, from n to its parent. */
  lemma StepUp(rank: seq<int>, idom: seq<int>, x: nat, n: nat, m: nat)
    requires Ranked(rank, idom) && x < |idom| && n < |idom| && m < |idom| && idom[0] == NIL && TreeAnc(rank, idom, n, x)
    ensures Passed(rank, idom, x, idom[n], m) <==> Passed(rank, idom, x, n, m) || m == n
    ensures n > 0 ==> TreeAnc(rank, idom, idom[n], x)
  {
    if n > 0 {
      if TreeAnc(rank, idom, n, idom[n]) {
        AncRank(rank, idom, n, idom[n]);
      }
      AncTrans(rank, idom, idom[n], n, x);
      if m == n {
        assert TreeAnc(rank, idom, n, x);
      }
    }
  }

  /** A finished post-dominator tree of inv. */
  ghost predicate TreeOf(inv: Graph, rank: seq<int>, idom: seq<int>) {
    && inv.Valid() && Ranked(rank, idom) && |idom| == |inv.succ| && idom[0] == NIL
    && (forall w :: 0 < w < |idom| ==> ImmediateDom(inv, idom[w], w))
  }

  /** n depends on c by the edge from x to c of the inverted graph. */
  ghost predicate Via(inv: Graph, n: nat, c: nat, x: nat) {
    inv.Edge(x, c) && Dom(inv, n, x) && !(n != c && Dom(inv, n, c))
  }

  /** An edge out of a dominator of its target carries no dependence. */
  lemma NoneVia(inv: Graph, rank: seq<int>, idom: seq<int>, n: nat, c: nat, x: nat)
    requires TreeOf(inv, rank, idom) && n < |idom| && c < |idom| && x < |idom| && x != c && Dom(inv, x, c)
    ensures !Via(inv, n, c, x)
  {
    if Via(inv, n, c, x) {
      DomTransitive(inv, n, x, c);
      TreeIsDom(inv, rank, idom, c, x);
      TreeIsDom(inv, rank, idom, x, c);
      AncRank(rank, idom, c, x);
      AncRank(rank, idom, x, c);
    }
  }

  /** The two tables hold one relation, read from either end. */
  ghost predicate Mirror(dep: seq<seq<nat>>, depee: seq<seq<nat>>) {
    && |dep| == |depee|
    && (forall n, c :: 0 <= n < |dep| && 0 <= c < |dep| ==> (c in dep[n] <==> n in depee[c]))
    && (forall n, i :: 0 <= n < |dep| && 0 <= i < |dep[n]| ==> dep[n][i] < |dep|)
  }

  /** The inner loop: from x up to the parent of c, recording every block on the way. */
  method Walk(inv: Graph, idom: seq<int>, ghost rank: seq<int>, x: nat, c: nat, dep: seq<seq<nat>>,
    depee: seq<seq<nat>>)
    returns (dep': seq<seq<nat>>, depee': seq<seq<nat>>)
    requires TreeOf(inv, rank, idom) && x < |idom| && c < |idom| && inv.Edge(x, c)
    requires |dep| == |idom| && Mirror(dep, depee)
    ensures |dep'| == |dep| && Mirror(dep', depee')
    ensures forall n, e: nat :: 0 <= n < |dep| ==> (e in dep'[n] <==> e in dep[n] || (e == c && Via(inv, n, c, x)))
  {
    hide ImmediateDom, Dom;
    dep', depee' := dep, depee;
    var n: int := x;
    if c > 0 {
      StopAbove(inv, rank, idom, x, c);
    }
    while n != idom[c] && n != NIL
      invariant NIL <= n < |idom| && |dep'| == |dep| && Mirror(dep', depee')
      invariant n != NIL ==> TreeAnc(rank, idom, n, x) && (c > 0 ==> TreeAnc(rank, idom, idom[c], n))
      invariant n == NIL ==> c == 0
      invariant forall m, e: nat :: 0 <= m < |dep| ==>
        (e in dep'[m] <==> e in dep[m] || (e == c && Passed(rank, idom, x, n, m)))
      decreases if n == NIL then -1 else rank[n]
    {
      forall m | 0 <= m < |idom|
        ensures Passed(rank, idom, x, idom[n], m) <==> Passed(rank, idom, x, n, m) || m == n
        ensures n > 0 ==> TreeAnc(rank, idom, idom[n], x)
      {
        StepUp(rank, idom, x, n, m);
      }
      dep' := dep'[n := dep'[n] + [c]];
      depee' := depee'[c := depee'[c] + [n]];
      n := idom[n];
    }
    forall m | 0 <= m < |idom|
      ensures Passed(rank, idom, x, n, m) <==> Via(inv, m, c, x)
    {
      WalkEnds(inv, rank, idom, x, c, n, m);
    }
  }

  /** Some edge out of the first blocks, self edges aside, makes n depend on c. */
  ghost predicate ByFirst(inv: Graph, n: nat, c: nat, x: nat) {
    exists y: nat :: y < x && y != c && Via(inv, n, c, y)
  }

  /** FindControlDeps: afterwards ControlDep and ControlDepee hold the recorded dependences. */
  method FindControlDeps(inv: Graph, idom: seq<int>, pre: seq<int>, post: seq<int>, ghost rank: seq<int>)
    returns (dep: seq<seq<nat>>, depee: seq<seq<nat>>)
    requires TreeOf(inv, rank, idom) && |pre| == |post| == |idom|
    requires forall b, c :: 0 <= b < |pre| && 0 <= c < |pre| ==> (Contains(pre, post, b, c) <==> Dom(inv, b, c))
    ensures |dep| == |depee| == |idom| && Mirror(dep, depee)
    ensures forall n, c :: 0 <= n < |dep| && 0 <= c < |dep| ==> (c in dep[n] <==> Recorded(Invert(inv), n, c))
  {
    hide TreeOf, Dom, Via;
    var k := |idom|;
    dep, depee := seq(k, _ => []), seq(k, _ => []);
    for x := 0 to k
      invariant |dep| == |depee| == k && Mirror(dep, depee)
      invariant forall n, c: nat :: 0 <= n < k ==> (c in dep[n] <==> c < k && ByFirst(inv, n, c, x))
    {
      dep, depee := OutEdges(inv, idom, pre, post, rank, x, dep, depee);
    }
    forall n, c | 0 <= n < k && 0 <= c < k
      ensures ByFirst(inv, n, c, k) <==> Recorded(Invert(inv), n, c)
    {
      FirstIsAll(inv, rank, idom, n, c);
    }
  }

  method OutEdges(inv: Graph, idom: seq<int>, pre: seq<int>, post: seq<int>, ghost rank: seq<int>, x: nat,
                  dep: seq<seq<nat>>, depee: seq<seq<nat>>)
    returns (dep': seq<seq<nat>>, depee': seq<seq<nat>>)
    requires TreeOf(inv, rank, idom) && |pre| == |post| == |idom| && x < |idom|
    requires forall b, c :: 0 <= b < |pre| && 0 <= c < |pre| ==> (Contains(pre, post, b, c) <==> Dom(inv, b, c))
    requires |dep| == |idom| && Mirror(dep, depee)
    requires forall n, c: nat :: 0 <= n < |dep| ==> (c in dep[n] <==> c < |dep| && ByFirst(inv, n, c, x))
    ensures |dep'| == |dep| && Mirror(dep', depee')
    ensures forall n, c: nat :: 0 <= n < |dep| ==> (c in dep'[n] <==> c < |dep| && ByFirst(inv, n, c, x + 1))
  {
    hide Dom, ImmediateDom, Via, ByFirst, Ranked;
    dep', depee' := dep, depee;
    ghost var out := inv.succ[x];
    for k := 0 to |inv.succ[x]|
      invariant |dep'| == |dep| && Mirror(dep', depee')
      invariant forall n, c: nat :: 0 <= n < |dep| ==>
        (c in dep'[n] <==> c in dep[n] || (c in out[..k] && x != c && Via(inv, n, c, x)))
    {
      var c := inv.succ[x][k];
      assert inv.Edge(x, c);
      assert out[..k + 1] == out[..k] + [c];
      if !(pre[x] <= pre[c] && post[c] <= post[x]) {
        assert !Contains(pre, post, x, c);
        SelfDom(inv, c);
        dep', depee' := Walk(inv, idom, rank, x, c, dep', depee');
      } else {
        assert Contains(pre, post, x, c);
        forall n | 0 <= n < |dep| && x != c
          ensures !Via(inv, n, c, x)
        {
          NoneVia(inv, rank, idom, n, c, x);
        }
      }
    }
    assert out[..|out|] == out;
    forall n, c: nat | 0 <= n < |dep|
      ensures c in dep'[n] <==> c < |dep| && ByFirst(inv, n, c, x + 1)
    {
      FirstNext(inv, n, c, x);
    }
  }

  lemma SelfDom(g: Graph, c: nat)
    ensures Dom(g, c, c)
  {
  }

  lemma FirstNext(inv: Graph, n: nat, c: nat, x: nat)
    requires inv.Valid() && x < |inv.succ|
    ensures ByFirst(inv, n, c, x + 1) <==> ByFirst(inv, n, c, x) || (x != c && Via(inv, n, c, x))
    ensures Via(inv, n, c, x) ==> c in inv.succ[x] && c < |inv.succ|
  {
  }

  lemma FirstIsAll(inv: Graph, rank: seq<int>, idom: seq<int>, n: nat, c: nat)
    requires TreeOf(inv, rank, idom) && n < |idom| && c < |idom|
    ensures ByFirst(inv, n, c, |idom|) <==> Recorded(Invert(inv), n, c)
  {
    var g := Invert(inv);
    InvertValid(inv);
    assert Invert(g) == inv;
    forall x: nat
      ensures x < |idom| && Via(inv, n, c, x) <==> DependsVia(g, n, c, x)
    {
      InvertedDom(g, n, x);
      InvertedDom(g, n, c);
      assert inv.Edge(x, c) <==> inv.BackEdge(x, c);
      assert inv.BackEdge(x, c) <==> g.Edge(c, x);
    }
  }
}
