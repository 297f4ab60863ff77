/** From the graph of a function to its numbered blocks and their control dependences. */
module BlockSlices {
  import Flow = StructuredFlow
  import Spec = CfgEdges
  import opened Finite
  import opened Graphs
  import opened CfgCapture
  import opened CfgExit
  import opened CfgLoops
  import opened CfgBuilder
  import opened ControlDeps

  /** The place of x. */
  function IndexOf(order: seq<nat>, x: nat): (i: nat)
    requires x in order
    ensures i < |order| && order[i] == x
  {
    if order[0] == x then 0 else 1 + IndexOf(order[1..], x)
  }

  lemma IndexUnique(order: seq<nat>, i: nat)
    requires NoRepeats(order) && i < |order|
    ensures IndexOf(order, order[i]) == i
  {
    var j := IndexOf(order, order[i]);
    assert i < j || j < i || i == j;
  }

  /** g is the graph of the blocks, with the i-th block of the order in place i. */
  ghost predicate Numbers(blocks: Blocks, order: seq<nat>, g: Graph) {
    && NoRepeats(order) && (forall x :: x in order <==> x in blocks) && |g.succ| == |g.pred| == |order|
    && (forall i: nat, j: nat :: g.Edge(i, j) <==> i < |order| && j < |order| && order[j] in blocks[order[i]].succs)
    && (forall i: nat, j: nat :: g.BackEdge(i, j) <==> i < |order| && j < |order| && order[i] in blocks[order[j]].preds)
  }

  /** InitializeBlocks: the blocks in some order, the root first, and their lists turned into lists of places. */
  method InitializeBlocks(blocks: Blocks, root: nat) returns (order: seq<nat>, g: Graph)
    requires Mirrored(blocks)
    ensures Numbers(blocks, order, g) && (root in blocks ==> order != [] && order[0] == root)
  {
    order := BlockSlice(blocks, root);
    hide Mirrored, NoRepeats, Places, PlacesOf;
    var succ: seq<seq<nat>> := [];
    var pred: seq<seq<nat>> := [];
    for i := 0 to |order|
      invariant |succ| == |pred| == i
      invariant forall k :: 0 <= k < i ==> order[k] in blocks
      invariant forall k :: 0 <= k < i ==> PlacesOf(order, blocks[order[k]].succs, succ[k])
      invariant forall k :: 0 <= k < i ==> PlacesOf(order, blocks[order[k]].preds, pred[k])
    {
      assert order[i] in order;
      var b := blocks[order[i]];
      PlacesMeans(order, b.succs);
      PlacesMeans(order, b.preds);
      succ := succ + [Places(order, b.succs)];
      pred := pred + [Places(order, b.preds)];
    }
    g := Graph(succ, pred);
    NumbersHold(blocks, order, g);
  }

  /** ps are the places of the blocks xs. */
  ghost predicate PlacesOf(order: seq<nat>, xs: seq<nat>, ps: seq<nat>) {
    forall j: nat :: j in ps <==> j < |order| && order[j] in xs
  }

  lemma NumbersHold(blocks: Blocks, order: seq<nat>, g: Graph)
    requires NoRepeats(order) && (forall x :: x in order <==> x in blocks) && |g.succ| == |g.pred| == |order|
    requires forall k :: 0 <= k < |order| ==> order[k] in blocks
    requires forall k :: 0 <= k < |order| ==> PlacesOf(order, blocks[order[k]].succs, g.succ[k])
    requires forall k :: 0 <= k < |order| ==> PlacesOf(order, blocks[order[k]].preds, g.pred[k])
    ensures Numbers(blocks, order, g)
  {
    hide NoRepeats;
  }

  /** The places of those of xs that have one. */
  function Places(order: seq<nat>, xs: seq<nat>): seq<nat> {
    if xs == [] then [] else (if xs[0] in order then [IndexOf(order, xs[0])] else []) + Places(order, xs[1..])
  }

  lemma {:induction false} PlacesMeans(order: seq<nat>, xs: seq<nat>)
    requires NoRepeats(order)
    ensures PlacesOf(order, xs, Places(order, xs))
  {
    if xs != [] {
      PlacesMeans(order, xs[1..]);
      assert xs == [xs[0]] + xs[1..];
      forall j: nat
        ensures j in Places(order, xs) <==> j < |order| && order[j] in xs
      {
        if j < |order| { IndexUnique(order, j); }
      }
    }
  }

  method BlockSlice(blocks: Blocks, root: nat) returns (order: seq<nat>)
    ensures NoRepeats(order) && (forall x :: x in order <==> x in blocks)
    ensures root in blocks ==> order != [] && order[0] == root
  {
    order := [];
    var rest := blocks.Keys;
    while rest != {}
      invariant NoRepeats(order) && rest <= blocks.Keys && forall x :: x in order <==> x in blocks && x !in rest
      decreases rest
    {
      var x :| x in rest;
      rest := rest - {x};
      order := order + [x];
    }
    if root in order {
      var i := IndexOf(order, root);
      SwapKeeps(order, i);
      order := order[0 := order[i]][i := order[0]];
    }
  }

  lemma SwapKeeps(order: seq<nat>, i: nat)
    requires NoRepeats(order) && i < |order|
    ensures var swapped := order[0 := order[i]][i := order[0]];
      NoRepeats(swapped) && swapped[0] == order[i] && forall x :: x in swapped <==> x in order
  {
    var swapped := order[0 := order[i]][i := order[0]];
    assert forall k :: 0 <= k < |order| ==> swapped[k] == order[if k == 0 then i else if k == i then 0 else k];
    forall x | x in order
      ensures x in swapped
    {
      var k :| 0 <= k < |order| && order[k] == x;
      assert swapped[if k == 0 then i else if k == i then 0 else k] == x;
    }
  }

  // ----- the graph of a program -----

  /** g is the numbered graph of program p, with the exit in place 0. */
  ghost predicate GraphOf(p: Flow.Code, blocks: Blocks, order: seq<nat>, g: Graph) {
    && Mirrored(blocks) && EdgesOf(blocks) == Spec.Graph(p) && blocks.Keys <= Ids(p) + {Flow.ENTRY, Flow.EXIT}
    && Numbers(blocks, order, g) && order != [] && order[0] == Flow.EXIT
  }

  lemma GraphValid(p: Flow.Code, blocks: Blocks, order: seq<nat>, g: Graph)
    requires GraphOf(p, blocks, order, g)
    ensures g.Valid()
    ensures forall i: nat, j: nat :: g.Edge(i, j) <==>
      i < |order| && j < |order| && (order[i], order[j]) in Spec.Graph(p)
  {
    forall i: nat, j: nat
      ensures g.Edge(i, j) <==> i < |order| && j < |order| && (order[i], order[j]) in EdgesOf(blocks)
      ensures g.Edge(i, j) <==> g.BackEdge(i, j)
    {
      if i < |order| && j < |order| {
        assert order[i] in order && order[j] in order;
      }
    }
  }

  /** A way along the edges of the program is a path of its graph. */
  lemma WayIsPath(p: Flow.Code, blocks: Blocks, order: seq<nat>, g: Graph, x: nat, w: seq<nat>) returns (q: seq<nat>)
    requires GraphOf(p, blocks, order, g) && x in order && WayTo(Spec.Graph(p), x, {Flow.EXIT}, w)
    ensures PathFromTo(g, q, IndexOf(order, x), 0) && |q| == |w| &&
      forall k :: 0 <= k < |q| ==> q[k] < |order| && order[q[k]] == w[k]
  {
    GraphValid(p, blocks, order, g);
    forall k: nat | k < |w|
      ensures w[k] in order
    {
      WayInBlocks(blocks, w, k);
    }
    q := seq(|w|, k requires 0 <= k < |w| => IndexOf(order, w[k]));
    assert forall i, j :: 0 <= i && j == i + 1 < |w| ==> (w[i], w[j]) in Spec.Graph(p);
    IndexUnique(order, 0);
  }

  lemma WayInBlocks(blocks: Blocks, w: seq<nat>, k: nat)
    requires Mirrored(blocks) && Flow.Linked(w, EdgesOf(blocks)) && k < |w| && w[0] in blocks
    ensures w[k] in blocks
  {
    if k > 0 {
      assert (w[k - 1], w[k]) in EdgesOf(blocks);
    }
  }

  /** Every block reaches the exit, so the inverted graph is what the post-dominator tree asks for. */
  lemma InvertReachable(p: Flow.Code, blocks: Blocks, order: seq<nat>, g: Graph)
    requires Legal(p) && GraphOf(p, blocks, order, g)
    ensures AllReachable(Invert(g))
  {
    GraphValid(p, blocks, order, g);
    forall v | 0 <= v < |g.succ|
      ensures Reachable(Invert(g), v)
    {
      var x := order[v];
      assert x in order;
      IndexUnique(order, v);
      var w;
      if x == Flow.EXIT {
        w := [x];
        assert WayTo(Spec.Graph(p), x, {Flow.EXIT}, w);
      } else {
        ExitReachable(p, x);
        w :| WayTo(Spec.Graph(p), x, {Flow.EXIT}, w);
      }
      var q := WayIsPath(p, blocks, order, g, x, w);
      ReversedPath(g, q, v, 0);
    }
  }

  /** No empty loop of a program lies on every way from what follows it to the exit. */
  lemma EmptyLoopNotBack(p: Flow.Code, blocks: Blocks, order: seq<nat>, g: Graph, c: nat)
    requires Legal(p) && GraphOf(p, blocks, order, g) && c < |order| && EmptyLoopIn(p, order[c])
    ensures !LoopsBack(g, c)
  {
    GraphValid(p, blocks, order, g);
    forall x: nat | x != c && x < |g.succ| && g.Edge(c, x)
      ensures !PostDom(g, c, x)
    {
      assert order[x] != order[c];
      EmptyLoopLeavesFree(p, order[c], order[x]);
      var w :| WayTo(Spec.Graph(p), order[x], {Flow.EXIT}, w) && order[c] !in w;
      assert order[x] in order;
      var q := WayIsPath(p, blocks, order, g, order[x], w);
      IndexUnique(order, x);
      assert c !in q;
    }
  }

  /** Every self loop is covered exactly when there is none. */
  lemma CoveredExactly(p: Flow.Code, blocks: Blocks, order: seq<nat>, g: Graph)
    requires Legal(p) && GraphOf(p, blocks, order, g)
    ensures LoopsCovered(g) <==> !HasEmptyLoop(p)
  {
    if HasEmptyLoop(p) {
      var x: nat :| EmptyLoopIn(p, x);
      NotCovered(p, blocks, order, g, x);
    } else {
      NoSelfEdge(p, blocks, order, g);
    }
  }

  lemma NotCovered(p: Flow.Code, blocks: Blocks, order: seq<nat>, g: Graph, x: nat)
    requires Legal(p) && GraphOf(p, blocks, order, g) && EmptyLoopIn(p, x)
    ensures !LoopsCovered(g)
  {
    EmptyLoopHasBlock(p, blocks, order, g, x);
    var c := IndexOf(order, x);
    EmptyLoopNotBack(p, blocks, order, g, c);
    SelfEdgeExactly(p, x);
    GraphValid(p, blocks, order, g);
    hide Legal, EmptyLoopIn, LoopsBack;
    assert g.Edge(c, c) && c < |g.succ|;
  }

  lemma NoSelfEdge(p: Flow.Code, blocks: Blocks, order: seq<nat>, g: Graph)
    requires Legal(p) && GraphOf(p, blocks, order, g) && !HasEmptyLoop(p)
    ensures LoopsCovered(g)
  {
    GraphValid(p, blocks, order, g);
    hide Legal, LoopsBack;
    forall c: nat | c < |g.succ|
      ensures !g.Edge(c, c)
    {
      if c < |order| {
        SelfEdgeExactly(p, order[c]);
        assert !EmptyLoopIn(p, order[c]);
      }
    }
  }

  lemma EmptyLoopHasBlock(p: Flow.Code, blocks: Blocks, order: seq<nat>, g: Graph, x: nat)
    requires Legal(p) && GraphOf(p, blocks, order, g) && EmptyLoopIn(p, x)
    ensures x in order
  {
    SelfEdgeExactly(p, x);
    assert (x, x) in EdgesOf(blocks);
  }

  /** FindControlDeps finds every control dependence of a program exactly when the program has no loop with an empty
      body and no post statement. */
  lemma CompleteExactly(p: Flow.Code, blocks: Blocks, order: seq<nat>, g: Graph)
    requires Legal(p) && GraphOf(p, blocks, order, g)
    ensures (forall n, c :: 0 <= n < |g.succ| && 0 <= c < |g.succ| ==>
      (Recorded(g, n, c) <==> ControlDependent(g, n, c)))
      <==> !HasEmptyLoop(p)
  {
    hide Recorded, ControlDependent, Legal, GraphOf, HasEmptyLoop, LoopsCovered;
    GraphValid(p, blocks, order, g);
    CompleteIff(g);
    CoveredExactly(p, blocks, order, g);
  }

  /** The smallest instance: in the graph of a function that is one empty loop, the loop's dependence on itself is
      missed. */
  lemma EmptyLoopMissed(blocks: Blocks, order: seq<nat>, g: Graph, x: nat)
    requires x !in {Flow.ENTRY, Flow.EXIT} && GraphOf(Flow.Loop(x, None, Flow.Skip), blocks, order, g)
    ensures x in order && ControlDependent(g, IndexOf(order, x), IndexOf(order, x)) &&
      !Recorded(g, IndexOf(order, x), IndexOf(order, x))
  {
    var p := Flow.Loop(x, None, Flow.Skip);
    assert Legal(p) && EmptyLoopIn(p, x);
    GraphValid(p, blocks, order, g);
    EmptyLoopHasBlock(p, blocks, order, g, x);
    var c := IndexOf(order, x);
    SelfEdgeExactly(p, x);
    EmptyLoopNotBack(p, blocks, order, g, c);
    MissedExactly(g, c, c);
  }
}
