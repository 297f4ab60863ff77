/** The state of an unfinished depth-first search, as one segment of preorder numbers after another. */
module DfsForest {
  import opened Graphs
  import opened Semidominators
  import opened Finite

  const NIL := -1

  /** Blocks 0..i-1 of the order are exactly the visited ones, each with its own number. */
  ghost predicate Numbering(n: nat, i: int, vis: seq<int>, pre: seq<int>, order: seq<int>) {
    && |vis| == |pre| == |order| == n && 0 <= i <= n
    && (forall x :: 0 <= x < n && vis[x] != NIL ==> 0 <= pre[x] < i && order[pre[x]] == x)
    && (forall k :: 0 <= k < i ==> 0 <= order[k] < n && vis[order[k]] != NIL && pre[order[k]] == k)
  }

  /** An unvisited block leaves room for one more number. */
  lemma Room(n: nat, i: int, vis: seq<int>, pre: seq<int>, order: seq<int>, v: nat)
    requires Numbering(n, i, vis, pre, order) && v < n && vis[v] == NIL
    ensures i < n
  {
    var taken := order[..i];
    assert forall a, b :: 0 <= a < b < i ==> order[a] != order[b];
    DistinctCount(taken);
    var free: set<int> := NatsBelow(n) - {v};
    SubsetSize(Elements(taken), free);
  }

  predicate Seg(d: Dfs, vis: seq<int>, lo: int, hi: int, x: int) {
    0 <= x < |vis| == |d.pre| && vis[x] != NIL && lo <= d.pre[x] < hi
  }

  /** A finished stretch of the search: every block numbered lo..hi-1 lies in the tree of some
      child of p, all its successors are visited, and intervals nest along tree parents. */
  ghost predicate Forest(g: Graph, d: Dfs, vis: seq<int>, p: int, lo: int, hi: int) {
    && Sized(g, d) && |vis| == |d.pre|
    && (forall x :: Seg(d, vis, lo, hi, x) ==> d.pre[x] < d.fin[x] <= hi)
    && (forall x, y :: Seg(d, vis, lo, hi, x) && 0 <= y < |vis| && g.Edge(x, y) ==>
      vis[y] != NIL && d.pre[y] < d.fin[x])
    && (forall x :: Seg(d, vis, lo, hi, x) ==> TreeParent(g, d, vis, p, lo, hi, x))
    && (forall u, w :: Seg(d, vis, lo, hi, u) && Seg(d, vis, lo, hi, w) && In(d, u, w) ==> Under(d, p, u, w))
  }

  predicate TreeParent(g: Graph, d: Dfs, vis: seq<int>, p: int, lo: int, hi: int, x: nat)
    requires Sized(g, d) && |vis| == |d.pre| && x < |vis|
  {
    var q := d.par[x];
    if q == p then
      p >= 0 ==> g.Edge(p, x)
    else
      Seg(d, vis, lo, hi, q) && g.Edge(q, x) && In(d, q, x) && d.pre[q] < d.pre[x]
  }

  predicate Under(d: Dfs, p: int, u: nat, w: nat)
    requires |d.pre| == |d.fin| == |d.par| && u < |d.pre| && w < |d.pre|
  {
    d.fin[w] <= d.fin[u] && (u != w ==> d.par[w] != p && 0 <= d.par[w] < |d.pre| && In(d, u, d.par[w]))
  }

  /** d' extends d: what was visited keeps its number, interval and parent. */
  ghost predicate Keeps(d: Dfs, vis: seq<int>, d': Dfs, vis': seq<int>) {
    && |d.pre| == |d.fin| == |d.par| == |vis| == |d'.pre| == |d'.fin| == |d'.par| == |vis'|
    && (forall x :: 0 <= x < |vis| && vis[x] != NIL ==>
          vis'[x] != NIL && d'.pre[x] == d.pre[x] && d'.fin[x] == d.fin[x] && d'.par[x] == d.par[x])
  }

  lemma KeepsTrans(a: Dfs, va: seq<int>, b: Dfs, vb: seq<int>, c: Dfs, vc: seq<int>)
    requires Keeps(a, va, b, vb) && Keeps(b, vb, c, vc)
    ensures Keeps(a, va, c, vc)
  {
  }

  /** Numbers below i belong to the blocks that had them before. */
  lemma OldNumbers(n: nat, i: int, vis: seq<int>, pre: seq<int>, order: seq<int>,
                   i': int, vis': seq<int>, pre': seq<int>, order': seq<int>, x: nat)
    requires Numbering(n, i, vis, pre, order) && Numbering(n, i', vis', pre', order')
    requires forall y :: 0 <= y < n && vis[y] != NIL ==> vis'[y] != NIL && pre'[y] == pre[y]
    requires x < n && vis'[x] != NIL && pre'[x] < i
    ensures vis[x] != NIL
  {
    var y := order[pre'[x]];
    assert pre'[y] == pre'[x];
    assert order'[pre'[y]] == y;
  }

  /** Two neighbouring stretches under the same parent form one. */
  lemma ForestJoin(g: Graph, d: Dfs, vis: seq<int>, p: int, lo: int, mid: int, hi: int)
    requires Forest(g, d, vis, p, lo, mid) && Forest(g, d, vis, p, mid, hi) && lo <= mid <= hi
    ensures Forest(g, d, vis, p, lo, hi)
  {
    forall x | Seg(d, vis, lo, hi, x)
      ensures d.pre[x] < d.fin[x] <= hi && TreeParent(g, d, vis, p, lo, hi, x)
    {
      assert Seg(d, vis, lo, mid, x) || Seg(d, vis, mid, hi, x);
    }
    forall x, y | Seg(d, vis, lo, hi, x) && 0 <= y < |vis| && g.Edge(x, y)
      ensures vis[y] != NIL && d.pre[y] < d.fin[x]
    {
      assert Seg(d, vis, lo, mid, x) || Seg(d, vis, mid, hi, x);
    }
    forall u, w | Seg(d, vis, lo, hi, u) && Seg(d, vis, lo, hi, w) && In(d, u, w)
      ensures Under(d, p, u, w)
    {
      assert Seg(d, vis, lo, mid, u) || Seg(d, vis, mid, hi, u);
      assert Seg(d, vis, lo, mid, w) || Seg(d, vis, mid, hi, w);
    }
  }

  /** A stretch survives a later part of the search. */
  lemma ForestKept(g: Graph, d: Dfs, vis: seq<int>, d': Dfs, vis': seq<int>, p: int, lo: int, hi: int)
    requires Forest(g, d, vis, p, lo, hi) && Keeps(d, vis, d', vis')
    requires forall x :: 0 <= x < |vis| && vis'[x] != NIL && d'.pre[x] < hi ==> vis[x] != NIL
    ensures Forest(g, d', vis', p, lo, hi)
  {
    forall x | Seg(d', vis', lo, hi, x)
      ensures Seg(d, vis, lo, hi, x) && d'.pre[x] < d'.fin[x] <= hi && TreeParent(g, d', vis', p, lo, hi, x)
    {
      assert Seg(d, vis, lo, hi, x);
      assert TreeParent(g, d, vis, p, lo, hi, x);
    }
    forall u, w | Seg(d', vis', lo, hi, u) && Seg(d', vis', lo, hi, w) && In(d', u, w)
      ensures Under(d', p, u, w)
    {
      assert Seg(d, vis, lo, hi, u) && Seg(d, vis, lo, hi, w) && Under(d, p, u, w);
      assert u != w ==> TreeParent(g, d, vis, p, lo, hi, w);
    }
  }

  /** One more child of v has been searched. */
  lemma Resume(g: Graph, v: nat, lo: int, d: Dfs, mid: int, vis: seq<int>, order: seq<int>, d1: Dfs,
               d': Dfs, hi: int, vis': seq<int>, order': seq<int>)
    requires Forest(g, d, vis, v, lo, mid) && Numbering(|g.succ|, mid, vis, d.pre, order)
    requires Forest(g, d', vis', v, mid, hi) && Numbering(|g.succ|, hi, vis', d'.pre, order')
    requires Keeps(d, vis, d1, vis) && Keeps(d1, vis, d', vis') && lo <= mid <= hi
    ensures Forest(g, d', vis', v, lo, hi) && Keeps(d, vis, d', vis')
  {
    KeepsTrans(d, vis, d1, vis, d', vis');
    forall x | 0 <= x < |vis| && vis'[x] != NIL && d'.pre[x] < mid
      ensures vis[x] != NIL
    {
      OldNumbers(|g.succ|, mid, vis, d.pre, order, hi, vis', d'.pre, order', x);
    }
    ForestKept(g, d, vis, d', vis', v, lo, mid);
    ForestJoin(g, d', vis', v, lo, mid, hi);
  }

  /** Block v, numbered lo, has had all its successors searched and its children end at hi. */
  ghost predicate Closing(g: Graph, d: Dfs, vis: seq<int>, v: nat, lo: int, hi: int) {
    && Forest(g, d, vis, v, lo + 1, hi) && lo < hi && v < |vis| && vis[v] != NIL && d.pre[v] == lo
    && (forall x :: 0 <= x < |vis| && vis[x] != NIL && d.pre[x] == lo ==> x == v)
    && (forall y: nat :: g.Edge(v, y) ==> y < |vis| && vis[y] != NIL && d.pre[y] < hi)
    && (d.par[v] == NIL || (0 <= d.par[v] < |vis| && g.Edge(d.par[v], v) && vis[d.par[v]] != NIL &&
      d.pre[d.par[v]] < lo))
  }

  lemma CloseOne(g: Graph, d: Dfs, vis: seq<int>, v: nat, lo: int, hi: int, x: int)
    requires Closing(g, d, vis, v, lo, hi) && Seg(d, vis, lo, hi, x)
    ensures x == v || Seg(d, vis, lo + 1, hi, x)
    ensures var c := d.(fin := d.fin[v := hi]);
            c.pre[x] < c.fin[x] <= hi && TreeParent(g, c, vis, d.par[v], lo, hi, x)
  {
    assert x == v || (Seg(d, vis, lo + 1, hi, x) && TreeParent(g, d, vis, v, lo + 1, hi, x));
  }

  lemma CloseTwo(g: Graph, d: Dfs, vis: seq<int>, v: nat, lo: int, hi: int, u: int, w: int)
    requires Closing(g, d, vis, v, lo, hi) && Seg(d, vis, lo, hi, u) && Seg(d, vis, lo, hi, w)
    requires In(d.(fin := d.fin[v := hi]), u, w)
    ensures Under(d.(fin := d.fin[v := hi]), d.par[v], u, w)
  {
    CloseOne(g, d, vis, v, lo, hi, u);
    CloseOne(g, d, vis, v, lo, hi, w);
    if u != v && w != v {
      assert Under(d, v, u, w) && TreeParent(g, d, vis, v, lo + 1, hi, w);
    }
  }

  /** Closing block v over the stretch of its children. */
  lemma ForestClose(g: Graph, d: Dfs, vis: seq<int>, v: nat, lo: int, hi: int)
    requires Closing(g, d, vis, v, lo, hi)
    ensures Forest(g, d.(fin := d.fin[v := hi]), vis, d.par[v], lo, hi)
  {
    var c := d.(fin := d.fin[v := hi]);
    forall x | Seg(c, vis, lo, hi, x)
      ensures x == v || Seg(d, vis, lo + 1, hi, x)
      ensures c.pre[x] < c.fin[x] <= hi && TreeParent(g, c, vis, d.par[v], lo, hi, x)
    {
      CloseOne(g, d, vis, v, lo, hi, x);
    }
    forall u, w | Seg(c, vis, lo, hi, u) && Seg(c, vis, lo, hi, w) && In(c, u, w)
      ensures Under(c, d.par[v], u, w)
    {
      CloseTwo(g, d, vis, v, lo, hi, u, w);
    }
  }

  lemma CloseHere(g: Graph, d: Dfs, vis: seq<int>, order: seq<int>, v: nat, lo: int, hi: int)
    requires Forest(g, d, vis, v, lo + 1, hi) && Numbering(|g.succ|, hi, vis, d.pre, order) && lo < hi
    requires v < |vis| && vis[v] != NIL && d.pre[v] == lo
    requires forall y: nat :: g.Edge(v, y) ==> y < |vis| && vis[y] != NIL
    requires d.par[v] == NIL || (0 <= d.par[v] < |vis| && g.Edge(d.par[v], v) && vis[d.par[v]] != NIL &&
      d.pre[d.par[v]] < lo)
    ensures Forest(g, d.(fin := d.fin[v := hi]), vis, d.par[v], lo, hi)
  {
    assert Closing(g, d, vis, v, lo, hi);
    ForestClose(g, d, vis, v, lo, hi);
  }
}
