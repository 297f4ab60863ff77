/** Semidominators over a depth-first spanning tree, and the theorems that let the
    Lengauer-Tarjan algorithm read immediate dominators off them. */
module Semidominators {
  import opened Graphs

  /** A finished depth-first search: preorder number, end of the subtree's interval of
      preorder numbers, and tree parent (-1 for the root). */
  datatype Dfs = Dfs(pre: seq<int>, fin: seq<int>, par: seq<int>)

  /** u is an ancestor of v in the spanning tree, or v itself. */
  predicate In(d: Dfs, u: nat, v: nat)
    requires u < |d.pre| == |d.fin| && v < |d.pre|
  {
    d.pre[u] <= d.pre[v] < d.fin[u]
  }

  ghost predicate Sized(g: Graph, d: Dfs) {
    |d.pre| == |d.fin| == |d.par| == |g.succ| > 0
  }

  /** What the search leaves behind: distinct numbers, nested intervals, tree edges, and no
      edge that jumps forward out of a subtree. */
  ghost predicate DfsOk(g: Graph, d: Dfs) {
    && g.Valid() && Sized(g, d) && Nested(d) && NoEscape(g, d)
    && Distinct(d)
    && d.pre[0] == 0
    && (forall v :: 0 <= v < |d.pre| ==> In(d, 0, v))
    && (forall v :: 0 < v < |d.pre| ==> ParentOk(g, d, v))
    && (forall u, v :: 0 <= u < |d.pre| && 0 < v < |d.pre| && u != v && In(d, u, v) ==> AboveParent(d, u, v))
  }

  ghost predicate Distinct(d: Dfs) {
    forall u, v :: 0 <= u < |d.pre| && 0 <= v < |d.pre| && d.pre[u] == d.pre[v] ==> u == v
  }

  ghost predicate Nested(d: Dfs) {
    && |d.pre| == |d.fin|
    && (forall v :: 0 <= v < |d.pre| ==> 0 <= d.pre[v] < d.fin[v])
    && (forall u, v :: 0 <= u < |d.pre| && 0 <= v < |d.pre| && In(d, u, v) ==> d.fin[v] <= d.fin[u])
  }

  ghost predicate NoEscape(g: Graph, d: Dfs) {
    && |d.pre| == |d.fin|
    && (forall u, v :: 0 <= u < |d.pre| && 0 <= v < |d.pre| && g.Edge(u, v) ==> d.pre[v] < d.fin[u])
  }

  predicate ParentOk(g: Graph, d: Dfs, v: nat)
    requires Sized(g, d) && v < |d.pre|
  {
    && 0 <= d.par[v] < |d.pre|
    && g.Edge(d.par[v], v)
    && In(d, d.par[v], v)
    && d.pre[d.par[v]] < d.pre[v]
  }

  predicate AboveParent(d: Dfs, u: nat, v: nat)
    requires u < |d.pre| == |d.fin| == |d.par| && v < |d.pre|
  {
    0 <= d.par[v] < |d.pre| && In(d, u, d.par[v])
  }

  lemma InTrans(d: Dfs, a: nat, b: nat, c: nat)
    requires Nested(d) && a < |d.pre| && b < |d.pre| && c < |d.pre|
    requires In(d, a, b) && In(d, b, c)
    ensures In(d, a, c)
  {
  }

  /** Two ancestors of the same block are comparable. */
  lemma InComparable(d: Dfs, a: nat, b: nat, c: nat)
    requires Nested(d) && a < |d.pre| && b < |d.pre| && c < |d.pre|
    requires In(d, a, c) && In(d, b, c) && d.pre[a] <= d.pre[b]
    ensures In(d, a, b)
  {
  }

  /** The tree path between an ancestor and a descendant. */
  lemma {:induction false} TreePath(g: Graph, d: Dfs, a: nat, b: nat) returns (p: seq<nat>)
    requires DfsOk(g, d) && a < |d.pre| && b < |d.pre| && In(d, a, b)
    ensures PathFromTo(g, p, a, b)
    ensures forall x :: x in p ==> x < |d.pre| && In(d, a, x) && In(d, x, b)
    decreases d.pre[b]
  {
    if a == b {
      p := [a];
    } else {
      assert b != 0;
      assert ParentOk(g, d, b) && AboveParent(d, a, b);
      var c := d.par[b];
      var q := TreePath(g, d, a, c);
      ExtendPath(g, q, a, c, b);
      p := q + [b];
      forall x | x in p
        ensures x < |d.pre| && In(d, a, x) && In(d, x, b)
      {
        if x != b {
          assert x in q;
          InTrans(d, x, c, b);
        }
      }
    }
  }

  /** A path that does not go back in preorder passes through a common ancestor of its ends. */
  lemma {:induction false} CommonAncestor(g: Graph, d: Dfs, p: seq<nat>) returns (k: nat)
    requires Sized(g, d) && Nested(d) && NoEscape(g, d)
    requires IsPath(g, p) && d.pre[p[0]] <= d.pre[p[|p| - 1]]
    ensures k < |p| && In(d, p[k], p[0]) && In(d, p[k], p[|p| - 1])
    decreases |p|
  {
    var v, w := p[0], p[|p| - 1];
    if In(d, v, w) {
      k := 0;
    } else {
      assert |p| > 1;
      var q := p[1..];
      assert g.Edge(p[0], p[1]);
      assert IsPath(g, q);
      var j := CommonAncestor(g, d, q);
      k := j + 1;
      assert p[k] == q[j] && q[|q| - 1] == w;
      AncestorBefore(d, v, p[1], w, p[k]);
    }
  }

  /** An ancestor of p and w, with v before w and p inside v's interval, is an ancestor of v. */
  lemma AncestorBefore(d: Dfs, v: nat, p: nat, w: nat, z: nat)
    requires Nested(d) && v < |d.pre| && p < |d.pre| && w < |d.pre| && z < |d.pre|
    requires In(d, z, p) && In(d, z, w) && d.pre[v] <= d.pre[w] && !In(d, v, w) && d.pre[p] < d.fin[v]
    ensures In(d, z, v)
  {
    if d.pre[v] < d.pre[z] {
      assert In(d, v, z);
    }
  }

  /** A path into w whose inner blocks all come after w in preorder. */
  ghost predicate SemiPath(g: Graph, d: Dfs, p: seq<nat>, s: nat, w: nat) {
    && Sized(g, d) && PathFromTo(g, p, s, w) && |p| >= 2
    && (forall k :: 0 < k < |p| - 1 ==> d.pre[p[k]] > d.pre[w])
  }

  ghost predicate HasSemiPath(g: Graph, d: Dfs, s: nat, w: nat) {
    exists p :: SemiPath(g, d, p, s, w)
  }

  /** s is the semidominator of w: the earliest start of such a path. */
  ghost predicate IsSdom(g: Graph, d: Dfs, w: nat, s: nat) {
    && Sized(g, d) && w < |d.pre| && s < |d.pre|
    && HasSemiPath(g, d, s, w)
    && (forall x :: 0 <= x < |d.pre| && HasSemiPath(g, d, x, w) ==> d.pre[s] <= d.pre[x])
  }

  /** i is the immediate dominator of w: its latest proper dominator. */
  ghost predicate IsIdom(g: Graph, d: Dfs, w: nat, i: nat) {
    && Sized(g, d) && w < |d.pre| && i < |d.pre| && i != w && Dom(g, i, w)
    && (forall e :: 0 <= e < |d.pre| && e != w && Dom(g, e, w) ==> d.pre[e] <= d.pre[i])
  }

  lemma DomIsAncestor(g: Graph, d: Dfs, e: nat, w: nat)
    requires DfsOk(g, d) && w < |d.pre| && Dom(g, e, w)
    ensures e < |d.pre| && In(d, e, w)
  {
    var p := TreePath(g, d, 0, w);
  }

  lemma SdomIsAncestor(g: Graph, d: Dfs, w: nat, s: nat)
    requires DfsOk(g, d) && 0 < w < |d.pre| && IsSdom(g, d, w, s)
    ensures d.pre[s] < d.pre[w] && In(d, s, w)
  {
    SdomBefore(g, d, w, s);
    hide DfsOk;
    var p :| SemiPath(g, d, p, s, w);
    hide IsSdom, Nested, NoEscape;
    var k := CommonAncestor(g, d, p);
    assert k == 0;
  }

  lemma SdomBefore(g: Graph, d: Dfs, w: nat, s: nat)
    requires DfsOk(g, d) && 0 < w < |d.pre| && IsSdom(g, d, w, s)
    ensures d.pre[s] < d.pre[w] && Nested(d) && NoEscape(g, d)
  {
    assert ParentOk(g, d, w);
    hide DfsOk, Nested, NoEscape;
    var c := d.par[w];
    assert SemiPath(g, d, [c, w], c, w);
  }

  /** Every proper dominator of w lies at or above the semidominator of w. */
  lemma DomAboveSdom(g: Graph, d: Dfs, e: nat, w: nat, s: nat)
    requires DfsOk(g, d) && 0 < w < |d.pre| && IsSdom(g, d, w, s)
    requires Dom(g, e, w) && e != w
    ensures e < |d.pre| && In(d, e, s)
  {
    DomIsAncestor(g, d, e, w);
    var p :| SemiPath(g, d, p, s, w);
    var q := TreePath(g, d, 0, s);
    JoinPaths(g, q, p, 0, s, w);
    assert e in q || e in p;
    if e in p {
      var k :| 0 <= k < |p| && p[k] == e;
      assert k == 0;
    }
  }

  /** A root path that misses an ancestor a of w jumps over a: it holds a semidominator path
      from above a to some y strictly below a on the way to w. */
  lemma JumpOver(g: Graph, d: Dfs, P: seq<nat>, a: nat, w: nat) returns (x: nat, y: nat)
    requires DfsOk(g, d) && w < |d.pre| && a < |d.pre| && In(d, a, w)
    requires PathFromTo(g, P, 0, w) && a !in P
    ensures x < |d.pre| && y < |d.pre| && d.pre[x] < d.pre[a]
    ensures y != a && In(d, a, y) && In(d, y, w) && HasSemiPath(g, d, x, y)
  {
    var ix := LastBelow(d, P, d.pre[a]);
    var iy := FirstBetween(g, d, P, ix, a, w);
    x, y := P[ix], P[iy];
    JumpPath(g, d, P, ix, iy, a, w);
  }

  lemma JumpPath(g: Graph, d: Dfs, P: seq<nat>, ix: nat, iy: nat, a: nat, w: nat)
    requires Sized(g, d) && Nested(d) && NoEscape(g, d) && Distinct(d)
    requires w < |d.pre| && a < |d.pre| && IsPath(g, P)
    requires ix < iy < |P|
    requires forall i :: ix < i < |P| ==> d.pre[P[i]] >= d.pre[a]
    requires In(d, a, P[iy]) && In(d, P[iy], w)
    requires forall i :: ix < i < iy ==> !(In(d, a, P[i]) && In(d, P[i], w))
    ensures HasSemiPath(g, d, P[ix], P[iy])
  {
    var q := P[ix..iy + 1];
    SubPath(g, P, ix, iy);
    forall k | 0 < k < |q| - 1
      ensures d.pre[q[k]] > d.pre[P[iy]]
    {
      assert q[k] == P[ix + k];
      JumpInner(g, d, P, ix, iy, ix + k, a, w);
    }
    assert SemiPath(g, d, q, P[ix], P[iy]);
  }

  lemma JumpInner(g: Graph, d: Dfs, P: seq<nat>, ix: nat, iy: nat, k: nat, a: nat, w: nat)
    requires Sized(g, d) && Nested(d) && NoEscape(g, d) && Distinct(d)
    requires w < |d.pre| && a < |d.pre| && IsPath(g, P)
    requires ix < k < iy < |P|
    requires forall i :: ix < i < |P| ==> d.pre[P[i]] >= d.pre[a]
    requires In(d, a, P[iy]) && In(d, P[iy], w)
    requires forall i :: ix < i < iy ==> !(In(d, a, P[i]) && In(d, P[i], w))
    ensures d.pre[P[k]] > d.pre[P[iy]]
  {
    if d.pre[P[k]] <= d.pre[P[iy]] {
      var q := P[k..iy + 1];
      SubPath(g, P, k, iy);
      var m := CommonAncestor(g, d, q);
      var z := P[k + m];
      assert q[m] == z;
      InTrans(d, z, P[iy], w);
      InComparable(d, a, z, P[iy]);
    }
  }

  lemma {:induction false} LastBelow(d: Dfs, P: seq<nat>, bound: int) returns (ix: nat)
    requires |P| > 0 && (forall i :: 0 <= i < |P| ==> P[i] < |d.pre|) && d.pre[P[0]] < bound
    ensures ix < |P| && d.pre[P[ix]] < bound
    ensures forall i :: ix < i < |P| ==> d.pre[P[i]] >= bound
  {
    ix := |P| - 1;
    while d.pre[P[ix]] >= bound
      invariant 0 <= ix < |P|
      invariant forall i :: ix < i < |P| ==> d.pre[P[i]] >= bound
      decreases ix
    {
      ix := ix - 1;
    }
  }

  lemma FirstBetween(g: Graph, d: Dfs, P: seq<nat>, ix: nat, a: nat, w: nat) returns (iy: nat)
    requires Sized(g, d) && a < |d.pre| && w < |d.pre| && IsPath(g, P) && ix < |P| - 1
    requires P[|P| - 1] == w && In(d, a, w) && d.pre[w] < d.fin[w]
    ensures ix < iy < |P| && In(d, a, P[iy]) && In(d, P[iy], w)
    ensures forall i :: ix < i < iy ==> !(In(d, a, P[i]) && In(d, P[i], w))
  {
    iy := ix + 1;
    while !(In(d, a, P[iy]) && In(d, P[iy], w))
      invariant ix < iy < |P|
      invariant forall i :: ix < i < iy ==> !(In(d, a, P[i]) && In(d, P[i], w))
      decreases |P| - iy
    {
      iy := iy + 1;
    }
  }

  /** When no block between s and w has an earlier semidominator, s is the immediate dominator. */
  lemma SdomIsIdom(g: Graph, d: Dfs, w: nat, s: nat)
    requires DfsOk(g, d) && 0 < w < |d.pre| && IsSdom(g, d, w, s)
    requires forall u, x ::
      0 <= u < |d.pre| && 0 <= x < |d.pre| && In(d, s, u) && u != s && In(d, u, w) && HasSemiPath(g, d, x, u)
      ==> d.pre[s] <= d.pre[x]
    ensures IsIdom(g, d, w, s)
  {
    SdomIsAncestor(g, d, w, s);
    forall P | PathFromTo(g, P, 0, w)
      ensures s in P
    {
      if s !in P {
        var x, y := JumpOver(g, d, P, s, w);
        assert false;
      }
    }
    forall e | 0 <= e < |d.pre| && e != w && Dom(g, e, w)
      ensures d.pre[e] <= d.pre[s]
    {
      DomAboveSdom(g, d, e, w, s);
    }
  }

  /** u is the block strictly between s and w with the earliest semidominator su. */
  ghost predicate Relative(g: Graph, d: Dfs, w: nat, s: nat, u: nat, su: nat) {
    && Sized(g, d) && w < |d.pre| && s < |d.pre| && u < |d.pre|
    && In(d, s, u) && u != s && In(d, u, w) && IsSdom(g, d, u, su) && d.pre[su] < d.pre[s]
    && (forall v, x ::
          0 <= v < |d.pre| && 0 <= x < |d.pre| && In(d, s, v) && v != s && In(d, v, w) && HasSemiPath(g, d, x, v)
          ==> d.pre[su] <= d.pre[x])
  }

  /** A proper dominator of w above its ancestor u dominates u as well. */
  lemma DomOfAncestor(g: Graph, d: Dfs, e: nat, u: nat, w: nat)
    requires DfsOk(g, d) && e < |d.pre| && u < |d.pre| && w < |d.pre|
    requires Dom(g, e, w) && In(d, u, w) && d.pre[e] < d.pre[u]
    ensures Dom(g, e, u)
  {
    forall R | PathFromTo(g, R, 0, u)
      ensures e in R
    {
      var t := TreePath(g, d, u, w);
      JoinPaths(g, R, t, 0, u, w);
      assert e in Join(R, t);
    }
  }

  /** Otherwise w shares its immediate dominator with u. */
  lemma IdomOfRelative(g: Graph, d: Dfs, w: nat, s: nat, u: nat, su: nat, i: nat)
    requires DfsOk(g, d) && 0 < w < |d.pre| && IsSdom(g, d, w, s) && Relative(g, d, w, s, u, su)
    requires IsIdom(g, d, u, i)
    ensures IsIdom(g, d, w, i)
  {
    SdomIsAncestor(g, d, w, s);
    DomIsAncestor(g, d, i, u);
    InTrans(d, i, u, w);
    assert u != 0;
    DomAboveSdom(g, d, i, u, su);
    forall P | PathFromTo(g, P, 0, w)
      ensures i in P
    {
      if i !in P {
        NoJump(g, d, P, w, s, u, su, i);
      }
    }
    forall e | 0 <= e < |d.pre| && e != w && Dom(g, e, w)
      ensures d.pre[e] <= d.pre[i]
    {
      DomAboveSdom(g, d, e, w, s);
      DomOfAncestor(g, d, e, u, w);
    }
  }

  lemma NoJump(g: Graph, d: Dfs, P: seq<nat>, w: nat, s: nat, u: nat, su: nat, i: nat)
    requires DfsOk(g, d) && 0 < w < |d.pre| && Relative(g, d, w, s, u, su) && In(d, s, w)
    requires i < |d.pre| && i != u && Dom(g, i, u) && In(d, i, w) && In(d, i, su)
    requires PathFromTo(g, P, 0, w)
    ensures i in P
  {
    if i !in P {
      var x, y := JumpOver(g, d, P, i, w);
      assert !(In(d, s, y) && y != s);
      if d.pre[y] <= d.pre[s] {
        InComparable(d, y, s, w);
      } else {
        InComparable(d, s, y, w);
      }
      InTrans(d, y, s, u);
      Bypass(g, d, x, y, u, i);
    }
  }

  /** Down the tree to x, across to y, down the tree to u: a path around i. */
  lemma Bypass(g: Graph, d: Dfs, x: nat, y: nat, u: nat, i: nat)
    requires DfsOk(g, d) && x < |d.pre| && y < |d.pre| && u < |d.pre| && i < |d.pre|
    requires d.pre[x] < d.pre[i] && HasSemiPath(g, d, x, y) && In(d, y, u)
    requires d.pre[i] < d.pre[y]
    ensures !Dom(g, i, u)
  {
    var q :| SemiPath(g, d, q, x, y);
    var a := TreePath(g, d, 0, x);
    var b := TreePath(g, d, y, u);
    JoinPaths(g, a, q, 0, x, y);
    JoinPaths(g, Join(a, q), b, 0, y, u);
    assert i !in q;
    assert i !in Join(Join(a, q), b);
  }

  /** One way to make a semidominator path: from the semidominator of a later block u, down
      the tree to a predecessor v, and across the edge to w. */
  lemma SemiExtend(g: Graph, d: Dfs, s: nat, u: nat, v: nat, w: nat)
    requires DfsOk(g, d) && u < |d.pre| && v < |d.pre| && w < |d.pre|
    requires HasSemiPath(g, d, s, u) && d.pre[u] > d.pre[w] && In(d, u, v) && g.Edge(v, w)
    ensures HasSemiPath(g, d, s, w)
  {
    var q :| SemiPath(g, d, q, s, u);
    var t := TreePath(g, d, u, v);
    JoinPaths(g, q, t, s, u, v);
    ExtendPath(g, Join(q, t), s, v, w);
    assert forall x :: x in t ==> d.pre[x] > d.pre[w];
    SemiConcat(g, d, q, t, s, u, w);
  }

  lemma SemiConcat(g: Graph, d: Dfs, q: seq<nat>, t: seq<nat>, s: nat, u: nat, w: nat)
    requires Sized(g, d) && u < |d.pre| && w < |d.pre| && SemiPath(g, d, q, s, u) && d.pre[u] > d.pre[w]
    requires |t| > 0 && (forall x :: x in t ==> x < |d.pre| && d.pre[x] > d.pre[w])
    requires PathFromTo(g, Join(q, t) + [w], s, w)
    ensures HasSemiPath(g, d, s, w)
  {
    var p := Join(q, t) + [w];
    forall k | 0 < k < |p| - 1
      ensures d.pre[p[k]] > d.pre[w]
    {
      if k >= |q| {
        assert p[k] == t[k - |q| + 1];
      } else {
        assert p[k] == q[k];
      }
    }
    assert SemiPath(g, d, p, s, w);
  }

  /** And every semidominator path is an edge or one of those. */
  lemma SemiSplit(g: Graph, d: Dfs, s: nat, w: nat) returns (u: nat, v: nat)
    requires DfsOk(g, d) && w < |d.pre| && HasSemiPath(g, d, s, w)
    ensures v < |d.pre| && g.Edge(v, w)
    ensures v == s || (u < |d.pre| && d.pre[u] > d.pre[w] && In(d, u, v) && HasSemiPath(g, d, s, u))
  {
    var p :| SemiPath(g, d, p, s, w);
    v := p[|p| - 2];
    u := v;
    assert g.Edge(p[|p| - 2], p[|p| - 1]);
    if |p| > 2 {
      var j := FirstAbove(g, d, p, v);
      u := p[j];
      SemiPrefix(g, d, p, j, v);
    }
  }

  lemma SemiPrefix(g: Graph, d: Dfs, p: seq<nat>, j: nat, v: nat)
    requires Sized(g, d) && Nested(d) && NoEscape(g, d) && Distinct(d)
    requires IsPath(g, p) && 0 < j < |p| && v < |d.pre| && In(d, p[j], v)
    requires forall i :: 0 < i < j ==> !In(d, p[i], v)
    ensures HasSemiPath(g, d, p[0], p[j])
  {
    var q := p[0..j + 1];
    SubPath(g, p, 0, j);
    forall k | 0 < k < |q| - 1
      ensures d.pre[q[k]] > d.pre[p[j]]
    {
      if d.pre[p[k]] <= d.pre[p[j]] {
        SubPath(g, p, k, j);
        var m := CommonAncestor(g, d, p[k..j + 1]);
        assert p[k..j + 1][m] == p[k + m];
        InTrans(d, p[k + m], p[j], v);
      }
    }
    assert SemiPath(g, d, q, p[0], p[j]);
  }

  lemma FirstAbove(g: Graph, d: Dfs, p: seq<nat>, v: nat) returns (j: nat)
    requires Sized(g, d) && IsPath(g, p) && |p| > 2 && p[|p| - 2] == v && d.pre[v] < d.fin[v]
    ensures 0 < j < |p| - 1 && In(d, p[j], v)
    ensures forall i :: 0 < i < j ==> !In(d, p[i], v)
  {
    j := 1;
    while !In(d, p[j], v)
      invariant 0 < j < |p| - 1
      invariant forall i :: 0 < i < j ==> !In(d, p[i], v)
      decreases |p| - j
    {
      j := j + 1;
    }
  }

  /** The dominators of c are c and the dominators of its immediate dominator. */
  lemma DomStep(g: Graph, d: Dfs, b: nat, c: nat, i: nat)
    requires DfsOk(g, d) && b < |d.pre| && 0 < c < |d.pre| && IsIdom(g, d, c, i)
    ensures Dom(g, b, c) <==> b == c || Dom(g, b, i)
  {
    if Dom(g, b, c) && b != c {
      DomIsAncestor(g, d, i, c);
      if b == i {
        assert Dom(g, b, i);
      } else {
        DomOfAncestor(g, d, b, i, c);
      }
    }
    if Dom(g, b, i) {
      DomTransitive(g, b, i, c);
    }
    if b == c {
      assert Dom(g, b, c);
    }
  }

  lemma DomOfRoot(g: Graph, d: Dfs, b: nat)
    requires DfsOk(g, d)
    ensures Dom(g, b, 0) <==> b == 0
  {
    assert PathFromTo(g, [0], 0, 0);
  }
}
