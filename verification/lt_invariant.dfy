/** What the main loop of the Lengauer-Tarjan algorithm keeps, stated on the values of its arrays. */
module LtInvariant {
  import opened Graphs
  import opened Semidominators
  import opened DfsForest
  import opened Finite

  /** A search from the root visits every reachable block and leaves a spanning tree. */
  lemma SearchCovers(g: Graph, d: Dfs, vis: seq<int>, order: seq<int>, next: int)
    requires g.Valid() && AllReachable(g) && Numbering(|g.succ|, next, vis, d.pre, order)
    requires Forest(g, d, vis, NIL, 0, next) && vis[0] != NIL && d.pre[0] == 0 && d.fin[0] == next
    ensures next == |g.succ| && (forall x :: 0 <= x < |vis| ==> vis[x] != NIL) && DfsOk(g, d)
  {
    forall x | 0 <= x < |vis|
      ensures vis[x] != NIL && Seg(d, vis, 0, next, x)
    {
      assert Reachable(g, x);
      var p :| PathFromTo(g, p, 0, x);
      PathVisited(g, d, vis, order, next, p, |p| - 1);
    }
    AllNumbered(d.pre, order, next);
    TreeOk(g, d, vis, next);
  }

  lemma {:induction false} PathVisited(g: Graph, d: Dfs, vis: seq<int>, order: seq<int>, next: int, p: seq<nat>, k: nat)
    requires Numbering(|g.succ|, next, vis, d.pre, order) && Forest(g, d, vis, NIL, 0, next)
    requires IsPath(g, p) && k < |p| && vis[p[0]] != NIL
    ensures vis[p[k]] != NIL
  {
    if k > 0 {
      PathVisited(g, d, vis, order, next, p, k - 1);
      assert g.Edge(p[k - 1], p[k]);
      assert Seg(d, vis, 0, next, p[k - 1]);
    }
  }

  lemma AllNumbered(pre: seq<int>, order: seq<int>, next: nat)
    requires next <= |pre| == |order|
    requires forall x :: 0 <= x < |pre| ==> 0 <= pre[x] < next && order[pre[x]] == x
    ensures next == |pre|
  {
    assert forall a, b :: 0 <= a < b < |pre| ==> pre[a] != pre[b];
    DistinctCount(pre);
    var all: set<int> := NatsBelow(next);
    SubsetSize(Elements(pre), all);
  }

  lemma TreeOk(g: Graph, d: Dfs, vis: seq<int>, n: int)
    requires g.Valid() && Forest(g, d, vis, NIL, 0, n)
    requires forall x :: 0 <= x < |vis| ==> Seg(d, vis, 0, n, x)
    requires Distinct(d) && d.pre[0] == 0 && d.fin[0] == n
    ensures DfsOk(g, d)
  {
    assert Nested(d) by {
      forall u, v | 0 <= u < |d.pre| && 0 <= v < |d.pre| && In(d, u, v)
        ensures d.fin[v] <= d.fin[u]
      {
        assert Under(d, NIL, u, v);
      }
    }
    forall v | 0 < v < |d.pre|
      ensures ParentOk(g, d, v)
    {
      assert In(d, 0, v) && Under(d, NIL, 0, v) && TreeParent(g, d, vis, NIL, 0, n, v);
    }
    forall u, v | 0 <= u < |d.pre| && 0 < v < |d.pre| && u != v && In(d, u, v)
      ensures AboveParent(d, u, v)
    {
      assert Under(d, NIL, u, v);
    }
  }

  /** Blocks numbered above i have their semidominator and a link to their parent; the others are untouched. */
  ghost predicate Linked(g: Graph, d: Dfs, i: int, sd: seq<int>, anc: seq<int>) {
    && Sized(g, d) && |sd| == |anc| == |d.pre|
    && (forall w :: 0 <= w < |sd| && d.pre[w] > i ==> 0 <= sd[w] < |sd| && IsSdom(g, d, w, sd[w]))
    && (forall w :: 0 <= w < |sd| && d.pre[w] > i ==> anc[w] == d.par[w])
    && (forall w :: 0 <= w < |sd| && d.pre[w] <= i ==> anc[w] == NIL)
  }

  /** u carries the least semidominator among the linked ancestors of v. */
  ghost predicate Least(d: Dfs, i: int, sd: seq<int>, v: nat, u: nat)
    requires |d.pre| == |d.fin| == |sd| && v < |sd| && u < |sd|
    requires forall x :: 0 <= x < |sd| && d.pre[x] > i ==> 0 <= sd[x] < |sd|
  {
    && In(d, u, v) && d.pre[u] > i
    && (forall x :: 0 <= x < |sd| && In(d, x, v) && d.pre[x] > i ==> d.pre[sd[u]] <= d.pre[sd[x]])
  }

  /** Going one link up from x leaves no ancestor of v between. */
  lemma NextAncestor(g: Graph, d: Dfs, v: nat, x: nat, y: nat)
    requires DfsOk(g, d) && v < |d.pre| && 0 < x < |d.pre| && y < |d.pre|
    requires In(d, x, v) && In(d, y, v) && 0 <= d.par[x] < |d.pre| && d.pre[y] > d.pre[d.par[x]]
    ensures y == x || d.pre[y] > d.pre[x]
  {
    if d.pre[y] <= d.pre[x] {
      InComparable(d, y, x, v);
    }
    assert y != x && In(d, y, x) ==> AboveParent(d, y, x);
  }

  /** Only the blocks numbered above i are linked. */
  lemma LinkedOrNot(g: Graph, d: Dfs, i: int, sd: seq<int>, anc: seq<int>, x: nat)
    requires DfsOk(g, d) && Linked(g, d, i, sd, anc) && i >= 0 && x < |d.pre|
    ensures In(d, x, x)
    ensures anc[x] == NIL <==> d.pre[x] <= i
  {
    assert d.pre[x] > i ==> 0 < x && ParentOk(g, d, x);
  }

  /** Following the link of x, an ancestor of v. */
  lemma FollowLink(g: Graph, d: Dfs, i: int, sd: seq<int>, anc: seq<int>, v: nat, x: nat)
    requires DfsOk(g, d) && Linked(g, d, i, sd, anc) && i >= 0 && v < |d.pre| && x < |d.pre| && In(d, x, v) &&
      anc[x] != NIL
    ensures 0 <= anc[x] < |d.pre| && 0 <= d.pre[anc[x]] < d.pre[x] && In(d, anc[x], v) && d.pre[x] > i
    ensures forall y :: 0 <= y < |d.pre| && In(d, y, v) && d.pre[y] > d.pre[anc[x]] ==> y == x || d.pre[y] > d.pre[x]
  {
    assert 0 < x && ParentOk(g, d, x) && anc[x] == d.par[x];
    InTrans(d, d.par[x], x, v);
    forall y | 0 <= y < |d.pre| && In(d, y, v) && d.pre[y] > d.pre[anc[x]]
      ensures y == x || d.pre[y] > d.pre[x]
    {
      NextAncestor(g, d, v, x, y);
    }
  }

  /** A predecessor v of w, the block numbered i, has been taken into account in s. */
  ghost predicate Covers(d: Dfs, i: int, sd: seq<int>, w: nat, v: nat, s: nat)
    requires |d.pre| == |d.fin| == |sd| && v < |sd| && s < |sd|
    requires forall x :: 0 <= x < |sd| && d.pre[x] > i ==> 0 <= sd[x] < |sd|
  {
    && (d.pre[v] <= i && v != w ==> d.pre[s] <= d.pre[v])
    && (forall u :: 0 <= u < |sd| && In(d, u, v) && d.pre[u] > i ==> d.pre[s] <= d.pre[sd[u]])
  }

  lemma ParentCandidate(g: Graph, d: Dfs, i: int, sd: seq<int>, anc: seq<int>, w: nat)
    requires DfsOk(g, d) && Linked(g, d, i, sd, anc) && 0 < w < |d.pre|
    ensures 0 <= d.par[w] < |d.pre| && d.pre[d.par[w]] < d.pre[w] && HasSemiPath(g, d, d.par[w], w)
    ensures CoversFirst(g, d, i, sd, w, 0, d.par[w])
  {
    assert ParentOk(g, d, w);
    assert SemiPath(g, d, [d.par[w], w], d.par[w], w);
  }

  /** Changing the semidominator of an unlinked block does not matter to the links. */
  lemma LinkedFor(g: Graph, d: Dfs, i: int, sd: seq<int>, cur: seq<int>, anc: seq<int>, w: nat)
    requires Linked(g, d, i, sd, anc) && w < |d.pre| && d.pre[w] <= i && |cur| == |sd|
    requires forall x :: 0 <= x < |sd| && x != w ==> cur[x] == sd[x]
    ensures Linked(g, d, i, cur, anc)
  {
  }

  /** The first k predecessors of w have been taken into account. */
  ghost predicate CoversFirst(g: Graph, d: Dfs, i: int, sd: seq<int>, w: nat, k: nat, s: int) {
    && |d.pre| == |d.fin| == |sd| == |g.succ| && w < |g.pred| && k <= |g.pred[w]| && 0 <= s < |sd|
    && (forall x :: 0 <= x < |sd| && d.pre[x] > i ==> 0 <= sd[x] < |sd|)
    && (forall m :: 0 <= m < k ==> g.pred[w][m] < |sd| && Covers(d, i, sd, w, g.pred[w][m], s))
  }

  /** The better of the present candidate s and the one that EVAL finds behind the predecessor v. */
  function Better(d: Dfs, cur: seq<int>, w: nat, u: nat): int
    requires w < |cur| == |d.pre| && u < |cur| && 0 <= cur[w] < |cur| && 0 <= cur[u] < |cur|
  {
    if d.pre[cur[u]] < d.pre[cur[w]] then cur[u] else cur[w]
  }

  lemma Improve(g: Graph, d: Dfs, i: int, sd: seq<int>, anc: seq<int>, cur: seq<int>, w: nat, k: nat, v: nat, u: nat)
    requires |g.pred| == |g.succ| && w < |g.pred| && k < |g.pred[w]| && v == g.pred[w][k]
    requires DfsOk(g, d) && Linked(g, d, i, sd, anc) && 0 < w < |d.pre| && d.pre[w] == i && g.Edge(v, w) && v < |d.pre|
    requires |cur| == |sd| && (forall x :: 0 <= x < |cur| ==> 0 <= cur[x] < |cur|)
    requires forall x :: 0 <= x < |sd| && x != w ==> cur[x] == sd[x]
    requires forall x :: 0 <= x < |sd| && x != w && d.pre[x] <= i ==> cur[x] == x
    requires HasSemiPath(g, d, cur[w], w) && d.pre[cur[w]] < i && u < |d.pre|
    requires if d.pre[v] <= i then u == v else Least(d, i, cur, v, u)
    requires CoversFirst(g, d, i, sd, w, k, cur[w])
    ensures var s := Better(d, cur, w, u);
            0 <= s < |d.pre| && HasSemiPath(g, d, s, w) && d.pre[s] < i && CoversFirst(g, d, i, sd, w, k + 1, s)
  {
    hide DfsOk, Linked, HasSemiPath, Least;
    ImproveOne(g, d, i, sd, anc, cur, w, v, u);
    var s := Better(d, cur, w, u);
    forall m | 0 <= m < k + 1
      ensures g.pred[w][m] < |sd| && Covers(d, i, sd, w, g.pred[w][m], s)
    {
      assert m < k ==> Covers(d, i, sd, w, g.pred[w][m], cur[w]);
    }
  }

  lemma ImproveOne(g: Graph, d: Dfs, i: int, sd: seq<int>, anc: seq<int>, cur: seq<int>, w: nat, v: nat, u: nat)
    requires DfsOk(g, d) && Linked(g, d, i, sd, anc) && 0 < w < |d.pre| && d.pre[w] == i && g.Edge(v, w) && v < |d.pre|
    requires |cur| == |sd| && (forall x :: 0 <= x < |cur| ==> 0 <= cur[x] < |cur|)
    requires forall x :: 0 <= x < |sd| && x != w ==> cur[x] == sd[x]
    requires forall x :: 0 <= x < |sd| && x != w && d.pre[x] <= i ==> cur[x] == x
    requires HasSemiPath(g, d, cur[w], w) && d.pre[cur[w]] < i && u < |d.pre|
    requires if d.pre[v] <= i then u == v else Least(d, i, cur, v, u)
    ensures var s := Better(d, cur, w, u);
            0 <= s < |d.pre| && HasSemiPath(g, d, s, w) && d.pre[s] < i && Covers(d, i, sd, w, v, s)
  {
    if d.pre[v] <= i {
      if v != w && d.pre[v] < i {
        assert SemiPath(g, d, [v, w], v, w);
      }
    } else {
      assert IsSdom(g, d, u, sd[u]);
      SemiExtend(g, d, sd[u], u, v, w);
    }
  }

  /** Once every predecessor is covered, s is the semidominator of w. */
  lemma SdomFound(g: Graph, d: Dfs, i: int, sd: seq<int>, anc: seq<int>, w: nat, s: nat)
    requires DfsOk(g, d) && Linked(g, d, i, sd, anc) && 0 < w < |d.pre| && d.pre[w] == i
    requires s < |d.pre| && HasSemiPath(g, d, s, w) && d.pre[s] < i
    requires CoversFirst(g, d, i, sd, w, |g.pred[w]|, s)
    ensures IsSdom(g, d, w, s)
  {
    forall x | 0 <= x < |d.pre| && HasSemiPath(g, d, x, w)
      ensures d.pre[s] <= d.pre[x]
    {
      var u, v := SemiSplit(g, d, x, w);
      assert g.BackEdge(v, w);
      assert Covers(d, i, sd, w, v, s);
      if v != x {
        assert IsSdom(g, d, u, sd[u]);
      }
    }
  }

  /** A block has the same immediate dominator as t. */
  ghost predicate Shares(g: Graph, d: Dfs, t: nat, v: nat) {
    forall k :: IsIdom(g, d, t, k) ==> IsIdom(g, d, v, k)
  }

  /** t stands for the immediate dominator of v: it is the semidominator and already final, or
      an earlier block that shares it. */
  ghost predicate Tentative(g: Graph, d: Dfs, sd: seq<int>, v: nat, t: int)
    requires v < |sd|
  {
    if t == sd[v] then
      0 <= t && IsIdom(g, d, v, t)
    else
      0 < t < |d.pre| && v < |d.pre| && d.pre[t] < d.pre[v] && Shares(g, d, t, v)
  }

  /** Step 3 of the algorithm is right. */
  lemma IdomFound(g: Graph, d: Dfs, i: int, sd: seq<int>, anc: seq<int>, w: nat, v: nat, u: nat)
    requires DfsOk(g, d) && Linked(g, d, i, sd, anc) && w < |d.pre| && d.pre[w] == i && i >= 0
    requires 0 < v < |d.pre| && d.pre[v] > i && sd[v] == w && u < |d.pre| && Least(d, i, sd, v, u)
    ensures Tentative(g, d, sd, v, if d.pre[sd[u]] < i then u else w)
  {
    assert IsSdom(g, d, v, w) && IsSdom(g, d, u, sd[u]);
    SdomIsAncestor(g, d, v, w);
    forall y, x | 0 <= y < |d.pre| && 0 <= x < |d.pre| && In(d, w, y) && y != w && In(d, y, v) &&
      HasSemiPath(g, d, x, y)
      ensures d.pre[sd[u]] <= d.pre[x]
    {
      assert d.pre[y] > i;
      assert IsSdom(g, d, y, sd[y]);
    }
    if d.pre[sd[u]] < i {
      InComparable(d, w, u, v);
      assert Relative(g, d, v, w, u, sd[u]);
      assert u != v;
      forall k | IsIdom(g, d, u, k)
        ensures IsIdom(g, d, v, k)
      {
        IdomOfRelative(g, d, v, w, u, sd[u], k);
      }
    } else {
      SdomIsIdom(g, d, v, w);
    }
  }

  /** A block whose semidominator is its tree parent is immediately dominated by it. */
  lemma IdomIsParent(g: Graph, d: Dfs, w: nat)
    requires DfsOk(g, d) && 0 < w < |d.pre| && 0 <= d.par[w] && IsSdom(g, d, w, d.par[w])
    ensures IsIdom(g, d, w, d.par[w])
  {
    var s := d.par[w];
    SdomIsAncestor(g, d, w, s);
    forall u, x | 0 <= u < |d.pre| && 0 <= x < |d.pre| && In(d, s, u) && u != s && In(d, u, w) &&
      HasSemiPath(g, d, x, u)
      ensures d.pre[s] <= d.pre[x]
    {
      assert u != w ==> AboveParent(d, u, w);
    }
    SdomIsIdom(g, d, w, s);
  }

  /** A block whose semidominator is the root is immediately dominated by it. */
  lemma IdomIsRoot(g: Graph, d: Dfs, w: nat)
    requires DfsOk(g, d) && 0 < w < |d.pre| && IsSdom(g, d, w, 0)
    ensures IsIdom(g, d, w, 0)
  {
    SdomIsIdom(g, d, w, 0);
  }

  /** The blocks waiting in a bucket, linked through the slots of their own numbers back to s. */
  ghost predicate Chain(B: seq<int>, pre: seq<int>, s: nat, L: seq<nat>) {
    && |B| == |pre| && s < |pre| && 0 <= pre[s] < |B| && B[pre[s]] == Link(L, 0, s)
    && (forall k :: 0 <= k < |L| ==> L[k] < |pre| && 0 <= pre[L[k]] < |B| && B[pre[L[k]]] == Link(L, k + 1, s))
  }

  function Link(L: seq<nat>, k: nat, s: nat): nat {
    if k < |L| then L[k] else s
  }

  /** Each block s numbered at most i heads the chain of the linked blocks whose semidominator,
      but not tree parent, is s. */
  ghost predicate Buckets(d: Dfs, i: int, sd: seq<int>, B: seq<int>, bk: seq<seq<nat>>) {
    && |d.pre| == |d.par| == |sd| == |B| == |bk|
    && (forall s :: 0 <= s < |bk| && d.pre[s] <= i ==> Chain(B, d.pre, s, bk[s]))
    && (forall s, v: nat :: 0 <= s < |bk| && d.pre[s] <= i ==> (v in bk[s] <==> Waiting(d, i, sd, s, v)))
  }

  predicate Waiting(d: Dfs, i: int, sd: seq<int>, s: nat, v: nat)
    requires |d.pre| == |d.par| == |sd|
  {
    v < |sd| && d.pre[v] > i && sd[v] == s && d.par[v] != s
  }

  /** Blocks whose turn in step 3 has come hold a tentative immediate dominator. */
  ghost predicate Decided(g: Graph, d: Dfs, i: int, k: int, sd: seq<int>, idom: seq<int>) {
    && |d.pre| == |d.par| == |sd| == |idom|
    && (forall v :: 0 <= v < |sd| ==> DecidedAt(g, d, i, k, sd, idom, v))
  }

  ghost predicate DecidedAt(g: Graph, d: Dfs, i: int, k: int, sd: seq<int>, idom: seq<int>, v: nat)
    requires |d.pre| == |d.par| == |sd| == |idom| && v < |sd|
  {
    d.pre[v] > i ==>
      0 <= sd[v] < |sd| && (sd[v] == d.par[v] || d.pre[sd[v]] > k ==> Tentative(g, d, sd, v, idom[v]))
  }

  /** Writing the slots of two numbers that a chain does not use leaves it alone. */
  lemma ChainKept(B: seq<int>, B': seq<int>, pre: seq<int>, s: nat, L: seq<nat>)
    requires Chain(B, pre, s, L) && |B'| == |B| && B'[pre[s]] == B[pre[s]]
    requires forall k :: 0 <= k < |L| ==> B'[pre[L[k]]] == B[pre[L[k]]]
    ensures Chain(B', pre, s, L)
  {
  }

  lemma ChainPush(B: seq<int>, B': seq<int>, pre: seq<int>, s: nat, L: seq<nat>, w: nat)
    requires Chain(B, pre, s, L) && |B'| == |B| && w < |pre| && 0 <= pre[w] < |B|
    requires B'[pre[s]] == w && B'[pre[w]] == B[pre[s]]
    requires forall k :: 0 <= k < |L| ==> B'[pre[L[k]]] == B[pre[L[k]]]
    ensures Chain(B', pre, s, [w] + L)
  {
    var M := [w] + L;
    forall k | 0 <= k < |M|
      ensures M[k] < |pre| && 0 <= pre[M[k]] < |B| && B'[pre[M[k]]] == Link(M, k + 1, s)
    {
      if k > 0 {
        assert M[k] == L[k - 1];
      }
    }
  }

  /** Moving w, numbered i, into the bucket of its semidominator. */
  lemma BucketPush(g: Graph, d: Dfs, i: int, sd: seq<int>, B: seq<int>, bk: seq<seq<nat>>, w: nat, s: nat)
    requires DfsOk(g, d) && Buckets(d, i, sd, B, bk) && w < |bk| && d.pre[w] == i && s < |bk| &&
      0 <= d.pre[s] < i < |B| && d.par[w] != s
    ensures Buckets(d, i - 1, sd[w := s], B[i := B[d.pre[s]]][d.pre[s] := w], bk[s := [w] + bk[s]])
  {
    hide DfsOk, Chain, Waiting;
    var B' := B[i := B[d.pre[s]]][d.pre[s] := w];
    var bk', sd' := bk[s := [w] + bk[s]], sd[w := s];
    forall r | 0 <= r < |bk| && d.pre[r] <= i - 1
      ensures Chain(B', d.pre, r, bk'[r])
    {
      PushOne(g, d, i, sd, B, bk, w, s, r);
    }
    BucketMembers(g, d, i, sd, B, bk, w, s, i - 1, sd', bk');
  }

  lemma PushOne(g: Graph, d: Dfs, i: int, sd: seq<int>, B: seq<int>, bk: seq<seq<nat>>, w: nat, s: nat, r: nat)
    requires DfsOk(g, d) && Buckets(d, i, sd, B, bk) && w < |bk| && d.pre[w] == i && s < |bk| && d.pre[s] < i < |B|
    requires r < |bk| && d.pre[r] < i
    ensures Chain(B[i := B[d.pre[s]]][d.pre[s] := w], d.pre, r, bk[s := [w] + bk[s]][r])
  {
    var B' := B[i := B[d.pre[s]]][d.pre[s] := w];
    var L := bk[r];
    assert Chain(B, d.pre, r, L);
    forall k | 0 <= k < |L|
      ensures B'[d.pre[L[k]]] == B[d.pre[L[k]]]
    {
      assert L[k] in bk[r];
      assert Waiting(d, i, sd, r, L[k]);
    }
    if r == s {
      ChainPush(B, B', d.pre, s, L, w);
    } else {
      ChainKept(B, B', d.pre, r, L);
    }
  }

  lemma BucketMembers(g: Graph, d: Dfs, i: int, sd: seq<int>, B: seq<int>, bk: seq<seq<nat>>, w: nat, s: nat,
                      j: int, sd': seq<int>, bk': seq<seq<nat>>)
    requires DfsOk(g, d) && Buckets(d, i, sd, B, bk) && w < |bk| && d.pre[w] == i && s < |bk| && d.pre[s] < i &&
      d.par[w] != s
    requires j == i - 1 && sd' == sd[w := s] && bk' == bk[s := [w] + bk[s]]
    ensures forall r, v: nat :: 0 <= r < |bk'| && d.pre[r] <= j ==> (v in bk'[r] <==> Waiting(d, j, sd', r, v))
  {
    forall r, v: nat | 0 <= r < |bk'| && d.pre[r] <= j
      ensures v in bk'[r] <==> Waiting(d, j, sd', r, v)
    {
      assert v in bk[r] <==> Waiting(d, i, sd, r, v);
      assert v < |sd| && v != w ==> d.pre[v] != i;
    }
  }

  /** w, numbered i, is linked without waiting in a bucket. */
  lemma BucketSkip(g: Graph, d: Dfs, i: int, sd: seq<int>, B: seq<int>, bk: seq<seq<nat>>, w: nat)
    requires DfsOk(g, d) && Buckets(d, i, sd, B, bk) && w < |bk| && d.pre[w] == i
    ensures Buckets(d, i - 1, sd[w := d.par[w]], B, bk)
  {
    forall r, v: nat | 0 <= r < |bk| && d.pre[r] <= i - 1
      ensures v in bk[r] <==> Waiting(d, i - 1, sd[w := d.par[w]], r, v)
    {
      assert v in bk[r] <==> Waiting(d, i, sd, r, v);
      assert v < |sd| && v != w ==> d.pre[v] != i;
    }
  }

  /** The first k blocks of the bucket have been decided, on top of those decided before. */
  ghost predicate Drained(g: Graph, d: Dfs, i: int, sd: seq<int>, idom: seq<int>, L: seq<nat>, k: nat) {
    && Decided(g, d, i, i, sd, idom)
    && (forall m :: 0 <= m < k <= |L| ==> L[m] < |sd| && Tentative(g, d, sd, L[m], idom[L[m]]))
  }

  lemma DrainStart(g: Graph, d: Dfs, i: int, sd: seq<int>, B: seq<int>, idom: seq<int>, bk: seq<seq<nat>>, w: nat)
    requires Buckets(d, i, sd, B, bk) && w < |bk| && d.pre[w] == i && Decided(g, d, i, i, sd, idom)
    ensures 0 <= i < |B| && B[i] == Link(bk[w], 0, w) && Drained(g, d, i, sd, idom, bk[w], 0)
  {
    assert Chain(B, d.pre, w, bk[w]);
  }

  lemma DrainNext(g: Graph, d: Dfs, i: int, sd: seq<int>, B: seq<int>, bk: seq<seq<nat>>, w: nat, k: nat)
    requires DfsOk(g, d) && Buckets(d, i, sd, B, bk) && w < |bk| && d.pre[w] == i
    requires k <= |bk[w]| && Link(bk[w], k, w) != w
    ensures k < |bk[w]|
    ensures var v := bk[w][k];
            0 < v < |sd| && i < d.pre[v] < |B| && sd[v] == w && B[d.pre[v]] == Link(bk[w], k + 1, w)
  {
    assert Chain(B, d.pre, w, bk[w]);
    assert bk[w][k] in bk[w];
    assert Waiting(d, i, sd, w, bk[w][k]);
  }

  lemma DrainOne(g: Graph, d: Dfs, i: int, sd: seq<int>, idom: seq<int>, idom': seq<int>, L: seq<nat>, k: nat)
    requires Drained(g, d, i, sd, idom, L, k) && k < |L| && L[k] < |sd| && |idom'| == |idom|
    requires idom' == idom[L[k] := idom'[L[k]]] && Tentative(g, d, sd, L[k], idom'[L[k]])
    ensures Drained(g, d, i, sd, idom', L, k + 1)
  {
    forall v | 0 <= v < |sd|
      ensures DecidedAt(g, d, i, i, sd, idom', v)
    {
      assert DecidedAt(g, d, i, i, sd, idom, v);
    }
  }

  lemma BucketFull(d: Dfs, i: int, sd: seq<int>, B: seq<int>, bk: seq<seq<nat>>, w: nat, k: nat)
    requires Buckets(d, i, sd, B, bk) && w < |bk| && d.pre[w] == i && k <= |bk[w]| && Link(bk[w], k, w) == w
    ensures k == |bk[w]| && |d.pre| == |d.par| == |sd| == |bk| &&
      forall v: nat :: Waiting(d, i, sd, w, v) ==> v in bk[w]
  {
    hide Chain;
    assert w !in bk[w] by { assert !Waiting(d, i, sd, w, w); }
  }

  lemma DrainDone(g: Graph, d: Dfs, i: int, sd: seq<int>, B: seq<int>, idom: seq<int>, bk: seq<seq<nat>>, w: nat,
    k: nat)
    requires DfsOk(g, d) && Buckets(d, i, sd, B, bk) && w < |bk| && d.pre[w] == i
    requires k <= |bk[w]| && Link(bk[w], k, w) == w && Drained(g, d, i, sd, idom, bk[w], k)
    ensures Decided(g, d, i, i - 1, sd, idom)
  {
    hide DfsOk, Tentative, Buckets, Waiting, DecidedAt;
    BucketFull(d, i, sd, B, bk, w, k);
    Renumbered(g, d, i, w);
    var below := i - 1;
    forall v | 0 <= v < |sd|
      ensures DecidedAt(g, d, i, below, sd, idom, v)
    {
      DrainedAt(g, d, i, sd, idom, bk[w], w, v);
    }
  }

  lemma DrainedAt(g: Graph, d: Dfs, i: int, sd: seq<int>, idom: seq<int>, L: seq<nat>, w: nat, v: nat)
    requires Drained(g, d, i, sd, idom, L, |L|) && w < |sd| && d.pre[w] == i && v < |sd|
    requires forall x :: 0 <= x < |d.pre| && x != w ==> d.pre[x] != i
    requires Waiting(d, i, sd, w, v) ==> v in L
    ensures DecidedAt(g, d, i, i - 1, sd, idom, v)
  {
    hide Tentative;
    assert DecidedAt(g, d, i, i, sd, idom, v);
    if v in L {
      var m :| 0 <= m < |L| && L[m] == v;
      assert Tentative(g, d, sd, L[m], idom[L[m]]);
    }
  }

  /** No other block has the number of w. */
  lemma Renumbered(g: Graph, d: Dfs, i: int, w: nat)
    requires DfsOk(g, d) && w < |d.pre| && d.pre[w] == i
    ensures forall x :: 0 <= x < |d.pre| && x != w ==> d.pre[x] != i
  {
  }

  lemma LinkOne(g: Graph, d: Dfs, i: int, sd: seq<int>, anc: seq<int>, w: nat, s: int)
    requires DfsOk(g, d) && Linked(g, d, i, sd, anc) && w < |d.pre| && d.pre[w] == i && 0 <= s < |d.pre| &&
      IsSdom(g, d, w, s)
    ensures Linked(g, d, i - 1, sd[w := s], anc[w := d.par[w]])
  {
  }

  lemma DecideOne(g: Graph, d: Dfs, i: int, sd: seq<int>, idom: seq<int>, idom': seq<int>, w: nat, s: int)
    requires DfsOk(g, d) && Decided(g, d, i, i - 1, sd, idom) && 0 < w < |d.pre| && d.pre[w] == i
    requires 0 <= s < |d.pre| && IsSdom(g, d, w, s) && d.pre[s] < i
    requires idom' == if s == d.par[w] then idom[w := s] else idom
    ensures Decided(g, d, i - 1, i - 1, sd[w := s], idom')
  {
    hide DfsOk, IsSdom, IsIdom, Shares;
    if s == d.par[w] {
      IdomIsParent(g, d, w);
    }
    Renumbered(g, d, i, w);
    var sd' := sd[w := s];
    var below := i - 1;
    forall v | 0 <= v < |sd|
      ensures DecidedAt(g, d, below, below, sd', idom', v)
    {
      assert DecidedAt(g, d, i, below, sd, idom, v);
    }
  }
}
