/** The dominator tree of a flow graph by the Lengauer-Tarjan algorithm, as BuildDomTree computes it. */
module LengauerTarjan {
  import opened Graphs
  import opened Semidominators
  import opened DfsForest
  import opened LtInvariant
  import opened DomTree

  /** The working arrays of the algorithm and the blocks' dominance fields, all indexed by block
      except preorder and buckets, which are indexed by preorder number. */
  class DomBuilder {
    const g: Graph
    const sdom: array<int>
    const parent: array<int>
    const ancestor: array<int>
    const preorder: array<int>
    const buckets: array<int>
    const pre: array<int>
    const post: array<int>
    const idom: array<int>
    const children: array<seq<nat>>
    ghost var fin: seq<int>

    ghost predicate Shape()
      reads this`fin
    {
      && g.Valid()
      && |g.succ| == sdom.Length == parent.Length == ancestor.Length == preorder.Length == buckets.Length
      && |g.succ| == pre.Length == post.Length == idom.Length == children.Length == |fin|
      && sdom !in {parent, ancestor, preorder, buckets, pre, post, idom}
      && parent !in {ancestor, preorder, buckets, pre, post, idom}
      && ancestor !in {preorder, buckets, pre, post, idom}
      && preorder !in {buckets, pre, post, idom}
      && buckets !in {pre, post, idom}
      && pre !in {post, idom} && post != idom
    }

    ghost function Search(): Dfs
      reads this`fin, pre, parent
    {
      Dfs.Dfs(pre[..], fin, parent[..])
    }

    constructor (graph: Graph)
      requires graph.Valid()
      ensures g == graph && Shape()
      ensures fresh(sdom) && fresh(parent) && fresh(ancestor) && fresh(preorder) && fresh(buckets)
      ensures fresh(pre) && fresh(post) && fresh(idom) && fresh(children)
      ensures forall x :: 0 <= x < |g.succ| ==>
        sdom[x] == NIL && parent[x] == NIL && idom[x] == NIL && children[x] == []
    {
      var n := |graph.succ|;
      g := graph;
      sdom := new int[n](_ => NIL);
      parent := new int[n](_ => NIL);
      ancestor := new int[n](_ => NIL);
      preorder := new int[n](_ => NIL);
      buckets := new int[n](_ => NIL);
      pre := new int[n](_ => 0);
      post := new int[n](_ => 0);
      idom := new int[n](_ => NIL);
      children := new seq<nat>[n](_ => []);
      fin := seq(n, _ => 0);
    }

    ghost predicate Visited(i: int)
      reads sdom, pre, preorder, ancestor
    {
      && Numbering(|g.succ|, i, sdom[..], pre[..], preorder[..])
      && ancestor.Length == sdom.Length
      && (forall x :: 0 <= x < sdom.Length && sdom[x] != NIL ==> sdom[x] == x && ancestor[x] == NIL)
    }

    /** Give v the next number. */
    method Open(v: nat, i: int) returns (next: int)
      requires Shape() && Visited(i) && v < |g.succ| && sdom[v] == NIL
      modifies pre, preorder, sdom, ancestor
      ensures Visited(next) && next == i + 1
      ensures sdom[v] == v && pre[v] == i
      ensures Forest(g, Search(), sdom[..], v, next, next)
      ensures Keeps(old(Search()), old(sdom[..]), Search(), sdom[..])
    {
      Room(|g.succ|, i, sdom[..], pre[..], preorder[..], v);
      preorder[i] := v;
      pre[v] := i;
      next := i + 1;
      sdom[v] := v;
      ancestor[v] := NIL;
    }

    /** Step 1: number the blocks below v in depth-first preorder, from i on. */
    method Number(v: nat, i: int) returns (next: int)
      requires Shape() && Visited(i) && v < |g.succ| && sdom[v] == NIL
      requires parent[v] == NIL || (0 <= parent[v] < |g.succ| && g.Edge(parent[v], v) && sdom[parent[v]] != NIL)
      modifies pre, preorder, sdom, parent, ancestor, this`fin
      ensures Shape() && Visited(next) && i < next
      ensures parent[v] == old(parent[v]) && sdom[v] != NIL && pre[v] == i && fin[v] == next
      ensures Forest(g, Search(), sdom[..], parent[v], i, next)
      ensures Keeps(old(Search()), old(sdom[..]), Search(), sdom[..])
      decreases |g.succ| - i, 1
    {
      hide Forest;
      next := Open(v, i);
      ghost var d, vis := Search(), sdom[..];
      next := Children(v, i);
      KeepsTrans(old(Search()), old(sdom[..]), d, vis, Search(), sdom[..]);
      assert parent[v] != NIL ==> sdom[parent[v]] != NIL && pre[parent[v]] < i;
      CloseHere(g, Search(), sdom[..], preorder[..], v, i, next);
      fin := fin[v := next];
    }

    /** Search below every successor of v that is still unvisited. */
    method Children(v: nat, i: int) returns (next: int)
      requires Shape() && Visited(i + 1) && v < |g.succ| && sdom[v] != NIL && pre[v] == i
      requires Forest(g, Search(), sdom[..], v, i + 1, i + 1)
      modifies pre, preorder, sdom, parent, ancestor, this`fin
      ensures Shape() && Visited(next) && i < next
      ensures Forest(g, Search(), sdom[..], v, i + 1, next)
      ensures forall y: nat :: g.Edge(v, y) ==> y < |g.succ| && sdom[y] != NIL
      ensures Keeps(old(Search()), old(sdom[..]), Search(), sdom[..])
      decreases |g.succ| - i, 0
    {
      hide Forest;
      next := i + 1;
      for k := 0 to |g.succ[v]|
        invariant Shape() && Visited(next) && i < next
        invariant Keeps(old(Search()), old(sdom[..]), Search(), sdom[..])
        invariant Forest(g, Search(), sdom[..], v, i + 1, next)
        invariant forall m :: 0 <= m < k ==> g.succ[v][m] < |g.succ| && sdom[g.succ[v][m]] != NIL
      {
        var w := g.succ[v][k];
        assert g.Edge(v, w);
        if sdom[w] == NIL {
          ghost var d, vis := Search(), sdom[..];
          next := Child(v, w, i, next);
          KeepsTrans(old(Search()), old(sdom[..]), d, vis, Search(), sdom[..]);
        }
      }
    }

    method Attach(v: nat, w: nat, ghost cur: int)
      requires Shape() && Visited(cur) && w < |g.succ| && sdom[w] == NIL
      modifies parent
      ensures Visited(cur) && parent[w] == v
      ensures Keeps(old(Search()), old(sdom[..]), Search(), sdom[..])
    {
      parent[w] := v;
    }

    /** Search below the child w of v, whose earlier children end at number cur. */
    method Child(v: nat, w: nat, i: int, cur: int) returns (next: int)
      requires Shape() && Visited(cur) && i < cur && v < |g.succ| && w < |g.succ| && g.Edge(v, w)
      requires sdom[v] != NIL && sdom[w] == NIL && Forest(g, Search(), sdom[..], v, i + 1, cur)
      modifies pre, preorder, sdom, parent, ancestor, this`fin
      ensures Shape() && Visited(next) && cur < next && sdom[w] != NIL
      ensures Forest(g, Search(), sdom[..], v, i + 1, next)
      ensures Keeps(old(Search()), old(sdom[..]), Search(), sdom[..])
      decreases |g.succ| - cur, 2
    {
      hide Forest, Keeps, Numbering;
      ghost var d, vis, order := Search(), sdom[..], preorder[..];
      assert Numbering(|g.succ|, cur, vis, d.pre, order);
      Attach(v, w, cur);
      ghost var d1 := Search();
      next := Number(w, cur);
      assert Numbering(|g.succ|, next, sdom[..], Search().pre, preorder[..]);
      Resume(g, v, i + 1, d, cur, vis, order, d1, Search(), next, sdom[..], preorder[..]);
    }

    /** The search is over and the blocks numbered above i are linked. */
    ghost predicate Searched(i: int)
      reads this`fin, pre, parent, preorder, sdom, ancestor
    {
      && Shape() && DfsOk(g, Search()) && Linked(g, Search(), i, sdom[..], ancestor[..])
      && (forall k :: 0 <= k < preorder.Length ==> 0 <= preorder[k] < pre.Length && pre[preorder[k]] == k)
      && (forall x :: 0 <= x < pre.Length ==> 0 <= pre[x] < preorder.Length && preorder[pre[x]] == x)
    }

    /** EVAL: the linked ancestor of v with the least semidominator, or v itself when it is not linked. */
    method Eval(v: nat, ghost i: int) returns (u: nat)
      requires Searched(i) && i >= 0 && v < |g.succ| && (forall x :: 0 <= x < sdom.Length ==> 0 <= sdom[x] < pre.Length)
      ensures u < |g.succ|
      ensures pre[v] <= i ==> u == v
      ensures pre[v] > i ==> Least(Search(), i, sdom[..], v, u)
    {
      hide DfsOk, Linked;
      u := v;
      var x: nat := v;
      ghost var d := Search();
      LinkedOrNot(g, d, i, sdom[..], ancestor[..], v);
      while ancestor[x] != NIL
        invariant x < |g.succ| && u < |g.succ| && In(d, x, v) && In(d, u, v)
        invariant pre[v] <= i ==> u == v == x
        invariant pre[v] > i ==> pre[u] > i
        invariant forall y :: 0 <= y < sdom.Length && In(d, y, v) && pre[y] > pre[x] ==> pre[sdom[u]] <= pre[sdom[y]]
        decreases pre[x]
      {
        FollowLink(g, d, i, sdom[..], ancestor[..], v, x);
        if pre[sdom[x]] < pre[sdom[u]] {
          u := x;
        }
        x := ancestor[x];
      }
      LinkedOrNot(g, d, i, sdom[..], ancestor[..], x);
    }

    /** Step 2: the semidominator of w, the block numbered i. */
    method Semidominator(w: nat, ghost i: int)
      requires Searched(i) && 0 < w < |g.succ| && pre[w] == i
      requires forall x :: 0 <= x < sdom.Length ==> 0 <= sdom[x] < pre.Length
      requires forall x :: 0 <= x < sdom.Length && pre[x] <= i ==> sdom[x] == x
      modifies sdom
      ensures forall x :: 0 <= x < sdom.Length && x != w ==> sdom[x] == old(sdom[x])
      ensures 0 <= sdom[w] < pre.Length && IsSdom(g, Search(), w, sdom[w]) && pre[sdom[w]] < i
    {
      hide DfsOk, Linked, HasSemiPath, IsSdom, CoversFirst, Least;
      ghost var d, sd, anc := Search(), sdom[..], ancestor[..];
      ParentCandidate(g, d, i, sd, anc, w);
      sdom[w] := parent[w];
      for k := 0 to |g.pred[w]|
        invariant forall x :: 0 <= x < sdom.Length && x != w ==> sdom[x] == sd[x]
        invariant 0 <= sdom[w] < pre.Length && HasSemiPath(g, d, sdom[w], w) && pre[sdom[w]] < i
        invariant CoversFirst(g, d, i, sd, w, k, sdom[w])
      {
        LinkedFor(g, d, i, sd, sdom[..], anc, w);
        Consider(w, k, i, sd);
      }
      SdomFound(g, d, i, sd, anc, w, sdom[w]);
    }

    /** Take the k-th predecessor of w into account. */
    method Consider(w: nat, k: nat, ghost i: int, ghost sd: seq<int>)
      requires Searched(i) && 0 < w < |g.succ| && pre[w] == i && k < |g.pred[w]| && |sd| == sdom.Length
      requires forall x :: 0 <= x < sdom.Length ==> 0 <= sdom[x] < pre.Length
      requires forall x :: 0 <= x < sdom.Length && x != w ==> sdom[x] == sd[x]
      requires forall x :: 0 <= x < sdom.Length && x != w && pre[x] <= i ==> sdom[x] == x
      requires HasSemiPath(g, Search(), sdom[w], w) && pre[sdom[w]] < i
      requires CoversFirst(g, Search(), i, sd, w, k, sdom[w])
      modifies sdom
      ensures forall x :: 0 <= x < sdom.Length && x != w ==> sdom[x] == sd[x]
      ensures 0 <= sdom[w] < pre.Length && HasSemiPath(g, Search(), sdom[w], w) && pre[sdom[w]] < i
      ensures CoversFirst(g, Search(), i, sd, w, k + 1, sdom[w])
    {
      hide DfsOk, Linked, HasSemiPath, CoversFirst, Least;
      var v := g.pred[w][k];
      assert g.BackEdge(v, w) && g.Edge(v, w);
      var u := Eval(v, i);
      LinkedFor(g, Search(), i, sdom[..], sd, ancestor[..], w);
      Improve(g, Search(), i, sd, ancestor[..], sdom[..], w, k, v, u);
      if pre[sdom[u]] < pre[sdom[w]] {
        sdom[w] := sdom[u];
      }
    }

    /** Blocks whose turn has come, down to number i, are linked, bucketed and decided. */
    ghost predicate Progress(i: int, bk: seq<seq<nat>>)
      reads this`fin, pre, parent, preorder, sdom, ancestor, buckets, idom
    {
      && Searched(i) && |bk| == |g.succ|
      && (forall x :: 0 <= x < sdom.Length ==> 0 <= sdom[x] < pre.Length)
      && (forall x :: 0 <= x < sdom.Length && pre[x] <= i ==> sdom[x] == x)
      && Buckets(Search(), i, sdom[..], buckets[..], bk)
      && Decided(g, Search(), i, i, sdom[..], idom[..])
    }

    /** Step 3: decide the blocks that wait in the bucket of w, the block numbered i. */
    method Drain(w: nat, i: int, ghost bk: seq<seq<nat>>)
      requires Progress(i, bk) && 0 < w < |g.succ| && pre[w] == i > 0
      modifies idom
      ensures Decided(g, Search(), i, i - 1, sdom[..], idom[..]) && idom[0] == old(idom[0])
    {
      hide DfsOk, Linked, Decided, Chain, Waiting, Least, Tentative;
      ghost var d, sd, L := Search(), sdom[..], bk[w];
      ghost var k := 0;
      var v := buckets[i];
      DrainStart(g, d, i, sd, buckets[..], idom[..], bk, w);
      while v != w
        invariant 0 <= k <= |L| && v == Link(L, k, w)
        invariant Drained(g, d, i, sd, idom[..], L, k) && idom[0] == old(idom[0])
        decreases |L| - k
      {
        DrainNext(g, d, i, sd, buckets[..], bk, w, k);
        var u := Eval(v, i);
        IdomFound(g, d, i, sd, ancestor[..], w, v, u);
        ghost var was := idom[..];
        if pre[sdom[u]] < i {
          idom[v] := u;
        } else {
          idom[v] := w;
        }
        DrainOne(g, d, i, sd, was, idom[..], L, k);
        v := buckets[pre[v]];
        k := k + 1;
      }
      DrainDone(g, d, i, sd, buckets[..], idom[..], bk, w, k);
    }

    /** One round of the main loop, for w, the block numbered i. */
    method Round(w: nat, i: int, ghost bk: seq<seq<nat>>) returns (ghost bk': seq<seq<nat>>)
      requires Progress(i, bk) && 0 < w < |g.succ| && pre[w] == i > 0
      modifies sdom, ancestor, buckets, idom
      ensures Progress(i - 1, bk') && idom[0] == old(idom[0])
    {
      hide DfsOk, Linked, Decided, Buckets, IsSdom;
      Drain(w, i, bk);
      ghost var d, sd, anc, B, id := Search(), sdom[..], ancestor[..], buckets[..], idom[..];
      Semidominator(w, i);
      assert sdom[..] == sd[w := sdom[w]];
      ancestor[w] := parent[w];
      LinkOne(g, d, i, sd, anc, w, sdom[w]);
      if parent[w] == sdom[w] {
        idom[w] := parent[w];
        BucketSkip(g, d, i, sd, B, bk, w);
        bk' := bk;
      } else {
        BucketPush(g, d, i, sd, B, bk, w, sdom[w]);
        buckets[i] := buckets[pre[sdom[w]]];
        buckets[pre[sdom[w]]] := w;
        bk' := bk[sdom[w] := [w] + bk[sdom[w]]];
      }
      DecideOne(g, d, i, sd, id, idom[..], w, sdom[w]);
      Renumbered(g, d, i, w);
    }

    /** The last step 3: the root decides whatever waits in its bucket. */
    method DrainRoot(ghost bk: seq<seq<nat>>)
      requires Progress(0, bk)
      modifies idom
      ensures AllTentative(g, Search(), sdom[..], idom[..]) && idom[0] == old(idom[0])
    {
      hide DfsOk, Linked, Decided, Chain, Waiting, Tentative;
      ghost var d, sd, L := Search(), sdom[..], bk[0];
      ghost var k := 0;
      RootFirst(g, d);
      var v := buckets[0];
      DrainStart(g, d, 0, sd, buckets[..], idom[..], bk, 0);
      while v != 0
        invariant 0 <= k <= |L| && v == Link(L, k, 0)
        invariant Drained(g, d, 0, sd, idom[..], L, k) && idom[0] == old(idom[0])
        decreases |L| - k
      {
        DrainNext(g, d, 0, sd, buckets[..], bk, 0, k);
        RootDecides(g, d, sd, ancestor[..], v);
        ghost var was := idom[..];
        idom[v] := 0;
        DrainOne(g, d, 0, sd, was, idom[..], L, k);
        v := buckets[pre[v]];
        k := k + 1;
      }
      DrainDone(g, d, 0, sd, buckets[..], idom[..], bk, 0, k);
      AllDecided(g, d, sd, idom[..]);
    }

    /** Step 4: make every immediate dominator explicit, in preorder, and collect the children. */
    method Settle()
      requires Searched(0) && AllTentative(g, Search(), sdom[..], idom[..])
      requires forall x :: 0 <= x < children.Length ==> children[x] == []
      modifies idom, children
      ensures forall w :: 0 < w < idom.Length ==> 0 <= idom[w] < idom.Length && IsIdom(g, Search(), w, idom[w])
      ensures forall v :: 0 <= v < children.Length ==> Kids(idom[..], v, children[v])
      ensures idom[0] == old(idom[0])
    {
      hide DfsOk, Linked, AllTentative, Settled, KidsSoFar;
      ghost var d, sd := Search(), sdom[..];
      SettleStart(g, d, sd, idom[..], children[..]);
      for k := 1 to |g.succ|
        invariant Settled(g, d, sd, idom[..], k)
        invariant KidsSoFar(d, idom[..], children[..], k) && idom[0] == old(idom[0])
      {
        var w := preorder[k];
        ghost var was, kids := idom[..], children[..];
        SettleOne(g, d, sd, was, w, k);
        if idom[w] != sdom[w] {
          idom[w] := idom[idom[w]];
        }
        children[idom[w]] := children[idom[w]] + [w];
        KidsOne(g, d, was, idom[..], kids, children[..], w, k);
      }
      SettleDone(g, d, sd, idom[..], children[..]);
    }

    /** numberDomTree: number the tree below v from p and q on. */
    method NumberTree(v: nat, p: int, q: int, ghost rank: seq<int>) returns (p': int, q': int)
      requires Shape() && v < |g.succ| && Ranked(rank, idom[..])
      requires forall x :: 0 <= x < children.Length ==> Kids(idom[..], x, children[x])
      requires forall x :: 0 <= x < |rank| ==> rank[x] < |rank|
      modifies pre, post
      ensures p < p' && q < q'
      ensures Spans(rank, idom[..], [v], pre[..], post[..], p, p', q, q')
      ensures forall x :: 0 <= x < |g.succ| && !TreeAnc(rank, idom[..], v, x) ==>
        pre[x] == old(pre[x]) && post[x] == old(post[x])
      decreases |rank| - rank[v]
    {
      hide Kids, Spans, Below;
      ghost var up := idom[..];
      pre[v] := p;
      p', q' := p + 1, q;
      ghost var kids := children[v];
      NoneBelow(rank, up, v, pre[..], post[..], p + 1, q);
      for j := 0 to |children[v]|
        invariant p < p' && q <= q' && pre[v] == p
        invariant Spans(rank, up, kids[..j], pre[..], post[..], p + 1, p', q, q')
        invariant forall x :: 0 <= x < |g.succ| && !TreeAnc(rank, up, v, x) ==>
          pre[x] == old(pre[x]) && post[x] == old(post[x])
      {
        var c := children[v][j];
        ghost var p1, q1, P, Q := p', q', pre[..], post[..];
        KidBelow(rank, up, v, kids, j);
        p', q' := NumberTree(c, p', q', rank);
        NextKid(rank, up, v, kids, j, P, Q, pre[..], post[..], p + 1, p1, p', q, q1, q');
      }
      assert kids[..|kids|] == kids;
      ghost var Q := post[..];
      post[v] := q';
      CloseNumbers(rank, up, v, kids, pre[..], Q, post[..], p, p', q, q');
      q' := q' + 1;
    }

    /** BuildDomTree: afterwards the query and the parents mean dominance. */
    method Build() returns (ghost rank: seq<int>)
      requires Shape() && AllReachable(g)
      requires forall x :: 0 <= x < |g.succ| ==>
        sdom[x] == NIL && parent[x] == NIL && idom[x] == NIL && children[x] == []
      modifies this`fin, sdom, parent, ancestor, preorder, buckets, pre, post, idom, children
      ensures Shape() && Ranked(rank, idom[..])
      ensures forall b, c :: 0 <= b < |g.succ| && 0 <= c < |g.succ| ==> (Dominates(b, c) <==> Dom(g, b, c))
      ensures idom[0] == NIL
      ensures forall c :: 0 < c < |g.succ| ==> 0 <= idom[c] < |g.succ| && ImmediateDom(g, idom[c], c)
    {
      hide DfsOk, Kids, Spans, Dom, IsIdom, ImmediateDom, AllReachable, Ranked;
      ghost var d := Tree();
      rank := d.pre;
      ghost var up := idom[..];
      var p, q := NumberTree(0, 0, 0, rank);
      Numbered(g, d, up, pre[..], post[..], p, q);
    }

    /** Steps 1 to 4: the immediate dominators and the children, over some depth-first search. */
    method Tree() returns (ghost d: Dfs)
      requires Shape() && AllReachable(g)
      requires forall x :: 0 <= x < |g.succ| ==> sdom[x] == NIL && parent[x] == NIL && children[x] == []
      modifies this`fin, sdom, parent, ancestor, preorder, buckets, pre, idom, children
      ensures Shape() && DfsOk(g, d) && |d.pre| == |g.succ| && idom[0] == old(idom[0])
      ensures Ranked(d.pre, idom[..]) && (forall x :: 0 <= x < |d.pre| ==> d.pre[x] < |d.pre|)
      ensures forall w :: 0 < w < idom.Length ==> 0 <= idom[w] < idom.Length && IsIdom(g, d, w, idom[w])
      ensures forall v :: 0 <= v < children.Length ==> Kids(idom[..], v, children[v])
    {
      hide DfsOk, Linked, Buckets, Decided, Kids, IsIdom, AllReachable, AllTentative;
      ghost var bk := LinkAll();
      DrainRoot(bk);
      Settle();
      d := Search();
      RanksOk(g, d, idom[..]);
    }

    /** Steps 1 and 2 with the interleaved part of step 3. */
    method LinkAll() returns (ghost bk: seq<seq<nat>>)
      requires Shape() && AllReachable(g)
      requires forall x :: 0 <= x < |g.succ| ==> sdom[x] == NIL && parent[x] == NIL
      modifies this`fin, sdom, parent, ancestor, preorder, buckets, pre, idom
      ensures Progress(0, bk) && idom[0] == old(idom[0])
    {
      hide DfsOk, Linked, Buckets, Decided, AllReachable;
      bk := Start();
      var i := |g.succ| - 1;
      while i > 0
        invariant 0 <= i < |g.succ| && Progress(i, bk) && idom[0] == old(idom[0])
      {
        RootFirst(g, Search());
        bk := Round(preorder[i], i, bk);
        i := i - 1;
      }
    }

    /** Step 1: number everything; every bucket starts out empty. */
    method Start() returns (ghost bk: seq<seq<nat>>)
      requires Shape() && AllReachable(g)
      requires forall x :: 0 <= x < |g.succ| ==> sdom[x] == NIL && parent[x] == NIL
      modifies this`fin, sdom, parent, ancestor, preorder, buckets, pre
      ensures Progress(|g.succ| - 1, bk)
    {
      hide DfsOk, Linked, Buckets, Decided, Forest, Keeps, AllReachable;
      NothingVisited(|g.succ|, sdom[..], pre[..], preorder[..]);
      var last := Number(0, 0);
      SearchCovers(g, Search(), sdom[..], preorder[..], last);
      forall k | 0 <= k < buckets.Length {
        buckets[k] := preorder[k];
      }
      bk := seq(|g.succ|, _ => []);
      FirstState(g, Search(), |g.succ| - 1, sdom[..], ancestor[..], buckets[..], bk, idom[..]);
    }

    /** Dominates: the constant-time query. */
    predicate Dominates(b: nat, c: nat)
      requires b < pre.Length == post.Length && c < pre.Length
      reads pre, post
    {
      pre[b] <= pre[c] && post[c] <= post[b]
    }
  }

  lemma RootFirst(g: Graph, d: Dfs)
    requires DfsOk(g, d)
    ensures d.pre[0] == 0
  {
  }

  lemma RootDecides(g: Graph, d: Dfs, sd: seq<int>, anc: seq<int>, v: nat)
    requires DfsOk(g, d) && Linked(g, d, 0, sd, anc) && 0 < v < |sd| && d.pre[v] > 0 && sd[v] == 0
    ensures Tentative(g, d, sd, v, 0)
  {
    IdomIsRoot(g, d, v);
  }

  /** Every block but the root holds a tentative immediate dominator. */
  ghost predicate AllTentative(g: Graph, d: Dfs, sd: seq<int>, idom: seq<int>) {
    && |d.pre| == |sd| == |idom|
    && (forall v :: 0 < v < |sd| ==> Tentative(g, d, sd, v, idom[v]))
  }

  lemma AllDecided(g: Graph, d: Dfs, sd: seq<int>, idom: seq<int>)
    requires DfsOk(g, d) && Decided(g, d, 0, -1, sd, idom)
    ensures AllTentative(g, d, sd, idom)
  {
    forall v | 0 < v < |sd|
      ensures Tentative(g, d, sd, v, idom[v])
    {
      assert d.pre[v] > 0;
      assert DecidedAt(g, d, 0, -1, sd, idom, v);
      assert d.pre[sd[v]] > -1;
    }
  }

  /** Blocks numbered below k hold their immediate dominator, later ones a tentative one. */
  ghost predicate Settled(g: Graph, d: Dfs, sd: seq<int>, idom: seq<int>, k: int) {
    && |d.pre| == |sd| == |idom|
    && (forall v :: 0 < v < |sd| && d.pre[v] < k ==> 0 <= idom[v] < |sd| && IsIdom(g, d, v, idom[v]))
    && (forall v :: 0 < v < |sd| && d.pre[v] >= k ==> Tentative(g, d, sd, v, idom[v]))
  }

  ghost predicate KidsSoFar(d: Dfs, idom: seq<int>, children: seq<seq<nat>>, k: int) {
    && |d.pre| == |idom| == |children|
    && (forall v, c: nat :: 0 <= v < |children| ==> (c in children[v] <==> Kid(d, idom, k, v, c)))
    && (forall v, i, j :: 0 <= v < |children| && 0 <= i < j < |children[v]| ==> children[v][i] != children[v][j])
  }

  predicate Kid(d: Dfs, idom: seq<int>, k: int, v: nat, c: nat)
    requires |d.pre| == |idom|
  {
    0 < c < |idom| && d.pre[c] < k && idom[c] == v
  }

  lemma SettleStart(g: Graph, d: Dfs, sd: seq<int>, idom: seq<int>, children: seq<seq<nat>>)
    requires DfsOk(g, d) && AllTentative(g, d, sd, idom) && |children| == |sd| &&
      (forall v :: 0 <= v < |children| ==> children[v] == [])
    ensures Settled(g, d, sd, idom, 1) && KidsSoFar(d, idom, children, 1)
  {
  }

  lemma SettleOne(g: Graph, d: Dfs, sd: seq<int>, idom: seq<int>, w: nat, k: int)
    requires DfsOk(g, d) && Settled(g, d, sd, idom, k) && w < |d.pre| && d.pre[w] == k >= 1
    ensures w > 0 && 0 <= idom[w] < |idom| && idom[w] != w
    ensures var i := if idom[w] != sd[w] then idom[idom[w]] else idom[w];
            0 <= i < |idom| && i != w && Settled(g, d, sd, idom[w := i], k + 1)
  {
    assert Tentative(g, d, sd, w, idom[w]);
    if idom[w] != sd[w] {
      assert d.pre[idom[w]] > 0;
      assert IsIdom(g, d, idom[w], idom[idom[w]]);
    }
    var i := if idom[w] != sd[w] then idom[idom[w]] else idom[w];
    assert IsIdom(g, d, w, i);
    forall v | 0 < v < |sd|
      ensures d.pre[v] < k + 1 ==> 0 <= idom[w := i][v] < |sd| && IsIdom(g, d, v, idom[w := i][v])
      ensures d.pre[v] >= k + 1 ==> Tentative(g, d, sd, v, idom[w := i][v])
    {
    }
  }

  lemma KidsOne(g: Graph, d: Dfs, idom: seq<int>, idom': seq<int>, children: seq<seq<nat>>, children': seq<seq<nat>>,
    w: nat, k: int)
    requires DfsOk(g, d) && KidsSoFar(d, idom, children, k) && 0 < w < |d.pre| && d.pre[w] == k
    requires |idom'| == |idom| && 0 <= idom'[w] < |idom| && idom' == idom[w := idom'[w]]
    requires children' == children[idom'[w] := children[idom'[w]] + [w]]
    ensures KidsSoFar(d, idom', children', k + 1)
  {
    forall v, c: nat | 0 <= v < |children'|
      ensures c in children'[v] <==> Kid(d, idom', k + 1, v, c)
    {
      assert c in children[v] <==> Kid(d, idom, k, v, c);
    }
    assert w in children[idom'[w]] <==> Kid(d, idom, k, idom'[w], w);
  }

  lemma SettleDone(g: Graph, d: Dfs, sd: seq<int>, idom: seq<int>, children: seq<seq<nat>>)
    requires DfsOk(g, d) && Settled(g, d, sd, idom, |sd|) && KidsSoFar(d, idom, children, |sd|)
    requires forall x :: 0 <= x < |sd| ==> d.pre[x] < |sd|
    ensures forall w :: 0 < w < |idom| ==> 0 <= idom[w] < |idom| && IsIdom(g, d, w, idom[w])
    ensures forall v :: 0 <= v < |children| ==> Kids(idom, v, children[v])
  {
    forall v | 0 <= v < |children|
      ensures Kids(idom, v, children[v])
    {
      forall c: nat
        ensures c in children[v] <==> 0 < c < |idom| && idom[c] == v
      {
        assert c in children[v] <==> Kid(d, idom, |sd|, v, c);
      }
    }
  }

  lemma NoneBelow(rank: seq<int>, up: seq<int>, v: nat, pre: seq<int>, post: seq<int>, p: int, q: int)
    requires Ranked(rank, up) && |pre| == |post| == |up| && v < |up|
    ensures Spans(rank, up, [], pre, post, p, p, q, q)
  {
  }

  lemma KidBelow(rank: seq<int>, up: seq<int>, v: nat, kids: seq<nat>, j: nat)
    requires Ranked(rank, up) && Kids(up, v, kids) && j < |kids|
    ensures 0 < kids[j] < |up| && up[kids[j]] == v && rank[v] < rank[kids[j]]
  {
    assert kids[j] in kids;
  }

  /** The j-th child has been numbered and nothing outside its subtree has changed. */
  lemma NextKid(rank: seq<int>, up: seq<int>, v: nat, kids: seq<nat>, j: nat, P: seq<int>, Q: seq<int>, pre: seq<int>,
    post: seq<int>,
                p: int, p1: int, p2: int, q: int, q1: int, q2: int)
    requires Ranked(rank, up) && v < |up| && Kids(up, v, kids) && j < |kids|
    requires Spans(rank, up, kids[..j], P, Q, p, p1, q, q1) && Spans(rank, up, [kids[j]], pre, post, p1, p2, q1, q2)
    requires p <= p1 <= p2 && q <= q1 <= q2 && |P| == |Q| == |up|
    requires forall x :: 0 <= x < |up| && !TreeAnc(rank, up, kids[j], x) ==> pre[x] == P[x] && post[x] == Q[x]
    ensures Spans(rank, up, kids[..j + 1], pre, post, p, p2, q, q2)
    ensures forall x :: 0 <= x < |up| && !TreeAnc(rank, up, v, x) ==> !TreeAnc(rank, up, kids[j], x)
    ensures pre[v] == P[v]
  {
    var cs, c := kids[..j], kids[j];
    assert forall m :: 0 <= m < |kids| ==> kids[m] in kids;
    forall x | 0 <= x < |up| && Below(rank, up, cs, x)
      ensures !TreeAnc(rank, up, c, x)
    {
      var m :| 0 <= m < |cs| && TreeAnc(rank, up, cs[m], x);
      Siblings(rank, up, v, cs[m], c, x);
    }
    SpansKept(rank, up, cs, P, Q, pre, post, p, p1, q, q1);
    SpansAppend(rank, up, v, cs, c, pre, post, p, p1, p2, q, q1, q2);
    assert kids[..j + 1] == cs + [c];
    forall x | 0 <= x < |up| && TreeAnc(rank, up, c, x)
      ensures TreeAnc(rank, up, v, x)
    {
      assert TreeAnc(rank, up, v, c);
      AncTrans(rank, up, v, c, x);
    }
    if TreeAnc(rank, up, c, v) {
      AncRank(rank, up, c, v);
    }
  }

  lemma CloseNumbers(rank: seq<int>, up: seq<int>, v: nat, kids: seq<nat>, pre: seq<int>, Q: seq<int>, post: seq<int>,
                     p: int, p': int, q: int, q': int)
    requires Ranked(rank, up) && v < |up| && Kids(up, v, kids) && Spans(rank, up, kids, pre, Q, p + 1, p', q, q')
    requires pre[v] == p < p' && q <= q' && |Q| == |up| && post == Q[v := q']
    ensures Spans(rank, up, [v], pre, post, p, p', q, q' + 1)
    ensures TreeAnc(rank, up, v, v)
  {
    SpansKept(rank, up, kids, pre, Q, pre, post, p + 1, p', q, q');
    SpansClose(rank, up, v, kids, pre, post, p, p', q, q');
  }

  lemma NothingVisited(n: nat, vis: seq<int>, pre: seq<int>, order: seq<int>)
    requires |vis| == |pre| == |order| == n && (forall x :: 0 <= x < n ==> vis[x] == NIL)
    ensures Numbering(n, 0, vis, pre, order)
  {
  }

  lemma FirstState(g: Graph, d: Dfs, i: int, sd: seq<int>, anc: seq<int>, B: seq<int>, bk: seq<seq<nat>>,
    idom: seq<int>)
    requires DfsOk(g, d) && |sd| == |anc| == |B| == |bk| == |idom| == |d.pre| == i + 1
    requires forall x :: 0 <= x < |sd| ==> anc[x] == NIL && 0 <= d.pre[x] <= i && B[d.pre[x]] == x && bk[x] == []
    ensures Linked(g, d, i, sd, anc) && Buckets(d, i, sd, B, bk) && Decided(g, d, i, i, sd, idom)
  {
  }

  lemma RanksOk(g: Graph, d: Dfs, idom: seq<int>)
    requires DfsOk(g, d) && |idom| == |d.pre|
    requires forall w :: 0 < w < |idom| ==> 0 <= idom[w] < |idom| && IsIdom(g, d, w, idom[w])
    ensures Ranked(d.pre, idom)
  {
    forall w | 0 < w < |idom|
      ensures d.pre[idom[w]] < d.pre[w]
    {
      DomIsAncestor(g, d, idom[w], w);
    }
  }

  /** Ancestry in the tree of immediate dominators is dominance. */
  lemma {:induction false} TreeAncIsDom(g: Graph, d: Dfs, idom: seq<int>, b: nat, c: nat)
    requires DfsOk(g, d) && Ranked(d.pre, idom) && |idom| == |d.pre| && b < |idom| && c < |idom|
    requires forall w :: 0 < w < |idom| ==> IsIdom(g, d, w, idom[w])
    ensures TreeAnc(d.pre, idom, b, c) <==> Dom(g, b, c)
    decreases d.pre[c]
  {
    hide DfsOk, Dom, IsIdom;
    if c == 0 {
      DomOfRoot(g, d, b);
    } else {
      DomStep(g, d, b, c, idom[c]);
      TreeAncIsDom(g, d, idom, b, idom[c]);
    }
  }

  lemma {:induction false} RootOfAll(rank: seq<int>, up: seq<int>, x: nat)
    requires Ranked(rank, up) && x < |up|
    ensures TreeAnc(rank, up, 0, x)
    decreases rank[x]
  {
    if x > 0 {
      RootOfAll(rank, up, up[x]);
    }
  }

  lemma Numbered(g: Graph, d: Dfs, idom: seq<int>, pre: seq<int>, post: seq<int>, p: int, q: int)
    requires DfsOk(g, d) && Ranked(d.pre, idom) && |idom| == |d.pre| == |g.succ|
    requires forall w :: 0 < w < |idom| ==> IsIdom(g, d, w, idom[w])
    requires Spans(d.pre, idom, [0], pre, post, 0, p, 0, q)
    ensures forall b, c :: 0 <= b < |idom| && 0 <= c < |idom| ==> (Contains(pre, post, b, c) <==> Dom(g, b, c))
    ensures forall c :: 0 < c < |idom| ==> ImmediateDom(g, idom[c], c)
  {
    hide DfsOk, Dom, IsIdom;
    forall b, c | 0 <= b < |idom| && 0 <= c < |idom|
      ensures Contains(pre, post, b, c) <==> Dom(g, b, c)
    {
      RootOfAll(d.pre, idom, b);
      RootOfAll(d.pre, idom, c);
      assert [0][0] == 0 && Below(d.pre, idom, [0], b) && Below(d.pre, idom, [0], c);
      TreeAncIsDom(g, d, idom, b, c);
    }
    forall c | 0 < c < |idom|
      ensures ImmediateDom(g, idom[c], c)
    {
      IdomIsImmediate(g, d, c, idom[c]);
    }
  }

  lemma IdomIsImmediate(g: Graph, d: Dfs, c: nat, i: nat)
    requires DfsOk(g, d) && 0 < c < |d.pre| && IsIdom(g, d, c, i)
    ensures ImmediateDom(g, i, c)
  {
    forall e | 0 <= e < |g.succ| && e != c && Dom(g, e, c)
      ensures Dom(g, e, i)
    {
      DomStep(g, d, e, c, i);
    }
  }

  /** BuildDomTree on a fresh state: parents and intervals that mean dominance. */
  method BuildDomTree(g: Graph) returns (idom: seq<int>, pre: seq<int>, post: seq<int>, ghost rank: seq<int>)
    requires g.Valid() && AllReachable(g)
    ensures |idom| == |pre| == |post| == |g.succ| && Ranked(rank, idom)
    ensures forall b, c :: 0 <= b < |pre| && 0 <= c < |pre| ==> (Contains(pre, post, b, c) <==> Dom(g, b, c))
    ensures idom[0] == NIL
    ensures forall c :: 0 < c < |idom| ==> 0 <= idom[c] < |idom| && ImmediateDom(g, idom[c], c)
  {
    hide Dom, ImmediateDom, AllReachable, Ranked;
    var t := new DomBuilder(g);
    rank := t.Build();
    idom, pre, post := t.idom[..], t.pre[..], t.post[..];
  }
}
