/** Trees given by parents, and the pre/post numbering that answers ancestry queries. */
module DomTree {

  /** Parents come before their children in some ranking; block 0 is the root. */
  ghost predicate Ranked(rank: seq<int>, up: seq<int>) {
    && |rank| == |up| > 0
    && (forall c :: 0 <= c < |up| ==> 0 <= rank[c])
    && (forall c :: 0 < c < |up| ==> 0 <= up[c] < |up| && rank[up[c]] < rank[c])
  }

  /** b is c or an ancestor of c. */
  ghost predicate TreeAnc(rank: seq<int>, up: seq<int>, b: nat, c: nat)
    requires Ranked(rank, up) && c < |up|
    decreases rank[c]
  {
    b == c || (c > 0 && TreeAnc(rank, up, b, up[c]))
  }

  lemma {:induction false} AncRank(rank: seq<int>, up: seq<int>, b: nat, c: nat)
    requires Ranked(rank, up) && c < |up| && TreeAnc(rank, up, b, c)
    ensures b < |up| && rank[b] <= rank[c] && (rank[b] == rank[c] ==> b == c)
    decreases rank[c]
  {
    if b != c {
      AncRank(rank, up, b, up[c]);
    }
  }

  lemma {:induction false} AncTrans(rank: seq<int>, up: seq<int>, a: nat, b: nat, c: nat)
    requires Ranked(rank, up) && c < |up| && b < |up| && TreeAnc(rank, up, a, b) && TreeAnc(rank, up, b, c)
    ensures TreeAnc(rank, up, a, c)
    decreases rank[c]
  {
    if b != c {
      AncTrans(rank, up, a, b, up[c]);
    }
  }

  lemma {:induction false} AncChain(rank: seq<int>, up: seq<int>, a: nat, b: nat, c: nat)
    requires Ranked(rank, up) && c < |up| && a < |up| && b < |up| && TreeAnc(rank, up, a, c) && TreeAnc(rank, up, b, c)
    ensures TreeAnc(rank, up, a, b) || TreeAnc(rank, up, b, a)
    decreases rank[c]
  {
    if a != c && b != c {
      AncChain(rank, up, a, b, up[c]);
    }
  }

  /** Two different blocks with the same parent share no descendant. */
  lemma Siblings(rank: seq<int>, up: seq<int>, v: nat, a: nat, b: nat, x: nat)
    requires Ranked(rank, up) && 0 < a < |up| && 0 < b < |up| && x < |up| && a != b && up[a] == up[b] == v
    requires TreeAnc(rank, up, a, x)
    ensures !TreeAnc(rank, up, b, x)
  {
    if TreeAnc(rank, up, b, x) {
      AncChain(rank, up, a, b, x);
      if TreeAnc(rank, up, a, b) {
        AncRank(rank, up, a, v);
      } else {
        AncRank(rank, up, b, v);
      }
    }
  }

  /** x lies at or below one of the blocks in cs. */
  ghost predicate Below(rank: seq<int>, up: seq<int>, cs: seq<nat>, x: nat)
    requires Ranked(rank, up) && x < |up|
  {
    exists m :: 0 <= m < |cs| && TreeAnc(rank, up, cs[m], x)
  }

  /** kids lists the children of v, each once. */
  ghost predicate Kids(up: seq<int>, v: nat, kids: seq<nat>) {
    && (forall c: nat :: c in kids <==> 0 < c < |up| && up[c] == v)
    && (forall i, j :: 0 <= i < j < |kids| ==> kids[i] != kids[j])
  }

  lemma {:induction false} BelowKids(rank: seq<int>, up: seq<int>, v: nat, kids: seq<nat>, x: nat)
    requires Ranked(rank, up) && x < |up| && v < |up| && Kids(up, v, kids)
    ensures TreeAnc(rank, up, v, x) <==> x == v || Below(rank, up, kids, x)
    decreases rank[x]
  {
    if x > 0 && x != v {
      BelowKids(rank, up, v, kids, up[x]);
      if Below(rank, up, kids, up[x]) {
        var m :| 0 <= m < |kids| && TreeAnc(rank, up, kids[m], up[x]);
        assert TreeAnc(rank, up, kids[m], x);
      } else if up[x] == v {
        assert x in kids && TreeAnc(rank, up, x, x);
      }
    }
    if Below(rank, up, kids, x) {
      var m :| 0 <= m < |kids| && TreeAnc(rank, up, kids[m], x);
      assert kids[m] in kids;
      AncTrans(rank, up, v, kids[m], x);
    }
  }

  /** The interval of b contains that of c. */
  predicate Contains(pre: seq<int>, post: seq<int>, b: nat, c: nat)
    requires b < |pre| == |post| && c < |pre|
  {
    pre[b] <= pre[c] && post[c] <= post[b]
  }

  /** The blocks below cs have numbers in the given ranges, and containment among them is ancestry. */
  ghost predicate Spans(rank: seq<int>, up: seq<int>, cs: seq<nat>, pre: seq<int>, post: seq<int>, p: int, p': int,
    q: int, q': int) {
    && Ranked(rank, up) && |pre| == |post| == |up|
    && (forall x :: 0 <= x < |up| && Below(rank, up, cs, x) ==> p <= pre[x] < p' && q <= post[x] < q')
    && (forall b, c :: 0 <= b < |up| && 0 <= c < |up| && Below(rank, up, cs, b) && Below(rank, up, cs, c) ==>
          (Contains(pre, post, b, c) <==> TreeAnc(rank, up, b, c)))
  }

  lemma SpansKept(rank: seq<int>, up: seq<int>, cs: seq<nat>, pre: seq<int>, post: seq<int>, pre': seq<int>,
    post': seq<int>,
                  p: int, p': int, q: int, q': int)
    requires Spans(rank, up, cs, pre, post, p, p', q, q') && |pre'| == |post'| == |up|
    requires forall x :: 0 <= x < |up| && Below(rank, up, cs, x) ==> pre'[x] == pre[x] && post'[x] == post[x]
    ensures Spans(rank, up, cs, pre', post', p, p', q, q')
  {
  }

  /** One more sibling subtree, numbered after the others. */
  lemma SpansAppend(rank: seq<int>, up: seq<int>, v: nat, cs: seq<nat>, c: nat, pre: seq<int>, post: seq<int>,
                    p: int, p1: int, p2: int, q: int, q1: int, q2: int)
    requires Spans(rank, up, cs, pre, post, p, p1, q, q1) && Spans(rank, up, [c], pre, post, p1, p2, q1, q2)
    requires p <= p1 <= p2 && q <= q1 <= q2 && 0 < c < |up| && up[c] == v
    requires forall m :: 0 <= m < |cs| ==> 0 < cs[m] < |up| && up[cs[m]] == v && cs[m] != c
    ensures Spans(rank, up, cs + [c], pre, post, p, p2, q, q2)
  {
    forall x | 0 <= x < |up|
      ensures Below(rank, up, cs + [c], x) <==> Below(rank, up, cs, x) || Below(rank, up, [c], x)
    {
      BelowAppend(rank, up, cs, c, x);
    }
    forall a, b | 0 <= a < |up| && 0 <= b < |up| && Below(rank, up, cs, a) && Below(rank, up, [c], b)
      ensures !TreeAnc(rank, up, a, b) && !TreeAnc(rank, up, b, a)
    {
      Apart(rank, up, v, cs, c, a, b);
    }
  }

  lemma BelowAppend(rank: seq<int>, up: seq<int>, cs: seq<nat>, c: nat, x: nat)
    requires Ranked(rank, up) && x < |up|
    ensures Below(rank, up, cs + [c], x) <==> Below(rank, up, cs, x) || Below(rank, up, [c], x)
  {
    var ds := cs + [c];
    if Below(rank, up, cs, x) {
      var m :| 0 <= m < |cs| && TreeAnc(rank, up, cs[m], x);
      assert ds[m] == cs[m];
    }
    if Below(rank, up, [c], x) {
      assert TreeAnc(rank, up, [c][0], x);
      assert ds[|cs|] == c;
    }
    if Below(rank, up, ds, x) {
      var m :| 0 <= m < |ds| && TreeAnc(rank, up, ds[m], x);
      if m < |cs| {
        assert TreeAnc(rank, up, cs[m], x);
      } else {
        assert TreeAnc(rank, up, [c][0], x);
      }
    }
  }

  lemma Apart(rank: seq<int>, up: seq<int>, v: nat, cs: seq<nat>, c: nat, a: nat, b: nat)
    requires Ranked(rank, up) && 0 < c < |up| && up[c] == v && a < |up| && b < |up|
    requires forall m :: 0 <= m < |cs| ==> 0 < cs[m] < |up| && up[cs[m]] == v && cs[m] != c
    requires Below(rank, up, cs, a) && Below(rank, up, [c], b)
    ensures !TreeAnc(rank, up, a, b) && !TreeAnc(rank, up, b, a)
  {
    var m :| 0 <= m < |cs| && TreeAnc(rank, up, cs[m], a);
    Siblings(rank, up, v, cs[m], c, a);
    Siblings(rank, up, v, c, cs[m], b);
    if TreeAnc(rank, up, a, b) {
      AncTrans(rank, up, cs[m], a, b);
    }
    if TreeAnc(rank, up, b, a) {
      AncTrans(rank, up, c, b, a);
    }
  }

  /** Numbering v around the subtrees of its children. */
  lemma SpansClose(rank: seq<int>, up: seq<int>, v: nat, kids: seq<nat>, pre: seq<int>, post: seq<int>, p: int,
    p': int, q: int, q': int)
    requires Spans(rank, up, kids, pre, post, p + 1, p', q, q') && v < |up| && Kids(up, v, kids)
    requires pre[v] == p < p' && post[v] == q' >= q
    ensures Spans(rank, up, [v], pre, post, p, p', q, q' + 1)
  {
    forall x | 0 <= x < |up|
      ensures Below(rank, up, [v], x) <==> TreeAnc(rank, up, v, x)
      ensures TreeAnc(rank, up, v, x) <==> x == v || Below(rank, up, kids, x)
    {
      BelowKids(rank, up, v, kids, x);
      assert TreeAnc(rank, up, v, x) ==> TreeAnc(rank, up, [v][0], x);
    }
    forall x | 0 <= x < |up| && Below(rank, up, kids, x)
      ensures !TreeAnc(rank, up, x, v)
    {
      var m :| 0 <= m < |kids| && TreeAnc(rank, up, kids[m], x);
      assert kids[m] in kids;
      AncRank(rank, up, kids[m], x);
      if TreeAnc(rank, up, x, v) {
        AncRank(rank, up, x, v);
      }
    }
  }
}
