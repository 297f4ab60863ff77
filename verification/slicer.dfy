/** The backward slice: everything the start statement depends on, directly or not. */
module Slicer {
  import opened Graphs
  import opened Finite
  import opened Dataflow
  import opened ControlDeps
  import opened DomTree
  import opened LengauerTarjan

  /** A chain of at least one dependence step. */
  ghost predicate Chain(rel: iset<(nat, nat)>, p: seq<nat>, a: nat, b: nat) {
    && |p| >= 2 && p[0] == a && p[|p| - 1] == b
    && (forall i, j :: 0 <= i && j == i + 1 && j < |p| ==> (p[i], p[j]) in rel)
  }

  ghost predicate Chained(rel: iset<(nat, nat)>, a: nat, b: nat) {
    exists p :: Chain(rel, p, a, b)
  }

  lemma ChainMore(rel: iset<(nat, nat)>, a: nat, b: nat, c: nat)
    requires (a == b || Chained(rel, a, b)) && (b, c) in rel
    ensures Chained(rel, a, c)
  {
    if Chained(rel, a, b) {
      var p :| Chain(rel, p, a, b);
      assert Chain(rel, p + [c], a, c);
    } else {
      assert Chain(rel, [a, c], a, c);
    }
  }

  /** A statement the slice starts from. */
  predicate IsRoot(start: nat, prior: seq<nat>, x: nat) {
    x == start || x in prior
  }

  /** What a slice over the dependence relation holds: the start, and all that a root depends on. */
  ghost predicate InSlice(rel: iset<(nat, nat)>, start: nat, prior: seq<nat>, v: nat) {
    v == start || exists r :: IsRoot(start, prior, r) && Chained(rel, r, v)
  }

  /** The dependences in the two tables. */
  predicate Dep(ctrl: seq<seq<nat>>, data: seq<seq<nat>>, u: nat, v: nat) {
    u < |ctrl| == |data| && (v in ctrl[u] || v in data[u])
  }

  ghost function TableRel(ctrl: seq<seq<nat>>, data: seq<seq<nat>>): iset<(nat, nat)> {
    iset u: nat, v: nat | Dep(ctrl, data, u, v) :: (u, v)
  }

  /** Sound so far: only slice members have been visited, each once, and the queue holds roots and members. */
  ghost predicate Sound(rel: iset<(nat, nat)>, start: nat, prior: seq<nat>, visited: set<nat>, queue: seq<nat>,
    slice: seq<nat>) {
    && NoRepeats(slice) && start in visited
    && (forall v :: v in slice <==> v in visited)
    && (forall v :: v in visited ==> InSlice(rel, start, prior, v))
    && (forall q :: q in queue ==> IsRoot(start, prior, q) || q in visited)
  }

  /** Everything that is no longer queued has had its dependences visited. */
  ghost predicate Closed(ctrl: seq<seq<nat>>, data: seq<seq<nat>>, start: nat, prior: seq<nat>, visited: set<nat>,
    queue: seq<nat>) {
    forall u, v: nat :: (IsRoot(start, prior, u) || u in visited) && u !in queue && Dep(ctrl, data, u, v) ==>
      v in visited
  }

  /** One of the two inner loops: visit the statements in vs, all of which u depends on. */
  method Visit(vs: seq<nat>, visited: set<nat>, queue: seq<nat>, slice: seq<nat>,
               ghost rel: iset<(nat, nat)>, ghost start: nat, ghost prior: seq<nat>, ghost u: nat)
    returns (visited': set<nat>, queue': seq<nat>, slice': seq<nat>)
    requires Sound(rel, start, prior, visited, queue, slice)
    requires IsRoot(start, prior, u) || u in visited
    requires forall v :: v in vs ==> (u, v) in rel
    ensures Sound(rel, start, prior, visited', queue', slice')
    ensures visited' == visited + set v | v in vs
    ensures forall x :: x in queue' <==> x in queue || x in visited' - visited
    ensures visited' == visited ==> queue' == queue
  {
    visited', queue', slice' := visited, queue, slice;
    for k := 0 to |vs|
      invariant Sound(rel, start, prior, visited', queue', slice')
      invariant visited' == visited + set v | v in vs[..k]
      invariant forall x :: x in queue' <==> x in queue || x in visited' - visited
      invariant visited' == visited ==> queue' == queue
    {
      var v := vs[k];
      assert v in vs && vs[..k + 1] == vs[..k] + [v];
      if v !in visited' {
        MemberBy(rel, start, prior, visited', queue', slice', u, v);
        visited' := visited' + {v};
        queue' := queue' + [v];
        slice' := slice' + [v];
      }
    }
    assert vs[..|vs|] == vs;
  }

  lemma MemberBy(rel: iset<(nat, nat)>, start: nat, prior: seq<nat>, visited: set<nat>, queue: seq<nat>,
    slice: seq<nat>, u: nat, v: nat)
    requires Sound(rel, start, prior, visited, queue, slice) && (IsRoot(start, prior, u) || u in visited) &&
      (u, v) in rel
    ensures InSlice(rel, start, prior, v)
  {
    if IsRoot(start, prior, u) {
      ChainMore(rel, u, u, v);
    } else {
      var r :| IsRoot(start, prior, r) && Chained(rel, r, u);
      ChainMore(rel, r, u, v);
    }
  }

  /** The worklist: it stops, repeats nothing, and finds exactly what the roots depend on. */
  method Worklist(ctrl: seq<seq<nat>>, data: seq<seq<nat>>, start: nat, prior: seq<nat>) returns (slice: seq<nat>)
    requires |ctrl| == |data|
    requires forall u, v: nat :: Dep(ctrl, data, u, v) ==> v < |ctrl|
    ensures NoRepeats(slice)
    ensures forall v :: v in slice <==> InSlice(TableRel(ctrl, data), start, prior, v)
  {
    hide Sound, Closed, InSlice;
    ghost var rel := TableRel(ctrl, data);
    ghost var all: set<int> := NatsBelow(|ctrl|) + {start};
    var visited: set<nat> := {start};
    var queue := [start] + prior;
    slice := [start];
    Begin(ctrl, data, start, prior);
    while |queue| > 0
      invariant Sound(rel, start, prior, visited, queue, slice)
      invariant Closed(ctrl, data, start, prior, visited, queue)
      invariant forall x :: x in visited ==> x in all
      decreases all - visited, |queue|
    {
      var u := queue[0];
      ghost var before, waiting := visited, queue;
      PopSound(rel, start, prior, visited, queue, slice);
      queue := queue[1..];
      if u < |ctrl| {
        visited, queue, slice := Visit(ctrl[u], visited, queue, slice, rel, start, prior, u);
        visited, queue, slice := Visit(data[u], visited, queue, slice, rel, start, prior, u);
        forall x | x in visited
          ensures x in all
        {
          assert x !in before ==> Dep(ctrl, data, u, x);
        }
      }
      PopClosed(ctrl, data, start, prior, before, waiting, visited, queue);
    }
    Done(ctrl, data, start, prior, visited, slice);
  }

  lemma Begin(ctrl: seq<seq<nat>>, data: seq<seq<nat>>, start: nat, prior: seq<nat>)
    ensures Sound(TableRel(ctrl, data), start, prior, {start}, [start] + prior, [start])
    ensures Closed(ctrl, data, start, prior, {start}, [start] + prior)
  {
  }

  lemma PopSound(rel: iset<(nat, nat)>, start: nat, prior: seq<nat>, visited: set<nat>, queue: seq<nat>,
    slice: seq<nat>)
    requires Sound(rel, start, prior, visited, queue, slice) && |queue| > 0
    ensures Sound(rel, start, prior, visited, queue[1..], slice)
    ensures IsRoot(start, prior, queue[0]) || queue[0] in visited
  {
    assert queue[0] in queue;
  }

  lemma PopClosed(ctrl: seq<seq<nat>>, data: seq<seq<nat>>, start: nat, prior: seq<nat>,
                  visited: set<nat>, queue: seq<nat>, visited': set<nat>, queue': seq<nat>)
    requires Closed(ctrl, data, start, prior, visited, queue) && |queue| > 0 && visited <= visited'
    requires forall x :: x in queue' <==> x in queue[1..] || x in visited' - visited
    requires forall v: nat :: Dep(ctrl, data, queue[0], v) ==> v in visited'
    ensures Closed(ctrl, data, start, prior, visited', queue')
  {
    assert forall x :: x in queue <==> x == queue[0] || x in queue[1..];
  }

  lemma Done(ctrl: seq<seq<nat>>, data: seq<seq<nat>>, start: nat, prior: seq<nat>, visited: set<nat>, slice: seq<nat>)
    requires Sound(TableRel(ctrl, data), start, prior, visited, [], slice) &&
      Closed(ctrl, data, start, prior, visited, [])
    ensures NoRepeats(slice)
    ensures forall v :: v in slice <==> InSlice(TableRel(ctrl, data), start, prior, v)
  {
    var rel := TableRel(ctrl, data);
    forall v: nat | InSlice(rel, start, prior, v) && v != start
      ensures v in slice
    {
      var r :| IsRoot(start, prior, r) && Chained(rel, r, v);
      var p :| Chain(rel, p, r, v);
      ChainVisited(ctrl, data, start, prior, visited, p, |p| - 1);
    }
  }

  lemma {:induction false} ChainVisited(ctrl: seq<seq<nat>>, data: seq<seq<nat>>, start: nat, prior: seq<nat>,
    visited: set<nat>, p: seq<nat>, k: nat)
    requires Closed(ctrl, data, start, prior, visited, []) && 0 < k < |p| && IsRoot(start, prior, p[0])
    requires Chain(TableRel(ctrl, data), p, p[0], p[|p| - 1])
    ensures p[k] in visited
  {
    if k > 1 {
      ChainVisited(ctrl, data, start, prior, visited, p, k - 1);
    }
    assert (p[k - 1], p[k]) in TableRel(ctrl, data);
    assert Dep(ctrl, data, p[k - 1], p[k]);
  }

  /** u reads a variable that d defines, and that definition reaches u. */
  ghost predicate DataDependent(g: Graph, defs: seq<seq<nat>>, uses: seq<seq<nat>>, entry: nat, u: nat, d: nat) {
    && ReachesEntryOf(g, defs, entry, d, u)
    && u < |uses| && d < |defs| && exists v :: v in defs[d] && v in uses[u]
  }

  method IntersectDefUse(defVars: seq<nat>, useVars: seq<nat>) returns (r: bool)
    ensures r <==> exists v :: v in defVars && v in useVars
  {
    for i := 0 to |defVars|
      invariant forall v :: v in defVars[..i] ==> v !in useVars
    {
      for j := 0 to |useVars|
        invariant defVars[i] !in useVars[..j]
      {
        if defVars[i] == useVars[j] {
          assert defVars[i] in defVars && useVars[j] in useVars;
          return true;
        }
        assert useVars[..j + 1] == useVars[..j] + [useVars[j]];
      }
      assert useVars[..|useVars|] == useVars;
      assert defVars[..i + 1] == defVars[..i] + [defVars[i]];
    }
    assert defVars[..|defVars|] == defVars;
    return false;
  }

  /** CreateDataDepGraph: one edge per definition that reaches a reader, in both directions. */
  method CreateDataDepGraph(g: Graph, defs: seq<seq<nat>>, uses: seq<seq<nat>>, entry: nat, order: seq<nat>)
    returns (dep: seq<seq<nat>>, depee: seq<seq<nat>>)
    requires g.Valid() && |defs| == |uses| == |g.succ| && AllBut(order, |defs|, entry)
    ensures |dep| == |g.succ| && Mirror(dep, depee)
    ensures forall u, d: nat :: 0 <= u < |dep| ==> (d in dep[u] <==> DataDependent(g, defs, uses, entry, u, d))
  {
    hide ReachesEntryOf;
    var ins := ReachingDefs(g, defs, entry, order);
    var n := |defs|;
    dep, depee := seq(n, _ => []), seq(n, _ => []);
    for u := 0 to n
      invariant |dep| == n && Mirror(dep, depee)
      invariant forall w :: u <= w < n ==> dep[w] == []
      invariant forall w, d: nat :: 0 <= w < n ==> (d in dep[w] <==> w < u && DataDependent(g, defs, uses, entry, w, d))
    {
      dep, depee := DataDepsOf(g, defs, uses, entry, u, ins[u], dep, depee);
    }
  }

  method DataDepsOf(g: Graph, defs: seq<seq<nat>>, uses: seq<seq<nat>>, ghost entry: nat, u: nat, reaching: set<nat>,
                    dep: seq<seq<nat>>, depee: seq<seq<nat>>)
    returns (dep': seq<seq<nat>>, depee': seq<seq<nat>>)
    requires |defs| == |uses| == |g.succ| == |dep| && u < |defs| && Mirror(dep, depee) && dep[u] == []
    requires forall d :: d in reaching <==> ReachesEntryOf(g, defs, entry, d, u)
    ensures |dep'| == |dep| && Mirror(dep', depee')
    ensures forall w :: 0 <= w < |dep| && w != u ==> dep'[w] == dep[w]
    ensures forall d :: d in dep'[u] <==> DataDependent(g, defs, uses, entry, u, d)
  {
    InRange(g, defs, entry, u);
    hide ReachesEntryOf;
    dep', depee' := dep, depee;
    var rest := reaching;
    while rest != {}
      invariant rest <= reaching && |dep'| == |dep| && Mirror(dep', depee')
      invariant forall w :: 0 <= w < |dep| && w != u ==> dep'[w] == dep[w]
      invariant forall d :: d in dep'[u] <==> d !in rest && DataDependent(g, defs, uses, entry, u, d)
      decreases rest
    {
      var d :| d in rest;
      rest := rest - {d};
      var both := IntersectDefUse(defs[d], uses[u]);
      if both {
        dep' := dep'[u := dep'[u] + [d]];
        depee' := depee'[d := depee'[d] + [u]];
      }
    }
  }

  lemma InRange(g: Graph, defs: seq<seq<nat>>, entry: nat, u: nat)
    ensures forall d: nat :: ReachesEntryOf(g, defs, entry, d, u) ==> d < |defs|
  {
  }

  /** u depends on v, as the recorded control and data dependences have it. */
  ghost function RecordedRel(g: Graph, defs: seq<seq<nat>>, uses: seq<seq<nat>>, entry: nat): iset<(nat, nat)> {
    iset u: nat, v: nat | u < |g.succ| &&
      ((v < |g.succ| && Recorded(g, u, v)) || DataDependent(g, defs, uses, entry, u, v)) :: (u, v)
  }

  /** u depends on v, as paths alone have it. */
  ghost function DependenceRel(g: Graph, defs: seq<seq<nat>>, uses: seq<seq<nat>>, entry: nat): iset<(nat, nat)> {
    iset u: nat, v: nat | u < |g.succ| &&
      ((v < |g.succ| && ControlDependent(g, u, v)) || DataDependent(g, defs, uses, entry, u, v)) :: (u, v)
  }

  /** ComputeBackwardSlice, end to end. Block 0 is Exit and every statement can reach it. */
  method ComputeBackwardSlice(g: Graph, defs: seq<seq<nat>>, uses: seq<seq<nat>>, entry: nat, order: seq<nat>,
    start: nat, prior: seq<nat>)
    returns (slice: seq<nat>)
    requires g.Valid() && |defs| == |uses| == |g.succ| && AllBut(order, |defs|, entry)
    requires AllReachable(Invert(g))
    ensures NoRepeats(slice)
    ensures forall v :: v in slice <==> InSlice(RecordedRel(g, defs, uses, entry), start, prior, v)
    ensures prior == [] ==> forall v :: v in slice <==> InSlice(DependenceRel(g, defs, uses, entry), start, [], v)
  {
    hide Dom, ImmediateDom, AllReachable, Ranked, Recorded, DataDependent, InSlice, NoRepeats;
    var data, dataDepee := CreateDataDepGraph(g, defs, uses, entry, order);
    var inv := Invert(g);
    InvertValid(g);
    var idom, pre, post, rank := BuildDomTree(inv);
    var ctrl, ctrlDepee := FindControlDeps(inv, idom, pre, post, rank);
    TablesHold(g, defs, uses, entry, ctrl, data);
    slice := Worklist(ctrl, data, start, prior);
    if prior == [] {
      SelfLoopsDoNotMatter(g, defs, uses, entry, start);
    }
  }

  lemma TablesHold(g: Graph, defs: seq<seq<nat>>, uses: seq<seq<nat>>, entry: nat, ctrl: seq<seq<nat>>,
    data: seq<seq<nat>>)
    requires g.Valid() && |ctrl| == |data| == |g.succ| == |defs|
    requires forall n, i :: 0 <= n < |ctrl| && 0 <= i < |ctrl[n]| ==> ctrl[n][i] < |ctrl|
    requires forall n, c :: 0 <= n < |ctrl| && 0 <= c < |ctrl| ==> (c in ctrl[n] <==> Recorded(Invert(Invert(g)), n, c))
    requires forall u, d: nat :: 0 <= u < |data| ==> (d in data[u] <==> DataDependent(g, defs, uses, entry, u, d))
    ensures TableRel(ctrl, data) == RecordedRel(g, defs, uses, entry)
    ensures forall u, v: nat :: Dep(ctrl, data, u, v) ==> v < |ctrl|
  {
    hide Recorded;
    InvertValid(g);
    forall u: nat, v: nat
      ensures Dep(ctrl, data, u, v) <==> (u, v) in RecordedRel(g, defs, uses, entry)
      ensures Dep(ctrl, data, u, v) ==> v < |ctrl|
    {
    }
  }

  /** Dependences of a statement on itself, the only ones the traversal can miss, add nothing to a slice. */
  lemma SelfLoopsDoNotMatter(g: Graph, defs: seq<seq<nat>>, uses: seq<seq<nat>>, entry: nat, start: nat)
    requires g.Valid()
    ensures forall v :: InSlice(RecordedRel(g, defs, uses, entry), start, [], v) <==>
      InSlice(DependenceRel(g, defs, uses, entry), start, [], v)
  {
    var small, big := RecordedRel(g, defs, uses, entry), DependenceRel(g, defs, uses, entry);
    forall u: nat, v: nat
      ensures (u, v) in small ==> (u, v) in big
      ensures (u, v) in big && u != v ==> (u, v) in small
    {
      if u < |g.succ| && v < |g.succ| {
        MissedExactly(g, u, v);
      }
    }
    forall v: nat
      ensures InSlice(small, start, [], v) <==> InSlice(big, start, [], v)
    {
      if Chained(small, start, v) {
        var p :| Chain(small, p, start, v);
        assert Chain(big, p, start, v);
      }
      if v != start && Chained(big, start, v) {
        var p :| Chain(big, p, start, v);
        Shorten(small, big, p, start, v);
      }
    }
  }

  lemma {:induction false} Shorten(small: iset<(nat, nat)>, big: iset<(nat, nat)>, p: seq<nat>, a: nat, b: nat)
    requires Chain(big, p, a, b) && a != b
    requires forall u: nat, v: nat :: (u, v) in big && u != v ==> (u, v) in small
    ensures Chained(small, a, b)
    decreases |p|
  {
    var c := p[|p| - 2];
    assert (c, b) in big;
    if c == b {
      assert Chain(big, p[..|p| - 1], a, b);
      Shorten(small, big, p[..|p| - 1], a, b);
    } else if c == a {
      ChainMore(small, a, a, b);
    } else {
      assert Chain(big, p[..|p| - 1], a, c);
      Shorten(small, big, p[..|p| - 1], a, c);
      ChainMore(small, a, c, b);
    }
  }
}
