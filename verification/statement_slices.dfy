/** The slice of a function body, by the names of its statements. */
module StatementSlices {
  import Flow = StructuredFlow
  import Spec = CfgEdges
  import opened Finite
  import opened Graphs
  import opened CfgCapture
  import opened CfgExit
  import opened Statements
  import opened CfgBuilder
  import opened ControlDeps
  import opened Dataflow
  import opened BlockSlices
  import opened Dependences
  import Slicer

  // ----- ways of the program and paths of its numbered graph -----

  lemma BlocksHaveEnds(p: Flow.Code, blocks: Blocks, order: seq<nat>, g: Graph, x: nat, y: nat)
    requires GraphOf(p, blocks, order, g) && (x, y) in Spec.Graph(p)
    ensures x in order && y in order
  {
    assert (x, y) in EdgesOf(blocks);
  }

  /** q is w, by places. */
  predicate SameWay(order: seq<nat>, q: seq<nat>, w: seq<nat>) {
    |q| == |w| && forall k :: 0 <= k < |q| ==> q[k] < |order| && order[q[k]] == w[k]
  }

  /** The way along a path. */
  lemma PathIsWay(p: Flow.Code, blocks: Blocks, order: seq<nat>, g: Graph, q: seq<nat>) returns (w: seq<nat>)
    requires GraphOf(p, blocks, order, g) && IsPath(g, q)
    ensures SameWay(order, q, w) && Flow.Linked(w, Spec.Graph(p))
  {
    GraphValid(p, blocks, order, g);
    hide Spec.Graph, Mirrored;
    w := seq(|q|, k requires 0 <= k < |q| => order[q[k]]);
    forall i, j | 0 <= i && j == i + 1 < |w|
      ensures (w[i], w[j]) in Spec.Graph(p)
    {
      assert g.Edge(q[i], q[j]);
    }
  }

  /** The path along a way. */
  lemma WayIsPathOf(p: Flow.Code, blocks: Blocks, order: seq<nat>, g: Graph, w: seq<nat>) returns (q: seq<nat>)
    requires GraphOf(p, blocks, order, g) && w != [] && w[0] in order && Flow.Linked(w, Spec.Graph(p))
    ensures SameWay(order, q, w) && IsPath(g, q)
  {
    GraphValid(p, blocks, order, g);
    forall k: nat | k < |w|
      ensures w[k] in order
    {
      if k > 0 {
        var h := k - 1;
        assert (w[h], w[k]) in Spec.Graph(p);
        BlocksHaveEnds(p, blocks, order, g, w[h], w[k]);
      }
    }
    hide Spec.Graph, Mirrored;
    q := seq(|w|, k requires 0 <= k < |w| => IndexOf(order, w[k]));
    forall i, j | 0 <= i && j == i + 1 < |q|
      ensures g.Edge(q[i], q[j])
    {
      assert (w[i], w[j]) in Spec.Graph(p);
    }
  }

  lemma SameMembers(order: seq<nat>, q: seq<nat>, w: seq<nat>, n: nat)
    requires NoRepeats(order) && SameWay(order, q, w) && n < |order|
    ensures n in q <==> order[n] in w
  {
    if order[n] in w {
      var k :| 0 <= k < |w| && w[k] == order[n];
      SamePlace(order, q[k], n);
      assert q[k] in q;
    }
    if n in q {
      var k :| 0 <= k < |q| && q[k] == n;
      assert w[k] in w;
    }
  }

  lemma SamePlace(order: seq<nat>, i: nat, j: nat)
    requires NoRepeats(order) && i < |order| && j < |order| && order[i] == order[j]
    ensures i == j
  {
    assert i < j || j < i || i == j;
  }

  // ----- control dependence -----

  lemma SamePostDom(p: Flow.Code, blocks: Blocks, order: seq<nat>, g: Graph, n: nat, x: nat)
    requires GraphOf(p, blocks, order, g) && n < |order| && x < |order|
    ensures PostDom(g, n, x) <==> PostDominates(Spec.Graph(p), order[n], order[x])
  {
    var e := Spec.Graph(p);
    if PostDom(g, n, x) {
      forall w | WayTo(e, order[x], {Flow.EXIT}, w)
        ensures order[n] in w
      {
        var q := WayIsPathOf(p, blocks, order, g, w);
        SamePlace(order, q[0], x);
        SamePlace(order, q[|q| - 1], 0);
        assert PathFromTo(g, q, x, 0);
        SameMembers(order, q, w, n);
      }
    }
    if PostDominates(e, order[n], order[x]) {
      forall q | PathFromTo(g, q, x, 0)
        ensures n in q
      {
        var w := PathIsWay(p, blocks, order, g, q);
        assert WayTo(e, order[x], {Flow.EXIT}, w);
        SameMembers(order, q, w, n);
      }
    }
  }

  lemma SameVia(p: Flow.Code, blocks: Blocks, order: seq<nat>, g: Graph, n: nat, c: nat, x: nat)
    requires GraphOf(p, blocks, order, g) && n < |order| && c < |order| && x < |order|
    ensures DependsVia(g, n, c, x) <==> ControlledVia(Spec.Graph(p), order[n], order[c], order[x])
  {
    GraphValid(p, blocks, order, g);
    assert |g.succ| == |order|;
    assert n != c ==> order[n] != order[c] by {
      if order[n] == order[c] { SamePlace(order, n, c); }
    }
    hide GraphOf, Spec.Graph, PostDom, PostDominates;
    SamePostDom(p, blocks, order, g, n, c);
    SamePostDom(p, blocks, order, g, n, x);
  }

  lemma SameControl(p: Flow.Code, blocks: Blocks, order: seq<nat>, g: Graph, n: nat, c: nat)
    requires GraphOf(p, blocks, order, g) && n < |order| && c < |order|
    ensures ControlDependent(g, n, c) <==> ControlledBy(Spec.Graph(p), order[n], order[c])
  {
    var e := Spec.Graph(p);
    assert |g.succ| == |order|;
    hide GraphOf, Spec.Graph, PostDom, PostDominates;
    if ControlDependent(g, n, c) {
      var x: nat :| DependsVia(g, n, c, x);
      SameVia(p, blocks, order, g, n, c, x);
    }
    if ControlledBy(e, order[n], order[c]) {
      var y: nat :| ControlledVia(e, order[n], order[c], y);
      BlocksHaveEnds(p, blocks, order, g, order[c], y);
      SameVia(p, blocks, order, g, n, c, IndexOf(order, y));
    }
  }

  /** Only blocks depend on anything. */
  lemma ControlInBlocks(p: Flow.Code, blocks: Blocks, order: seq<nat>, g: Graph, n: nat, c: nat)
    requires Legal(p) && GraphOf(p, blocks, order, g) && ControlledBy(Spec.Graph(p), n, c)
    ensures n in order && c in order
  {
    var e := Spec.Graph(p);
    var x: nat :| ControlledVia(e, n, c, x);
    BlocksHaveEnds(p, blocks, order, g, c, x);
    EdgeEnds(p, c, x);
    var w := [x];
    if x != Flow.EXIT {
      ExitReachable(p, x);
      w :| WayTo(e, x, {Flow.EXIT}, w);
    }
    assert WayTo(e, x, {Flow.EXIT}, w);
    var k :| 0 <= k < |w| && w[k] == n;
    if k > 0 {
      var h := k - 1;
      assert (w[h], w[k]) in e;
      BlocksHaveEnds(p, blocks, order, g, w[h], n);
    }
  }

  // ----- data dependence -----

  /** The lists of a table, block by block. */
  function Rows(table: map<nat, seq<nat>>, order: seq<nat>): (rows: seq<seq<nat>>)
    ensures |rows| == |order| && forall i :: 0 <= i < |order| ==> rows[i] == VarsOf(table, order[i])
  {
    seq(|order|, i requires 0 <= i < |order| => VarsOf(table, order[i]))
  }

  /** The place of the entry, or none. */
  function EntryPlace(order: seq<nat>): (i: nat)
    ensures i < |order| ==> order[i] == Flow.ENTRY
    ensures i >= |order| ==> Flow.ENTRY !in order
  {
    if Flow.ENTRY in order then IndexOf(order, Flow.ENTRY) else |order|
  }

  lemma SameShare(order: seq<nat>, defs: map<nat, seq<nat>>, i: nat, j: nat)
    requires i < |order| && j < |order|
    ensures ShareDef(Rows(defs, order), i, j) <==> Common(defs, order[i], defs, order[j])
  {
    var rows := Rows(defs, order);
    if ShareDef(rows, i, j) {
      var v :| Defines(rows, i, v) && Defines(rows, j, v);
      assert v in VarsOf(defs, order[i]) && v in VarsOf(defs, order[j]);
    }
    if Common(defs, order[i], defs, order[j]) {
      var v :| v in VarsOf(defs, order[i]) && v in VarsOf(defs, order[j]);
      assert Defines(rows, i, v) && Defines(rows, j, v);
    }
  }

  /** A way carries all that v defines exactly when the path does, by places. */
  lemma SameReach(p: Flow.Code, blocks: Blocks, order: seq<nat>, g: Graph, defs: map<nat, seq<nat>>, v: nat, u: nat,
    q: seq<nat>, w: seq<nat>)
    requires Legal(p) && GraphOf(p, blocks, order, g) && v < |order| && u < |order|
    requires SameWay(order, q, w) && IsPath(g, q) && Flow.Linked(w, Spec.Graph(p)) && VarsOf(defs, order[v]) != []
    ensures ReachesAlong(g, Rows(defs, order), EntryPlace(order), v, u, q) <==>
      order[v] != Flow.ENTRY && Carried(Spec.Graph(p), defs, order[v], order[u], w)
  {
    var rows, entry := Rows(defs, order), EntryPlace(order);
    SameEnds(order, q, w, v, u);
    ClearOfEntry(p, order, q, w);
    hide Legal, Spec.Graph, Mirrored, Common, ShareDef, Rows, EntryPlace, NoRepeats, VarsOf;
    forall i | 0 < i < |w| - 1
      ensures ShareDef(rows, q[i], v) <==> Common(defs, w[i], defs, order[v])
      ensures q[i] == v <==> w[i] == order[v]
    {
      SameShare(order, defs, q[i], v);
      if w[i] == order[v] { SamePlace(order, q[i], v); }
    }
  }

  lemma SameEnds(order: seq<nat>, q: seq<nat>, w: seq<nat>, v: nat, u: nat)
    requires NoRepeats(order) && SameWay(order, q, w) && q != [] && v < |order| && u < |order|
    ensures q[0] == v <==> w[0] == order[v]
    ensures q[|q| - 1] == u <==> Flow.Last(w) == order[u]
  {
    if w[0] == order[v] { SamePlace(order, q[0], v); }
    if Flow.Last(w) == order[u] { SamePlace(order, q[|q| - 1], u); }
  }

  /** A path comes to the entry only at its start. */
  lemma ClearOfEntry(p: Flow.Code, order: seq<nat>, q: seq<nat>, w: seq<nat>)
    requires Legal(p) && NoRepeats(order) && SameWay(order, q, w) && q != [] && Flow.Linked(w, Spec.Graph(p))
    ensures EntryPlace(order) in q <==> w[0] == Flow.ENTRY
  {
    var entry := EntryPlace(order);
    if w[0] == Flow.ENTRY {
      assert order[q[0]] in order;
      SamePlace(order, q[0], entry);
      assert q[0] in q;
    }
    if entry in q {
      var k :| 0 <= k < |q| && q[k] == entry;
      if k > 0 {
        var h := k - 1;
        assert (w[h], w[k]) in Spec.Graph(p);
        EdgeEnds(p, w[h], w[k]);
        assert false;
      }
    }
  }

  lemma SameData(p: Flow.Code, blocks: Blocks, order: seq<nat>, g: Graph, defs: map<nat, seq<nat>>,
    uses: map<nat, seq<nat>>, u: nat, v: nat)
    requires Legal(p) && GraphOf(p, blocks, order, g) && u < |order| && v < |order|
    ensures Slicer.DataDependent(g, Rows(defs, order), Rows(uses, order), EntryPlace(order), u, v) <==>
      ReadsFrom(Spec.Graph(p), defs, uses, order[u], order[v])
  {
    var e, rows, entry := Spec.Graph(p), Rows(defs, order), EntryPlace(order);
    assert (exists x :: x in rows[v] && x in Rows(uses, order)[u]) <==> Common(defs, order[v], uses, order[u]);
    hide Legal, Spec.Graph, Mirrored, Carried, NoRepeats;
    if Common(defs, order[v], uses, order[u]) {
      if ReachesEntryOf(g, rows, entry, v, u) {
        var q :| ReachesAlong(g, rows, entry, v, u, q);
        var w := PathIsWay(p, blocks, order, g, q);
        SameReach(p, blocks, order, g, defs, v, u, q, w);
      }
      if ReadsFrom(e, defs, uses, order[u], order[v]) {
        var w :| Carried(e, defs, order[v], order[u], w);
        WayShape(e, defs, order[v], order[u], w);
        var q := WayIsPathOf(p, blocks, order, g, w);
        SameReach(p, blocks, order, g, defs, v, u, q, w);
      }
    }
  }

  lemma WayShape(e: Flow.Edges, defs: map<nat, seq<nat>>, v: nat, u: nat, w: seq<nat>)
    requires Carried(e, defs, v, u, w)
    ensures |w| >= 2 && w[0] == v && Flow.Last(w) == u && Flow.Linked(w, e)
    ensures exists x: nat, y: nat :: (v, x) in e && (y, u) in e
  {
    var i, j := 0, 1;
    assert (w[i], w[j]) in e;
    i, j := |w| - 2, |w| - 1;
    assert (w[i], w[j]) in e;
  }

  lemma DataInBlocks(p: Flow.Code, blocks: Blocks, order: seq<nat>, g: Graph, defs: map<nat, seq<nat>>,
    uses: map<nat, seq<nat>>, u: nat, v: nat)
    requires GraphOf(p, blocks, order, g) && ReadsFrom(Spec.Graph(p), defs, uses, u, v)
    ensures u in order && v in order
  {
    var e := Spec.Graph(p);
    var w :| Carried(e, defs, v, u, w);
    WayShape(e, defs, v, u, w);
    var x: nat, y: nat :| (v, x) in e && (y, u) in e;
    BlocksHaveEnds(p, blocks, order, g, v, x);
    BlocksHaveEnds(p, blocks, order, g, y, u);
  }

  // ----- slices -----

  /** The dependences among the blocks of a graph, by their places. */
  ghost function PlaceDeps(
    g: Graph, order: seq<nat>, defs: map<nat, seq<nat>>, uses: map<nat, seq<nat>>): iset<(nat, nat)>
  {
    Slicer.DependenceRel(g, Rows(defs, order), Rows(uses, order), EntryPlace(order))
  }

  /** rel relates the places of exactly those names that names relates. */
  ghost predicate SameRel(order: seq<nat>, rel: iset<(nat, nat)>, names: iset<(nat, nat)>) {
    && (forall i: nat, j: nat :: (i, j) in rel <==> i < |order| && j < |order| && (order[i], order[j]) in names)
    && (forall x: nat, y: nat :: (x, y) in names ==> x in order && y in order)
  }

  lemma SameDependences(p: Flow.Code, blocks: Blocks, order: seq<nat>, g: Graph, defs: map<nat, seq<nat>>,
    uses: map<nat, seq<nat>>)
    requires Legal(p) && GraphOf(p, blocks, order, g)
    ensures SameRel(order, PlaceDeps(g, order, defs, uses), DependsOn(Spec.Graph(p), defs, uses))
  {
    var e := Spec.Graph(p);
    assert |g.succ| == |order|;
    hide Legal, GraphOf, Spec.Graph, ControlDependent, ControlledBy, Slicer.DataDependent, ReadsFrom, Rows, EntryPlace;
    forall i: nat, j: nat | i < |order| && j < |order|
      ensures (i, j) in PlaceDeps(g, order, defs, uses) <==> (order[i], order[j]) in DependsOn(e, defs, uses)
    {
      SameControl(p, blocks, order, g, i, j);
      SameData(p, blocks, order, g, defs, uses, i, j);
    }
    forall i: nat, j: nat | (i, j) in PlaceDeps(g, order, defs, uses)
      ensures i < |order| && j < |order|
    {
      DataInRange(g, order, defs, uses, i, j);
    }
    forall x: nat, y: nat | (x, y) in DependsOn(e, defs, uses)
      ensures x in order && y in order
    {
      if ControlledBy(e, x, y) {
        ControlInBlocks(p, blocks, order, g, x, y);
      } else {
        DataInBlocks(p, blocks, order, g, defs, uses, x, y);
      }
    }
  }

  lemma DataInRange(g: Graph, order: seq<nat>, defs: map<nat, seq<nat>>, uses: map<nat, seq<nat>>, u: nat, v: nat)
    ensures Slicer.DataDependent(g, Rows(defs, order), Rows(uses, order), EntryPlace(order), u, v) ==> v < |order|
  {
  }

  lemma SameChain(order: seq<nat>, rel: iset<(nat, nat)>, names: iset<(nat, nat)>, i: nat, j: nat)
    requires NoRepeats(order) && SameRel(order, rel, names) && i < |order| && j < |order|
    ensures Slicer.Chained(rel, i, j) <==> Slicer.Chained(names, order[i], order[j])
  {
    if Slicer.Chained(rel, i, j) {
      var q :| Slicer.Chain(rel, q, i, j);
      forall k | 0 <= k < |q|
        ensures q[k] < |order|
      {
        if k > 0 {
          var h := k - 1;
          assert (q[h], q[k]) in rel;
        }
      }
      var w := seq(|q|, k requires 0 <= k < |q| => order[q[k]]);
      assert Slicer.Chain(names, w, order[i], order[j]);
    }
    if Slicer.Chained(names, order[i], order[j]) {
      var w :| Slicer.Chain(names, w, order[i], order[j]);
      forall k | 0 <= k < |w|
        ensures w[k] in order
      {
        if k > 0 {
          var h := k - 1;
          assert (w[h], w[k]) in names;
        }
      }
      var q := seq(|w|, k requires 0 <= k < |w| => IndexOf(order, w[k]));
      SamePlace(order, q[0], i);
      SamePlace(order, q[|q| - 1], j);
      assert Slicer.Chain(rel, q, i, j);
    }
  }

  lemma SameSlice(order: seq<nat>, rel: iset<(nat, nat)>, names: iset<(nat, nat)>, start: nat, v: nat)
    requires NoRepeats(order) && SameRel(order, rel, names)
    ensures start in order ==> (Slicer.InSlice(names, start, [], v) <==>
      v in order && Slicer.InSlice(rel, IndexOf(order, start), [], IndexOf(order, v)))
    ensures start !in order ==> (Slicer.InSlice(names, start, [], v) <==> v == start)
  {
    if v != start && Slicer.InSlice(names, start, [], v) {
      assert Slicer.Chained(names, start, v);
      var w :| Slicer.Chain(names, w, start, v);
      assert (w[0], w[1]) in names;
      var h, k := |w| - 2, |w| - 1;
      assert (w[h], w[k]) in names;
      assert start in order && v in order;
    }
    if start in order && v in order {
      SameChain(order, rel, names, IndexOf(order, start), IndexOf(order, v));
      var i, j := IndexOf(order, start), IndexOf(order, v);
      assert Slicer.InSlice(rel, i, [], j) <==> i == j || Slicer.Chained(rel, i, j);
      assert Slicer.InSlice(names, start, [], v) <==> start == v || Slicer.Chained(names, start, v);
      assert i == j <==> start == v;
    }
  }

  /** The backward slice of a function body: graph, post-dominators, control and data dependences and the worklist.
      It holds, without repeats, exactly the statements that start depends on, directly or not, in the graph of the
      body. */
  method SliceStatements(list: Stmts, defs: map<nat, seq<nat>>, uses: map<nat, seq<nat>>, start: nat)
    returns (slice: seq<nat>)
    requires Legal(PlainList(list))
    ensures NoRepeats(slice)
    ensures forall v: nat :: v in slice <==>
      Slicer.InSlice(DependsOn(Spec.Graph(PlainList(list)), defs, uses), start, [], v)
  {
    ghost var p := PlainList(list);
    var blocks := FromStmts(list);
    var order, g := InitializeBlocks(blocks, Flow.EXIT);
    ghost var names := DependsOn(Spec.Graph(p), defs, uses);
    SameDependences(p, blocks, order, g, defs, uses);
    assert NoRepeats(order);
    hide *;
    if start !in order {
      slice := [start];
      forall v: nat
        ensures v in slice <==> Slicer.InSlice(names, start, [], v)
      {
        SameSlice(order, PlaceDeps(g, order, defs, uses), names, start, v);
      }
      OneNoRepeats(start);
      return;
    }
    var places := SlicePlaces(p, blocks, order, g, defs, uses, start);
    slice := Named(order, places);
    NamedMeans(order, places);
    forall v: nat
      ensures v in slice <==> Slicer.InSlice(names, start, [], v)
    {
      SameSlice(order, PlaceDeps(g, order, defs, uses), names, start, v);
      if v in order { PlaceOfName(order, places, v); }
    }
  }

  lemma OneNoRepeats(x: nat)
    ensures NoRepeats([x])
  {
  }

  /** The places of the slice, in the numbered graph. */
  method SlicePlaces(
    ghost p: Flow.Code, ghost blocks: Blocks, order: seq<nat>, g: Graph, defs: map<nat, seq<nat>>,
      uses: map<nat, seq<nat>>, start: nat)
    returns (places: seq<nat>)
    requires Legal(p) && GraphOf(p, blocks, order, g) && start in order
    ensures NoRepeats(order) && NoRepeats(places) && forall i :: 0 <= i < |places| ==> places[i] < |order|
    ensures forall v: nat :: v in places <==>
      Slicer.InSlice(PlaceDeps(g, order, defs, uses), IndexOf(order, start), [], v)
  {
    GraphValid(p, blocks, order, g);
    InvertReachable(p, blocks, order, g);
    assert |g.succ| == |order| && NoRepeats(order);
    hide Legal, GraphOf, AllReachable, NoRepeats, Slicer.DependenceRel, Slicer.RecordedRel, Slicer.InSlice, AllBut;
    var entry := EntryPlace(order);
    var all := AllPlaces(|order|, entry);
    places := Slicer.ComputeBackwardSlice(g, Rows(defs, order), Rows(uses, order), entry, all, IndexOf(order, start),
      []);
    InSliceInRange(g, order, defs, uses, IndexOf(order, start));
    forall i | 0 <= i < |places|
      ensures places[i] < |order|
    {
      assert places[i] in places;
      assert Slicer.InSlice(PlaceDeps(g, order, defs, uses), IndexOf(order, start), [], places[i]);
    }
  }

  lemma InSliceInRange(g: Graph, order: seq<nat>, defs: map<nat, seq<nat>>, uses: map<nat, seq<nat>>, start: nat)
    requires |g.succ| == |order| && start < |order|
    ensures forall v: nat :: Slicer.InSlice(PlaceDeps(g, order, defs, uses), start, [], v) ==> v < |order|
  {
    var rel := PlaceDeps(g, order, defs, uses);
    forall v: nat | Slicer.InSlice(rel, start, [], v) && v != start
      ensures v < |order|
    {
      var r :| Slicer.IsRoot(start, [], r) && Slicer.Chained(rel, r, v);
      var q :| Slicer.Chain(rel, q, r, v);
      assert (q[|q| - 2], q[|q| - 1]) in rel;
    }
  }

  /** The blocks in the given places. */
  function Named(order: seq<nat>, places: seq<nat>): seq<nat>
    requires forall i :: 0 <= i < |places| ==> places[i] < |order|
  {
    seq(|places|, i requires 0 <= i < |places| => order[places[i]])
  }

  lemma NamedMeans(order: seq<nat>, places: seq<nat>)
    requires NoRepeats(order) && NoRepeats(places) && forall i :: 0 <= i < |places| ==> places[i] < |order|
    ensures NoRepeats(Named(order, places)) && forall v :: v in Named(order, places) ==> v in order
  {
    forall i, j | 0 <= i < j < |places|
      ensures order[places[i]] != order[places[j]]
    {
      assert places[i] < places[j] || places[j] < places[i];
    }
  }

  lemma PlaceOfName(order: seq<nat>, places: seq<nat>, v: nat)
    requires NoRepeats(order) && (forall i :: 0 <= i < |places| ==> places[i] < |order|) && v in order
    ensures v in Named(order, places) <==> IndexOf(order, v) in places
  {
    if v in Named(order, places) {
      var i :| 0 <= i < |places| && order[places[i]] == v;
      IndexUnique(order, places[i]);
    }
    if IndexOf(order, v) in places {
      var i :| 0 <= i < |places| && places[i] == IndexOf(order, v);
      assert Named(order, places)[i] == v;
    }
  }

  method AllPlaces(n: nat, entry: nat) returns (all: seq<nat>)
    ensures AllBut(all, n, entry)
  {
    all := [];
    for i := 0 to n
      invariant AllBut(all, i, entry)
    {
      if i != entry { all := all + [i]; }
    }
  }
}
