/** Control and data dependence between statements, by the ways through their graph, and what the slicer makes of it. */
module Dependences {
  import opened Finite
  import Flow = StructuredFlow
  import Spec = CfgEdges
  import opened CfgCapture
  import opened CfgExit
  import opened Statements

  /** Every way from x to the exit passes n. */
  ghost predicate PostDominates(e: Flow.Edges, n: nat, x: nat) {
    forall w :: WayTo(e, x, {Flow.EXIT}, w) ==> n in w
  }

  /** c decides whether n is executed: one way out of c cannot avoid n, another can. */
  ghost predicate ControlledBy(e: Flow.Edges, n: nat, c: nat) {
    exists x: nat :: ControlledVia(e, n, c, x)
  }

  ghost predicate ControlledVia(e: Flow.Edges, n: nat, c: nat, x: nat) {
    (c, x) in e && PostDominates(e, n, x) && !(n != c && PostDominates(e, n, c))
  }

  /** The variables that the table lists for x. */
  function VarsOf(table: map<nat, seq<nat>>, x: nat): seq<nat> {
    if x in table then table[x] else []
  }

  predicate Common(table: map<nat, seq<nat>>, x: nat, other: map<nat, seq<nat>>, y: nat) {
    exists v :: v in VarsOf(table, x) && v in VarsOf(other, y)
  }

  /** Way w leads from v to u, and in between nothing but v itself defines any variable that v defines. */
  ghost predicate Carried(e: Flow.Edges, defs: map<nat, seq<nat>>, v: nat, u: nat, w: seq<nat>) {
    && |w| >= 2 && w[0] == v && Flow.Last(w) == u && Flow.Linked(w, e)
    && (forall i :: 0 < i < |w| - 1 ==> w[i] == v || !Common(defs, w[i], defs, v))
  }

  /** u reads a variable that v defines, and all that v defines can come to u as v left it. The entry defines
      nothing. */
  ghost predicate ReadsFrom(
    e: Flow.Edges, defs: map<nat, seq<nat>>, uses: map<nat, seq<nat>>, u: nat, v: nat) {
    v != Flow.ENTRY && Common(defs, v, uses, u) && exists w :: Carried(e, defs, v, u, w)
  }

  /** u depends on v. */
  ghost function DependsOn(
    e: Flow.Edges, defs: map<nat, seq<nat>>, uses: map<nat, seq<nat>>): iset<(nat, nat)>
  {
    iset u: nat, v: nat | ControlledBy(e, u, v) || ReadsFrom(e, defs, uses, u, v) :: (u, v)
  }

  // ----- data dependence variable by variable -----

  /** Way w leads from v to u, and in between nothing but v itself defines variable x. */
  ghost predicate CarriedVar(e: Flow.Edges, defs: map<nat, seq<nat>>, x: nat, v: nat, u: nat, w: seq<nat>) {
    && |w| >= 2 && w[0] == v && Flow.Last(w) == u && Flow.Linked(w, e)
    && (forall i :: 0 < i < |w| - 1 ==> w[i] == v || x !in VarsOf(defs, w[i]))
  }

  /** u reads a variable that v defines, and that variable can come to u as v left it. */
  ghost predicate ReadsVarFrom(
    e: Flow.Edges, defs: map<nat, seq<nat>>, uses: map<nat, seq<nat>>, u: nat, v: nat) {
    v != Flow.ENTRY && exists x: nat, w ::
      x in VarsOf(defs, v) && x in VarsOf(uses, u) && CarriedVar(e, defs, x, v, u, w)
  }

  /** Some statement defines one variable of another and not all of them. */
  ghost predicate Overlaps(defs: map<nat, seq<nat>>) {
    exists v: nat, t: nat :: OverlapsAt(defs, v, t)
  }

  ghost predicate OverlapsAt(defs: map<nat, seq<nat>>, v: nat, t: nat) {
    && v != t && {v, t} !! {Flow.ENTRY, Flow.EXIT} && Common(defs, v, defs, t)
    && exists x: nat :: x in VarsOf(defs, v) && x !in VarsOf(defs, t)
  }

  /** In the program list the slicer's data dependences are those of single variables. */
  ghost predicate DataExact(list: Stmts, defs: map<nat, seq<nat>>, uses: map<nat, seq<nat>>) {
    forall u: nat, v: nat :: ReadsFrom(Spec.Graph(PlainList(list)), defs, uses, u, v) <==>
      ReadsVarFrom(Spec.Graph(PlainList(list)), defs, uses, u, v)
  }

  /** What the slicer takes for a data dependence is one. */
  lemma ReadsIsReadsVar(e: Flow.Edges, defs: map<nat, seq<nat>>, uses: map<nat, seq<nat>>, u: nat, v: nat)
    requires ReadsFrom(e, defs, uses, u, v)
    ensures ReadsVarFrom(e, defs, uses, u, v)
  {
    var x :| x in VarsOf(defs, v) && x in VarsOf(uses, u);
    var w :| Carried(e, defs, v, u, w);
    assert CarriedVar(e, defs, x, v, u, w);
  }

  /** And it misses none where no statement partly redefines another. */
  lemma ReadsVarIsReads(p: Flow.Code, defs: map<nat, seq<nat>>, uses: map<nat, seq<nat>>, u: nat, v: nat)
    requires Legal(p) && !Overlaps(defs) && ReadsVarFrom(Spec.Graph(p), defs, uses, u, v)
    ensures ReadsFrom(Spec.Graph(p), defs, uses, u, v)
  {
    var e := Spec.Graph(p);
    var x: nat, w :| x in VarsOf(defs, v) && x in VarsOf(uses, u) && CarriedVar(e, defs, x, v, u, w);
    hide Spec.Graph;
    forall i | 0 < i < |w| - 1
      ensures w[i] == v || !Common(defs, w[i], defs, v)
    {
      Inner(p, w, i);
      Inner(p, w, 0);
      assert !OverlapsAt(defs, v, w[i]);
    }
    assert Carried(e, defs, v, u, w);
  }

  /** Nothing on a way but its start and end can be the entry or the exit. */
  lemma Inner(p: Flow.Code, w: seq<nat>, i: nat)
    requires Legal(p) && Flow.Linked(w, Spec.Graph(p)) && i < |w| - 1
    ensures (i > 0 || w[0] != Flow.ENTRY) ==> w[i] in Ids(p) && w[i] !in {Flow.ENTRY, Flow.EXIT}
  {
    var j := i + 1;
    assert (w[i], w[j]) in Spec.Graph(p);
    EdgeEnds(p, w[i], w[j]);
    if i > 0 {
      var h := i - 1;
      assert (w[h], w[i]) in Spec.Graph(p);
      EdgeEnds(p, w[h], w[i]);
    }
  }

  /** Three statements in a row. */
  function Three(v: nat, t: nat, u: nat): Stmts {
    Cons(Simple(v), Cons(Simple(t), Cons(Simple(u), Nil)))
  }

  lemma ThreeGraph(v: nat, t: nat, u: nat)
    requires v != t && v != u && t != u && {v, t, u} !! {Flow.ENTRY, Flow.EXIT}
    ensures var p := PlainList(Three(v, t, u));
      Legal(p) && Spec.Graph(p) == {(Flow.ENTRY, v), (v, t), (t, u), (u, Flow.EXIT)}
  {
    var c := Flow.Seq(Flow.Simple(u), Flow.Skip);
    var b := Flow.Seq(Flow.Simple(t), c);
    var p := Flow.Seq(Flow.Simple(v), b);
    assert PlainList(Cons(Simple(u), Nil)) == c;
    assert PlainList(Cons(Simple(t), Cons(Simple(u), Nil))) == b;
    assert PlainList(Three(v, t, u)) == p;
    var st := Spec.State({}, {Flow.ENTRY}, {}, {});
    var st1 := Spec.State({(Flow.ENTRY, v)}, {v}, {}, {});
    var st2 := Spec.State({(Flow.ENTRY, v), (v, t)}, {t}, {}, {});
    var st3 := Spec.State({(Flow.ENTRY, v), (v, t), (t, u)}, {u}, {}, {});
    OneMore(u, Flow.Skip, st2);
    OneMore(t, c, st1);
    OneMore(v, b, st);
    assert Spec.Visit(st, v) == st1 && Spec.Visit(st1, t) == st2 && Spec.Visit(st2, u) == st3;
    hide Spec.Build, Ids, Numbered, Enclosed, Closed, Spec.Visit;
    assert Ids(p) == {v, t, u};
    assert Spec.Graph(p) == Spec.AddSucc(st3, Flow.EXIT).edges;
  }

  lemma OneMore(x: nat, c: Flow.Code, st: Spec.State)
    requires x !in Ids(c) && Numbered(c) && Enclosed(c, false, false) && Closed(c)
    ensures var p := Flow.Seq(Flow.Simple(x), c);
      Ids(p) == {x} + Ids(c) && Numbered(p) && Enclosed(p, false, false) && Closed(p) &&
      Spec.Build(p, st) == Spec.Build(c, Spec.Visit(st, x))
  {
    var first := Flow.Simple(x);
    assert Ids(first) == {x} && Numbered(first) && Enclosed(first, false, false) && Closed(first);
    assert Spec.Build(first, st) == Spec.Visit(st, x);
  }

  /** There the middle statement hides what it does not define. */
  lemma OverlapHides(defs: map<nat, seq<nat>>, v: nat, t: nat, u: nat, x: nat)
    requires OverlapsAt(defs, v, t) && x in VarsOf(defs, v) && x !in VarsOf(defs, t)
    requires u != v && u != t && u !in {Flow.ENTRY, Flow.EXIT}
    ensures Legal(PlainList(Three(v, t, u))) && !DataExact(Three(v, t, u), defs, map[u := [x]])
  {
    ThreeGraph(v, t, u);
    var e := Spec.Graph(PlainList(Three(v, t, u)));
    var uses := map[u := [x]];
    hide Spec.Graph, Legal, OverlapsAt;
    var w := [v, t, u];
    assert Flow.Linked(w, e);
    assert CarriedVar(e, defs, x, v, u, w);
    assert ReadsVarFrom(e, defs, uses, u, v);
    forall w
      ensures !Carried(e, defs, v, u, w)
    {
      if |w| >= 2 && w[0] == v && Flow.Linked(w, e) {
        var i, j := 0, 1;
        assert (w[i], w[j]) in e && w[j] == t;
      }
    }
  }

  /** The slicer's data dependences are exactly those of single variables, in all programs, exactly when no statement
      defines some but not all variables of another. */
  lemma DataExactly(defs: map<nat, seq<nat>>)
    ensures (forall list: Stmts, uses :: Legal(PlainList(list)) ==> DataExact(list, defs, uses)) <==> !Overlaps(defs)
  {
    hide Legal;
    if Overlaps(defs) {
      var v: nat, t: nat :| OverlapsAt(defs, v, t);
      var x: nat :| x in VarsOf(defs, v) && x !in VarsOf(defs, t);
      var u := v + t + 2;
      OverlapHides(defs, v, t, u, x);
    } else {
      forall list: Stmts, uses: map<nat, seq<nat>> | Legal(PlainList(list))
        ensures DataExact(list, defs, uses)
      {
        forall u: nat, v: nat
          ensures ReadsFrom(Spec.Graph(PlainList(list)), defs, uses, u, v) <==>
            ReadsVarFrom(Spec.Graph(PlainList(list)), defs, uses, u, v)
        {
          var e := Spec.Graph(PlainList(list));
          if ReadsFrom(e, defs, uses, u, v) { ReadsIsReadsVar(e, defs, uses, u, v); }
          if ReadsVarFrom(e, defs, uses, u, v) { ReadsVarIsReads(PlainList(list), defs, uses, u, v); }
        }
      }
    }
  }
}
