/** Control can always reach the exit of the built graph. */
module CfgExit {
  import opened StructuredFlow
  import opened CfgEdges
  import opened CfgCapture
  import opened Finite

  /** Along the edges e there is a way from x to one of the statements ys. */
  ghost predicate Escapes(e: Edges, x: nat, ys: set<nat>) {
    exists w :: WayTo(e, x, ys, w)
  }

  ghost predicate WayTo(e: Edges, x: nat, ys: set<nat>, w: seq<nat>) {
    w != [] && w[0] == x && Last(w) in ys && Linked(w, e)
  }

  /** There is even a way that does not touch off. */
  ghost predicate Avoids(e: Edges, off: nat, x: nat, ys: set<nat>) {
    exists w :: WayTo(e, x, ys, w) && off !in w
  }

  ghost predicate AllEscape(e: Edges, off: nat, xs: set<nat>, ys: set<nat>) {
    forall x :: x in xs && x != off ==> Avoids(e, off, x, ys)
  }

  lemma StaysPut(e: Edges, off: nat, xs: set<nat>, ys: set<nat>)
    requires xs <= ys
    ensures AllEscape(e, off, xs, ys)
  {
    forall x | x in xs && x != off
      ensures Avoids(e, off, x, ys)
    {
      assert WayTo(e, x, ys, [x]) && off !in [x];
    }
  }

  lemma OneStep(e: Edges, off: nat, xs: set<nat>, y: nat)
    requires Cross(xs, y) <= e && y != off
    ensures AllEscape(e, off, xs, {y})
  {
    forall x | x in xs && x != off
      ensures Avoids(e, off, x, {y})
    {
      assert (x, y) in Cross(xs, y);
      assert WayTo(e, x, {y}, [x, y]) && off !in [x, y];
    }
  }

  /** From xs to ys, and from ys on to zs, when more edges are there. */
  lemma Onward(e: Edges, f: Edges, off: nat, xs: set<nat>, ys: set<nat>, zs: set<nat>)
    requires e <= f && AllEscape(e, off, xs, ys) && AllEscape(f, off, ys, zs)
    ensures AllEscape(f, off, xs, zs)
  {
    forall x | x in xs && x != off
      ensures Avoids(f, off, x, zs)
    {
      var v :| WayTo(e, x, ys, v) && off !in v;
      var w :| WayTo(f, Last(v), zs, w) && off !in w;
      var n := |v| - 1;
      LinkedMore(v, e, f);
      assert v == v[..n] + [Last(v)] && w == [Last(v)] + w[1..];
      LinkedJoin(v[..n], Last(v), w[1..], f);
      assert v[..n] + [Last(v)] + w[1..] == v[..n] + w;
      assert WayTo(f, x, zs, v[..n] + w) && off !in v[..n] + w;
    }
  }

  /** Where control still is after building, the exit included. */
  function Ahead(st: State): set<nat> { All(st) + {EXIT} }

  /** What was waiting and what is new gets ahead. */
  ghost predicate Advances(off: nat, ids: set<nat>, st: State, st': State) {
    st.edges <= st'.edges && AllEscape(st'.edges, off, Ahead(st) + ids, Ahead(st'))
  }

  lemma AdvancesBoth(off: nat, i: set<nat>, j: set<nat>, st: State, st1: State, st2: State)
    requires Advances(off, i, st, st1) && Advances(off, j, st1, st2)
    ensures Advances(off, i + j, st, st2)
  {
    Onward(st1.edges, st2.edges, off, Ahead(st) + i, Ahead(st1), Ahead(st2));
  }

  lemma VisitAdvances(off: nat, st: State, id: nat)
    requires id != off
    ensures Advances(off, {id}, st, Visit(st, id))
  {
    var e := Visit(st, id).edges;
    OneStep(e, off, st.prev, id);
    StaysPut(e, off, st.breaks + st.conts + {EXIT, id}, Ahead(Visit(st, id)));
    Onward(e, e, off, st.prev, {id}, Ahead(Visit(st, id)));
  }

  lemma Widen(e: Edges, off: nat, xs: set<nat>, ys: set<nat>, zs: set<nat>)
    requires AllEscape(e, off, xs, ys) && ys <= zs
    ensures AllEscape(e, off, xs, zs)
  {
    StaysPut(e, off, ys, zs);
    Onward(e, e, off, xs, ys, zs);
  }

  lemma {:induction false} BuildAdvances(off: nat, c: Code, st: State)
    requires Closed(c) && off !in Ids(c) + {EXIT}
    ensures Advances(off, Ids(c), st, Build(c, st))
    decreases c, 1
  {
    var st' := Build(c, st);
    match c
    case Skip => StaysPut(st.edges, off, Ahead(st), Ahead(st));
    case Seq(a, b) =>
      BuildAdvances(off, a, st);
      BuildAdvances(off, b, Build(a, st));
      AdvancesBoth(off, Ids(a), Ids(b), st, Build(a, st), st');
    case If(_, _, _, _) => IfAdvances(off, c, st);
    case Loop(_, _, _) => LoopAdvances(off, c, st);
    case Switch(_, _) => SwitchAdvances(off, c, st);
    case Simple(id) => VisitAdvances(off, st, id);
    case Return(id) =>
      VisitAdvances(off, st, id);
      OneStep(st'.edges, off, {id}, EXIT);
      StaysPut(st'.edges, off, st.breaks + st.conts + {EXIT}, Ahead(st'));
      Widen(st'.edges, off, {id}, {EXIT}, Ahead(st'));
      Onward(Visit(st, id).edges, st'.edges, off, Ahead(st) + {id}, Ahead(Visit(st, id)), Ahead(st'));
    case Break(id) =>
      VisitAdvances(off, st, id);
      Widen(st'.edges, off, Ahead(st) + {id}, Ahead(Visit(st, id)), Ahead(st'));
    case Continue(id) =>
      VisitAdvances(off, st, id);
      Widen(st'.edges, off, Ahead(st) + {id}, Ahead(Visit(st, id)), Ahead(st'));
  }

  lemma {:induction false} IfAdvances(off: nat, c: Code, st: State)
    requires c.If? && Closed(c) && off !in Ids(c) + {EXIT}
    ensures Advances(off, Ids(c), st, Build(c, st))
    decreases c, 0
  {
    var st0 := Visit(st, c.id);
    var st1 := Build(c.yes, st0);
    var st2 := Chain(st1.(prev := {c.id}), c.chain);
    var st3 := Build(c.no, st2);
    var st' := Build(c, st);
    VisitAdvances(off, st, c.id);
    BuildAdvances(off, c.yes, st0);
    AdvancesBoth(off, {c.id}, Ids(c.yes), st, st0, st1);
    BuildAdvances(off, c.no, st2);
    Widen(st3.edges, off, Ahead(st2) + Ids(c.no), Ahead(st3), Ahead(st'));
    StaysPut(st3.edges, off, st1.prev, Ahead(st'));
    Onward(st1.edges, st3.edges, off, Ahead(st) + ({c.id} + Ids(c.yes)), Ahead(st1), Ahead(st'));
  }

  lemma {:induction false} LoopAdvances(off: nat, c: Code, st: State)
    requires c.Loop? && Closed(c) && off !in Ids(c) + {EXIT}
    ensures Advances(off, Ids(c), st, Build(c, st))
    decreases c, 0
  {
    var st1 := OpenLoop(st, c);
    var st3 := Build(c.body, st1);
    var st' := Build(c, st);
    var e := st'.edges;
    BuildAdvances(off, c.body, st1);
    StaysPut(e, off, {c.id, EXIT} + st3.breaks, Ahead(st'));
    OneStep(e, off, OptionIds(c.post), c.id);
    Onward(e, e, off, OptionIds(c.post), {c.id}, Ahead(st'));
    OneStep(e, off, st3.prev + st3.conts, Target(c));
    Onward(e, e, off, st3.prev + st3.conts, {Target(c)}, Ahead(st'));
    Onward(st3.edges, e, off, Ahead(st1) + Ids(c.body), Ahead(st3), Ahead(st'));
    OneStep(e, off, st.prev, c.id);
    Onward(e, e, off, st.prev, {c.id}, Ahead(st'));
  }

  lemma {:induction false} SwitchAdvances(off: nat, c: Code, st: State)
    requires c.Switch? && Closed(c) && off !in Ids(c) + {EXIT}
    ensures Advances(off, Ids(c), st, Build(c, st))
    decreases c, 0
  {
    var st1 := Visit(st, c.id);
    var st2 := BuildClauses(c.id, c.clauses, st1, {}, {});
    var st' := Build(c, st);
    ClausesAdvance(off, c.id, c.clauses, st1, {}, {});
    ClausesFlow(c.id, c.clauses, st1, {}, {});
    VisitAdvances(off, st, c.id);
    Widen(st2.edges, off, Waiting(c.id, c.clauses, st1, {}, {}), Ahead(st2), Ahead(st'));
    if !HasDefault(c.clauses) {
      StaysPut(st2.edges, off, {c.id}, Ahead(st'));
    }
    Onward(st1.edges, st2.edges, off, Ahead(st) + {c.id}, Ahead(st1), Ahead(st'));
  }

  /** What the clauses of a switch still have to lead on. */
  function Waiting(sw: nat, cs: Clauses, st: State, falls: set<nat>, exits: set<nat>): set<nat> {
    falls + exits + st.breaks + st.conts + {EXIT} + ClauseIds(cs) + if cs.Clause? then {sw} else {}
  }

  lemma {:induction false} ClausesAdvance(off: nat, sw: nat, cs: Clauses, st: State, falls: set<nat>, exits: set<nat>)
    requires ClausesClosed(cs) && (falls != {} ==> cs.Clause?) && off !in ClauseIds(cs) + {EXIT}
    ensures var st' := BuildClauses(sw, cs, st, falls, exits);
      AllEscape(st'.edges, off, Waiting(sw, cs, st, falls, exits), Ahead(st'))
    decreases cs, 1
  {
    var st' := BuildClauses(sw, cs, st, falls, exits);
    if cs.NoClause? {
      StaysPut(st'.edges, off, Waiting(sw, cs, st, falls, exits), Ahead(st'));
    } else {
      var st0 := AddSucc(st.(prev := {sw}), cs.id).(prev := {cs.id} + falls);
      var st1 := Build(cs.body, st0);
      var st2 := BuildClause(sw, cs, st, falls);
      var falls2 := if cs.fall.Some? then {cs.fall.value} else {};
      var next := Waiting(sw, cs.rest, st2, falls2, exits + st2.prev);
      hide AllEscape, Waiting, Build;
      BuildAdvances(off, cs.body, st0);
      ClausesFlow(sw, cs.rest, st2, falls2, exits + st2.prev);
      BodyAdvances(off, cs, st1, st2);
      ClausesAdvance(off, sw, cs.rest, st2, falls2, exits + st2.prev);
      OneStep(st'.edges, off, {sw}, cs.id);
      WaitingParts(sw, cs, st, falls, exits, st0, st2, falls2);
      Relay(off, st1.edges, st2.edges, st'.edges, Ahead(st0) + Ids(cs.body), Ahead(st1), falls2, Ahead(st2) + falls2,
        next, sw, cs.id, Ahead(st'));
      Fewer(st'.edges, off, Waiting(sw, cs, st, falls, exits), next + (Ahead(st0) + Ids(cs.body)) + {sw}, Ahead(st'));
    }
  }

  lemma Fewer(e: Edges, off: nat, ws: set<nat>, xs: set<nat>, ys: set<nat>)
    requires AllEscape(e, off, xs, ys) && ws <= xs
    ensures AllEscape(e, off, ws, ys)
  {
  }

  lemma WaitingParts(sw: nat, cs: Clauses, st: State, falls: set<nat>, exits: set<nat>, st0: State, st2: State,
    falls2: set<nat>)
    requires cs.Clause? && falls2 == OptionIds(cs.fall)
    requires st0.prev == {cs.id} + falls && st0.breaks == st.breaks && st0.conts == st.conts
    ensures var next := Waiting(sw, cs.rest, st2, falls2, exits + st2.prev);
      Ahead(st2) + falls2 <= next && Waiting(sw, cs, st, falls, exits) <= next + (Ahead(st0) + Ids(cs.body)) + {sw}
  {
    hide Ids;
  }

  /** Three stages, and sw that leads to the first. */
  lemma Relay(
    off: nat, e: Edges, f: Edges, g: Edges, one: set<nat>, two: set<nat>, falls: set<nat>, three: set<nat>,
    next: set<nat>, sw: nat, id: nat, goal: set<nat>)
    requires e <= f <= g && id in one && three <= next
    requires AllEscape(e, off, one, two) && AllEscape(f, off, two + falls, three) && AllEscape(g, off, next, goal) &&
      AllEscape(g, off, {sw}, {id})
    ensures AllEscape(g, off, next + one + {sw}, goal)
  {
    hide Avoids;
    Onward(f, g, off, two + falls, three, goal);
    Onward(e, g, off, one, two, goal);
    Onward(g, g, off, {sw}, {id}, goal);
  }

  /** From the body of a clause to its fallthrough, if it has one. */
  lemma BodyAdvances(off: nat, cs: Clauses, st1: State, st2: State)
    requires cs.Clause? && off !in OptionIds(cs.fall)
    requires st2 == if cs.fall.Some? then Visit(st1, cs.fall.value).(prev := {}) else st1
    ensures st1.edges <= st2.edges
    ensures var falls := OptionIds(cs.fall); AllEscape(st2.edges, off, Ahead(st1) + falls, Ahead(st2) + falls)
  {
    if cs.fall.Some? {
      VisitAdvances(off, st1, cs.fall.value);
      Widen(st2.edges, off, Ahead(st1) + {cs.fall.value}, Ahead(Visit(st1, cs.fall.value)),
        Ahead(st2) + {cs.fall.value});
    } else {
      StaysPut(st2.edges, off, Ahead(st1) + OptionIds(cs.fall), Ahead(st2) + OptionIds(cs.fall));
    }
  }

  /** A branch that may not leave c is not pending after it. */
  lemma {:induction false} NoStrayBranches(c: Code, brk: bool, cont: bool, st: State)
    requires Enclosed(c, brk, cont)
    ensures !brk ==> Build(c, st).breaks <= st.breaks
    ensures !cont ==> Build(c, st).conts <= st.conts
    decreases c
  {
    match c
    case Seq(a, b) =>
      NoStrayBranches(a, brk, cont, st);
      NoStrayBranches(b, brk, cont, Build(a, st));
    case If(id, yes, no, chain) =>
      var st1 := Build(yes, Visit(st, id));
      NoStrayBranches(yes, brk, cont, Visit(st, id));
      NoStrayBranches(no, brk, cont, Chain(st1.(prev := {id}), chain));
    case Switch(id, cs) => NoStrayContinues(id, cs, cont, Visit(st, id), {}, {});
    case _ =>
  }

  lemma {:induction false} NoStrayContinues(sw: nat, cs: Clauses, cont: bool, st: State, falls: set<nat>,
    exits: set<nat>)
    requires ClausesEnclosed(cs, cont)
    ensures !cont ==> BuildClauses(sw, cs, st, falls, exits).conts <= st.conts
    decreases cs
  {
    if cs.Clause? {
      var st1 := BuildClause(sw, cs, st, falls);
      NoStrayBranches(cs.body, true, cont, AddSucc(st.(prev := {sw}), cs.id).(prev := {cs.id} + falls));
      NoStrayContinues(sw, cs.rest, cont, st1, if cs.fall.Some? then {cs.fall.value} else {}, exits + st1.prev);
    }
  }

  /** From what the builder has at hand in the end, control reaches the exit. */
  lemma EndEscapes(off: nat, p: Code, st': State)
    requires st' == Build(p, State({}, {ENTRY}, {}, {})) && Enclosed(p, false, false) && off != EXIT
    ensures st'.edges <= Graph(p) && AllEscape(Graph(p), off, Ahead(st'), {EXIT})
  {
    NoStrayBranches(p, false, false, State({}, {ENTRY}, {}, {}));
    OneStep(Graph(p), off, st'.prev, EXIT);
    StaysPut(Graph(p), off, {EXIT}, {EXIT});
  }

  /** From every statement of a legal program, dead ones included, the graph has a path to the exit,
      captured branches or not: the inverted graph reaches all of it. */
  lemma ExitReachable(p: Code, x: nat)
    requires Legal(p) && x in Ids(p) + {ENTRY}
    ensures Escapes(Graph(p), x, {EXIT})
  {
    var st := State({}, {ENTRY}, {}, {});
    var st' := Build(p, st);
    var off := FreshNumber(Ids(p) + {ENTRY, EXIT});
    BuildAdvances(off, p, st);
    EndEscapes(off, p, st');
    Onward(st'.edges, Graph(p), off, Ahead(st) + Ids(p), Ahead(st'), {EXIT});
    assert Avoids(Graph(p), off, x, {EXIT});
  }
}
