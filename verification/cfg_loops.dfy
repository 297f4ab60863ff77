/** Which statements of a program flow to themselves, and what they can reach without passing themselves again. */
module CfgLoops {
  import opened Finite
  import opened StructuredFlow
  import opened CfgEdges
  import opened CfgCapture
  import opened CfgExit

  /** Somewhere in c there is a loop numbered x with an empty body and no post statement. */
  predicate EmptyLoopIn(c: Code, x: nat) {
    match c
    case Seq(a, b) => EmptyLoopIn(a, x) || EmptyLoopIn(b, x)
    case If(_, yes, no, _) => EmptyLoopIn(yes, x) || EmptyLoopIn(no, x)
    case Loop(id, post, body) => (x == id && post.None? && Through(body)) || EmptyLoopIn(body, x)
    case Switch(_, cs) => EmptyLoopAmong(cs, x)
    case _ => false
  }

  predicate EmptyLoopAmong(cs: Clauses, x: nat) {
    cs.Clause? && (EmptyLoopIn(cs.body, x) || EmptyLoopAmong(cs.rest, x))
  }

  ghost predicate HasEmptyLoop(c: Code) {
    exists x: nat :: EmptyLoopIn(c, x)
  }

  lemma {:induction false} EmptyLoopIds(c: Code, x: nat)
    requires EmptyLoopIn(c, x)
    ensures x in Ids(c)
    decreases c
  {
    match c
    case Seq(a, b) => if EmptyLoopIn(a, x) { EmptyLoopIds(a, x); } else { EmptyLoopIds(b, x); }
    case If(_, yes, no, _) => if EmptyLoopIn(yes, x) { EmptyLoopIds(yes, x); } else { EmptyLoopIds(no, x); }
    case Loop(id, _, body) => if EmptyLoopIn(body, x) { EmptyLoopIds(body, x); }
    case Switch(_, cs) => EmptyLoopClauseIds(cs, x);
    case _ =>
  }

  lemma {:induction false} EmptyLoopClauseIds(cs: Clauses, x: nat)
    requires EmptyLoopAmong(cs, x)
    ensures x in ClauseIds(cs)
    decreases cs
  {
    if EmptyLoopIn(cs.body, x) { EmptyLoopIds(cs.body, x); } else { EmptyLoopClauseIds(cs.rest, x); }
  }

  // ----- self edges are empty loops -----

  /** Every self edge that building added belongs to an empty loop. */
  ghost predicate OnlyLoops(st: State, st': State, loops: iset<nat>) {
    forall x: nat :: (x, x) in st'.edges ==> (x, x) in st.edges || x in loops
  }

  ghost function LoopsIn(c: Code): iset<nat> { iset x: nat | EmptyLoopIn(c, x) }

  ghost function LoopsAmong(cs: Clauses): iset<nat> { iset x: nat | EmptyLoopAmong(cs, x) }

  lemma {:induction false} BuildOnlyLoops(c: Code, st: State)
    requires Numbered(c) && Apart(All(st), Ids(c)) && EXIT !in All(st) + Ids(c)
    ensures OnlyLoops(st, Build(c, st), LoopsIn(c))
    decreases c, 1
  {
    match c
    case Seq(a, b) =>
      BuildBounded(a, st);
      BuildOnlyLoops(a, st);
      BuildOnlyLoops(b, Build(a, st));
    case If(id, yes, no, chain) =>
      var st1 := Build(yes, Visit(st, id));
      BuildBounded(yes, Visit(st, id));
      BuildOnlyLoops(yes, Visit(st, id));
      BuildOnlyLoops(no, Chain(st1.(prev := {id}), chain));
    case Loop(_, _, body) =>
      BuildBounded(body, OpenLoop(st, c));
      BuildFlows(body, OpenLoop(st, c));
      BuildOnlyLoops(body, OpenLoop(st, c));
    case Switch(id, cs) => ClausesOnlyLoops(id, cs, Visit(st, id), {}, {});
    case _ =>
  }

  lemma {:induction false} ClausesOnlyLoops(sw: nat, cs: Clauses, st: State, falls: set<nat>, exits: set<nat>)
    requires ClausesNumbered(cs) && Apart({sw} + falls + st.breaks + st.conts, ClauseIds(cs))
    requires EXIT !in {sw} + falls + st.breaks + st.conts + ClauseIds(cs)
    ensures OnlyLoops(st, BuildClauses(sw, cs, st, falls, exits), LoopsAmong(cs))
    decreases cs, 1
  {
    if cs.Clause? {
      var st0 := AddSucc(st.(prev := {sw}), cs.id).(prev := {cs.id} + falls);
      var st1 := BuildClause(sw, cs, st, falls);
      BuildBounded(cs.body, st0);
      BuildOnlyLoops(cs.body, st0);
      ClausesOnlyLoops(sw, cs.rest, st1, if cs.fall.Some? then {cs.fall.value} else {}, exits + st1.prev);
    }
  }

  /** And every empty loop has one. */
  lemma {:induction false} LoopHasEdge(c: Code, st: State, x: nat)
    requires EmptyLoopIn(c, x)
    ensures (x, x) in Build(c, st).edges
    decreases c, 1
  {
    match c
    case Seq(a, b) =>
      BuildFlows(b, Build(a, st));
      if EmptyLoopIn(a, x) { LoopHasEdge(a, st, x); } else { LoopHasEdge(b, Build(a, st), x); }
    case If(id, yes, no, chain) =>
      var st1 := Build(yes, Visit(st, id));
      var st2 := Chain(st1.(prev := {id}), chain);
      BuildFlows(no, st2);
      if EmptyLoopIn(yes, x) { LoopHasEdge(yes, Visit(st, id), x); } else { LoopHasEdge(no, st2, x); }
    case Loop(id, _, body) =>
      BuildFlows(body, OpenLoop(st, c));
      if EmptyLoopIn(body, x) { LoopHasEdge(body, OpenLoop(st, c), x); }
    case Switch(id, cs) => ClauseLoopHasEdge(id, cs, Visit(st, id), {}, {}, x);
    case _ =>
  }

  lemma {:induction false} ClauseLoopHasEdge(sw: nat, cs: Clauses, st: State, falls: set<nat>, exits: set<nat>, x: nat)
    requires EmptyLoopAmong(cs, x)
    ensures (x, x) in BuildClauses(sw, cs, st, falls, exits).edges
    decreases cs, 1
  {
    var st0 := AddSucc(st.(prev := {sw}), cs.id).(prev := {cs.id} + falls);
    var st1 := BuildClause(sw, cs, st, falls);
    var falls2 := if cs.fall.Some? then {cs.fall.value} else {};
    ClausesFlow(sw, cs.rest, st1, falls2, exits + st1.prev);
    if EmptyLoopIn(cs.body, x) {
      LoopHasEdge(cs.body, st0, x);
    } else {
      ClauseLoopHasEdge(sw, cs.rest, st1, falls2, exits + st1.prev, x);
    }
  }

  /** In the graph of a program exactly the loops with an empty body and no post statement flow to themselves. */
  lemma SelfEdgeExactly(p: Code, x: nat)
    requires Legal(p)
    ensures (x, x) in Graph(p) <==> EmptyLoopIn(p, x)
  {
    var st := State({}, {ENTRY}, {}, {});
    BuildOnlyLoops(p, st);
    BuildBounded(p, st);
    if EmptyLoopIn(p, x) {
      LoopHasEdge(p, st, x);
    }
  }

  // ----- an empty loop is never forced upon what follows it -----

  /** Wherever off leads, other than back to itself, control gets ahead without it. */
  ghost predicate Leads(off: nat, st: State) {
    forall y :: (off, y) in st.edges && y != off ==> Avoids(st.edges, off, y, Ahead(st))
  }

  /** Whatever leads ahead of st leads ahead of st', and off has got no other edges. */
  lemma LeadsOn(off: nat, st: State, st': State)
    requires Leads(off, st) && st.edges <= st'.edges && AllEscape(st'.edges, off, Ahead(st), Ahead(st'))
    requires forall y :: (off, y) in st'.edges && y != off ==>
      (off, y) in st.edges || Avoids(st'.edges, off, y, Ahead(st'))
    ensures Leads(off, st')
  {
    forall y | (off, y) in st.edges && y != off
      ensures Avoids(st'.edges, off, y, Ahead(st'))
    {
      assert AllEscape(st.edges, off, {y}, Ahead(st));
      Onward(st.edges, st'.edges, off, {y}, Ahead(st), Ahead(st'));
    }
  }

  /** Code without off keeps it so. */
  lemma LeadsPast(off: nat, c: Code, st: State)
    requires Leads(off, st) && Closed(c) && Numbered(c) && off !in Ids(c) + {EXIT}
    ensures Leads(off, Build(c, st))
  {
    var st' := Build(c, st);
    BuildAdvances(off, c, st);
    BuildBounded(c, st);
    hide Build, Avoids;
    assert forall y :: (off, y) in st'.edges && (off, y) !in st.edges ==> y in Ids(c) + {EXIT};
    LeadsOn(off, st, st');
  }

  lemma {:induction false} LoopLeads(off: nat, c: Code, st: State)
    requires EmptyLoopIn(c, off) && Closed(c) && Numbered(c) && Untouched(Ids(c), st)
    ensures Leads(off, Build(c, st)) && off !in Build(c, st).breaks + Build(c, st).conts
    decreases c, 1
  {
    EmptyLoopIds(c, off);
    match c
    case Seq(a, b) =>
      BuildBounded(a, st);
      if EmptyLoopIn(a, off) {
        EmptyLoopIds(a, off);
        LoopLeads(off, a, st);
        BuildBounded(b, Build(a, st));
        LeadsPast(off, b, Build(a, st));
      } else {
        LoopLeads(off, b, Build(a, st));
      }
    case If(_, _, _, _) => IfLeads(off, c, st);
    case Loop(_, _, _) => InnerLoopLeads(off, c, st);
    case Switch(id, cs) =>
      var st1 := BuildClauses(id, cs, Visit(st, id), {}, {});
      EmptyLoopClauseIds(cs, off);
      ClauseLeads(off, id, cs, Visit(st, id), {}, {});
      StaysPut(st1.edges, off, Ahead(st1), Ahead(Build(c, st)));
      LeadsOn(off, st1, Build(c, st));
    case _ =>
  }

  lemma NoNewEdges(off: nat, c: Code, st: State)
    requires Numbered(c) && off !in All(st) + Ids(c)
    ensures forall y :: (off, y) in Build(c, st).edges ==> (off, y) in st.edges
  {
    BuildBounded(c, st);
  }

  /** The exits of st1 are set aside while other code is built from st2 to st3, and join again. */
  lemma LeadsAside(off: nat, st1: State, st2: State, st3: State, st': State, ids: set<nat>)
    requires Leads(off, st1) && st2.breaks == st1.breaks && st2.conts == st1.conts && st1.edges <= st2.edges
    requires Advances(off, ids, st2, st3) && st' == st3.(prev := st1.prev + st3.prev)
    requires forall y :: (off, y) in st2.edges ==> (off, y) in st1.edges
    requires forall y :: (off, y) in st3.edges ==> (off, y) in st2.edges
    ensures Leads(off, st')
  {
    hide Avoids, Leads;
    Widen(st3.edges, off, Ahead(st2) + ids, Ahead(st3), Ahead(st'));
    StaysPut(st3.edges, off, st1.prev, Ahead(st'));
    LeadsOn(off, st1, st');
  }

  lemma {:induction false} IfLeads(off: nat, c: Code, st: State)
    requires c.If? && EmptyLoopIn(c, off) && Closed(c) && Numbered(c) && Untouched(Ids(c), st)
    ensures Leads(off, Build(c, st)) && off !in Build(c, st).breaks + Build(c, st).conts
    decreases c, 0
  {
    var st0 := Visit(st, c.id);
    var st1 := Build(c.yes, st0);
    var st2 := Chain(st1.(prev := {c.id}), c.chain);
    var st3 := Build(c.no, st2);
    var st' := Build(c, st);
    BuildBounded(c.yes, st0);
    if EmptyLoopIn(c.yes, off) {
      EmptyLoopIds(c.yes, off);
      LoopLeads(off, c.yes, st0);
      BuildAdvances(off, c.no, st2);
      NoNewEdges(off, c.no, st2);
      BuildBounded(c.no, st2);
      hide Build, Avoids, Leads;
      LeadsAside(off, st1, st2, st3, st', Ids(c.no));
    } else {
      LoopLeads(off, c.no, st2);
      StaysPut(st3.edges, off, Ahead(st3), Ahead(st'));
      LeadsOn(off, st3, st');
    }
  }

  lemma {:induction false} InnerLoopLeads(off: nat, c: Code, st: State)
    requires c.Loop? && EmptyLoopIn(c, off) && Closed(c) && Numbered(c) && Untouched(Ids(c), st)
    ensures Leads(off, Build(c, st)) && off !in Build(c, st).breaks + Build(c, st).conts
    decreases c, 0
  {
    var st1 := OpenLoop(st, c);
    var st3 := Build(c.body, st1);
    var st' := Build(c, st);
    var e := st'.edges;
    BuildBounded(c.body, st1);
    if EmptyLoopIn(c.body, off) {
      EmptyLoopIds(c.body, off);
      LoopLeads(off, c.body, st1);
      BuildFlows(c.body, st1);
      StaysPut(e, off, {c.id, EXIT} + st3.breaks, Ahead(st'));
      OneStep(e, off, OptionIds(c.post), c.id);
      Onward(e, e, off, OptionIds(c.post), {c.id}, Ahead(st'));
      OneStep(e, off, st3.prev + st3.conts, Target(c));
      Onward(e, e, off, st3.prev + st3.conts, {Target(c)}, Ahead(st'));
      hide Build, Avoids;
      assert Avoids(e, off, Target(c), Ahead(st'));
      LeadsOn(off, st3, st');
    } else {
      BuildFlows(c.body, st1);
    }
  }

  /** From the body of a clause, built to st1, through its fallthrough and the other clauses. */
  lemma RestLeads(off: nat, sw: nat, cs: Clauses, st1: State, st2: State, exits: set<nat>)
    requires cs.Clause? && Leads(off, st1) && ClausesClosed(cs) && ClausesNumbered(cs) && off != sw
    requires st2 == if cs.fall.Some? then Visit(st1, cs.fall.value).(prev := {}) else st1
    requires off !in st1.breaks + st1.conts + OptionIds(cs.fall) + ClauseIds(cs.rest) + {EXIT}
    ensures Leads(off, BuildClauses(sw, cs.rest, st2, if cs.fall.Some? then {cs.fall.value} else {}, exits + st2.prev))
  {
    var falls2 := if cs.fall.Some? then {cs.fall.value} else {};
    var st' := BuildClauses(sw, cs.rest, st2, falls2, exits + st2.prev);
    BodyAdvances(off, cs, st1, st2);
    ClausesAdvance(off, sw, cs.rest, st2, falls2, exits + st2.prev);
    ClausesFlow(sw, cs.rest, st2, falls2, exits + st2.prev);
    ClausesBounded(sw, cs.rest, st2, falls2, exits + st2.prev);
    hide Avoids, BuildClauses, Leads;
    Fewer(st'.edges, off, Ahead(st2) + falls2, Waiting(sw, cs.rest, st2, falls2, exits + st2.prev), Ahead(st'));
    Onward(st2.edges, st'.edges, off, Ahead(st1) + falls2, Ahead(st2) + falls2, Ahead(st'));
    assert forall y :: (off, y) in st'.edges ==> (off, y) in st2.edges;
    assert forall y :: (off, y) in st2.edges ==> (off, y) in st1.edges || y in falls2;
    LeadsOn(off, st1, st');
  }

  lemma {:induction false} ClauseLeads(off: nat, sw: nat, cs: Clauses, st: State, falls: set<nat>, exits: set<nat>)
    requires EmptyLoopAmong(cs, off) && ClausesClosed(cs) && ClausesNumbered(cs) && off != sw
    requires Untouched(ClauseIds(cs), State(st.edges, {sw} + falls, st.breaks, st.conts))
    ensures Leads(off, BuildClauses(sw, cs, st, falls, exits))
    ensures off !in BuildClauses(sw, cs, st, falls, exits).breaks + BuildClauses(sw, cs, st, falls, exits).conts
    decreases cs, 1
  {
    var st' := BuildClauses(sw, cs, st, falls, exits);
    var st0 := AddSucc(st.(prev := {sw}), cs.id).(prev := {cs.id} + falls);
    var st1 := Build(cs.body, st0);
    var st2 := BuildClause(sw, cs, st, falls);
    var falls2 := if cs.fall.Some? then {cs.fall.value} else {};
    BuildBounded(cs.body, st0);
    if EmptyLoopIn(cs.body, off) {
      EmptyLoopIds(cs.body, off);
      LoopLeads(off, cs.body, st0);
      ClausesBounded(sw, cs.rest, st2, falls2, exits + st2.prev);
      hide Build, Avoids, Leads;
      RestLeads(off, sw, cs, st1, st2, exits);
    } else {
      ClauseLeads(off, sw, cs.rest, st2, falls2, exits + st2.prev);
    }
  }

  /** In the graph of a program, whatever an empty loop leads to can reach the exit without passing it again. */
  lemma EmptyLoopLeavesFree(p: Code, off: nat, y: nat)
    requires Legal(p) && EmptyLoopIn(p, off) && (off, y) in Graph(p) && y != off
    ensures Avoids(Graph(p), off, y, {EXIT})
  {
    var st' := Build(p, State({}, {ENTRY}, {}, {}));
    EmptyLoopIds(p, off);
    LoopLeads(off, p, State({}, {ENTRY}, {}, {}));
    EndEscapes(off, p, st');
    StaysPut(Graph(p), off, {EXIT}, {EXIT});
    if (off, y) in st'.edges {
      assert AllEscape(st'.edges, off, {y}, Ahead(st'));
      Onward(st'.edges, Graph(p), off, {y}, Ahead(st'), {EXIT});
    }
  }
}
