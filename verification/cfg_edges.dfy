/** What the graph builder does to its edges, its control exits and its pending branches. */
module CfgEdges {
  import opened Finite
  import opened StructuredFlow

  /** prev are the statements to hook up to the next one; breaks and conts are the branches nobody has handled yet. */
  datatype State = State(edges: Edges, prev: set<nat>, breaks: set<nat>, conts: set<nat>)

  function AddSucc(st: State, id: nat): State {
    st.(edges := st.edges + Cross(st.prev, id))
  }

  /** Straight-line flow. */
  function Visit(st: State, id: nat): State {
    AddSucc(st, id).(prev := {id})
  }

  function Build(c: Code, st: State): State
    decreases c
  {
    match c
    case Skip => st
    case Seq(a, b) => Build(b, Build(a, st))
    case Simple(id) => Visit(st, id)
    case Return(id) => AddSucc(Visit(st, id), EXIT).(prev := {})
    case Break(id) => Visit(st, id).(prev := {}, breaks := st.breaks + {id})
    case Continue(id) => Visit(st, id).(prev := {}, conts := st.conts + {id})
    case If(id, yes, no, chain) =>
      var st1 := Build(yes, Visit(st, id));
      var st2 := Build(no, Chain(st1.(prev := {id}), chain));
      st2.(prev := st1.prev + st2.prev)
    case Loop(id, post, body) => CloseLoop(Build(body, OpenLoop(st, c)), c)
    case Switch(id, cs) =>
      var st1 := BuildClauses(id, cs, Visit(st, id), {}, {});
      st1.(prev := st1.prev + (if HasDefault(cs) then {} else {id}) + st1.breaks, breaks := {})
  }

  function Chain(st: State, chain: Option<nat>): State {
    if chain.Some? then AddSucc(st, chain.value) else st
  }

  function OpenLoop(st: State, c: Code): State
    requires c.Loop?
  {
    var st1 := AddSucc(st, c.id);
    var st2 := if c.post.Some? then AddSucc(st1.(prev := {c.post.value}), c.id) else st1;
    st2.(prev := {c.id})
  }

  /** All pending branches are taken for the loop's own. */
  function CloseLoop(st: State, c: Code): State
    requires c.Loop?
  {
    State(st.edges + Cross(st.prev, Target(c)) + Cross(st.conts, Target(c)), {c.id} + st.breaks, {}, {})
  }

  /** Ends with the exits of all clauses in prev. */
  function BuildClauses(sw: nat, cs: Clauses, st: State, falls: set<nat>, exits: set<nat>): State
    decreases cs
  {
    if cs.NoClause? then st.(prev := exits)
    else
      var st1 := BuildClause(sw, cs, st, falls);
      BuildClauses(sw, cs.rest, st1, if cs.fall.Some? then {cs.fall.value} else {}, exits + st1.prev)
  }

  function BuildClause(sw: nat, cs: Clauses, st: State, falls: set<nat>): State
    requires cs.Clause?
    decreases cs, 0
  {
    var st1 := Build(cs.body, AddSucc(st.(prev := {sw}), cs.id).(prev := {cs.id} + falls));
    if cs.fall.Some? then Visit(st1, cs.fall.value).(prev := {}) else st1
  }

  function Graph(p: Code): Edges {
    AddSucc(Build(p, State({}, {ENTRY}, {}, {})), EXIT).edges
  }

  // ----- which branches are captured -----

  /** The live breaks that are still pending after c, out of those pending before and those in c. */
  function PendingBreaks(c: Code, live: bool, bs: set<nat>): set<nat>
    decreases c
  {
    match c
    case Break(id) => if live then bs + {id} else bs
    case Seq(a, b) => PendingBreaks(b, live && Completes(a), PendingBreaks(a, live, bs))
    case If(_, yes, no, _) => PendingBreaks(no, live, PendingBreaks(yes, live, bs))
    case Loop(_, _, _) => {}
    case Switch(_, _) => {}
    case _ => bs
  }

  /** The live continues that are still pending after c. */
  function PendingConts(c: Code, live: bool, ks: set<nat>): set<nat>
    decreases c
  {
    match c
    case Continue(id) => if live then ks + {id} else ks
    case Seq(a, b) => PendingConts(b, live && Completes(a), PendingConts(a, live, ks))
    case If(_, yes, no, _) => PendingConts(no, live, PendingConts(yes, live, ks))
    case Loop(_, _, _) => {}
    case Switch(_, cs) => ClausePendingConts(cs, live, ks)
    case _ => ks
  }

  function ClausePendingConts(cs: Clauses, live: bool, ks: set<nat>): set<nat>
    decreases cs
  {
    if cs.NoClause? then ks else ClausePendingConts(cs.rest, live, PendingConts(cs.body, live, ks))
  }

  /** No loop or switch in c takes a live branch that belongs to a statement around it,
      where bs and ks are the breaks and continues pending before c.
      A break may be taken at the tail of the clause it leaves, since control comes out there anyway. */
  predicate Scoped(c: Code, live: bool, bs: set<nat>, ks: set<nat>, tail: bool)
    decreases c
  {
    match c
    case Seq(a, b) =>
      && Scoped(a, live, bs, ks, tail && Through(b))
      && Scoped(b, live && Completes(a), PendingBreaks(a, live, bs), PendingConts(a, live, ks), tail)
    case If(_, yes, no, _) =>
      && Scoped(yes, live, bs, ks, tail)
      && Scoped(no, live, PendingBreaks(yes, live, bs), PendingConts(yes, live, ks), tail)
    case Loop(_, _, body) => ks == {} && (bs == {} || tail) && Scoped(body, live, bs, {}, false)
    case Switch(_, cs) => (bs == {} || tail) && ClausesScoped(cs, live, bs, ks)
    case _ => true
  }

  predicate ClausesScoped(cs: Clauses, live: bool, bs: set<nat>, ks: set<nat>)
    decreases cs
  {
    cs.Clause? ==>
      && Scoped(cs.body, live, bs, ks, cs.fall.None?)
      && ClausesScoped(cs.rest, live, PendingBreaks(cs.body, live, bs), PendingConts(cs.body, live, ks))
  }

  function ClausePendingBreaks(cs: Clauses, live: bool, bs: set<nat>): set<nat>
    decreases cs
  {
    if cs.NoClause? then bs else ClausePendingBreaks(cs.rest, live, PendingBreaks(cs.body, live, bs))
  }

  // ----- scoped programs keep every transfer -----

  /** Edges are only added; empty code does nothing; control flows into c from all of prev. */
  ghost predicate Flows(c: Code, st: State, st': State) {
    st.edges <= st'.edges && (Through(c) ==> st' == st) && Enter(st.prev, c) <= st'.edges
  }

  lemma {:induction false} BuildFlows(c: Code, st: State)
    ensures Flows(c, st, Build(c, st))
    decreases c
  {
    match c
    case Seq(a, b) =>
      BuildFlows(a, st);
      BuildFlows(b, Build(a, st));
    case If(id, yes, no, chain) =>
      var st1 := Build(yes, Visit(st, id));
      BuildFlows(yes, Visit(st, id));
      BuildFlows(no, Chain(st1.(prev := {id}), chain));
    case Loop(_, _, body) => BuildFlows(body, OpenLoop(st, c));
    case Switch(id, cs) => ClausesFlow(id, cs, Visit(st, id), {}, {});
    case _ =>
  }

  lemma {:induction false} ClausesFlow(sw: nat, cs: Clauses, st: State, falls: set<nat>, exits: set<nat>)
    ensures st.edges <= BuildClauses(sw, cs, st, falls, exits).edges
    ensures exits <= BuildClauses(sw, cs, st, falls, exits).prev
    decreases cs
  {
    if cs.Clause? {
      var st1 := BuildClause(sw, cs, st, falls);
      BuildFlows(cs.body, AddSucc(st.(prev := {sw}), cs.id).(prev := {cs.id} + falls));
      ClausesFlow(sw, cs.rest, st1, if cs.fall.Some? then {cs.fall.value} else {}, exits + st1.prev);
    }
  }

  function When(live: bool, xs: set<nat>): set<nat> { if live then xs else {} }

  /** The state after c has the transfers and exits of c, and no pending or new branch has gone astray. */
  ghost predicate Kept(c: Code, live: bool, bs: set<nat>, ks: set<nat>, tail: bool, st': State) {
    && PendingBreaks(c, live, bs) <= st'.breaks && PendingConts(c, live, ks) <= st'.conts
    && (live ==> Inner(c) <= st'.edges && Exits(c) <= st'.prev)
    && bs + When(live, Brks(c)) <= PendingBreaks(c, live, bs) + When(tail, st'.prev)
    && ks + When(live, Conts(c)) <= PendingConts(c, live, ks)
  }

  lemma {:induction false} ThroughIdle(c: Code, live: bool, bs: set<nat>)
    requires Through(c)
    ensures PendingBreaks(c, live, bs) == bs && PendingConts(c, live, bs) == bs
    ensures Brks(c) == {} && Conts(c) == {} && Exits(c) == {} && Inner(c) == {}
  {
    if c.Seq? {
      ThroughIdle(c.first, live, bs);
      ThroughIdle(c.rest, live, bs);
    }
  }

  lemma {:induction false} Covers(c: Code, live: bool, bs: set<nat>, ks: set<nat>, tail: bool, st: State)
    requires Scoped(c, live, bs, ks, tail) && bs <= st.breaks && ks <= st.conts
    ensures Kept(c, live, bs, ks, tail, Build(c, st))
    decreases c, 1
  {
    match c
    case Seq(a, b) => SeqCovers(c, live, bs, ks, tail, st);
    case If(id, yes, no, chain) => IfCovers(c, live, bs, ks, tail, st);
    case Loop(_, _, body) => LoopCovers(c, live, bs, ks, tail, st);
    case Switch(id, cs) =>
      ClausesCover(id, cs, live, bs, ks, Visit(st, id), {}, {}, {});
    case _ =>
  }

  lemma {:induction false} SeqCovers(c: Code, live: bool, bs: set<nat>, ks: set<nat>, tail: bool, st: State)
    requires c.Seq? && Scoped(c, live, bs, ks, tail) && bs <= st.breaks && ks <= st.conts
    ensures Kept(c, live, bs, ks, tail, Build(c, st))
    decreases c, 0
  {
    var a, b := c.first, c.rest;
    var st1 := Build(a, st);
    var bs1, ks1 := PendingBreaks(a, live, bs), PendingConts(a, live, ks);
    Covers(a, live, bs, ks, tail && Through(b), st);
    Covers(b, live && Completes(a), bs1, ks1, tail, st1);
    BuildFlows(b, st1);
    if Through(b) {
      ThroughIdle(b, live && Completes(a), bs1);
      ThroughIdle(b, live && Completes(a), ks1);
    }
  }

  lemma {:induction false} IfCovers(c: Code, live: bool, bs: set<nat>, ks: set<nat>, tail: bool, st: State)
    requires c.If? && Scoped(c, live, bs, ks, tail) && bs <= st.breaks && ks <= st.conts
    ensures Kept(c, live, bs, ks, tail, Build(c, st))
    decreases c, 0
  {
    var yes, no := c.yes, c.no;
    var st0 := Visit(st, c.id);
    var st1 := Build(yes, st0);
    var st2 := Chain(st1.(prev := {c.id}), c.chain);
    Covers(yes, live, bs, ks, tail, st0);
    Covers(no, live, PendingBreaks(yes, live, bs), PendingConts(yes, live, ks), tail, st2);
    BuildFlows(yes, st0);
    BuildFlows(no, st2);
  }

  lemma {:induction false} LoopCovers(c: Code, live: bool, bs: set<nat>, ks: set<nat>, tail: bool, st: State)
    requires c.Loop? && Scoped(c, live, bs, ks, tail) && bs <= st.breaks && ks <= st.conts
    ensures Kept(c, live, bs, ks, tail, Build(c, st))
    decreases c, 0
  {
    var st1 := OpenLoop(st, c);
    Covers(c.body, live, bs, {}, false, st1);
    BuildFlows(c.body, st1);
  }

  lemma {:induction false} ClausesCover(
    sw: nat, cs: Clauses, live: bool, bs: set<nat>, ks: set<nat>, st: State, falls: set<nat>, more: set<nat>,
      exits: set<nat>)
    requires ClausesScoped(cs, live, bs, ks) && bs <= st.breaks && ks <= st.conts && falls <= more
    ensures var st' := BuildClauses(sw, cs, st, more, exits);
      && ClausePendingBreaks(cs, live, bs) <= st'.breaks && ClausePendingConts(cs, live, ks) <= st'.conts
      && (live ==> ClauseInner(sw, cs, falls) <= st'.edges && ClauseExits(cs, falls) <= st'.prev)
      && bs + When(live, ClauseBrks(cs)) <= ClausePendingBreaks(cs, live, bs) + st'.prev
      && ks + When(live, ClauseConts(cs)) <= ClausePendingConts(cs, live, ks)
    decreases cs, 1
  {
    if cs.Clause? {
      var st0 := AddSucc(st.(prev := {sw}), cs.id).(prev := {cs.id} + more);
      var st1 := Build(cs.body, st0);
      var st2 := BuildClause(sw, cs, st, more);
      var more2 := if cs.fall.Some? then {cs.fall.value} else {};
      var falls2 := Falls(cs, Out({cs.id} + falls, cs.body));
      Covers(cs.body, live, bs, ks, cs.fall.None?, st0);
      BuildFlows(cs.body, st0);
      ClausesFlow(sw, cs.rest, st2, more2, exits + st2.prev);
      ClausesCover(sw, cs.rest, live, PendingBreaks(cs.body, live, bs), PendingConts(cs.body, live, ks), st2, falls2,
        more2, exits + st2.prev);
    }
  }

  /** Where no branch is captured, every transfer of the program is an edge of its graph. */
  lemma ScopedKeepsTransfers(p: Code)
    requires Scoped(p, true, {}, {}, false)
    ensures Transfers(p) <= Graph(p)
  {
    var st := State({}, {ENTRY}, {}, {});
    Covers(p, true, {}, {}, false, st);
    BuildFlows(p, st);
  }
}
