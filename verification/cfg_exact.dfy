/** The graph has no edges but those that executions take, and the shortcuts of else-ifs. */
module CfgExact {
  import opened Finite
  import opened StructuredFlow
  import opened CfgEdges
  import opened CfgCapture
  import opened CfgTraces

  // ----- the statements that control can come to -----

  function Live(c: Code): set<nat> {
    match c
    case Skip => {}
    case Seq(a, b) => Live(a) + if Completes(a) then Live(b) else {}
    case If(id, yes, no, _) => {id} + Live(yes) + Live(no)
    case Loop(id, post, body) =>
      {id} + Live(body) + if Out({id}, body) + Conts(body) != {} then OptionIds(post) else {}
    case Switch(id, cs) => {id} + ClauseLive(cs, {})
    case _ => {c.id}
  }

  function ClauseLive(cs: Clauses, falls: set<nat>): set<nat> {
    if cs.NoClause? then {}
    else
      var next := Falls(cs, Out({cs.id} + falls, cs.body));
      {cs.id} + Live(cs.body) + next + ClauseLive(cs.rest, next)
  }

  lemma {:induction false} LiveWithin(c: Code)
    ensures Live(c) <= Ids(c)
    decreases c
  {
    match c
    case Seq(a, b) =>
      LiveWithin(a);
      LiveWithin(b);
    case If(_, yes, no, _) =>
      LiveWithin(yes);
      LiveWithin(no);
    case Loop(_, _, body) => LiveWithin(body);
    case Switch(_, cs) => ClauseLiveWithin(cs, {});
    case _ =>
  }

  lemma {:induction false} ClauseLiveWithin(cs: Clauses, falls: set<nat>)
    ensures ClauseLive(cs, falls) <= ClauseIds(cs)
    decreases cs
  {
    if cs.Clause? {
      LiveWithin(cs.body);
      ClauseLiveWithin(cs.rest, Falls(cs, Out({cs.id} + falls, cs.body)));
    }
  }

  // ----- edges out of live statements are transfers -----

  /** The edges from an if to the if that its else consists of. */
  function Chains(c: Code): Edges {
    match c
    case Seq(a, b) => Chains(a) + Chains(b)
    case If(id, yes, no, chain) => (if chain.Some? then {(id, chain.value)} else {}) + Chains(yes) + Chains(no)
    case Loop(_, _, body) => Chains(body)
    case Switch(_, cs) => ClauseChains(cs)
    case _ => {}
  }

  function ClauseChains(cs: Clauses): Edges {
    if cs.NoClause? then {} else Chains(cs.body) + ClauseChains(cs.rest)
  }

  function WhenEdges(live: bool, e: Edges): Edges { if live then e else {} }

  /** If x is a statement of c, control can come to it. */
  predicate Alive(c: Code, live: bool, x: nat) { x in Ids(c) ==> live && x in Live(c) }

  /** What the state after c says of a live x: no edges but transfers and chains, and no exits and pending branches but
      those of c. */
  ghost predicate Exact(c: Code, live: bool, bs: set<nat>, ks: set<nat>, tail: bool, x: nat, st: State, st': State) {
    && (forall y :: (x, y) in st'.edges ==>
          (x, y) in st.edges + Enter(st.prev, c) + WhenEdges(live, Inner(c)) + Chains(c))
    && (x in st'.prev ==>
          if Through(c) then x in st.prev else x in When(live, Exits(c)) + When(tail, bs + When(live, Brks(c))))
    && (x in st'.breaks ==> x in PendingBreaks(c, live, bs))
    && (x in st'.conts ==> x in PendingConts(c, live, ks))
  }

  lemma PendingInside(c: Code, live: bool, bs: set<nat>, ks: set<nat>)
    ensures PendingBreaks(c, live, bs) <= bs + When(live, Brks(c))
    ensures PendingConts(c, live, ks) <= ks + When(live, Conts(c))
  {
    PendingWithin(c, live, bs, ks, State({}, {}, bs, ks));
  }

  lemma {:induction false} BuildExact(c: Code, live: bool, bs: set<nat>, ks: set<nat>, tail: bool, x: nat, st: State)
    requires Numbered(c) && Scoped(c, live, bs, ks, tail) && Alive(c, live, x)
    requires (x in st.breaks ==> x in bs) && (x in st.conts ==> x in ks)
    ensures Exact(c, live, bs, ks, tail, x, st, Build(c, st))
    decreases c, 1
  {
    match c
    case Seq(_, _) => SeqExact(c, live, bs, ks, tail, x, st);
    case If(_, _, _, _) => IfExact(c, live, bs, ks, tail, x, st);
    case Loop(_, _, _) => LoopExact(c, live, bs, ks, tail, x, st);
    case Switch(_, _) => SwitchExact(c, live, bs, ks, tail, x, st);
    case _ =>
  }

  lemma {:induction false} SeqExact(c: Code, live: bool, bs: set<nat>, ks: set<nat>, tail: bool, x: nat, st: State)
    requires c.Seq? && Numbered(c) && Scoped(c, live, bs, ks, tail) && Alive(c, live, x)
    requires (x in st.breaks ==> x in bs) && (x in st.conts ==> x in ks)
    ensures Exact(c, live, bs, ks, tail, x, st, Build(c, st))
    decreases c, 0
  {
    var a, b := c.first, c.rest;
    var st1 := Build(a, st);
    LiveWithin(a);
    LiveWithin(b);
    BuildExact(a, live, bs, ks, tail && Through(b), x, st);
    BuildExact(b, live && Completes(a), PendingBreaks(a, live, bs), PendingConts(a, live, ks), tail, x, st1);
    BuildFlows(a, st);
    BuildFlows(b, st1);
    assert Build(c, st) == Build(b, st1);
    hide Scoped, Numbered, Alive, Live, Ids, Build;
    SeqJoins(c, live, bs, ks, tail, x, st, st1, Build(c, st));
  }

  lemma SeqJoins(
    c: Code, live: bool, bs: set<nat>, ks: set<nat>, tail: bool, x: nat, st: State, st1: State, st2: State)
    requires c.Seq? && Exact(c.first, live, bs, ks, tail && Through(c.rest), x, st, st1)
    requires Exact(c.rest, live && Completes(c.first), PendingBreaks(c.first, live, bs),
      PendingConts(c.first, live, ks), tail, x, st1, st2)
    requires (Through(c.first) ==> st1 == st) && (Through(c.rest) ==> st2 == st1)
    ensures Exact(c, live, bs, ks, tail, x, st, st2)
  {
    var a, b := c.first, c.rest;
    PendingInside(a, live, bs, ks);
    if Through(a) { ThroughIdle(a, live, bs); }
    if Through(b) { ThroughIdle(b, live, bs); }
  }

  lemma {:induction false} IfExact(c: Code, live: bool, bs: set<nat>, ks: set<nat>, tail: bool, x: nat, st: State)
    requires c.If? && Numbered(c) && Scoped(c, live, bs, ks, tail) && Alive(c, live, x)
    requires (x in st.breaks ==> x in bs) && (x in st.conts ==> x in ks)
    ensures Exact(c, live, bs, ks, tail, x, st, Build(c, st))
    decreases c, 0
  {
    var st0 := Visit(st, c.id);
    var st1 := Build(c.yes, st0);
    LiveWithin(c.yes);
    LiveWithin(c.no);
    BuildExact(c.yes, live, bs, ks, tail, x, st0);
    BuildExact(c.no, live, PendingBreaks(c.yes, live, bs), PendingConts(c.yes, live, ks), tail, x,
      Chain(st1.(prev := {c.id}), c.chain));
    PendingInside(c.yes, live, bs, ks);
  }

  lemma {:induction false} LoopExact(c: Code, live: bool, bs: set<nat>, ks: set<nat>, tail: bool, x: nat, st: State)
    requires c.Loop? && Numbered(c) && Scoped(c, live, bs, ks, tail) && Alive(c, live, x)
    requires (x in st.breaks ==> x in bs) && (x in st.conts ==> x in ks)
    ensures Exact(c, live, bs, ks, tail, x, st, Build(c, st))
    decreases c, 0
  {
    LiveWithin(c.body);
    BuildExact(c.body, live, bs, {}, false, x, OpenLoop(st, c));
    PendingInside(c.body, live, bs, {});
  }

  lemma {:induction false} SwitchExact(c: Code, live: bool, bs: set<nat>, ks: set<nat>, tail: bool, x: nat, st: State)
    requires c.Switch? && Numbered(c) && Scoped(c, live, bs, ks, tail) && Alive(c, live, x)
    requires (x in st.breaks ==> x in bs) && (x in st.conts ==> x in ks)
    ensures Exact(c, live, bs, ks, tail, x, st, Build(c, st))
    decreases c, 0
  {
    ClauseLiveWithin(c.clauses, {});
    ClausesExact(c.id, c.clauses, live, bs, ks, x, Visit(st, c.id), {}, {}, {});
    ClausesPendingInside(c.clauses, live, bs);
  }

  lemma {:induction false} ClausesPendingInside(cs: Clauses, live: bool, bs: set<nat>)
    ensures ClausePendingBreaks(cs, live, bs) <= bs + When(live, ClauseBrks(cs))
    decreases cs
  {
    if cs.Clause? {
      PendingInside(cs.body, live, bs, {});
      ClausesPendingInside(cs.rest, live, PendingBreaks(cs.body, live, bs));
    }
  }

  /** The first clause, with its fallthrough. */
  lemma {:induction false} ClauseExact(
    sw: nat, cs: Clauses, live: bool, bs: set<nat>, ks: set<nat>, x: nat, st: State, falls: set<nat>, more: set<nat>)
    requires cs.Clause? && ClausesNumbered(cs) && Scoped(cs.body, live, bs, ks, cs.fall.None?)
    requires (x in ClauseIds(cs) ==> live && x in ClauseLive(cs, falls)) && (x == sw ==> live)
    requires (x in st.breaks ==> x in bs) && (x in st.conts ==> x in ks) && (x in more ==> live && x in falls)
    requires more !! ClauseIds(cs)
    ensures var st' := BuildClause(sw, cs, st, more);
      && (forall y :: (x, y) in st'.edges ==>
            (x, y) in st.edges + WhenEdges(live, ClauseInner(sw, cs, falls)) + Chains(cs.body))
      && (x in st'.prev ==> cs.fall.None? && x in When(live, Out({cs.id} + falls, cs.body) + Brks(cs.body)) + bs)
      && (x in st'.breaks ==> x in PendingBreaks(cs.body, live, bs))
      && (x in st'.conts ==> x in PendingConts(cs.body, live, ks))
    decreases cs, 0, 1
  {
    var st0 := AddSucc(st.(prev := {sw}), cs.id).(prev := {cs.id} + more);
    LiveWithin(cs.body);
    ClauseLiveWithin(cs.rest, Falls(cs, Out({cs.id} + falls, cs.body)));
    BuildExact(cs.body, live, bs, ks, cs.fall.None?, x, st0);
  }

  lemma {:induction false} ClausesExact(
    sw: nat, cs: Clauses, live: bool, bs: set<nat>, ks: set<nat>, x: nat, st: State, falls: set<nat>, more: set<nat>,
      exits: set<nat>)
    requires ClausesNumbered(cs) && ClausesScoped(cs, live, bs, ks)
    requires (x in ClauseIds(cs) ==> live && x in ClauseLive(cs, falls)) && (x == sw ==> live)
    requires (x in st.breaks ==> x in bs) && (x in st.conts ==> x in ks) && (x in more ==> live && x in falls)
    requires more !! ClauseIds(cs)
    ensures var st' := BuildClauses(sw, cs, st, more, exits);
      && (forall y :: (x, y) in st'.edges ==>
            (x, y) in st.edges + WhenEdges(live, ClauseInner(sw, cs, falls)) + ClauseChains(cs))
      && (x in st'.prev ==> x in exits + When(live, ClauseExits(cs, falls)) + bs + When(live, ClauseBrks(cs)))
      && (x in st'.breaks ==> x in ClausePendingBreaks(cs, live, bs))
      && (x in st'.conts ==> x in ClausePendingConts(cs, live, ks))
    decreases cs, 1
  {
    if cs.Clause? {
      var st2 := BuildClause(sw, cs, st, more);
      var more2 := if cs.fall.Some? then {cs.fall.value} else {};
      var falls2 := Falls(cs, Out({cs.id} + falls, cs.body));
      LiveWithin(cs.body);
      ClauseLiveWithin(cs.rest, falls2);
      ClauseExact(sw, cs, live, bs, ks, x, st, falls, more);
      PendingInside(cs.body, live, bs, ks);
      hide BuildClause, Live, Out, Brks, Conts, Scoped, Chains, Inner;
      ClausesExact(sw, cs.rest, live, PendingBreaks(cs.body, live, bs), PendingConts(cs.body, live, ks), x, st2, falls2,
        more2, exits + st2.prev);
    }
  }

  // ----- live means executed -----

  lemma {:induction false} InnerWithin(c: Code, x: nat, y: nat)
    requires (x, y) in Inner(c)
    ensures x in Ids(c) && y in Ids(c) + {EXIT}
    decreases c
  {
    match c
    case Seq(a, b) =>
      WithinIds(a);
      WithinIds(b);
      if (x, y) in Inner(a) { InnerWithin(a, x, y); }
      if (x, y) in Inner(b) { InnerWithin(b, x, y); }
    case If(_, yes, no, _) =>
      WithinIds(yes);
      WithinIds(no);
      if (x, y) in Inner(yes) { InnerWithin(yes, x, y); }
      if (x, y) in Inner(no) { InnerWithin(no, x, y); }
    case Loop(_, _, body) =>
      WithinIds(body);
      if (x, y) in Inner(body) { InnerWithin(body, x, y); }
    case Switch(id, cs) => ClauseInnerWithin(id, cs, {}, x, y);
    case _ =>
  }

  lemma {:induction false} ClauseInnerWithin(sw: nat, cs: Clauses, falls: set<nat>, x: nat, y: nat)
    requires (x, y) in ClauseInner(sw, cs, falls)
    ensures x in {sw} + falls + ClauseIds(cs) && y in ClauseIds(cs) + {EXIT}
    decreases cs
  {
    var next := Falls(cs, Out({cs.id} + falls, cs.body));
    WithinIds(cs.body);
    if (x, y) in Inner(cs.body) { InnerWithin(cs.body, x, y); }
    if (x, y) in ClauseInner(sw, cs.rest, next) { ClauseInnerWithin(sw, cs.rest, next, x, y); }
  }

  /** Control only goes to live statements and to the exit. */
  lemma {:induction false} TransfersReachLive(c: Code, x: nat, y: nat)
    requires (x, y) in Inner(c)
    ensures y in Live(c) + {EXIT}
    decreases c
  {
    match c
    case Seq(a, b) =>
      if (x, y) in Inner(a) {
        TransfersReachLive(a, x, y);
      } else if (x, y) in Inner(b) {
        TransfersReachLive(b, x, y);
      } else {
        FirstLive(b);
      }
    case If(_, yes, no, _) =>
      if (x, y) in Inner(yes) {
        TransfersReachLive(yes, x, y);
      } else if (x, y) in Inner(no) {
        TransfersReachLive(no, x, y);
      } else {
        if !Through(yes) { FirstLive(yes); }
        if !Through(no) { FirstLive(no); }
      }
    case Loop(_, _, body) =>
      if (x, y) in Inner(body) {
        TransfersReachLive(body, x, y);
      } else if !Through(body) {
        FirstLive(body);
      }
    case Switch(id, cs) => ClauseTransfersReachLive(id, cs, {}, x, y);
    case _ =>
  }

  lemma {:induction false} ClauseTransfersReachLive(sw: nat, cs: Clauses, falls: set<nat>, x: nat, y: nat)
    requires (x, y) in ClauseInner(sw, cs, falls)
    ensures y in ClauseLive(cs, falls) + {EXIT}
    decreases cs
  {
    var next := Falls(cs, Out({cs.id} + falls, cs.body));
    if (x, y) in ClauseInner(sw, cs.rest, next) {
      ClauseTransfersReachLive(sw, cs.rest, next, x, y);
    } else if (x, y) in Inner(cs.body) {
      TransfersReachLive(cs.body, x, y);
    } else if !Through(cs.body) {
      FirstLive(cs.body);
    }
  }

  lemma {:induction false} FirstLive(c: Code)
    requires !Through(c)
    ensures First(c) in Live(c)
  {
    if c.Seq? {
      if Through(c.first) { FirstLive(c.rest); } else { FirstLive(c.first); }
    }
  }

  /** Control goes on from x by a transfer inside c, or leaves c there. */
  ghost predicate Proceeds(c: Code, x: nat) {
    x in Exits(c) + Brks(c) + Conts(c) || exists y :: (x, y) in Inner(c)
  }

  lemma {:induction false} LiveProceeds(c: Code, x: nat)
    requires Closed(c) && x in Live(c)
    ensures Proceeds(c, x)
    decreases c, 1
  {
    match c
    case Seq(_, _) => SeqProceeds(c, x);
    case If(_, _, _, _) => IfProceeds(c, x);
    case Loop(_, _, _) => LoopProceeds(c, x);
    case Switch(id, cs) =>
      if x in ClauseLive(cs, {}) {
        ClauseProceeds(id, cs, {}, x);
      } else if cs.Clause? {
        assert (x, cs.id) in ClauseInner(id, cs, {});
      }
    case Return(id) => assert (id, EXIT) in Inner(c);
    case _ =>
  }

  lemma {:induction false} SeqProceeds(c: Code, x: nat)
    requires c.Seq? && Closed(c) && x in Live(c)
    ensures Proceeds(c, x)
    decreases c, 0
  {
    var a, b := c.first, c.rest;
    if x in Live(a) {
      LiveProceeds(a, x);
      if x in Exits(a) && !Through(b) {
        assert (x, First(b)) in Enter(Exits(a), b);
      }
    } else {
      LiveProceeds(b, x);
      if Through(b) { ThroughIdle(b, true, {}); }
    }
  }

  lemma {:induction false} IfProceeds(c: Code, x: nat)
    requires c.If? && Closed(c) && x in Live(c)
    ensures Proceeds(c, x)
    decreases c, 0
  {
    if x == c.id {
      if !Through(c.yes) { assert (x, First(c.yes)) in Enter({x}, c.yes); }
    } else {
      var part := if x in Live(c.yes) then c.yes else c.no;
      LiveProceeds(part, x);
      if Through(part) { ThroughIdle(part, true, {}); }
    }
  }

  lemma {:induction false} LoopProceeds(c: Code, x: nat)
    requires c.Loop? && Closed(c) && x in Live(c)
    ensures Proceeds(c, x)
    decreases c, 0
  {
    if x in Live(c.body) {
      LiveProceeds(c.body, x);
      if Through(c.body) { ThroughIdle(c.body, true, {}); }
      if x in Exits(c.body) + Conts(c.body) {
        assert (x, Target(c)) in Cross(Out({c.id}, c.body) + Conts(c.body), Target(c));
      }
    } else if x != c.id {
      assert (x, c.id) in Inner(c);
    }
  }

  lemma {:induction false} ClauseProceeds(sw: nat, cs: Clauses, falls: set<nat>, x: nat)
    requires ClausesClosed(cs) && cs.Clause? && x in ClauseLive(cs, falls) + falls
    ensures x in ClauseExits(cs, falls) + ClauseBrks(cs) + ClauseConts(cs) ||
      exists y :: (x, y) in ClauseInner(sw, cs, falls)
    decreases cs, 1
  {
    var outs := Out({cs.id} + falls, cs.body);
    if x in {cs.id} + falls + Live(cs.body) {
      FirstClauseProceeds(sw, cs, falls, x);
    } else {
      ClauseProceeds(sw, cs.rest, Falls(cs, outs), x);
    }
  }

  lemma {:induction false} FirstClauseProceeds(sw: nat, cs: Clauses, falls: set<nat>, x: nat)
    requires ClausesClosed(cs) && cs.Clause? && x in {cs.id} + falls + Live(cs.body)
    ensures x in ClauseExits(cs, falls) + ClauseBrks(cs) + ClauseConts(cs) ||
      exists y :: (x, y) in ClauseInner(sw, cs, falls)
    decreases cs, 0, 0
  {
    var body, outs := cs.body, Out({cs.id} + falls, cs.body);
    if x in Live(body) {
      LiveProceeds(body, x);
      if Through(body) { ThroughIdle(body, true, {}); }
    } else if !Through(body) {
      assert (x, First(body)) in Enter({cs.id} + falls, body);
    }
    if x in outs && cs.fall.Some? {
      assert (x, cs.fall.value) in Cross(outs, cs.fall.value);
    }
  }

  /** Control comes to x in some complete execution. */
  ghost predicate Executed(p: Code, x: nat) {
    exists tr :: Trace(p, tr) && x in [ENTRY] + tr
  }

  /** In some complete execution y comes right after x. */
  ghost predicate Follows(p: Code, x: nat, y: nat) {
    exists tr :: Trace(p, tr) && Shows([ENTRY] + tr + [EXIT], x, y)
  }

  lemma FollowsExactly(p: Code, x: nat, y: nat)
    requires Legal(p)
    ensures Follows(p, x, y) <==> (x, y) in Transfers(p)
  {
    if Follows(p, x, y) {
      var tr :| Trace(p, tr) && Shows([ENTRY] + tr + [EXIT], x, y);
      TraceFollowsTransfers(p, tr);
    }
    if (x, y) in Transfers(p) {
      var tr := TransferOccurs(p, x, y);
    }
  }

  /** The live statements are those that executions come to. */
  lemma ExecutedExactly(p: Code, x: nat)
    requires Legal(p)
    ensures Executed(p, x) <==> x in Live(p) + {ENTRY}
  {
    if Executed(p, x) && x != ENTRY {
      var tr :| Trace(p, tr) && x in [ENTRY] + tr;
      ExecutedIsLive(p, tr, x);
    }
    if x in Live(p) {
      LiveIsExecuted(p, x);
    } else if x == ENTRY {
      var tr, o := SomeRun(p);
      RunIsTrace(p, tr, o);
      assert x in [ENTRY] + tr;
    }
  }

  lemma ExecutedIsLive(p: Code, tr: seq<nat>, x: nat)
    requires Legal(p) && Trace(p, tr) && x in tr
    ensures x in Live(p)
  {
    var w := [ENTRY] + tr + [EXIT];
    var k :| 0 <= k < |tr| && tr[k] == x;
    TraceFollowsTransfers(p, tr);
    var i, j := k, k + 1;
    assert w[j] == x && (w[i], w[j]) in Transfers(p);
    TransferTarget(p, w[i], x);
    i, j := k + 1, k + 2;
    assert w[i] == x && (w[i], w[j]) in Transfers(p);
    TransferSource(p, x, w[j]);
  }

  lemma TransferSource(p: Code, x: nat, y: nat)
    requires Legal(p) && (x, y) in Transfers(p)
    ensures x in Ids(p) + {ENTRY} && x != EXIT
  {
    WithinIds(p);
    if (x, y) in Inner(p) { InnerWithin(p, x, y); }
  }

  lemma TransferTarget(p: Code, x: nat, y: nat)
    requires (x, y) in Transfers(p)
    ensures y in Live(p) + {EXIT}
  {
    if (x, y) in Inner(p) {
      TransfersReachLive(p, x, y);
    } else if (x, y) in Enter({ENTRY}, p) {
      FirstLive(p);
    }
  }

  lemma LiveIsExecuted(p: Code, x: nat)
    requires Legal(p) && x in Live(p)
    ensures Executed(p, x)
  {
    LiveProceeds(p, x);
    EnclosedStays(p, false, false);
    if Through(p) { ThroughIdle(p, true, {}); }
    var y: nat := EXIT;
    if x in Exits(p) {
      assert (x, EXIT) in Cross(Out({ENTRY}, p), EXIT);
    } else {
      y :| (x, y) in Inner(p);
    }
    var tr := TransferOccurs(p, x, y);
    LiveWithin(p);
    ShownExecuted(tr, x, y);
  }

  lemma ShownExecuted(tr: seq<nat>, x: nat, y: nat)
    requires Shows([ENTRY] + tr + [EXIT], x, y) && x != EXIT
    ensures x in [ENTRY] + tr
  {
    var w := [ENTRY] + tr + [EXIT];
    var i: nat, j: nat :| j == i + 1 && j < |w| && w[i] == x && w[j] == y;
    assert ([ENTRY] + tr)[i] == x;
  }

  // ----- the graph and the executions -----

  /** The else-ifs that are not the first thing their else executes: control cannot skip what comes before them. */
  function Shortcuts(c: Code): Edges {
    match c
    case Seq(a, b) => Shortcuts(a) + Shortcuts(b)
    case If(id, yes, no, chain) =>
      (if chain.Some? && !Through(no) && First(no) != chain.value then {(id, chain.value)} else {})
      + Shortcuts(yes) + Shortcuts(no)
    case Loop(_, _, body) => Shortcuts(body)
    case Switch(_, cs) => ClauseShortcuts(cs)
    case _ => {}
  }

  function ClauseShortcuts(cs: Clauses): Edges {
    if cs.NoClause? then {} else Shortcuts(cs.body) + ClauseShortcuts(cs.rest)
  }

  lemma {:induction false} ShortcutWithin(c: Code, x: nat, y: nat)
    requires Numbered(c) && (x, y) in Shortcuts(c)
    ensures x in Ids(c) && y in Ids(c) && (x, y) !in Inner(c)
    decreases c, 1
  {
    match c
    case Seq(a, b) =>
      WithinIds(a);
      WithinIds(b);
      var part := if (x, y) in Shortcuts(a) then a else b;
      ShortcutWithin(part, x, y);
      if (x, y) in Inner(a) { InnerWithin(a, x, y); }
      if (x, y) in Inner(b) { InnerWithin(b, x, y); }
    case If(_, _, _, _) => IfShortcutWithin(c, x, y);
    case Loop(_, _, body) => ShortcutWithin(body, x, y);
    case Switch(id, cs) => ClauseShortcutWithin(id, cs, {}, x, y);
    case _ =>
  }

  lemma {:induction false} IfShortcutWithin(c: Code, x: nat, y: nat)
    requires c.If? && Numbered(c) && (x, y) in Shortcuts(c)
    ensures x in Ids(c) && y in Ids(c) && (x, y) !in Inner(c)
    decreases c, 0
  {
    WithinIds(c.yes);
    WithinIds(c.no);
    if (x, y) in Inner(c.yes) { InnerWithin(c.yes, x, y); }
    if (x, y) in Inner(c.no) { InnerWithin(c.no, x, y); }
    if (x, y) in Shortcuts(c.yes) {
      ShortcutWithin(c.yes, x, y);
    } else if (x, y) in Shortcuts(c.no) {
      ShortcutWithin(c.no, x, y);
    }
  }

  lemma {:induction false} ClauseShortcutWithin(sw: nat, cs: Clauses, falls: set<nat>, x: nat, y: nat)
    requires ClausesNumbered(cs) && (x, y) in ClauseShortcuts(cs) && Apart({sw} + falls, ClauseIds(cs))
    ensures x in ClauseIds(cs) && y in ClauseIds(cs) && (x, y) !in ClauseInner(sw, cs, falls)
    decreases cs, 1
  {
    var next := Falls(cs, Out({cs.id} + falls, cs.body));
    WithinIds(cs.body);
    if (x, y) in Inner(cs.body) { InnerWithin(cs.body, x, y); }
    if (x, y) in ClauseInner(sw, cs.rest, next) { ClauseInnerWithin(sw, cs.rest, next, x, y); }
    if (x, y) in Shortcuts(cs.body) {
      ShortcutWithin(cs.body, x, y);
    } else {
      ClauseShortcutWithin(sw, cs.rest, next, x, y);
    }
  }

  /** Every other else-if of a live if is what its else starts with. */
  lemma {:induction false} ChainIsTransfer(c: Code, x: nat, y: nat)
    requires Numbered(c) && (x, y) in Chains(c) && x in Live(c)
    ensures (x, y) in Inner(c) + Shortcuts(c)
    decreases c, 1
  {
    ChainWithin(c, x, y);
    match c
    case Seq(a, b) =>
      LiveWithin(a);
      LiveWithin(b);
      if (x, y) in Chains(a) {
        ChainWithin(a, x, y);
        ChainIsTransfer(a, x, y);
      } else {
        ChainWithin(b, x, y);
        ChainIsTransfer(b, x, y);
      }
    case If(_, _, _, _) => IfChainIsTransfer(c, x, y);
    case Loop(_, _, body) =>
      ChainWithin(body, x, y);
      ChainIsTransfer(body, x, y);
    case Switch(id, cs) =>
      ClauseChainWithin(cs, x, y);
      ClauseChainIsTransfer(id, cs, {}, x, y);
    case _ =>
  }

  lemma {:induction false} IfChainIsTransfer(c: Code, x: nat, y: nat)
    requires c.If? && Numbered(c) && (x, y) in Chains(c) && x in Live(c)
    ensures (x, y) in Inner(c) + Shortcuts(c)
    decreases c, 0
  {
    LiveWithin(c.yes);
    LiveWithin(c.no);
    if (x, y) in Chains(c.yes) {
      ChainWithin(c.yes, x, y);
      ChainIsTransfer(c.yes, x, y);
    } else if (x, y) in Chains(c.no) {
      ChainWithin(c.no, x, y);
      ChainIsTransfer(c.no, x, y);
    } else {
      ThroughNoIds(c.no);
      assert !Through(c.no) && First(c.no) == y ==> (x, y) in Enter({x}, c.no);
    }
  }

  lemma {:induction false} ThroughNoIds(c: Code)
    ensures Through(c) ==> Ids(c) == {}
  {
    if c.Seq? {
      ThroughNoIds(c.first);
      ThroughNoIds(c.rest);
    }
  }

  lemma {:induction false} ClauseChainIsTransfer(sw: nat, cs: Clauses, falls: set<nat>, x: nat, y: nat)
    requires ClausesNumbered(cs) && (x, y) in ClauseChains(cs) && x in ClauseLive(cs, falls)
    ensures (x, y) in ClauseInner(sw, cs, falls) + ClauseShortcuts(cs)
    decreases cs, 1
  {
    var next := Falls(cs, Out({cs.id} + falls, cs.body));
    LiveWithin(cs.body);
    ClauseLiveWithin(cs.rest, next);
    if (x, y) in Chains(cs.body) {
      ChainWithin(cs.body, x, y);
      ChainIsTransfer(cs.body, x, y);
    } else {
      ClauseChainWithin(cs.rest, x, y);
      ClauseChainIsTransfer(sw, cs.rest, next, x, y);
    }
  }

  lemma {:induction false} ChainWithin(c: Code, x: nat, y: nat)
    requires (x, y) in Chains(c)
    ensures x in Ids(c)
    decreases c
  {
    match c
    case Seq(a, b) => if (x, y) in Chains(a) { ChainWithin(a, x, y); } else { ChainWithin(b, x, y); }
    case If(id, yes, no, chain) =>
      if (x, y) in Chains(yes) { ChainWithin(yes, x, y); } else if (x, y) in Chains(no) { ChainWithin(no, x, y); }
    case Loop(_, _, body) => ChainWithin(body, x, y);
    case Switch(_, cs) => ClauseChainWithin(cs, x, y);
    case _ =>
  }

  lemma {:induction false} ClauseChainWithin(cs: Clauses, x: nat, y: nat)
    requires (x, y) in ClauseChains(cs)
    ensures x in ClauseIds(cs)
    decreases cs
  {
    if (x, y) in Chains(cs.body) { ChainWithin(cs.body, x, y); } else { ClauseChainWithin(cs.rest, x, y); }
  }

  /** An edge out of a live statement of a program without capture is a transfer or an else-if. */
  lemma EdgeIsTransfer(p: Code, x: nat, y: nat)
    requires Legal(p) && Scoped(p, true, {}, {}, false) && x in Live(p) + {ENTRY} && (x, y) in Graph(p)
    ensures (x, y) in Transfers(p) + Chains(p)
  {
    var st := State({}, {ENTRY}, {}, {});
    BuildExact(p, true, {}, {}, false, x, st);
  }

  lemma {:induction false} ChainIsEdge(c: Code, st: State)
    ensures Chains(c) <= Build(c, st).edges
    decreases c, 1
  {
    match c
    case Seq(a, b) =>
      ChainIsEdge(a, st);
      ChainIsEdge(b, Build(a, st));
      BuildFlows(b, Build(a, st));
    case If(id, yes, no, chain) =>
      var st1 := Build(yes, Visit(st, id));
      var st2 := Chain(st1.(prev := {id}), chain);
      ChainIsEdge(yes, Visit(st, id));
      ChainIsEdge(no, st2);
      BuildFlows(no, st2);
    case Loop(_, _, body) => ChainIsEdge(body, OpenLoop(st, c));
    case Switch(id, cs) => ClauseChainIsEdge(id, cs, Visit(st, id), {}, {});
    case _ =>
  }

  lemma {:induction false} ClauseChainIsEdge(sw: nat, cs: Clauses, st: State, falls: set<nat>, exits: set<nat>)
    ensures ClauseChains(cs) <= BuildClauses(sw, cs, st, falls, exits).edges
    decreases cs, 1
  {
    if cs.Clause? {
      var st1 := BuildClause(sw, cs, st, falls);
      var falls2 := if cs.fall.Some? then {cs.fall.value} else {};
      ChainIsEdge(cs.body, AddSucc(st.(prev := {sw}), cs.id).(prev := {cs.id} + falls));
      ClausesFlow(sw, cs.rest, st1, falls2, exits + st1.prev);
      ClauseChainIsEdge(sw, cs.rest, st1, falls2, exits + st1.prev);
    }
  }

  /** Out of every statement that is ever executed the graph has exactly the steps of executions and the else-ifs. */
  ghost predicate StepsAndElseIfs(p: Code) {
    forall x: nat, y: nat :: Executed(p, x) ==> ((x, y) in Graph(p) <==> Follows(p, x, y) || (x, y) in Chains(p))
  }

  /** And that is so exactly when no live branch is captured. */
  lemma EdgesExactly(p: Code)
    requires Legal(p)
    ensures StepsAndElseIfs(p) <==> Scoped(p, true, {}, {}, false)
  {
    if Scoped(p, true, {}, {}, false) {
      ScopedKeepsTransfers(p);
      ChainIsEdge(p, State({}, {ENTRY}, {}, {}));
      hide Scoped, Legal, Graph, Executed, Follows;
      forall x: nat, y: nat | Executed(p, x)
        ensures (x, y) in Graph(p) <==> Follows(p, x, y) || (x, y) in Chains(p)
      {
        ExecutedExactly(p, x);
        FollowsExactly(p, x, y);
        if (x, y) in Graph(p) { EdgeIsTransfer(p, x, y); }
      }
    } else {
      Captured(p);
    }
  }

  lemma {:induction false} ShortcutIsChain(c: Code)
    ensures Shortcuts(c) <= Chains(c)
    decreases c
  {
    match c
    case Seq(a, b) =>
      ShortcutIsChain(a);
      ShortcutIsChain(b);
    case If(_, yes, no, _) =>
      ShortcutIsChain(yes);
      ShortcutIsChain(no);
    case Loop(_, _, body) => ShortcutIsChain(body);
    case Switch(_, cs) => ClauseShortcutIsChain(cs);
    case _ =>
  }

  lemma {:induction false} ClauseShortcutIsChain(cs: Clauses)
    ensures ClauseShortcuts(cs) <= ClauseChains(cs)
    decreases cs
  {
    if cs.Clause? {
      ShortcutIsChain(cs.body);
      ClauseShortcutIsChain(cs.rest);
    }
  }

  /** Out of every statement that is ever executed the graph has exactly the steps of executions. */
  ghost predicate OnlySteps(p: Code) {
    forall x: nat, y: nat :: Executed(p, x) ==> ((x, y) in Graph(p) <==> Follows(p, x, y))
  }

  /** A live if has an else-if with something to execute before it. */
  ghost predicate SkipsSomething(p: Code) {
    exists x: nat, y: nat :: (x, y) in Shortcuts(p) && x in Live(p)
  }

  /** And that is so exactly when, besides, no live if has an else-if with something to execute before it. */
  lemma StepsExactly(p: Code)
    requires Legal(p)
    ensures OnlySteps(p) <==> Scoped(p, true, {}, {}, false) && !SkipsSomething(p)
  {
    EdgesExactly(p);
    hide Scoped, Legal, Graph, Executed, Follows, Shortcuts, Live, Chains;
    if SkipsSomething(p) {
      var x: nat, y: nat :| (x, y) in Shortcuts(p) && x in Live(p);
      ShortcutIsNoStep(p, x, y);
      assert !OnlySteps(p);
    } else if Scoped(p, true, {}, {}, false) {
      NothingSkipped(p);
    } else {
      Captured(p);
    }
  }

  lemma NothingSkipped(p: Code)
    requires Legal(p) && StepsAndElseIfs(p) && !SkipsSomething(p)
    ensures OnlySteps(p)
  {
    hide Legal, Graph, Executed, Follows, SkipsSomething, Chains;
    forall x: nat, y: nat | Executed(p, x)
      ensures (x, y) in Graph(p) <==> Follows(p, x, y)
    {
      if (x, y) in Chains(p) { ElseIfIsStep(p, x, y); }
    }
  }

  lemma ShortcutIsNoStep(p: Code, x: nat, y: nat)
    requires Legal(p) && (x, y) in Shortcuts(p) && x in Live(p)
    ensures Executed(p, x) && (x, y) in Graph(p) && !Follows(p, x, y)
  {
    ExecutedExactly(p, x);
    FollowsExactly(p, x, y);
    ShortcutWithin(p, x, y);
    ShortcutIsChain(p);
    ChainIsEdge(p, State({}, {ENTRY}, {}, {}));
  }

  lemma ElseIfIsStep(p: Code, x: nat, y: nat)
    requires Legal(p) && Executed(p, x) && (x, y) in Chains(p) && !SkipsSomething(p)
    ensures Follows(p, x, y)
  {
    ExecutedExactly(p, x);
    FollowsExactly(p, x, y);
    ChainWithin(p, x, y);
    ChainIsTransfer(p, x, y);
  }

  /** Otherwise some step of an execution is missing. */
  lemma Captured(p: Code)
    requires Legal(p) && !Scoped(p, true, {}, {}, false)
    ensures !OnlySteps(p) && !StepsAndElseIfs(p)
  {
    var x, y := MissingTransfer(p);
    FollowsExactly(p, x, y);
    var tr :| Trace(p, tr) && Shows([ENTRY] + tr + [EXIT], x, y);
    ShownExecuted(tr, x, y);
    ChainIsEdge(p, State({}, {ENTRY}, {}, {}));
    hide Trace, Shows, Follows, Transfers, Chains;
    assert Executed(p, x);
  }

  /** Without dead code that is all there is in the graph. */
  lemma GraphExactly(p: Code)
    requires Legal(p) && Scoped(p, true, {}, {}, false) && Live(p) == Ids(p)
    ensures Graph(p) == Transfers(p) + Chains(p)
  {
    ScopedKeepsTransfers(p);
    ChainIsEdge(p, State({}, {ENTRY}, {}, {}));
    assert Chains(p) <= Graph(p);
    hide Legal, Scoped, Graph, Transfers, Chains;
    forall e | e in Graph(p)
      ensures e in Transfers(p) + Chains(p)
    {
      EdgeEnds(p, e.0, e.1);
      EdgeIsTransfer(p, e.0, e.1);
    }
  }

  /** if (x) {} else if i; (y) {} */
  function ElseIfWithInit(x: nat, i: nat, y: nat): Code {
    If(x, Skip, Seq(Simple(i), If(y, Skip, Skip, None)), Some(y))
  }

  /** The smallest program with such an else-if: its graph has an edge past the init that no execution takes. */
  lemma ElseIfSkipsInit(x: nat, i: nat, y: nat)
    requires x != i && x != y && i != y && {x, i, y} !! {ENTRY, EXIT}
    ensures var p := ElseIfWithInit(x, i, y);
      Legal(p) && Scoped(p, true, {}, {}, false) && (x, y) in Graph(p) && !Follows(p, x, y)
  {
    var p := ElseIfWithInit(x, i, y);
    ElseIfLegal(x, i, y);
    assert First(Simple(i)) == i && First(p.no) == i;
    assert (x, y) in Shortcuts(p) && x in Live(p);
    hide *;
    ShortcutIsNoStep(p, x, y);
  }

  lemma ElseIfLegal(x: nat, i: nat, y: nat)
    requires x != i && x != y && i != y && {x, i, y} !! {ENTRY, EXIT}
    ensures Legal(ElseIfWithInit(x, i, y)) && Scoped(ElseIfWithInit(x, i, y), true, {}, {}, false)
  {
    var first, inner := Simple(i), If(y, Skip, Skip, None);
    var no := Seq(first, inner);
    EmptyIf(y, Skip, None);
    assert Ids(first) == {i} && Numbered(first) && Enclosed(first, false, false) && Closed(first);
    assert Scoped(first, true, {}, {}, false);
    assert Ids(no) == {i, y};
    assert Numbered(no) by { assert Apart(Ids(no.first), Ids(no.rest)); }
    assert Enclosed(no, false, false) && Closed(no) && Scoped(no, true, {}, {}, false);
    EmptyIf(x, no, Some(y));
  }

  /** An if without statements in its then. */
  lemma EmptyIf(x: nat, no: Code, chain: Option<nat>)
    requires x !in Ids(no) && Numbered(no) && OptionIds(chain) <= Ids(no)
    requires Enclosed(no, false, false) && Closed(no) && Scoped(no, true, {}, {}, false)
    ensures var c := If(x, Skip, no, chain);
      Ids(c) == {x} + Ids(no) && Numbered(c) && Enclosed(c, false, false) && Closed(c) && Scoped(c, true, {}, {}, false)
  {
    var c := If(x, Skip, no, chain);
    assert Ids(Skip) == {} && Numbered(Skip) && Enclosed(Skip, false, false) && Closed(Skip);
    assert Scoped(Skip, true, {}, {}, false);
    assert PendingBreaks(Skip, true, {}) == {} && PendingConts(Skip, true, {}) == {};
    assert Apart({x}, Ids(Skip) + Ids(no)) && Apart(Ids(Skip), Ids(no));
  }
}
