/** A program whose graph misses none of its transfers captures no branch. */
module CfgCapture {
  import opened Finite
  import opened StructuredFlow
  import opened CfgEdges

  // ----- statement numbers -----

  function OptionIds(o: Option<nat>): set<nat> { if o.Some? then {o.value} else {} }

  function Ids(c: Code): set<nat> {
    match c
    case Skip => {}
    case Seq(a, b) => Ids(a) + Ids(b)
    case If(id, yes, no, _) => {id} + Ids(yes) + Ids(no)
    case Loop(id, post, body) => {id} + OptionIds(post) + Ids(body)
    case Switch(id, cs) => {id} + ClauseIds(cs)
    case _ => {c.id}
  }

  function ClauseIds(cs: Clauses): set<nat> {
    if cs.NoClause? then {} else {cs.id} + Ids(cs.body) + OptionIds(cs.fall) + ClauseIds(cs.rest)
  }

  predicate Apart(xs: set<nat>, ys: set<nat>) { xs !! ys }

  /** No two statements share a number, and an else-if chain names a statement of the else. */
  predicate Numbered(c: Code) {
    match c
    case Seq(a, b) => Numbered(a) && Numbered(b) && Apart(Ids(a), Ids(b))
    case If(id, yes, no, chain) =>
      && Numbered(yes) && Numbered(no) && Apart(Ids(yes), Ids(no)) && Apart({id}, Ids(yes) + Ids(no)) &&
        OptionIds(chain) <= Ids(no)
    case Loop(id, post, body) => Numbered(body) && Apart({id}, OptionIds(post)) &&
      Apart({id} + OptionIds(post), Ids(body))
    case Switch(id, cs) => ClausesNumbered(cs) && id !in ClauseIds(cs)
    case _ => true
  }

  predicate ClausesNumbered(cs: Clauses) {
    cs.Clause? ==>
      && Numbered(cs.body) && ClausesNumbered(cs.rest) && Apart({cs.id}, OptionIds(cs.fall))
      && Apart({cs.id} + OptionIds(cs.fall), Ids(cs.body))
      && Apart({cs.id} + OptionIds(cs.fall) + Ids(cs.body), ClauseIds(cs.rest))
  }

  // ----- what building can reach -----

  function All(st: State): set<nat> { st.prev + st.breaks + st.conts }

  /** Building the statements ids from st adds edges only from what st holds and from ids, only to ids and the exit. */
  ghost predicate Bounded(ids: set<nat>, st: State, st': State) {
    && st'.prev <= st.prev + st.breaks + ids && st'.breaks <= st.breaks + ids && st'.conts <= st.conts + ids
    && (forall x, y :: (x, y) in st'.edges ==> (x, y) in st.edges || (x in All(st) + ids && y in ids + {EXIT}))
  }

  lemma BoundedStep(i: set<nat>, j: set<nat>, k: set<nat>, st: State, st1: State, st2: State)
    requires Bounded(i, st, st1) && Bounded(j, st1, st2) && i + j <= k
    ensures Bounded(k, st, st2)
  {
  }

  lemma {:induction false} BuildBounded(c: Code, st: State)
    requires Numbered(c)
    ensures Bounded(Ids(c), st, Build(c, st))
    ensures !Through(c) ==> Build(c, st).prev <= st.breaks + Ids(c)
    decreases c, 1
  {
    match c
    case Seq(a, b) =>
      BuildBounded(a, st);
      BuildBounded(b, Build(a, st));
      BuildFlows(a, st);
      BuildFlows(b, Build(a, st));
      BoundedStep(Ids(a), Ids(b), Ids(c), st, Build(a, st), Build(c, st));
    case If(_, _, _, _) => IfBounded(c, st);
    case Loop(_, _, body) => BuildBounded(body, OpenLoop(st, c));
    case Switch(id, cs) => ClausesBounded(id, cs, Visit(st, id), {}, {});
    case _ =>
  }

  lemma {:induction false} IfBounded(c: Code, st: State)
    requires c.If? && Numbered(c)
    ensures Bounded(Ids(c), st, Build(c, st)) && Build(c, st).prev <= st.breaks + Ids(c)
    decreases c, 0
  {
    var st1 := Build(c.yes, Visit(st, c.id));
    BuildBounded(c.yes, Visit(st, c.id));
    BuildBounded(c.no, Chain(st1.(prev := {c.id}), c.chain));
  }

  lemma {:induction false} ClausesBounded(sw: nat, cs: Clauses, st: State, falls: set<nat>, exits: set<nat>)
    requires ClausesNumbered(cs)
    ensures var st' := BuildClauses(sw, cs, st, falls, exits);
      && st'.prev <= exits + falls + st.breaks + ClauseIds(cs) && st'.breaks <= st.breaks + ClauseIds(cs) &&
        st'.conts <= st.conts + ClauseIds(cs)
      && (forall x, y :: (x, y) in st'.edges ==>
            (x, y) in st.edges || (x in {sw} + falls + st.breaks + st.conts + ClauseIds(cs) && y in ClauseIds(cs)
              + {EXIT}))
    decreases cs, 1
  {
    if cs.Clause? {
      var st1 := BuildClause(sw, cs, st, falls);
      BuildBounded(cs.body, AddSucc(st.(prev := {sw}), cs.id).(prev := {cs.id} + falls));
      ClausesBounded(sw, cs.rest, st1, if cs.fall.Some? then {cs.fall.value} else {}, exits + st1.prev);
    }
  }

  /** A statement waits in one way only. */
  predicate Separate(st: State) {
    Apart(st.prev, st.breaks) && Apart(st.prev, st.conts) && Apart(st.breaks, st.conts)
  }

  lemma {:induction false} BuildSeparate(c: Code, st: State)
    requires Numbered(c) && Separate(st) && Apart(All(st), Ids(c))
    ensures Separate(Build(c, st))
    decreases c, 1
  {
    BuildBounded(c, st);
    match c
    case Seq(a, b) =>
      BuildBounded(a, st);
      BuildSeparate(a, st);
      BuildSeparate(b, Build(a, st));
    case If(_, _, _, _) => IfSeparate(c, st);
    case Loop(_, _, body) => BuildSeparate(body, OpenLoop(st, c));
    case Switch(id, cs) =>
      ClausesBounded(id, cs, Visit(st, id), {}, {});
      ClausesSeparate(id, cs, Visit(st, id), {}, {});
    case _ =>
  }

  lemma {:induction false} IfSeparate(c: Code, st: State)
    requires c.If? && Numbered(c) && Separate(st) && Apart(All(st), Ids(c))
    ensures Separate(Build(c, st))
    decreases c, 0
  {
    var st0 := Visit(st, c.id);
    var st1 := Build(c.yes, st0);
    var st2 := Chain(st1.(prev := {c.id}), c.chain);
    BuildSeparate(c.yes, st0);
    BuildBounded(c.yes, st0);
    BuildSeparate(c.no, st2);
    BuildBounded(c.no, st2);
  }

  lemma {:induction false} ClausesSeparate(sw: nat, cs: Clauses, st: State, falls: set<nat>, exits: set<nat>)
    requires ClausesNumbered(cs) && Apart(st.breaks, st.conts) && Apart({sw} + falls + exits, st.breaks + st.conts)
    requires Apart({sw} + falls + exits + st.breaks + st.conts, ClauseIds(cs))
    ensures Separate(BuildClauses(sw, cs, st, falls, exits))
    decreases cs, 1
  {
    if cs.Clause? {
      var st0 := AddSucc(st.(prev := {sw}), cs.id).(prev := {cs.id} + falls);
      var st1 := BuildClause(sw, cs, st, falls);
      BuildSeparate(cs.body, st0);
      BuildBounded(cs.body, st0);
      ClausesSeparate(sw, cs.rest, st1, if cs.fall.Some? then {cs.fall.value} else {}, exits + st1.prev);
    }
  }

  // ----- where the attributes lie -----

  lemma {:induction false} WithinIds(c: Code)
    ensures Exits(c) + Brks(c) + Conts(c) <= Ids(c)
    ensures !Through(c) ==> First(c) in Ids(c)
    decreases c
  {
    match c
    case Seq(a, b) =>
      WithinIds(a);
      WithinIds(b);
    case If(_, yes, no, _) =>
      WithinIds(yes);
      WithinIds(no);
    case Loop(_, _, body) => WithinIds(body);
    case Switch(_, cs) => ClausesWithin(cs, {});
    case _ =>
  }

  lemma {:induction false} ClausesWithin(cs: Clauses, falls: set<nat>)
    ensures ClauseExits(cs, falls) <= ClauseIds(cs) + falls
    ensures ClauseBrks(cs) + ClauseConts(cs) <= ClauseIds(cs)
    decreases cs
  {
    if cs.Clause? {
      WithinIds(cs.body);
      ClausesWithin(cs.rest, Falls(cs, Out({cs.id} + falls, cs.body)));
      ClausesWithin(cs.rest, {});
    }
  }

  /** Pending branches are pending before or break out of c, and they do wait in the builder. */
  lemma {:induction false} PendingWithin(c: Code, live: bool, bs: set<nat>, ks: set<nat>, st: State)
    requires bs <= st.breaks && ks <= st.conts
    ensures PendingBreaks(c, live, bs) <= bs + When(live, Brks(c)) && PendingBreaks(c, live, bs) <= Build(c, st).breaks
    ensures PendingConts(c, live, ks) <= ks + When(live, Conts(c)) && PendingConts(c, live, ks) <= Build(c, st).conts
    decreases c
  {
    match c
    case Seq(a, b) =>
      PendingWithin(a, live, bs, ks, st);
      PendingWithin(b, live && Completes(a), PendingBreaks(a, live, bs), PendingConts(a, live, ks), Build(a, st));
    case If(id, yes, no, chain) =>
      var st1 := Build(yes, Visit(st, id));
      PendingWithin(yes, live, bs, ks, Visit(st, id));
      PendingWithin(no, live, PendingBreaks(yes, live, bs), PendingConts(yes, live, ks),
        Chain(st1.(prev := {id}), chain));
    case Switch(id, cs) => ClausesPendingWithin(id, cs, live, ks, Visit(st, id), {}, {});
    case _ =>
  }

  lemma {:induction false} ClausesPendingWithin(
    sw: nat, cs: Clauses, live: bool, ks: set<nat>, st: State, falls: set<nat>, exits: set<nat>)
    requires ks <= st.conts
    ensures ClausePendingConts(cs, live, ks) <= ks + When(live, ClauseConts(cs))
    ensures ClausePendingConts(cs, live, ks) <= BuildClauses(sw, cs, st, falls, exits).conts
    decreases cs
  {
    if cs.Clause? {
      var st1 := BuildClause(sw, cs, st, falls);
      PendingWithin(cs.body, live, {}, ks, AddSucc(st.(prev := {sw}), cs.id).(prev := {cs.id} + falls));
      ClausesPendingWithin(sw, cs.rest, live, PendingConts(cs.body, live, ks), st1,
        if cs.fall.Some? then {cs.fall.value} else {}, exits + st1.prev);
    }
  }

  // ----- what goes wrong -----

  /** A branch nobody waits for any more, an exit left out, or a transfer without an edge; for good, since x waits
      nowhere. */
  datatype Fault = StolenBreak(x: nat) | StolenContinue(x: nat) | LostExit(x: nat) | Missing(x: nat, y: nat)

  ghost predicate Faulty(f: Fault, c: Code, live: bool, bs: set<nat>, ks: set<nat>, tail: bool, st': State) {
    match f
    case StolenBreak(x) => x in bs + When(live, Brks(c)) && x !in st'.breaks + st'.conts && (tail ==> x !in st'.prev)
    case StolenContinue(x) => x in ks + When(live, Conts(c)) && x !in All(st')
    case LostExit(x) => live && x in Exits(c) && x !in All(st')
    case Missing(x, y) => live && x in Ids(c) && (x, y) in Inner(c) && (x, y) !in st'.edges && x !in All(st')
  }

  /** No statement of c has been touched when the builder comes to it. */
  ghost predicate Untouched(ids: set<nat>, st: State) {
    Apart(All(st), ids) && EXIT !in ids && forall x, y :: (x, y) in st.edges ==> x !in ids
  }

  /** Code that is not scoped has a fault. */
  lemma {:induction false} FindFault(c: Code, live: bool, bs: set<nat>, ks: set<nat>, tail: bool, st: State)
    returns (f: Fault)
    requires !Scoped(c, live, bs, ks, tail) && bs <= st.breaks && ks <= st.conts
    requires Numbered(c) && Separate(st) && Untouched(Ids(c), st)
    ensures Faulty(f, c, live, bs, ks, tail, Build(c, st))
    decreases c, 1
  {
    match c
    case Seq(a, b) =>
      if !Scoped(a, live, bs, ks, tail && Through(b)) {
        f := FindFault(a, live, bs, ks, tail && Through(b), st);
        f := FirstFault(f, c, live, bs, ks, tail, st);
      } else {
        f := RestFault(c, live, bs, ks, tail, st);
      }
    case If(_, _, _, _) => f := IfFault(c, live, bs, ks, tail, st);
    case Loop(_, _, _) => f := LoopFault(c, live, bs, ks, tail, st);
    case Switch(_, _) => f := SwitchFault(c, live, bs, ks, tail, st);
    case _ => assert false;
  }

  /** A fault in the first part of a sequence lasts. */
  lemma FirstFault(f: Fault, c: Code, live: bool, bs: set<nat>, ks: set<nat>, tail: bool, st: State) returns (g: Fault)
    requires c.Seq? && Numbered(c) && Untouched(Ids(c), st) && bs <= st.breaks && ks <= st.conts
    requires Faulty(f, c.first, live, bs, ks, tail && Through(c.rest), Build(c.first, st))
    ensures Faulty(g, c, live, bs, ks, tail, Build(c, st))
  {
    var a, b := c.first, c.rest;
    var st1 := Build(a, st);
    BuildBounded(a, st);
    BuildBounded(b, st1);
    BuildFlows(b, st1);
    WithinIds(a);
    WithinIds(b);
    g := f;
    if f.LostExit? && !Through(b) {
      assert (f.x, First(b)) in Enter(Exits(a), b);
      g := Missing(f.x, First(b));
    }
  }

  lemma {:induction false} RestFault(c: Code, live: bool, bs: set<nat>, ks: set<nat>, tail: bool, st: State)
    returns (f: Fault)
    requires c.Seq? && bs <= st.breaks && ks <= st.conts && Numbered(c) && Separate(st) && Untouched(Ids(c), st)
    requires !Scoped(c.rest, live && Completes(c.first), PendingBreaks(c.first, live, bs),
      PendingConts(c.first, live, ks), tail)
    ensures Faulty(f, c, live, bs, ks, tail, Build(c, st))
    decreases c, 0
  {
    var a, b := c.first, c.rest;
    var st1 := Build(a, st);
    BuildBounded(a, st);
    BuildSeparate(a, st);
    PendingWithin(a, live, bs, ks, st);
    f := FindFault(b, live && Completes(a), PendingBreaks(a, live, bs), PendingConts(a, live, ks), tail, st1);
    assert f.LostExit? ==> !Through(b) by {
      if Through(b) { ThroughIdle(b, live, {}); }
    }
  }

  lemma {:induction false} IfFault(c: Code, live: bool, bs: set<nat>, ks: set<nat>, tail: bool, st: State)
    returns (f: Fault)
    requires c.If? && !Scoped(c, live, bs, ks, tail) && bs <= st.breaks && ks <= st.conts
    requires Numbered(c) && Separate(st) && Untouched(Ids(c), st)
    ensures Faulty(f, c, live, bs, ks, tail, Build(c, st))
    decreases c, 0
  {
    var st0 := Visit(st, c.id);
    if !Scoped(c.yes, live, bs, ks, tail) {
      f := FindFault(c.yes, live, bs, ks, tail, st0);
      YesFault(f, c, live, bs, ks, tail, st);
    } else {
      var st1 := Build(c.yes, st0);
      BuildBounded(c.yes, st0);
      BuildSeparate(c.yes, st0);
      PendingWithin(c.yes, live, bs, ks, st0);
      f := FindFault(c.no, live, PendingBreaks(c.yes, live, bs), PendingConts(c.yes, live, ks), tail,
        Chain(st1.(prev := {c.id}), c.chain));
      NoFault(f, c, live, bs, ks, tail, st);
    }
  }

  lemma YesFault(f: Fault, c: Code, live: bool, bs: set<nat>, ks: set<nat>, tail: bool, st: State)
    requires c.If? && bs <= st.breaks && ks <= st.conts && Numbered(c) && Separate(st) && Untouched(Ids(c), st)
    requires Faulty(f, c.yes, live, bs, ks, tail, Build(c.yes, Visit(st, c.id)))
    ensures Faulty(f, c, live, bs, ks, tail, Build(c, st))
  {
    var st0 := Visit(st, c.id);
    var st1 := Build(c.yes, st0);
    BuildBounded(c.yes, st0);
    BuildBounded(c.no, Chain(st1.(prev := {c.id}), c.chain));
    WithinIds(c.yes);
    if Through(c.yes) { ThroughIdle(c.yes, live, bs); }
  }

  lemma NoFault(f: Fault, c: Code, live: bool, bs: set<nat>, ks: set<nat>, tail: bool, st: State)
    requires c.If? && bs <= st.breaks && ks <= st.conts && Numbered(c) && Separate(st) && Untouched(Ids(c), st)
    requires var st1 := Build(c.yes, Visit(st, c.id));
      Faulty(f, c.no, live, PendingBreaks(c.yes, live, bs), PendingConts(c.yes, live, ks), tail,
        Build(c.no, Chain(st1.(prev := {c.id}), c.chain)))
    ensures Faulty(f, c, live, bs, ks, tail, Build(c, st))
  {
    var st0 := Visit(st, c.id);
    BuildBounded(c.yes, st0);
    BuildSeparate(c.yes, st0);
    PendingWithin(c.yes, live, bs, ks, st0);
    WithinIds(c.no);
    if Through(c.no) { ThroughIdle(c.no, live, bs); }
  }

  lemma {:induction false} LoopFault(c: Code, live: bool, bs: set<nat>, ks: set<nat>, tail: bool, st: State)
    returns (f: Fault)
    requires c.Loop? && !Scoped(c, live, bs, ks, tail) && bs <= st.breaks && ks <= st.conts
    requires Numbered(c) && Separate(st) && Untouched(Ids(c), st)
    ensures Faulty(f, c, live, bs, ks, tail, Build(c, st))
    decreases c, 0
  {
    var body := c.body;
    var st1 := OpenLoop(st, c);
    BuildBounded(body, st1);
    WithinIds(body);
    if Through(body) { ThroughIdle(body, live, bs); }
    if ks != {} {
      var x :| x in ks;
      f := StolenContinue(x);
    } else if bs != {} && !tail {
      var x :| x in bs;
      f := StolenBreak(x);
    } else {
      f := FindFault(body, live, bs, {}, false, st1);
      if f.StolenBreak? && f.x !in bs {
        f := LostExit(f.x);
      } else if f.StolenContinue? || f.LostExit? {
        assert (f.x, Target(c)) in Cross(Out({c.id}, body) + Conts(body), Target(c));
        f := Missing(f.x, Target(c));
      }
    }
  }

  lemma {:induction false} SwitchFault(c: Code, live: bool, bs: set<nat>, ks: set<nat>, tail: bool, st: State)
    returns (f: Fault)
    requires c.Switch? && !Scoped(c, live, bs, ks, tail) && bs <= st.breaks && ks <= st.conts
    requires Numbered(c) && Separate(st) && Untouched(Ids(c), st)
    ensures Faulty(f, c, live, bs, ks, tail, Build(c, st))
    decreases c, 0
  {
    ClausesBounded(c.id, c.clauses, Visit(st, c.id), {}, {});
    ClausesWithin(c.clauses, {});
    if bs != {} && !tail {
      var x :| x in bs;
      f := StolenBreak(x);
    } else {
      f := ClauseFault(c.id, c.clauses, live, bs, ks, Visit(st, c.id), {}, {}, {});
      if f.StolenBreak? && f.x !in bs {
        f := LostExit(f.x);
      }
    }
  }

  /** A fault among the clauses of a switch, before the switch collects its breaks. */
  ghost predicate ClausesFaulty(f: Fault, sw: nat, cs: Clauses, live: bool, bs: set<nat>, ks: set<nat>,
    falls: set<nat>, st': State) {
    && f.x !in All(st')
    && match f
       case StolenBreak(x) => x in bs + When(live, ClauseBrks(cs))
       case StolenContinue(x) => x in ks + When(live, ClauseConts(cs))
       case LostExit(x) => live && x in ClauseIds(cs) && x in ClauseExits(cs, falls)
       case Missing(x, y) => live && x in ClauseIds(cs) && (x, y) in ClauseInner(sw, cs, falls) && (x, y) !in st'.edges
  }

  lemma {:induction false} ClauseFault(
    sw: nat, cs: Clauses, live: bool, bs: set<nat>, ks: set<nat>, st: State, falls: set<nat>, more: set<nat>,
      exits: set<nat>)
    returns (f: Fault)
    requires !ClausesScoped(cs, live, bs, ks) && bs <= st.breaks && ks <= st.conts && falls <= more
    requires ClausesNumbered(cs) && Apart(st.breaks, st.conts) && Apart({sw} + more + exits, st.breaks + st.conts)
    requires Untouched(ClauseIds(cs), State(st.edges, {sw} + more + exits, st.breaks, st.conts))
    ensures ClausesFaulty(f, sw, cs, live, bs, ks, falls, BuildClauses(sw, cs, st, more, exits))
    decreases cs, 1
  {
    var st0 := AddSucc(st.(prev := {sw}), cs.id).(prev := {cs.id} + more);
    var st2 := BuildClause(sw, cs, st, more);
    var more2 := if cs.fall.Some? then {cs.fall.value} else {};
    BuildBounded(cs.body, st0);
    BuildSeparate(cs.body, st0);
    PendingWithin(cs.body, live, bs, ks, st0);
    if !Scoped(cs.body, live, bs, ks, cs.fall.None?) {
      f := FindFault(cs.body, live, bs, ks, cs.fall.None?, st0);
      f := BodyFault(f, sw, cs, live, bs, ks, st, falls, more, exits);
    } else {
      f := ClauseFault(sw, cs.rest, live, PendingBreaks(cs.body, live, bs), PendingConts(cs.body, live, ks), st2,
        Falls(cs, Out({cs.id} + falls, cs.body)), more2, exits + st2.prev);
    }
  }

  /** The statement at fault waits nowhere after all clauses, and its transfer is still missing. */
  lemma BodyFaultLasts(
    f: Fault, sw: nat, cs: Clauses, live: bool, bs: set<nat>, ks: set<nat>, st: State, more: set<nat>, exits: set<nat>)
    requires cs.Clause? && bs <= st.breaks && ks <= st.conts
    requires ClausesNumbered(cs) && Apart(st.breaks, st.conts) && Apart({sw} + more + exits, st.breaks + st.conts)
    requires Untouched(ClauseIds(cs), State(st.edges, {sw} + more + exits, st.breaks, st.conts))
    requires Faulty(f, cs.body, live, bs, ks, cs.fall.None?,
      Build(cs.body, AddSucc(st.(prev := {sw}), cs.id).(prev := {cs.id} + more)))
    ensures var st' := BuildClauses(sw, cs, st, more, exits);
      && f.x !in All(st')
      && (f.Missing? ==> (f.x, f.y) !in st'.edges)
      && (f.LostExit? && cs.fall.Some? ==> (f.x, cs.fall.value) !in st'.edges)
  {
    var st0 := AddSucc(st.(prev := {sw}), cs.id).(prev := {cs.id} + more);
    var st2 := BuildClause(sw, cs, st, more);
    var more2 := if cs.fall.Some? then {cs.fall.value} else {};
    BuildBounded(cs.body, st0);
    ClausesBounded(sw, cs.rest, st2, more2, exits + st2.prev);
    WithinIds(cs.body);
    hide Inner, Exits, Brks, Conts;
  }

  /** A fault in the body of the first clause lasts. */
  lemma BodyFault(
    f: Fault, sw: nat, cs: Clauses, live: bool, bs: set<nat>, ks: set<nat>, st: State, falls: set<nat>,
      more: set<nat>, exits: set<nat>)
    returns (g: Fault)
    requires cs.Clause? && bs <= st.breaks && ks <= st.conts && falls <= more
    requires ClausesNumbered(cs) && Apart(st.breaks, st.conts) && Apart({sw} + more + exits, st.breaks + st.conts)
    requires Untouched(ClauseIds(cs), State(st.edges, {sw} + more + exits, st.breaks, st.conts))
    requires Faulty(f, cs.body, live, bs, ks, cs.fall.None?,
      Build(cs.body, AddSucc(st.(prev := {sw}), cs.id).(prev := {cs.id} + more)))
    ensures ClausesFaulty(g, sw, cs, live, bs, ks, falls, BuildClauses(sw, cs, st, more, exits))
  {
    WithinIds(cs.body);
    if Through(cs.body) { ThroughIdle(cs.body, live, bs); }
    BodyFaultLasts(f, sw, cs, live, bs, ks, st, more, exits);
    hide BuildClauses, BuildClause, Build;
    assert f.LostExit? ==> f.x in Out({cs.id} + falls, cs.body);
    g := f;
    if f.LostExit? && cs.fall.Some? {
      assert (f.x, cs.fall.value) in Cross(Out({cs.id} + falls, cs.body), cs.fall.value);
      g := Missing(f.x, cs.fall.value);
    }
  }

  // ----- the exact condition -----

  /** The return statements of c. */
  function Rets(c: Code): set<nat> {
    match c
    case Return(id) => {id}
    case Seq(a, b) => Rets(a) + Rets(b)
    case If(_, yes, no, _) => Rets(yes) + Rets(no)
    case Loop(_, _, body) => Rets(body)
    case Switch(_, cs) => ClauseRets(cs)
    case _ => {}
  }

  function ClauseRets(cs: Clauses): set<nat> {
    if cs.NoClause? then {} else Rets(cs.body) + ClauseRets(cs.rest)
  }

  lemma {:induction false} ReturnsLeave(c: Code)
    requires Numbered(c)
    ensures Rets(c) <= Ids(c) && Apart(Exits(c) + Brks(c), Rets(c))
    decreases c
  {
    WithinIds(c);
    match c
    case Seq(a, b) =>
      WithinIds(a);
      WithinIds(b);
      ReturnsLeave(a);
      ReturnsLeave(b);
    case If(_, yes, no, _) =>
      WithinIds(yes);
      WithinIds(no);
      ReturnsLeave(yes);
      ReturnsLeave(no);
    case Loop(_, _, body) => ReturnsLeave(body);
    case Switch(_, cs) => ClauseReturnsLeave(cs, {});
    case _ =>
  }

  lemma {:induction false} ClauseReturnsLeave(cs: Clauses, falls: set<nat>)
    requires ClausesNumbered(cs) && Apart(falls, ClauseIds(cs))
    ensures ClauseRets(cs) <= ClauseIds(cs) && Apart(ClauseExits(cs, falls) + ClauseBrks(cs), ClauseRets(cs))
    decreases cs
  {
    if cs.Clause? {
      var falls2 := Falls(cs, Out({cs.id} + falls, cs.body));
      WithinIds(cs.body);
      ClausesWithin(cs.rest, falls2);
      ReturnsLeave(cs.body);
      ClauseReturnsLeave(cs.rest, falls2);
    }
  }

  /** While the body is built, only returns flow to the exit. */
  lemma {:induction false} OnlyReturnsExit(c: Code, st: State)
    requires EXIT !in Ids(c) && Numbered(c)
    ensures forall x :: (x, EXIT) in Build(c, st).edges ==> (x, EXIT) in st.edges || x in Rets(c)
    decreases c
  {
    match c
    case Seq(a, b) =>
      OnlyReturnsExit(a, st);
      OnlyReturnsExit(b, Build(a, st));
    case If(id, yes, no, chain) =>
      var st1 := Build(yes, Visit(st, id));
      OnlyReturnsExit(yes, Visit(st, id));
      OnlyReturnsExit(no, Chain(st1.(prev := {id}), chain));
    case Loop(_, _, body) => OnlyReturnsExit(body, OpenLoop(st, c));
    case Switch(id, cs) => ClauseOnlyReturnsExit(id, cs, Visit(st, id), {}, {});
    case _ =>
  }

  lemma {:induction false} ClauseOnlyReturnsExit(sw: nat, cs: Clauses, st: State, falls: set<nat>, exits: set<nat>)
    requires EXIT !in ClauseIds(cs) && ClausesNumbered(cs)
    ensures forall x :: (x, EXIT) in BuildClauses(sw, cs, st, falls, exits).edges ==>
      (x, EXIT) in st.edges || x in ClauseRets(cs)
    decreases cs
  {
    if cs.Clause? {
      var st1 := BuildClause(sw, cs, st, falls);
      OnlyReturnsExit(cs.body, AddSucc(st.(prev := {sw}), cs.id).(prev := {cs.id} + falls));
      ClauseOnlyReturnsExit(sw, cs.rest, st1, if cs.fall.Some? then {cs.fall.value} else {}, exits + st1.prev);
    }
  }

  /** The last clause of a switch does not fall through. */
  predicate Closed(c: Code) {
    match c
    case Seq(a, b) => Closed(a) && Closed(b)
    case If(_, yes, no, _) => Closed(yes) && Closed(no)
    case Loop(_, _, body) => Closed(body)
    case Switch(_, cs) => ClausesClosed(cs)
    case _ => true
  }

  predicate ClausesClosed(cs: Clauses) {
    cs.Clause? ==> Closed(cs.body) && ClausesClosed(cs.rest) && (cs.fall.Some? ==> cs.rest.Clause?)
  }

  /** A break stands in a loop or switch, or may leave c; a continue stands in a loop, or may leave c. */
  predicate Enclosed(c: Code, brk: bool, cont: bool) {
    match c
    case Break(_) => brk
    case Continue(_) => cont
    case Seq(a, b) => Enclosed(a, brk, cont) && Enclosed(b, brk, cont)
    case If(_, yes, no, _) => Enclosed(yes, brk, cont) && Enclosed(no, brk, cont)
    case Loop(_, _, body) => Enclosed(body, true, true)
    case Switch(_, cs) => ClausesEnclosed(cs, cont)
    case _ => true
  }

  predicate ClausesEnclosed(cs: Clauses, cont: bool) {
    cs.Clause? ==> Enclosed(cs.body, true, cont) && ClausesEnclosed(cs.rest, cont)
  }

  lemma {:induction false} EnclosedStays(c: Code, brk: bool, cont: bool)
    requires Enclosed(c, brk, cont)
    ensures !brk ==> Brks(c) == {}
    ensures !cont ==> Conts(c) == {}
    decreases c
  {
    match c
    case Seq(a, b) =>
      EnclosedStays(a, brk, cont);
      EnclosedStays(b, brk, cont);
    case If(_, yes, no, _) =>
      EnclosedStays(yes, brk, cont);
      EnclosedStays(no, brk, cont);
    case Switch(_, cs) => ClausesEnclosedStay(cs, cont);
    case _ =>
  }

  lemma {:induction false} ClausesEnclosedStay(cs: Clauses, cont: bool)
    requires ClausesEnclosed(cs, cont)
    ensures !cont ==> ClauseConts(cs) == {}
    decreases cs
  {
    if cs.Clause? {
      EnclosedStays(cs.body, true, cont);
      ClausesEnclosedStay(cs.rest, cont);
    }
  }

  /** A program as the language allows it: its statements are distinct, no branch is without a statement to leave,
      and no last clause falls through. */
  predicate Legal(p: Code) {
    Numbered(p) && Apart(Ids(p), {ENTRY, EXIT}) && Enclosed(p, false, false) && Closed(p)
  }

  /** No edge leads into the entry or out of the exit. */
  lemma EdgeEnds(p: Code, x: nat, y: nat)
    requires Legal(p) && (x, y) in Graph(p)
    ensures x in Ids(p) + {ENTRY} && y in Ids(p) + {EXIT}
  {
    BuildBounded(p, State({}, {ENTRY}, {}, {}));
  }

  /** The graph has every transfer of the program exactly when no live branch is captured. */
  lemma TransfersKeptExactly(p: Code)
    requires Legal(p)
    ensures Transfers(p) <= Graph(p) <==> Scoped(p, true, {}, {}, false)
  {
    if Scoped(p, true, {}, {}, false) {
      ScopedKeepsTransfers(p);
    } else {
      var x, y := MissingTransfer(p);
    }
  }

  lemma MissingTransfer(p: Code) returns (x: nat, y: nat)
    requires Legal(p) && !Scoped(p, true, {}, {}, false)
    ensures (x, y) in Transfers(p) && (x, y) !in Graph(p) && x in Ids(p)
  {
    var st := State({}, {ENTRY}, {}, {});
    var f := FindFault(p, true, {}, {}, false, st);
    EnclosedStays(p, false, false);
    WithinIds(p);
    if f.LostExit? {
      x, y := f.x, EXIT;
      if Through(p) { ThroughIdle(p, true, {}); }
      assert (x, EXIT) in Cross(Out({ENTRY}, p), EXIT);
      ReturnsLeave(p);
      OnlyReturnsExit(p, st);
    } else {
      x, y := f.x, f.y;
    }
  }
}
