/** Structured statements, their executions, and the control transfers their text allows. */
module StructuredFlow {
  import opened Finite

  const ENTRY: nat := 0
  const EXIT: nat := 1

  /** A statement or a statement list. Every statement has a number, as every syntax node has an address.
      An If carries in chain the number of the if that its else consists of, when it is an else-if. */
  datatype Code =
    | Skip
    | Seq(first: Code, rest: Code)
    | Simple(id: nat)
    | Return(id: nat)
    | Break(id: nat)
    | Continue(id: nat)
    | If(id: nat, yes: Code, no: Code, chain: Option<nat>)
    | Loop(id: nat, post: Option<nat>, body: Code)
    | Switch(id: nat, clauses: Clauses)

  /** The clauses of a switch or select; fall is the fallthrough statement that ends the clause, if any. */
  datatype Clauses = NoClause | Clause(id: nat, isDefault: bool, body: Code, fall: Option<nat>, rest: Clauses)

  function Target(c: Code): nat
    requires c.Loop?
  {
    if c.post.Some? then c.post.value else c.id
  }

  predicate HasDefault(cs: Clauses) {
    cs.Clause? && (cs.isDefault || HasDefault(cs.rest))
  }

  // ----- executions -----

  /** How an execution of a statement ends. */
  datatype Outcome = Normal | Breaks | Continues | Returns

  /** Statement c can execute the statements tr, in this order, and end with o. Conditions may go either way. */
  ghost predicate Runs(c: Code, tr: seq<nat>, o: Outcome)
    decreases c, 1, 0
  {
    match c
    case Skip => tr == [] && o == Normal
    case Seq(a, b) => (o != Normal && Runs(a, tr, o)) ||
      exists i: nat :: i <= |tr| && Runs(a, tr[..i], Normal) && Runs(b, tr[i..], o)
    case Simple(id) => tr == [id] && o == Normal
    case Return(id) => tr == [id] && o == Returns
    case Break(id) => tr == [id] && o == Breaks
    case Continue(id) => tr == [id] && o == Continues
    case If(id, yes, no, _) => tr != [] && tr[0] == id && (Runs(yes, tr[1..], o) || Runs(no, tr[1..], o))
    case Loop(_, _, _) => RunsLoop(c, tr, o)
    case Switch(id, cs) =>
      && tr != [] && tr[0] == id && o != Breaks
      && (|| (tr == [id] && o == Normal && !HasDefault(cs))
          || (o == Normal && RunsSome(cs, tr[1..], Breaks))
          || RunsSome(cs, tr[1..], o))
  }

  ghost predicate RunsLoop(c: Code, tr: seq<nat>, o: Outcome)
    requires c.Loop?
    decreases c, 0, |tr|, 0
  {
    && tr != [] && tr[0] == c.id
    && (|| (tr == [c.id] && o == Normal)
        || (o == Normal && Runs(c.body, tr[1..], Breaks))
        || (o == Returns && Runs(c.body, tr[1..], Returns))
        || exists i: nat :: 1 <= i <= |tr| && RunsRound(c, tr[1..i]) && RunsNext(c, tr[i..], o))
  }

  /** The body runs to its end or to a continue. */
  ghost predicate RunsRound(c: Code, tr: seq<nat>)
    requires c.Loop?
    decreases c, 0, 0
  {
    Runs(c.body, tr, Normal) || Runs(c.body, tr, Continues)
  }

  /** The post statement, if there is one, and the loop again. */
  ghost predicate RunsNext(c: Code, tr: seq<nat>, o: Outcome)
    requires c.Loop?
    decreases c, 0, |tr|, 1
  {
    if c.post.Some? then tr != [] && tr[0] == c.post.value && RunsLoop(c, tr[1..], o) else RunsLoop(c, tr, o)
  }

  /** One of the clauses is chosen and runs. */
  ghost predicate RunsSome(cs: Clauses, tr: seq<nat>, o: Outcome)
    decreases cs, 1, 0
  {
    cs.Clause? && ((tr != [] && tr[0] == cs.id && RunsFrom(cs, tr[1..], o)) || RunsSome(cs.rest, tr, o))
  }

  /** The body of the first clause runs, and the next ones as far as it falls through. */
  ghost predicate RunsFrom(cs: Clauses, tr: seq<nat>, o: Outcome)
    decreases cs, 0, 0
  {
    && cs.Clause?
    && (|| (o != Normal && Runs(cs.body, tr, o))
        || (o == Normal && cs.fall.None? && Runs(cs.body, tr, Normal))
        || (cs.fall.Some? && exists i: nat ::
          i < |tr| && Runs(cs.body, tr[..i], Normal) && tr[i] == cs.fall.value && RunsFrom(cs.rest, tr[i + 1..], o)))
  }

  // ----- control transfers -----

  /** Nothing to execute: empty lists only. */
  predicate Through(c: Code) {
    c.Skip? || (c.Seq? && Through(c.first) && Through(c.rest))
  }

  /** The first statement executed. */
  function First(c: Code): nat
    requires !Through(c)
  {
    if !c.Seq? then c.id else if Through(c.first) then First(c.rest) else First(c.first)
  }

  /** Control can come out at the end. */
  predicate Completes(c: Code) {
    Through(c) || Exits(c) != {}
  }

  /** The last statements of normal executions. */
  function Exits(c: Code): set<nat>
    decreases c, 0
  {
    match c
    case Skip => {}
    case Seq(a, b) => if Through(b) then Exits(a) else if Through(a) || Exits(a) != {} then Exits(b) else {}
    case Simple(id) => {id}
    case Return(_) => {}
    case Break(_) => {}
    case Continue(_) => {}
    case If(id, yes, no, _) => Out({id}, yes) + Out({id}, no)
    case Loop(id, _, body) => {id} + Brks(body)
    case Switch(id, cs) => ClauseExits(cs, {}) + (if HasDefault(cs) then {} else {id}) + ClauseBrks(cs)
  }

  /** Where control is after c when it came from the statements in. */
  function Out(before: set<nat>, c: Code): set<nat>
    decreases c, 1
  {
    if Through(c) then before else Exits(c)
  }

  function ClauseExits(cs: Clauses, falls: set<nat>): set<nat>
    decreases cs, 0
  {
    if cs.NoClause? then {}
    else
      var outs := Out({cs.id} + falls, cs.body);
      if cs.fall.None? then outs + ClauseExits(cs.rest, {}) else ClauseExits(cs.rest, Falls(cs, outs))
  }

  /** The fallthrough statement, when control comes to it. */
  function Falls(cs: Clauses, outs: set<nat>): set<nat>
    requires cs.Clause?
  {
    if cs.fall.Some? && outs != {} then {cs.fall.value} else {}
  }

  /** The breaks that leave c. */
  function Brks(c: Code): set<nat> {
    match c
    case Break(id) => {id}
    case Seq(a, b) => Brks(a) + (if Through(a) || Exits(a) != {} then Brks(b) else {})
    case If(_, yes, no, _) => Brks(yes) + Brks(no)
    case _ => {}
  }

  function ClauseBrks(cs: Clauses): set<nat> {
    if cs.NoClause? then {} else Brks(cs.body) + ClauseBrks(cs.rest)
  }

  /** The continues that leave c. */
  function Conts(c: Code): set<nat> {
    match c
    case Continue(id) => {id}
    case Seq(a, b) => Conts(a) + (if Through(a) || Exits(a) != {} then Conts(b) else {})
    case If(_, yes, no, _) => Conts(yes) + Conts(no)
    case Switch(_, cs) => ClauseConts(cs)
    case _ => {}
  }

  function ClauseConts(cs: Clauses): set<nat> {
    if cs.NoClause? then {} else Conts(cs.body) + ClauseConts(cs.rest)
  }

  type Edges = set<(nat, nat)>

  function Cross(from: set<nat>, to: nat): Edges {
    set x | x in from :: (x, to)
  }

  /** From these statements into c. */
  function Enter(from: set<nat>, c: Code): Edges {
    if Through(c) then {} else Cross(from, First(c))
  }

  /** The transfers inside c, and from its returns to the exit. */
  function Inner(c: Code): Edges
    decreases c
  {
    match c
    case Seq(a, b) => Inner(a) + (if Through(a) || Exits(a) != {} then Enter(Exits(a), b) + Inner(b) else {})
    case Return(id) => {(id, EXIT)}
    case If(id, yes, no, _) => Enter({id}, yes) + Inner(yes) + Enter({id}, no) + Inner(no)
    case Loop(id, post, body) =>
      var ends := Out({id}, body) + Conts(body);
      Enter({id}, body) + Inner(body) + Cross(ends, Target(c))
        + (if post.Some? && ends != {} then {(post.value, id)} else {})
    case Switch(id, cs) => ClauseInner(id, cs, {})
    case _ => {}
  }

  function ClauseInner(sw: nat, cs: Clauses, falls: set<nat>): Edges
    decreases cs
  {
    if cs.NoClause? then {}
    else
      var outs := Out({cs.id} + falls, cs.body);
      {(sw, cs.id)} + Enter({cs.id} + falls, cs.body) + Inner(cs.body)
      + (if cs.fall.Some? then Cross(outs, cs.fall.value) else {}) + ClauseInner(sw, cs.rest, Falls(cs, outs))
  }

  /** All transfers of a program, from the entry to the exit. */
  function Transfers(p: Code): Edges {
    Enter({ENTRY}, p) + Inner(p) + Cross(Out({ENTRY}, p), EXIT)
  }

  // ----- executions follow the transfers -----

  predicate Linked(tr: seq<nat>, edges: Edges) {
    forall i, j :: 0 <= i && j == i + 1 < |tr| ==> (tr[i], tr[j]) in edges
  }

  function Last(tr: seq<nat>): nat
    requires tr != []
  {
    tr[|tr| - 1]
  }

  lemma LinkedMore(tr: seq<nat>, e: Edges, f: Edges)
    requires Linked(tr, e) && e <= f
    ensures Linked(tr, f)
  {
  }

  /** Two linked pieces that share a statement. */
  lemma LinkedJoin(a: seq<nat>, x: nat, b: seq<nat>, e: Edges)
    requires Linked(a + [x], e) && Linked([x] + b, e)
    ensures Linked(a + [x] + b, e)
  {
    var tr := a + [x] + b;
    forall i, j | 0 <= i && j == i + 1 < |tr|
      ensures (tr[i], tr[j]) in e
    {
      if j <= |a| {
        assert tr[i] == (a + [x])[i] && tr[j] == (a + [x])[j];
      } else {
        assert tr[i] == ([x] + b)[i - |a|] && tr[j] == ([x] + b)[j - |a|];
      }
    }
  }

  /** Where the last statement of an execution stands, when p came before it. */
  ghost predicate Ends(p: nat, c: Code, last: nat, o: Outcome, e: Edges) {
    match o
    case Normal => last in Out({p}, c)
    case Breaks => last in Brks(c)
    case Continues => last in Conts(c)
    case Returns => (last, EXIT) in e
  }

  /** An execution of c after p walks along the transfers into c and inside it. */
  lemma {:induction false} RunFits(p: nat, c: Code, tr: seq<nat>, o: Outcome, e: Edges)
    requires Runs(c, tr, o) && Enter({p}, c) + Inner(c) <= e
    ensures Linked([p] + tr, e) && Ends(p, c, Last([p] + tr), o, e)
    decreases c, 1, 0
  {
    match c
    case Seq(a, b) => SeqFits(p, c, tr, o, e);
    case If(id, yes, no, _) => IfFits(p, c, tr, o, e);
    case Loop(_, _, _) => LoopFits(p, c, tr, o, e);
    case Switch(_, _) => SwitchFits(p, c, tr, o, e);
    case Skip =>
    case _ => assert (p, c.id) in Enter({p}, c);
  }

  /** A walk after p that is linked up to i and from there on. */
  lemma JoinAt(p: nat, tr: seq<nat>, i: nat, e: Edges)
    requires i <= |tr| && Linked([p] + tr[..i], e) && Linked([Last([p] + tr[..i])] + tr[i..], e)
    ensures Linked([p] + tr, e) && Last([p] + tr) == Last([Last([p] + tr[..i])] + tr[i..])
  {
    var q := Last([p] + tr[..i]);
    assert [p] + tr[..i] == ([p] + tr)[..i] + [q];
    LinkedJoin(([p] + tr)[..i], q, tr[i..], e);
    assert [p] + tr == ([p] + tr)[..i] + [q] + tr[i..];
  }

  lemma {:induction false} SeqFits(p: nat, c: Code, tr: seq<nat>, o: Outcome, e: Edges)
    requires c.Seq? && Runs(c, tr, o) && Enter({p}, c) + Inner(c) <= e
    ensures Linked([p] + tr, e) && Ends(p, c, Last([p] + tr), o, e)
    decreases c, 0, 0
  {
    var a, b := c.first, c.rest;
    assert Enter({p}, a) + Inner(a) <= e;
    if o != Normal && Runs(a, tr, o) {
      RunFits(p, a, tr, o, e);
    } else {
      var i: nat :| i <= |tr| && Runs(a, tr[..i], Normal) && Runs(b, tr[i..], o);
      RunFits(p, a, tr[..i], Normal, e);
      var q := Last([p] + tr[..i]);
      assert Enter({q}, b) + Inner(b) <= e;
      RunFits(q, b, tr[i..], o, e);
      JoinAt(p, tr, i, e);
    }
  }

  lemma {:induction false} IfFits(p: nat, c: Code, tr: seq<nat>, o: Outcome, e: Edges)
    requires c.If? && Runs(c, tr, o) && Enter({p}, c) + Inner(c) <= e
    ensures Linked([p] + tr, e) && Ends(p, c, Last([p] + tr), o, e)
    decreases c, 0, 0
  {
    assert (p, c.id) in Enter({p}, c);
    assert tr[..1] == [c.id];
    assert Enter({c.id}, c.yes) + Inner(c.yes) <= e && Enter({c.id}, c.no) + Inner(c.no) <= e;
    if Runs(c.yes, tr[1..], o) {
      RunFits(c.id, c.yes, tr[1..], o, e);
    } else {
      RunFits(c.id, c.no, tr[1..], o, e);
    }
    JoinAt(p, tr, 1, e);
  }

  lemma {:induction false} LoopFits(p: nat, c: Code, tr: seq<nat>, o: Outcome, e: Edges)
    requires c.Loop? && RunsLoop(c, tr, o) && (p, c.id) in e && Inner(c) <= e
    ensures Linked([p] + tr, e) && Ends(p, c, Last([p] + tr), o, e)
    decreases c, 0, |tr|, 0
  {
    var id := c.id;
    assert tr[..1] == [id];
    assert Enter({id}, c.body) + Inner(c.body) <= e;
    if tr == [id] && o == Normal {
    } else if o == Normal && Runs(c.body, tr[1..], Breaks) {
      RunFits(id, c.body, tr[1..], Breaks, e);
      JoinAt(p, tr, 1, e);
    } else if o == Returns && Runs(c.body, tr[1..], Returns) {
      RunFits(id, c.body, tr[1..], Returns, e);
      JoinAt(p, tr, 1, e);
    } else {
      var i: nat :| 1 <= i <= |tr| && RunsRound(c, tr[1..i]) && RunsNext(c, tr[i..], o);
      RoundFits(p, c, tr[..i], e);
      NextFits(Last([p] + tr[..i]), c, tr[i..], o, e);
      JoinAt(p, tr, i, e);
    }
  }

  lemma {:induction false} RoundFits(p: nat, c: Code, tr: seq<nat>, e: Edges)
    requires c.Loop? && (p, c.id) in e && Inner(c) <= e && tr != [] && tr[0] == c.id && RunsRound(c, tr[1..])
    ensures Linked([p] + tr, e) && (Last([p] + tr), Target(c)) in e && (c.post.Some? ==> (c.post.value, c.id) in e)
    decreases c, 0, 0
  {
    var id := c.id;
    assert tr[..1] == [id];
    assert Enter({id}, c.body) + Inner(c.body) <= e;
    RunFits(id, c.body, tr[1..], if Runs(c.body, tr[1..], Normal) then Normal else Continues, e);
    JoinAt(p, tr, 1, e);
    var ends := Out({id}, c.body) + Conts(c.body);
    assert Last([p] + tr) in ends;
    assert (Last([p] + tr), Target(c)) in Cross(ends, Target(c));
  }

  lemma {:induction false} NextFits(p: nat, c: Code, tr: seq<nat>, o: Outcome, e: Edges)
    requires c.Loop? && RunsNext(c, tr, o) && (p, Target(c)) in e && (c.post.Some? ==> (c.post.value, c.id) in e) &&
      Inner(c) <= e
    ensures Linked([p] + tr, e) && Ends(p, c, Last([p] + tr), o, e)
    decreases c, 0, |tr|, 1
  {
    if c.post.Some? {
      assert tr[..1] == [c.post.value];
      LoopFits(c.post.value, c, tr[1..], o, e);
      JoinAt(p, tr, 1, e);
    } else {
      LoopFits(p, c, tr, o, e);
    }
  }

  lemma {:induction false} SwitchFits(p: nat, c: Code, tr: seq<nat>, o: Outcome, e: Edges)
    requires c.Switch? && Runs(c, tr, o) && Enter({p}, c) + Inner(c) <= e
    ensures Linked([p] + tr, e) && Ends(p, c, Last([p] + tr), o, e)
    decreases c, 0, 0
  {
    assert (p, c.id) in Enter({p}, c);
    assert tr[..1] == [c.id];
    if tr == [c.id] && o == Normal && !HasDefault(c.clauses) {
    } else {
      var ob := if o == Normal && RunsSome(c.clauses, tr[1..], Breaks) then Breaks else o;
      SomeFits(c.id, c.clauses, {}, tr[1..], ob, e);
      JoinAt(p, tr, 1, e);
    }
  }

  ghost predicate ClauseEnds(cs: Clauses, falls: set<nat>, last: nat, o: Outcome, e: Edges) {
    match o
    case Normal => last in ClauseExits(cs, falls)
    case Breaks => last in ClauseBrks(cs)
    case Continues => last in ClauseConts(cs)
    case Returns => (last, EXIT) in e
  }

  lemma {:induction false} SomeFits(sw: nat, cs: Clauses, falls: set<nat>, tr: seq<nat>, o: Outcome, e: Edges)
    requires RunsSome(cs, tr, o) && ClauseInner(sw, cs, falls) <= e
    ensures Linked([sw] + tr, e) && ClauseEnds(cs, falls, Last([sw] + tr), o, e)
    decreases cs, 1
  {
    if tr != [] && tr[0] == cs.id && RunsFrom(cs, tr[1..], o) {
      assert (sw, cs.id) in e;
      assert tr[..1] == [cs.id];
      FromFits(sw, cs, falls, cs.id, tr[1..], o, e);
      JoinAt(sw, tr, 1, e);
    } else {
      SomeFits(sw, cs.rest, Falls(cs, Out({cs.id} + falls, cs.body)), tr, o, e);
    }
  }

  /** From the clause p or from the fallthrough p before it. */
  lemma {:induction false} FromFits(sw: nat, cs: Clauses, falls: set<nat>, p: nat, tr: seq<nat>, o: Outcome, e: Edges)
    requires RunsFrom(cs, tr, o) && ClauseInner(sw, cs, falls) <= e && p in {cs.id} + falls
    ensures Linked([p] + tr, e) && ClauseEnds(cs, falls, Last([p] + tr), o, e)
    decreases cs, 0
  {
    var outs := Out({cs.id} + falls, cs.body);
    assert Enter({p}, cs.body) + Inner(cs.body) <= e;
    if o != Normal && Runs(cs.body, tr, o) {
      RunFits(p, cs.body, tr, o, e);
    } else if o == Normal && cs.fall.None? && Runs(cs.body, tr, Normal) {
      RunFits(p, cs.body, tr, Normal, e);
    } else {
      var i: nat :| i < |tr| && Runs(cs.body, tr[..i], Normal) && tr[i] == cs.fall.value &&
        RunsFrom(cs.rest, tr[i + 1..], o);
      RunFits(p, cs.body, tr[..i], Normal, e);
      var q := Last([p] + tr[..i]);
      assert q in outs && (q, cs.fall.value) in Cross(outs, cs.fall.value);
      FromFits(sw, cs.rest, Falls(cs, outs), cs.fall.value, tr[i + 1..], o, e);
      assert tr[i..][..1] == [cs.fall.value] && tr[i..][1..] == tr[i + 1..];
      JoinAt(q, tr[i..], 1, e);
      JoinAt(p, tr, i, e);
    }
  }

  /** A complete execution of a program. */
  ghost predicate Trace(p: Code, tr: seq<nat>) {
    Runs(p, tr, Normal) || Runs(p, tr, Returns)
  }

  /** Every complete execution walks from the entry to the exit along the transfers. */
  lemma TraceFollowsTransfers(p: Code, tr: seq<nat>)
    requires Trace(p, tr)
    ensures Linked([ENTRY] + tr + [EXIT], Transfers(p))
  {
    var e := Transfers(p);
    RunFits(ENTRY, p, tr, if Runs(p, tr, Normal) then Normal else Returns, e);
    var q := Last([ENTRY] + tr);
    assert (q, EXIT) in e by {
      if Runs(p, tr, Normal) { assert (q, EXIT) in Cross(Out({ENTRY}, p), EXIT); }
    }
    assert [ENTRY] + tr == ([ENTRY] + tr)[..|tr|] + [q];
    LinkedJoin(([ENTRY] + tr)[..|tr|], q, [EXIT], e);
  }
}
