/** Statements as the parser delivers them, their executions, and their plain form. */
module Statements {
  import Flow = StructuredFlow
  import opened Finite
  import opened CfgCapture
  import CfgTraces
  import opened CfgExact

  datatype Stmt =
    | Simple(id: nat)
    | Return(id: nat)
    | Break(id: nat)
    | Continue(id: nat)
    | Block(list: Stmts)
    | If(f: IfStmt)
    | For(init: Option<nat>, id: nat, post: Option<nat>, body: Stmts)
    | Range(id: nat, body: Stmts)
    | Switch(init: Option<nat>, id: nat, cases: Cases)
    | TypeSwitch(init: Option<nat>, id: nat, assign: nat, cases: Cases)
    | Select(id: nat, cases: Cases)

  datatype Stmts = Nil | Cons(head: Stmt, tail: Stmts)

  datatype IfStmt = IfStmt(init: Option<nat>, id: nat, body: Stmts, els: Else)

  datatype Else = NoElse | ElseBlock(list: Stmts) | ElseIf(next: IfStmt)

  /** A fallthrough can only be the last statement of a clause. */
  datatype Cases = NoCase | Case(id: nat, isDefault: bool, comm: Option<nat>, body: Stmts, fall: Option<nat>,
    rest: Cases)

  // ----- executions -----

  /** The statement that comes first, if there is one, is the first executed. */
  predicate Headed(init: Option<nat>, tr: seq<nat>) {
    init.Some? ==> tr != [] && tr[0] == init.value
  }

  function Past(init: Option<nat>, tr: seq<nat>): seq<nat>
    requires Headed(init, tr)
  {
    if init.Some? then tr[1..] else tr
  }

  /** Statement s can execute the statements tr, in this order, and end with o. */
  ghost predicate Executes(s: Stmt, tr: seq<nat>, o: Flow.Outcome) {
    match s
    case Simple(id) => tr == [id] && o == Flow.Normal
    case Return(id) => tr == [id] && o == Flow.Returns
    case Break(id) => tr == [id] && o == Flow.Breaks
    case Continue(id) => tr == [id] && o == Flow.Continues
    case Block(list) => ExecutesList(list, tr, o)
    case If(f) => ExecutesIf(f, tr, o)
    case For(init, id, post, body) => Headed(init, tr) && Loops(id, post, body, Past(init, tr), o)
    case Range(id, body) => Loops(id, None, body, tr, o)
    case Switch(init, id, cases) => Headed(init, tr) && Chooses(id, cases, Past(init, tr), o)
    case TypeSwitch(init, id, assign, cases) =>
      && Headed(init, tr) && Headed(Some(id), Past(init, tr))
      && Chooses(assign, cases, Past(Some(id), Past(init, tr)), o)
    case Select(id, cases) => Chooses(id, cases, tr, o)
  }

  /** One after the other; a statement that does not end normally ends the list. */
  ghost predicate ExecutesList(list: Stmts, tr: seq<nat>, o: Flow.Outcome)
    decreases list, 0
  {
    match list
    case Nil => tr == [] && o == Flow.Normal
    case Cons(head, tail) =>
      || (o != Flow.Normal && Executes(head, tr, o))
      || exists i: nat :: i <= |tr| && Executes(head, tr[..i], Flow.Normal) && ExecutesList(tail, tr[i..], o)
  }

  /** The init, the condition, and then the body or the else. */
  ghost predicate ExecutesIf(f: IfStmt, tr: seq<nat>, o: Flow.Outcome) {
    && Headed(f.init, tr) && Headed(Some(f.id), Past(f.init, tr))
    && var t := Past(Some(f.id), Past(f.init, tr));
       ExecutesList(f.body, t, o) || ExecutesElse(f.els, t, o)
  }

  ghost predicate ExecutesElse(els: Else, tr: seq<nat>, o: Flow.Outcome) {
    match els
    case NoElse => tr == [] && o == Flow.Normal
    case ElseBlock(list) => ExecutesList(list, tr, o)
    case ElseIf(next) => ExecutesIf(next, tr, o)
  }

  /** The head is executed before every round and at the end; a break ends the loop, a continue the round, and the post
      statement comes after every round. */
  ghost predicate Loops(id: nat, post: Option<nat>, body: Stmts, tr: seq<nat>, o: Flow.Outcome)
    decreases body, 1, |tr|
  {
    && tr != [] && tr[0] == id
    && (|| (tr == [id] && o == Flow.Normal)
        || (o == Flow.Normal && ExecutesList(body, tr[1..], Flow.Breaks))
        || (o == Flow.Returns && ExecutesList(body, tr[1..], Flow.Returns))
        || exists i: nat ::
             && 1 <= i <= |tr|
             && (ExecutesList(body, tr[1..i], Flow.Normal) || ExecutesList(body, tr[1..i], Flow.Continues))
             && Headed(post, tr[i..]) && Loops(id, post, body, Past(post, tr[i..]), o))
  }

  /** One of the clauses is executed, or none if there is no default; a break ends the whole. */
  ghost predicate Chooses(id: nat, cases: Cases, tr: seq<nat>, o: Flow.Outcome)
    decreases cases, 2
  {
    && tr != [] && tr[0] == id && o != Flow.Breaks
    && (|| (tr == [id] && o == Flow.Normal && !AnyDefault(cases))
        || (o == Flow.Normal && ExecutesSome(cases, tr[1..], Flow.Breaks))
        || ExecutesSome(cases, tr[1..], o))
  }

  predicate AnyDefault(cases: Cases) {
    cases.Case? && (cases.isDefault || AnyDefault(cases.rest))
  }

  ghost predicate ExecutesSome(cases: Cases, tr: seq<nat>, o: Flow.Outcome)
    decreases cases, 1
  {
    && cases.Case?
    && (|| (tr != [] && tr[0] == cases.id && ExecutesFrom(cases, tr[1..], o))
        || ExecutesSome(cases.rest, tr, o))
  }

  /** The communication and the body of the first clause, and the next clause when it falls through. */
  ghost predicate ExecutesFrom(cases: Cases, tr: seq<nat>, o: Flow.Outcome)
    decreases cases, 0
  {
    && cases.Case? && Headed(cases.comm, tr)
    && var t := Past(cases.comm, tr);
       || (o != Flow.Normal && ExecutesList(cases.body, t, o))
       || (o == Flow.Normal && cases.fall.None? && ExecutesList(cases.body, t, Flow.Normal))
       || (cases.fall.Some? && exists i: nat ::
             i < |t| && ExecutesList(cases.body, t[..i], Flow.Normal) && t[i] == cases.fall.value &&
             ExecutesFrom(cases.rest, t[i + 1..], o))
  }

  // ----- the same statements in their plain form -----

  /** An init statement, a type switch's assignment and a clause's communication are executed before what they head. */
  function Lead(init: Option<nat>, c: Flow.Code): Flow.Code {
    if init.Some? then Flow.Seq(Flow.Simple(init.value), c) else c
  }

  function Plain(s: Stmt): Flow.Code {
    match s
    case Simple(id) => Flow.Simple(id)
    case Return(id) => Flow.Return(id)
    case Break(id) => Flow.Break(id)
    case Continue(id) => Flow.Continue(id)
    case Block(list) => PlainList(list)
    case If(f) => PlainIf(f)
    case For(init, id, post, body) => Lead(init, Flow.Loop(id, post, PlainList(body)))
    case Range(id, body) => Flow.Loop(id, None, PlainList(body))
    case Switch(init, id, cases) => Lead(init, Flow.Switch(id, PlainCases(cases)))
    case TypeSwitch(init, id, assign, cases) => Lead(init,
      Flow.Seq(Flow.Simple(id), Flow.Switch(assign, PlainCases(cases))))
    case Select(id, cases) => Flow.Switch(id, PlainCases(cases))
  }

  function PlainList(list: Stmts): Flow.Code {
    if list.Nil? then Flow.Skip else Flow.Seq(Plain(list.head), PlainList(list.tail))
  }

  function PlainIf(f: IfStmt): Flow.Code
    decreases f, 1
  {
    Lead(f.init, PlainIfOnly(f))
  }

  function PlainIfOnly(f: IfStmt): Flow.Code
    decreases f, 0
  {
    Flow.If(f.id, PlainList(f.body), PlainElse(f.els), ChainOf(f.els))
  }

  function ChainOf(els: Else): Option<nat> {
    if els.ElseIf? then Some(els.next.id) else None
  }

  function PlainElse(els: Else): Flow.Code {
    match els
    case NoElse => Flow.Skip
    case ElseBlock(list) => PlainList(list)
    case ElseIf(next) => PlainIf(next)
  }

  function PlainCases(cases: Cases): Flow.Clauses {
    if cases.NoCase? then Flow.NoClause
    else Flow.Clause(cases.id, cases.isDefault, Lead(cases.comm, PlainList(cases.body)), cases.fall,
      PlainCases(cases.rest))
  }

  // ----- the plain form has the same executions -----

  lemma LeadRuns(init: Option<nat>, c: Flow.Code, tr: seq<nat>, o: Flow.Outcome)
    ensures Flow.Runs(Lead(init, c), tr, o) <==> Headed(init, tr) && Flow.Runs(c, Past(init, tr), o)
  {
    if init.Some? {
      assert o != Flow.Normal ==> !Flow.Runs(Flow.Simple(init.value), tr, o);
      if Flow.Runs(Lead(init, c), tr, o) {
        var i: nat :| i <= |tr| && Flow.Runs(Flow.Simple(init.value), tr[..i], Flow.Normal) && Flow.Runs(c, tr[i..], o);
        assert tr[..i] == [init.value];
      }
      if Headed(init, tr) && Flow.Runs(c, Past(init, tr), o) {
        assert tr[..1] == [init.value];
      }
    }
  }

  lemma {:induction false} PlainExecutes(s: Stmt, tr: seq<nat>, o: Flow.Outcome)
    ensures Executes(s, tr, o) <==> Flow.Runs(Plain(s), tr, o)
    decreases s
  {
    match s
    case Block(list) => PlainListExecutes(list, tr, o);
    case If(f) => PlainIfExecutes(f, tr, o);
    case For(init, id, post, body) =>
      LeadRuns(init, Flow.Loop(id, post, PlainList(body)), tr, o);
      if Headed(init, tr) { PlainLoops(id, post, body, Past(init, tr), o); }
    case Range(id, body) => PlainLoops(id, None, body, tr, o);
    case Switch(init, id, cases) =>
      LeadRuns(init, Flow.Switch(id, PlainCases(cases)), tr, o);
      if Headed(init, tr) { PlainChooses(id, cases, Past(init, tr), o); }
    case TypeSwitch(init, id, assign, cases) =>
      var inner := Flow.Switch(assign, PlainCases(cases));
      LeadRuns(init, Lead(Some(id), inner), tr, o);
      if Headed(init, tr) {
        LeadRuns(Some(id), inner, Past(init, tr), o);
        if Headed(Some(id), Past(init, tr)) { PlainChooses(assign, cases, Past(Some(id), Past(init, tr)), o); }
      }
    case Select(id, cases) => PlainChooses(id, cases, tr, o);
    case _ =>
  }

  lemma {:induction false} PlainListExecutes(list: Stmts, tr: seq<nat>, o: Flow.Outcome)
    ensures ExecutesList(list, tr, o) <==> Flow.Runs(PlainList(list), tr, o)
    decreases list, 0
  {
    if list.Cons? {
      PlainExecutes(list.head, tr, o);
      forall i: nat | i <= |tr|
        ensures Executes(list.head, tr[..i], Flow.Normal) <==> Flow.Runs(Plain(list.head), tr[..i], Flow.Normal)
        ensures ExecutesList(list.tail, tr[i..], o) <==> Flow.Runs(PlainList(list.tail), tr[i..], o)
      {
        PlainExecutes(list.head, tr[..i], Flow.Normal);
        PlainListExecutes(list.tail, tr[i..], o);
      }
    }
  }

  lemma {:induction false} PlainIfExecutes(f: IfStmt, tr: seq<nat>, o: Flow.Outcome)
    ensures ExecutesIf(f, tr, o) <==> Flow.Runs(PlainIf(f), tr, o)
    decreases f
  {
    LeadRuns(f.init, PlainIfOnly(f), tr, o);
    if Headed(f.init, tr) && Headed(Some(f.id), Past(f.init, tr)) {
      var t := Past(Some(f.id), Past(f.init, tr));
      PlainListExecutes(f.body, t, o);
      PlainElseExecutes(f.els, t, o);
    }
  }

  lemma {:induction false} PlainElseExecutes(els: Else, tr: seq<nat>, o: Flow.Outcome)
    ensures ExecutesElse(els, tr, o) <==> Flow.Runs(PlainElse(els), tr, o)
    decreases els
  {
    match els
    case NoElse =>
    case ElseBlock(list) => PlainListExecutes(list, tr, o);
    case ElseIf(next) => PlainIfExecutes(next, tr, o);
  }

  lemma {:induction false} PlainLoops(id: nat, post: Option<nat>, body: Stmts, tr: seq<nat>, o: Flow.Outcome)
    ensures Loops(id, post, body, tr, o) <==> Flow.Runs(Flow.Loop(id, post, PlainList(body)), tr, o)
    decreases body, 1, |tr|
  {
    var c := Flow.Loop(id, post, PlainList(body));
    if tr != [] && tr[0] == id {
      PlainListExecutes(body, tr[1..], Flow.Breaks);
      PlainListExecutes(body, tr[1..], Flow.Returns);
      forall i: nat | 1 <= i <= |tr|
        ensures ExecutesList(body, tr[1..i], Flow.Normal) || ExecutesList(body, tr[1..i], Flow.Continues) <==>
          Flow.RunsRound(c, tr[1..i])
        ensures Headed(post, tr[i..]) && Loops(id, post, body, Past(post, tr[i..]), o) <==> Flow.RunsNext(c, tr[i..], o)
      {
        PlainListExecutes(body, tr[1..i], Flow.Normal);
        PlainListExecutes(body, tr[1..i], Flow.Continues);
        if Headed(post, tr[i..]) { PlainLoops(id, post, body, Past(post, tr[i..]), o); }
      }
    }
  }

  lemma {:induction false} PlainDefault(cases: Cases)
    ensures AnyDefault(cases) <==> Flow.HasDefault(PlainCases(cases))
  {
    if cases.Case? { PlainDefault(cases.rest); }
  }

  lemma {:induction false} PlainChooses(id: nat, cases: Cases, tr: seq<nat>, o: Flow.Outcome)
    ensures Chooses(id, cases, tr, o) <==> Flow.Runs(Flow.Switch(id, PlainCases(cases)), tr, o)
    decreases cases, 2
  {
    PlainDefault(cases);
    if tr != [] {
      PlainSome(cases, tr[1..], Flow.Breaks);
      PlainSome(cases, tr[1..], o);
    }
  }

  lemma {:induction false} PlainSome(cases: Cases, tr: seq<nat>, o: Flow.Outcome)
    ensures ExecutesSome(cases, tr, o) <==> Flow.RunsSome(PlainCases(cases), tr, o)
    decreases cases, 1
  {
    if cases.Case? {
      if tr != [] { PlainFrom(cases, tr[1..], o); }
      PlainSome(cases.rest, tr, o);
    }
  }

  lemma {:induction false} PlainFrom(cases: Cases, tr: seq<nat>, o: Flow.Outcome)
    ensures ExecutesFrom(cases, tr, o) <==> Flow.RunsFrom(PlainCases(cases), tr, o)
    decreases cases, 0
  {
    if cases.Case? {
      PlainBody(cases, tr, o);
      if cases.fall.Some? { PlainFalls(cases, tr, o); }
      FromCases(cases, tr, o);
      FromClauses(cases, tr, o);
    }
  }

  /** The first i statements of t are the body, and then the clause falls through. */
  ghost predicate FallsAt(cases: Cases, t: seq<nat>, i: nat, o: Flow.Outcome)
    requires cases.Case? && cases.fall.Some?
  {
    && i < |t| && ExecutesList(cases.body, t[..i], Flow.Normal) && t[i] == cases.fall.value
    && ExecutesFrom(cases.rest, t[i + 1..], o)
  }

  /** The three ways to execute from a clause on. */
  lemma FromCases(cases: Cases, tr: seq<nat>, o: Flow.Outcome)
    requires cases.Case?
    ensures ExecutesFrom(cases, tr, o) <==>
      && Headed(cases.comm, tr)
      && var t := Past(cases.comm, tr);
        || (o != Flow.Normal && ExecutesList(cases.body, t, o))
        || (o == Flow.Normal && cases.fall.None? && ExecutesList(cases.body, t, Flow.Normal))
        || (cases.fall.Some? && exists i: nat :: FallsAt(cases, t, i, o))
  {
    if Headed(cases.comm, tr) && cases.fall.Some? {
      var t := Past(cases.comm, tr);
      if exists i: nat :: FallsAt(cases, t, i, o) {
        var i: nat :| FallsAt(cases, t, i, o);
        assert i < |t| && ExecutesList(cases.body, t[..i], Flow.Normal) && t[i] == cases.fall.value &&
          ExecutesFrom(cases.rest, t[i + 1..], o);
      } else if ExecutesFrom(cases, tr, o) && (o == Flow.Normal || !ExecutesList(cases.body, t, o)) {
        var i: nat :| i < |t| && ExecutesList(cases.body, t[..i], Flow.Normal) && t[i] == cases.fall.value &&
          ExecutesFrom(cases.rest, t[i + 1..], o);
        assert FallsAt(cases, t, i, o);
      }
    }
  }

  /** And in the plain form. */
  lemma FromClauses(cases: Cases, tr: seq<nat>, o: Flow.Outcome)
    requires cases.Case?
    ensures var cs := PlainCases(cases);
      Flow.RunsFrom(cs, tr, o) <==>
        || (o != Flow.Normal && Flow.Runs(cs.body, tr, o))
        || (o == Flow.Normal && cs.fall.None? && Flow.Runs(cs.body, tr, Flow.Normal))
        || (cases.fall.Some? && exists i: nat :: PlainFallsAt(cases, tr, i, o))
  {
    var cs := PlainCases(cases);
    if cases.fall.Some? && exists i: nat :: PlainFallsAt(cases, tr, i, o) {
      var i: nat :| PlainFallsAt(cases, tr, i, o);
      assert i < |tr| && Flow.Runs(cs.body, tr[..i], Flow.Normal) && tr[i] == cs.fall.value &&
        Flow.RunsFrom(cs.rest, tr[i + 1..], o);
    } else if cases.fall.Some? && Flow.RunsFrom(cs, tr, o) && (o == Flow.Normal || !Flow.Runs(cs.body, tr, o)) {
      var i: nat :| i < |tr| && Flow.Runs(cs.body, tr[..i], Flow.Normal) && tr[i] == cs.fall.value &&
        Flow.RunsFrom(cs.rest, tr[i + 1..], o);
      assert PlainFallsAt(cases, tr, i, o);
    }
  }

  lemma {:induction false} PlainBody(cases: Cases, tr: seq<nat>, o: Flow.Outcome)
    requires cases.Case?
    ensures Headed(cases.comm, tr) && ExecutesList(cases.body, Past(cases.comm, tr), o) <==>
      Flow.Runs(PlainCases(cases).body, tr, o)
    decreases cases, 0, 0
  {
    LeadRuns(cases.comm, PlainList(cases.body), tr, o);
    if Headed(cases.comm, tr) { PlainListExecutes(cases.body, Past(cases.comm, tr), o); }
  }

  ghost predicate PlainFallsAt(cases: Cases, tr: seq<nat>, i: nat, o: Flow.Outcome)
    requires cases.Case? && cases.fall.Some?
  {
    var cs := PlainCases(cases);
    && i < |tr| && Flow.Runs(cs.body, tr[..i], Flow.Normal)
    && tr[i] == cs.fall.value && Flow.RunsFrom(cs.rest, tr[i + 1..], o)
  }

  lemma {:induction false} PlainFalls(cases: Cases, tr: seq<nat>, o: Flow.Outcome)
    requires cases.Case? && cases.fall.Some?
    ensures Headed(cases.comm, tr) && (exists i: nat :: FallsAt(cases, Past(cases.comm, tr), i, o)) <==>
      exists i: nat :: PlainFallsAt(cases, tr, i, o)
    decreases cases, 0, 1
  {
    var d := if cases.comm.Some? then 1 else 0;
    if Headed(cases.comm, tr) && exists i: nat :: FallsAt(cases, Past(cases.comm, tr), i, o) {
      var i: nat :| FallsAt(cases, Past(cases.comm, tr), i, o);
      PlainFallsHere(cases, tr, i + d, o);
    }
    if exists i: nat :: PlainFallsAt(cases, tr, i, o) {
      var i: nat :| PlainFallsAt(cases, tr, i, o);
      LeadRuns(cases.comm, PlainList(cases.body), tr[..i], Flow.Normal);
      PlainFallsHere(cases, tr, i, o);
    }
  }

  lemma {:induction false} PlainFallsHere(cases: Cases, tr: seq<nat>, i: nat, o: Flow.Outcome)
    requires cases.Case? && cases.fall.Some? && Headed(cases.comm, tr) && i < |tr|
    requires i >= if cases.comm.Some? then 1 else 0
    ensures PlainFallsAt(cases, tr, i, o) <==>
      FallsAt(cases, Past(cases.comm, tr), i - if cases.comm.Some? then 1 else 0, o)
    decreases cases, 0, 0
  {
    var t, j := Past(cases.comm, tr), i - if cases.comm.Some? then 1 else 0;
    LeadRuns(cases.comm, PlainList(cases.body), tr[..i], Flow.Normal);
    assert Past(cases.comm, tr[..i]) == t[..j];
    PlainListExecutes(cases.body, t[..j], Flow.Normal);
    assert tr[i + 1..] == t[j + 1..] && tr[i] == t[j];
    PlainFrom(cases.rest, tr[i + 1..], o);
  }

  // ----- else-ifs -----

  /** Each if with the if that is its else; unless all are asked for, only where that one has an init. */
  function ElseIfs(s: Stmt, all: bool): Flow.Edges {
    match s
    case Block(list) => ElseIfsList(list, all)
    case If(f) => ElseIfsIf(f, all)
    case For(_, _, _, body) => ElseIfsList(body, all)
    case Range(_, body) => ElseIfsList(body, all)
    case Switch(_, _, cases) => ElseIfsCases(cases, all)
    case TypeSwitch(_, _, _, cases) => ElseIfsCases(cases, all)
    case Select(_, cases) => ElseIfsCases(cases, all)
    case _ => {}
  }

  function ElseIfsList(list: Stmts, all: bool): Flow.Edges {
    if list.Nil? then {} else ElseIfs(list.head, all) + ElseIfsList(list.tail, all)
  }

  function ElseIfsIf(f: IfStmt, all: bool): Flow.Edges {
    ElseIfsList(f.body, all) +
    match f.els
    case NoElse => {}
    case ElseBlock(list) => ElseIfsList(list, all)
    case ElseIf(next) => (if all || next.init.Some? then {(f.id, next.id)} else {}) + ElseIfsIf(next, all)
  }

  function ElseIfsCases(cases: Cases, all: bool): Flow.Edges {
    if cases.NoCase? then {} else ElseIfsList(cases.body, all) + ElseIfsCases(cases.rest, all)
  }

  function PlainElseIfs(c: Flow.Code, all: bool): Flow.Edges { if all then Chains(c) else Shortcuts(c) }

  lemma LeadElseIfs(init: Option<nat>, c: Flow.Code, all: bool)
    ensures PlainElseIfs(Lead(init, c), all) == PlainElseIfs(c, all)
    ensures Numbered(Lead(init, c)) ==> Numbered(c)
  {
    if init.Some? {
      var first := Flow.Simple(init.value);
      assert Chains(first) == {} && Shortcuts(first) == {};
    }
  }

  lemma {:induction false} SameElseIfs(s: Stmt, all: bool)
    requires Numbered(Plain(s))
    ensures ElseIfs(s, all) == PlainElseIfs(Plain(s), all)
    decreases s
  {
    match s
    case Block(list) => SameElseIfsList(list, all);
    case If(f) => SameElseIfsIf(f, all);
    case For(init, id, post, body) =>
      LeadElseIfs(init, Flow.Loop(id, post, PlainList(body)), all);
      SameElseIfsList(body, all);
    case Range(_, body) => SameElseIfsList(body, all);
    case Switch(init, id, cases) =>
      LeadElseIfs(init, Flow.Switch(id, PlainCases(cases)), all);
      SameElseIfsCases(cases, all);
    case TypeSwitch(init, id, assign, cases) =>
      var inner := Flow.Switch(assign, PlainCases(cases));
      LeadElseIfs(init, Lead(Some(id), inner), all);
      LeadElseIfs(Some(id), inner, all);
      SameElseIfsCases(cases, all);
    case Select(_, cases) => SameElseIfsCases(cases, all);
    case _ =>
  }

  lemma {:induction false} SameElseIfsList(list: Stmts, all: bool)
    requires Numbered(PlainList(list))
    ensures ElseIfsList(list, all) == PlainElseIfs(PlainList(list), all)
    decreases list
  {
    if list.Cons? {
      SameElseIfs(list.head, all);
      SameElseIfsList(list.tail, all);
    }
  }

  lemma {:induction false} SameElseIfsIf(f: IfStmt, all: bool)
    requires Numbered(PlainIf(f))
    ensures ElseIfsIf(f, all) == PlainElseIfs(PlainIf(f), all)
    decreases f
  {
    LeadElseIfs(f.init, PlainIfOnly(f), all);
    var no := PlainElse(f.els);
    assert PlainIfOnly(f) == Flow.If(f.id, PlainList(f.body), no, ChainOf(f.els));
    assert Numbered(PlainIfOnly(f)) && Numbered(no);
    SameElseIfsList(f.body, all);
    match f.els
    case NoElse => assert Chains(Flow.Skip) == {} && Shortcuts(Flow.Skip) == {};
    case ElseBlock(list) => SameElseIfsList(list, all);
    case ElseIf(next) =>
      SameElseIfsIf(next, all);
      IfStarts(next);
  }

  /** The first statement of an if is its init, or else the if itself. */
  lemma IfStarts(f: IfStmt)
    requires Numbered(PlainIf(f))
    ensures !Flow.Through(PlainIf(f)) && (Flow.First(PlainIf(f)) != f.id <==> f.init.Some?)
  {
    if f.init.Some? {
      var first := Flow.Simple(f.init.value);
      assert Ids(first) == {f.init.value} && f.id in Ids(PlainIfOnly(f));
      assert !Flow.Through(first) && Flow.First(first) == f.init.value;
    }
  }

  lemma {:induction false} SameElseIfsCases(cases: Cases, all: bool)
    requires ClausesNumbered(PlainCases(cases))
    ensures ElseIfsCases(cases, all)
      == if all then ClauseChains(PlainCases(cases)) else ClauseShortcuts(PlainCases(cases))
    decreases cases
  {
    if cases.Case? {
      LeadElseIfs(cases.comm, PlainList(cases.body), all);
      SameElseIfsList(cases.body, all);
      SameElseIfsCases(cases.rest, all);
    }
  }

  // ----- complete executions of a function body -----

  /** From the beginning to the end or to a return. */
  ghost predicate FullRun(list: Stmts, tr: seq<nat>) {
    ExecutesList(list, tr, Flow.Normal) || ExecutesList(list, tr, Flow.Returns)
  }

  /** Some complete execution comes to x. */
  ghost predicate Occurs(list: Stmts, x: nat) {
    exists tr :: FullRun(list, tr) && x in [Flow.ENTRY] + tr
  }

  /** In some complete execution y comes right after x. */
  ghost predicate Succeeds(list: Stmts, x: nat, y: nat) {
    exists tr :: FullRun(list, tr) && CfgTraces.Shows([Flow.ENTRY] + tr + [Flow.EXIT], x, y)
  }

  lemma FullRunIsTrace(list: Stmts, tr: seq<nat>)
    ensures FullRun(list, tr) <==> Flow.Trace(PlainList(list), tr)
  {
    PlainListExecutes(list, tr, Flow.Normal);
    PlainListExecutes(list, tr, Flow.Returns);
  }

  lemma SameExecutions(list: Stmts)
    ensures forall x :: Occurs(list, x) <==> Executed(PlainList(list), x)
    ensures forall x, y :: Succeeds(list, x, y) <==> Follows(PlainList(list), x, y)
  {
    hide FullRun, Flow.Trace, CfgTraces.Shows;
    forall tr
      ensures FullRun(list, tr) <==> Flow.Trace(PlainList(list), tr)
    {
      FullRunIsTrace(list, tr);
    }
  }
}
