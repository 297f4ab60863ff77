/** The control-flow graph builder, over statements as the parser delivers them. */
module CfgBuilder {
  import Flow = StructuredFlow
  import Spec = CfgEdges
  import opened Finite
  import opened Statements
  import opened CfgCapture
  import opened CfgTraces
  import opened CfgExit
  import opened CfgExact

  // ----- blocks -----

  datatype BlockNode = BlockNode(preds: seq<nat>, succs: seq<nat>)

  type Blocks = map<nat, BlockNode>

  /** Preds and Succs mirror each other, name blocks of the graph and repeat nobody. */
  predicate Mirrored(bs: Blocks) {
    && (forall a :: a in bs ==> NoRepeats(bs[a].preds) && NoRepeats(bs[a].succs))
    && (forall a, b :: a in bs && b in bs[a].succs ==> b in bs && a in bs[b].preds)
    && (forall a, b :: b in bs && a in bs[b].preds ==> a in bs && b in bs[a].succs)
  }

  function EdgesOf(bs: Blocks): Flow.Edges {
    set a, b | a in bs && b in bs[a].succs :: (a, b)
  }

  function AppendNoDuplicates(list: seq<nat>, x: nat): (r: seq<nat>)
    ensures forall y :: y in r <==> y in list || y == x
    ensures NoRepeats(list) ==> NoRepeats(r)
  {
    if x in list then list else list + [x]
  }

  function WithBlock(bs: Blocks, x: nat): Blocks {
    if x in bs then bs else bs[x := BlockNode([], [])]
  }

  /** The edge from p to x in both lists. */
  function WithEdge(bs: Blocks, p: nat, x: nat): Blocks
    requires p in bs && x in bs
  {
    var bs1 := bs[p := bs[p].(succs := AppendNoDuplicates(bs[p].succs, x))];
    bs1[x := bs1[x].(preds := AppendNoDuplicates(bs1[x].preds, p))]
  }

  lemma BlockChangesNothing(bs: Blocks, x: nat)
    requires Mirrored(bs)
    ensures Mirrored(WithBlock(bs, x)) && EdgesOf(WithBlock(bs, x)) == EdgesOf(bs) &&
      WithBlock(bs, x).Keys == bs.Keys + {x}
  {
    var bs2 := WithBlock(bs, x);
    assert forall a :: a in bs2 ==> (a in bs && bs2[a] == bs[a]) || (a == x && bs2[a] == BlockNode([], []));
    assert forall a :: a in bs ==> a in bs2 && bs2[a] == bs[a];
    SameEdges(bs, bs2);
    hide EdgesOf, WithBlock, NoRepeats;
    assert NoRepeats(BlockNode([], []).preds) by { EmptyNoRepeats(); }
  }

  lemma EmptyNoRepeats()
    ensures NoRepeats<nat>([])
  {
  }

  /** New blocks without edges add none. */
  lemma SameEdges(bs: Blocks, bs2: Blocks)
    requires forall a :: a in bs2 ==> (a in bs && bs2[a] == bs[a]) || bs2[a].succs == []
    requires forall a :: a in bs ==> a in bs2 && bs2[a] == bs[a]
    ensures EdgesOf(bs2) == EdgesOf(bs)
  {
  }

  lemma EdgeAdded(bs: Blocks, p: nat, x: nat)
    requires p in bs && x in bs
    ensures var bs2 := WithEdge(bs, p, x);
      && bs2.Keys == bs.Keys
      && (forall a, b :: a in bs ==> (b in bs2[a].succs <==> b in bs[a].succs || (a == p && b == x)))
      && (forall a, b :: a in bs ==> (b in bs2[a].preds <==> b in bs[a].preds || (a == x && b == p)))
  {
  }

  lemma EdgeMirrored(bs: Blocks, p: nat, x: nat)
    requires Mirrored(bs) && p in bs && x in bs
    ensures Mirrored(WithEdge(bs, p, x)) && EdgesOf(WithEdge(bs, p, x)) == EdgesOf(bs) + {(p, x)}
    ensures WithEdge(bs, p, x).Keys == bs.Keys
  {
    var bs2 := WithEdge(bs, p, x);
    EdgeAdded(bs, p, x);
    EdgeNoDuplicates(bs, p, x);
    hide WithEdge, NoRepeats;
    OneMoreEdge(bs, bs2, p, x);
    hide EdgesOf;
  }

  lemma OneMoreEdge(bs: Blocks, bs2: Blocks, p: nat, x: nat)
    requires p in bs && bs2.Keys == bs.Keys
    requires forall a, b :: a in bs ==> (b in bs2[a].succs <==> b in bs[a].succs || (a == p && b == x))
    ensures EdgesOf(bs2) == EdgesOf(bs) + {(p, x)}
  {
  }

  lemma EdgeNoDuplicates(bs: Blocks, p: nat, x: nat)
    requires p in bs && x in bs && forall a :: a in bs ==> NoRepeats(bs[a].preds) && NoRepeats(bs[a].succs)
    ensures var bs2 := WithEdge(bs, p, x); forall a :: a in bs2 ==> NoRepeats(bs2[a].preds) && NoRepeats(bs2[a].succs)
  {
    hide NoRepeats;
  }

  // ----- the builder -----

  datatype Branch = Branch(id: nat, isBreak: bool)

  function Members(q: seq<nat>): set<nat> { set x | x in q }

  function BreaksOf(q: seq<Branch>): set<nat> { set b | b in q && b.isBreak :: b.id }

  function ContsOf(q: seq<Branch>): set<nat> { set b | b in q && !b.isBreak :: b.id }

  /** What Abs makes of the fields. */
  function StateOf(bs: Blocks, prev: seq<nat>, branches: seq<Branch>): Spec.State {
    Spec.State(EdgesOf(bs), Members(prev), BreaksOf(branches), ContsOf(branches))
  }

  lemma PrevReset(bs: Blocks, prev: seq<nat>, branches: seq<Branch>, x: nat)
    ensures StateOf(bs, [x], branches) == StateOf(bs, prev, branches).(prev := {x})
    ensures StateOf(bs, [], branches) == StateOf(bs, prev, branches).(prev := {})
  {
  }

  function Led(init: Option<nat>, st: Spec.State): Spec.State {
    if init.Some? then Spec.Visit(st, init.value) else st
  }

  lemma LeadBuilds(init: Option<nat>, c: Flow.Code, st: Spec.State)
    ensures Spec.Build(Lead(init, c), st) == Spec.Build(c, Led(init, st))
  {
    if init.Some? {
      assert Spec.Build(Flow.Simple(init.value), st) == Spec.Visit(st, init.value);
    }
  }

  function InitOf(s: Stmt): Option<nat> {
    if s.For? || s.Switch? || s.TypeSwitch? then s.init else None
  }

  function LoopOf(s: Stmt): (c: Flow.Code)
    requires s.For? || s.Range?
    ensures c.Loop? && c.id == s.id && c.post == if s.For? then s.post else None
  {
    Flow.Loop(s.id, if s.For? then s.post else None, PlainList(s.body))
  }

  lemma LoopBuilds(s: Stmt, st: Spec.State)
    requires s.For? || s.Range?
    ensures Spec.Build(Plain(s), st)
      == Spec.CloseLoop(Spec.Build(PlainList(s.body), Spec.OpenLoop(Led(InitOf(s), st), LoopOf(s))), LoopOf(s))
  {
    LeadBuilds(InitOf(s), LoopOf(s), st);
  }

  /** The state of a switch when its clauses are built and its breaks are not yet taken. */
  function CasesBuilt(cases: Cases, sw: nat, st: Spec.State): Spec.State {
    var st1 := Spec.BuildClauses(sw, PlainCases(cases), st, {}, {});
    st1.(prev := st1.prev + if Flow.HasDefault(PlainCases(cases)) then {} else {sw})
  }

  function BreaksTaken(st: Spec.State): Spec.State {
    st.(prev := st.prev + st.breaks, breaks := {})
  }

  lemma SwitchBuilds(s: Stmt, st: Spec.State)
    requires s.Switch? || s.TypeSwitch? || s.Select?
    ensures var st1 := Spec.Visit(Led(InitOf(s), st), s.id);
      Spec.Build(Plain(s), st)
      == BreaksTaken(if s.TypeSwitch? then CasesBuilt(s.cases, s.assign,
        Spec.Visit(st1, s.assign)) else CasesBuilt(s.cases, s.id, st1))
  {
    var inner := Flow.Switch(if s.TypeSwitch? then s.assign else s.id, PlainCases(s.cases));
    LeadBuilds(InitOf(s), if s.TypeSwitch? then Flow.Seq(Flow.Simple(s.id), inner) else inner, st);
    var st1 := Led(InitOf(s), st);
    assert Spec.Build(Flow.Simple(s.id), st1) == Spec.Visit(st1, s.id);
  }

  lemma IfIds(f: IfStmt)
    ensures Ids(PlainIf(f)) == OptionIds(f.init) + {f.id} + Ids(PlainList(f.body)) + Ids(PlainElse(f.els))
    ensures f.els.ElseIf? ==> f.els.next.id in Ids(PlainElse(f.els))
    ensures f.els.ElseIf? ==> Ids(PlainElse(f.els)) == Ids(PlainIf(f.els.next))
    ensures f.els.ElseBlock? ==> Ids(PlainElse(f.els)) == Ids(PlainList(f.els.list))
  {
    LeadIds(f.init, PlainIfOnly(f));
    if f.els.ElseIf? {
      LeadIds(f.els.next.init, PlainIfOnly(f.els.next));
    }
  }

  lemma LeadIds(init: Option<nat>, c: Flow.Code)
    ensures Ids(Lead(init, c)) == OptionIds(init) + Ids(c)
  {
    if init.Some? {
      assert Ids(Flow.Simple(init.value)) == {init.value};
    }
  }

  lemma LoopIds(s: Stmt)
    requires s.For? || s.Range?
    ensures Ids(Plain(s)) == OptionIds(InitOf(s)) + {s.id} + OptionIds(LoopOf(s).post) + Ids(PlainList(s.body))
  {
    LeadIds(InitOf(s), LoopOf(s));
  }

  lemma SwitchIds(s: Stmt)
    requires s.Switch? || s.TypeSwitch? || s.Select?
    ensures Ids(Plain(s))
      == OptionIds(InitOf(s)) + {s.id} + (if s.TypeSwitch? then {s.assign} else {}) + ClauseIds(PlainCases(s.cases))
  {
    var inner := Flow.Switch(if s.TypeSwitch? then s.assign else s.id, PlainCases(s.cases));
    LeadIds(InitOf(s), if s.TypeSwitch? then Flow.Seq(Flow.Simple(s.id), inner) else inner);
    assert Ids(Flow.Simple(s.id)) == {s.id};
  }

  lemma CaseIds(cases: Cases)
    requires cases.Case?
    ensures ClauseIds(PlainCases(cases))
      == {cases.id} + OptionIds(cases.comm) + Ids(PlainList(cases.body)) + OptionIds(cases.fall)
        + ClauseIds(PlainCases(cases.rest))
  {
    LeadIds(cases.comm, PlainList(cases.body));
  }

  ghost predicate Within(names: set<nat>, bs: Blocks, prev: seq<nat>, branches: seq<Branch>) {
    bs.Keys <= names && Members(prev) <= names && forall b :: b in branches ==> b.id in names
  }

  class Builder {
    var blocks: Blocks
    var prev: seq<nat>
    var branches: seq<Branch>
    /** All statements there are, the entry and the exit. */
    ghost const names: set<nat>

    ghost predicate Valid()
      reads this
    {
      Mirrored(blocks) && Flow.EXIT in names && Within(names, blocks, prev, branches)
    }

    ghost function Abs(): Spec.State
      reads this
    {
      StateOf(blocks, prev, branches)
    }

    constructor (ghost all: set<nat>)
      requires Flow.EXIT in all
      ensures Valid() && Abs() == Spec.State({}, {}, {}, {}) && names == all && blocks == map[]
    {
      names := all;
      blocks := map[];
      prev := [];
      branches := [];
    }

    /** An edge from every statement of prev to the current one. */
    method AddSucc(current: nat)
      requires Valid() && current in names
      modifies this
      ensures Valid() && prev == old(prev) && branches == old(branches) && current in blocks
      ensures Abs() == Spec.AddSucc(old(Abs()), current)
    {
      hide Mirrored, EdgesOf, WithBlock, WithEdge, Flow.Cross, BreaksOf, ContsOf;
      BlockChangesNothing(blocks, current);
      blocks := WithBlock(blocks, current);
      CrossNone(prev, current);
      var i := 0;
      while i < |prev|
        invariant 0 <= i <= |prev| && Valid() && prev == old(prev) && branches == old(branches) && current in blocks
        invariant EdgesOf(blocks) == old(EdgesOf(blocks)) + Flow.Cross(Members(prev[..i]), current)
      {
        var p := prev[i];
        BlockChangesNothing(blocks, p);
        blocks := WithBlock(blocks, p);
        EdgeMirrored(blocks, p, current);
        blocks := WithEdge(blocks, p, current);
        CrossGrows(prev, i, current);
        i := i + 1;
      }
      assert prev[..i] == prev;
    }

    /** A statement of straight-line control flow. */
    method Visit(id: nat)
      requires Valid() && id in names
      modifies this
      ensures Valid() && Abs() == Spec.Visit(old(Abs()), id)
    {
      AddSucc(id);
      prev := [id];
    }

    method Init(init: Option<nat>)
      requires Valid() && OptionIds(init) <= names
      modifies this
      ensures Valid() && Abs() == Led(init, old(Abs()))
    {
      if init.Some? { Visit(init.value); }
    }

    method BuildStmt(s: Stmt)
      requires Valid() && Ids(Plain(s)) <= names
      modifies this
      ensures Valid() && Abs() == Spec.Build(Plain(s), old(Abs()))
      decreases s, 1
    {
      match s
      case Block(list) => BuildBlock(list);
      case If(f) => BuildIf(f);
      case For(_, _, _, _) => BuildLoop(s);
      case Range(_, _) => BuildLoop(s);
      case Switch(_, _, _) => BuildSwitch(s);
      case TypeSwitch(_, _, _, _) => BuildSwitch(s);
      case Select(_, _) => BuildSwitch(s);
      case Break(id) => BuildBranch(id, true);
      case Continue(id) => BuildBranch(id, false);
      case Return(id) =>
        Visit(id);
        AddSucc(Flow.EXIT);
        prev := [];
      case Simple(id) => Visit(id);
    }

    method BuildBranch(id: nat, isBreak: bool)
      requires Valid() && id in names
      modifies this
      ensures Valid() && Abs() == Spec.Build(if isBreak then Flow.Break(id) else Flow.Continue(id), old(Abs()))
    {
      AddSucc(id);
      BranchAdded(branches, Branch(id, isBreak));
      branches := branches + [Branch(id, isBreak)];
      prev := [];
    }

    method BuildBlock(list: Stmts)
      requires Valid() && Ids(PlainList(list)) <= names
      modifies this
      ensures Valid() && Abs() == Spec.Build(PlainList(list), old(Abs()))
      decreases list, 0
    {
      var rest := list;
      while rest.Cons?
        invariant Valid() && (rest == list || rest < list) && Ids(PlainList(rest)) <= names
        invariant Spec.Build(PlainList(list), old(Abs())) == Spec.Build(PlainList(rest), Abs())
        decreases rest
      {
        BuildStmt(rest.head);
        rest := rest.tail;
      }
    }

    method BuildIf(f: IfStmt)
      requires Valid() && Ids(PlainIf(f)) <= names
      modifies this
      ensures Valid() && Abs() == Spec.Build(PlainIf(f), old(Abs()))
      decreases f, 0
    {
      LeadBuilds(f.init, PlainIfOnly(f), Abs());
      IfIds(f);
      hide Ids, EdgesOf, Mirrored, Members, BreaksOf, ContsOf;
      Init(f.init);
      ghost var st := Abs();
      Visit(f.id);
      BuildBlock(f.body);
      ghost var st1 := Abs();
      var ctrlExits := prev;
      PrevReset(blocks, prev, branches, f.id);
      prev := [f.id];
      match f.els {
        case ElseBlock(list) => BuildBlock(list);
        case ElseIf(next) =>
          AddSucc(next.id);
          BuildIf(next);
        case NoElse =>
      }
      assert Abs() == Spec.Build(PlainElse(f.els), Spec.Chain(st1.(prev := {f.id}), ChainOf(f.els)));
      MembersConcat(ctrlExits, prev);
      prev := ctrlExits + prev;
    }

    /** Unlabelled branches: every one in the list is taken for this loop's own. */
    method BuildLoop(s: Stmt)
      requires Valid() && (s.For? || s.Range?) && Ids(Plain(s)) <= names
      modifies this
      ensures Valid() && Abs() == Spec.Build(Plain(s), old(Abs()))
      decreases s, 0
    {
      ghost var c := LoopOf(s);
      LoopBuilds(s, Abs());
      LoopIds(s);
      hide *;
      Init(InitOf(s));
      var post := OpenLoop(s.id, if s.For? then s.post else None, c);
      BuildBlock(s.body);
      CloseLoop(s.id, post, c);
    }

    method OpenLoop(id: nat, next: Option<nat>, ghost c: Flow.Code) returns (post: nat)
      requires Valid() && c.Loop? && id == c.id && next == c.post && {id} + OptionIds(next) <= names
      modifies this
      ensures Valid() && post == Flow.Target(c) && Abs() == Spec.OpenLoop(old(Abs()), c)
    {
      hide EdgesOf, Mirrored, Members, BreaksOf, ContsOf;
      post := id;
      AddSucc(id);
      if next.Some? {
        post := next.value;
        PrevReset(blocks, prev, branches, post);
        prev := [post];
        AddSucc(id);
      }
      PrevReset(blocks, prev, branches, id);
      prev := [id];
    }

    method CloseLoop(id: nat, post: nat, ghost c: Flow.Code)
      requires Valid() && c.Loop? && id == c.id && post == Flow.Target(c) && {id, post} <= names
      modifies this
      ensures Valid() && Abs() == Spec.CloseLoop(old(Abs()), c)
    {
      AddSucc(post);
      ghost var start := Abs();
      hide EdgesOf, Mirrored, Members, BreaksOf, ContsOf, Flow.Cross, Spec.CloseLoop;
      var ctrlExits := [id];
      PrevReset(blocks, prev, branches, id);
      while branches != []
        invariant Valid() && Handled(start, Abs(), Members(ctrlExits), id, post) && Members(ctrlExits) <= names
        decreases |branches|
      {
        ctrlExits := TakeBranch(ctrlExits, id, post, start);
      }
      NoBranches(post);
      prev := ctrlExits;
      LoopClosed(old(Abs()), c);
    }

    /** A break goes to the exits, a continue to the post statement; either way it is removed from the list. */
    method TakeBranch(exits: seq<nat>, ghost id: nat, post: nat, ghost start: Spec.State) returns (exits': seq<nat>)
      requires Valid() && branches != [] && post in names && Members(exits) <= names
      requires Handled(start, Abs(), Members(exits), id, post)
      modifies this
      ensures Valid() && |branches| == old(|branches|) - 1 && Members(exits') <= names
      ensures Handled(start, Abs(), Members(exits'), id, post)
    {
      hide EdgesOf, Mirrored, Members, BreaksOf, ContsOf, Flow.Cross, Handled;
      var br := branches[0];
      ghost var before := Abs();
      exits' := exits;
      BranchRemoved(branches, 0);
      PrevReset(blocks, prev, branches, br.id);
      if br.isBreak {
        MembersConcat(exits, [br.id]);
        exits' := exits + [br.id];
      } else {
        prev := [br.id];
        AddSucc(post);
      }
      branches := branches[..0] + branches[1..];
      HandleOne(start, before, Abs(), Members(exits), id, post, br);
      assert Members(exits') == Members(exits) + if br.isBreak then {br.id} else {};
    }

    method BuildSwitch(s: Stmt)
      requires Valid() && (s.Switch? || s.TypeSwitch? || s.Select?) && Ids(Plain(s)) <= names
      modifies this
      ensures Valid() && Abs() == Spec.Build(Plain(s), old(Abs()))
      decreases s, 0
    {
      SwitchBuilds(s, Abs());
      SwitchIds(s);
      hide *;
      Init(InitOf(s));
      Visit(s.id);
      var last := s.id;
      if s.TypeSwitch? {
        Visit(s.assign);
        last := s.assign;
      }
      BuildCases(s.cases, last);
      TakeBreaks();
    }

    /** The clauses in order; prev ends as the exits of all of them, and of the head when no clause is the default. */
    method BuildCases(cases: Cases, sw: nat)
      requires Valid() && sw in names && ClauseIds(PlainCases(cases)) <= names
      modifies this
      ensures Valid() && Abs() == CasesBuilt(cases, sw, old(Abs()))
      decreases cases, 1
    {
      var caseExits: seq<nat> := [];
      var fall: seq<nat> := [];
      PrevReset(blocks, prev, branches, sw);
      hide EdgesOf, Mirrored, Members, BreaksOf, ContsOf;
      var defaultCase := false;
      var rest := cases;
      while rest.Case?
        invariant Valid() && (rest == cases || rest < cases) && ClauseIds(PlainCases(rest)) <= names
        invariant Members(caseExits) + Members(fall) <= names
        invariant Flow.HasDefault(PlainCases(cases)) == (defaultCase || Flow.HasDefault(PlainCases(rest)))
        invariant Spec.BuildClauses(sw, PlainCases(cases), old(Abs()), {}, {})
          == Spec.BuildClauses(sw, PlainCases(rest), Abs(), Members(fall), Members(caseExits))
        decreases rest
      {
        BuildCase(rest, sw, fall);
        PrevReset(blocks, prev, branches, if rest.fall.Some? then rest.fall.value else 0);
        MembersConcat(caseExits, prev);
        caseExits := caseExits + prev;
        fall := if rest.fall.Some? then [rest.fall.value] else [];
        defaultCase := defaultCase || rest.isDefault;
        rest := rest.rest;
      }
      PrevReset(blocks, prev, branches, sw);
      if !defaultCase {
        MembersConcat(caseExits, [sw]);
        caseExits := caseExits + [sw];
      }
      prev := caseExits;
    }

    method BuildCase(cases: Cases, sw: nat, fall: seq<nat>)
      requires Valid() && cases.Case? && {sw} + Members(fall) + ClauseIds(PlainCases(cases)) <= names
      modifies this
      ensures Valid() && Abs() == Spec.BuildClause(sw, PlainCases(cases), old(Abs()), Members(fall))
      decreases cases, 0
    {
      CaseIds(cases);
      hide EdgesOf, Mirrored, BreaksOf, ContsOf;
      PrevReset(blocks, prev, branches, sw);
      prev := [sw];
      AddSucc(cases.id);
      PrevReset(blocks, prev, branches, cases.id);
      MembersConcat([cases.id], fall);
      prev := [cases.id] + fall;
      LeadBuilds(cases.comm, PlainList(cases.body), Abs());
      Init(cases.comm);
      BuildBlock(cases.body);
      if cases.fall.Some? {
        AddSucc(cases.fall.value);
        PrevReset(blocks, prev, branches, 0);
        prev := [];
      }
    }

    /** The pending breaks join the exits; the continues stay. */
    method TakeBreaks()
      requires Valid()
      modifies this
      ensures Valid() && Abs() == BreaksTaken(old(Abs()))
    {
      ghost var start := Abs();
      var i := 0;
      while i < |branches|
        invariant 0 <= i <= |branches| && Valid() && blocks == old(blocks)
        invariant Members(prev) + BreaksOf(branches) == start.prev + start.breaks
        invariant ContsOf(branches) == start.conts
        invariant forall k :: 0 <= k < i ==> !branches[k].isBreak
        decreases |branches| - i
      {
        var br := branches[i];
        if br.isBreak {
          BranchRemoved(branches, i);
          MembersConcat(prev, [br.id]);
          prev := prev + [br.id];
          branches := branches[..i] + branches[i + 1..];
        } else {
          i := i + 1;
        }
      }
    }
  }

  /** Some branches of start have been taken: the continues have their edges, the breaks are among the exits. */
  ghost predicate Handled(start: Spec.State, st: Spec.State, exits: set<nat>, id: nat, post: nat) {
    && st.edges + Flow.Cross(st.conts, post) == start.edges + Flow.Cross(start.conts, post)
    && exits + st.breaks == {id} + start.breaks
  }

  lemma HandleOne(start: Spec.State, st: Spec.State, st': Spec.State, exits: set<nat>, id: nat, post: nat, br: Branch)
    requires Handled(start, st, exits, id, post)
    requires st.breaks == st'.breaks + if br.isBreak then {br.id} else {}
    requires st.conts == st'.conts + if br.isBreak then {} else {br.id}
    requires st'.edges == st.edges + if br.isBreak then {} else Flow.Cross({br.id}, post)
    ensures Handled(start, st', exits + if br.isBreak then {br.id} else {}, id, post)
  {
    if !br.isBreak { CrossUnion(st'.conts, {br.id}, post); }
  }

  lemma NoBranches(to: nat)
    ensures BreaksOf([]) == {} && ContsOf([]) == {} && Flow.Cross({}, to) == {}
  {
  }

  lemma CrossUnion(xs: set<nat>, ys: set<nat>, to: nat)
    ensures Flow.Cross(xs + ys, to) == Flow.Cross(xs, to) + Flow.Cross(ys, to)
  {
  }

  lemma LoopClosed(st: Spec.State, c: Flow.Code)
    requires c.Loop?
    ensures var start := Spec.AddSucc(st, Flow.Target(c));
      Spec.CloseLoop(st, c) == Spec.State(start.edges + Flow.Cross(start.conts, Flow.Target(c)),
        {c.id} + start.breaks, {}, {})
  {
  }

  lemma BranchRemoved(q: seq<Branch>, i: nat)
    requires i < |q|
    ensures var r, b := q[..i] + q[i + 1..], q[i];
      && BreaksOf(q) == BreaksOf(r) + (if b.isBreak then {b.id} else {})
      && ContsOf(q) == ContsOf(r) + (if b.isBreak then {} else {b.id})
  {
    var r := q[..i] + q[i + 1..];
    assert q == q[..i] + [q[i]] + q[i + 1..];
    assert forall x :: x in q <==> x in r || x == q[i];
    assert q[i] in q;
  }

  lemma CrossNone(q: seq<nat>, to: nat)
    ensures Flow.Cross(Members(q[..0]), to) == {}
  {
  }

  lemma CrossGrows(q: seq<nat>, i: nat, to: nat)
    requires i < |q|
    ensures Flow.Cross(Members(q[..i + 1]), to) == Flow.Cross(Members(q[..i]), to) + {(q[i], to)}
  {
    assert q[..i + 1] == q[..i] + [q[i]];
    assert Members(q[..i + 1]) == Members(q[..i]) + {q[i]};
  }

  lemma BranchAdded(q: seq<Branch>, b: Branch)
    ensures BreaksOf(q + [b]) == BreaksOf(q) + if b.isBreak then {b.id} else {}
    ensures ContsOf(q + [b]) == ContsOf(q) + if b.isBreak then {} else {b.id}
  {
    assert forall x :: x in q + [b] <==> x in q || x == b;
    assert b in q + [b];
  }

  lemma MembersConcat(a: seq<nat>, b: seq<nat>)
    ensures Members(a + b) == Members(a) + Members(b)
  {
  }

  /** Every complete execution of the body is a path of the graph from the entry to the exit. */
  ghost predicate HasAllRuns(list: Stmts, edges: Flow.Edges) {
    forall tr :: FullRun(list, tr) ==> Flow.Linked([Flow.ENTRY] + tr + [Flow.EXIT], edges)
  }

  /** Out of every statement that an execution comes to, the edges are exactly the steps of executions and more. */
  ghost predicate HasOnlySteps(list: Stmts, edges: Flow.Edges, more: Flow.Edges) {
    forall x: nat, y: nat :: Occurs(list, x) ==> ((x, y) in edges <==> Succeeds(list, x, y) || (x, y) in more)
  }

  /** Some execution comes to an if whose else-if has an init. */
  ghost predicate ComesToInit(list: Stmts) {
    exists x: nat, y: nat :: (x, y) in ElseIfsList(list, false) && Occurs(list, x)
  }

  /** What the graph of a body says about its executions. */
  lemma GraphOfBody(list: Stmts)
    requires Legal(PlainList(list))
    ensures var p, e := PlainList(list), Spec.Graph(PlainList(list));
      && (HasAllRuns(list, e) <==> Spec.Scoped(p, true, {}, {}, false))
      && (HasOnlySteps(list, e, ElseIfsList(list, true)) <==> Spec.Scoped(p, true, {}, {}, false))
      && (HasOnlySteps(list, e, {}) <==> Spec.Scoped(p, true, {}, {}, false) && !ComesToInit(list))
  {
    var p := PlainList(list);
    TracesKeptExactly(p);
    EdgesExactly(p);
    StepsExactly(p);
    SameExecutions(list);
    SameElseIfsList(list, true);
    SameElseIfsList(list, false);
    ShortcutIds(p);
    forall x: nat
      ensures Executed(p, x) <==> x in Live(p) + {Flow.ENTRY}
    {
      ExecutedExactly(p, x);
    }
    forall tr
      ensures FullRun(list, tr) <==> Flow.Trace(p, tr)
    {
      FullRunIsTrace(list, tr);
    }
    hide FullRun, Flow.Trace, Legal, Occurs, Succeeds, Executed, Follows, Spec.Scoped, Spec.Graph, PlainList,
      ElseIfsList, Live, Chains, Shortcuts, Flow.Linked, Ids;
  }

  lemma ShortcutIds(p: Flow.Code)
    requires Legal(p)
    ensures forall x: nat, y: nat :: (x, y) in Shortcuts(p) ==> x != Flow.ENTRY
  {
    forall x: nat, y: nat | (x, y) in Shortcuts(p)
      ensures x != Flow.ENTRY
    {
      ShortcutWithin(p, x, y);
    }
  }

  /** The control-flow graph of a function body: Preds and Succs mirror each other. Its paths contain every execution
      exactly when no live break or continue is taken by a loop or switch it does not belong to. Then its edges, as far
      as executions come, are the steps of executions and the else-ifs, and no others when no else-if has an init.
      Every statement has a path to the exit. */
  method FromStmts(list: Stmts) returns (blocks: Blocks)
    ensures Mirrored(blocks) && EdgesOf(blocks) == Spec.Graph(PlainList(list))
    ensures Flow.EXIT in blocks && blocks.Keys <= Ids(PlainList(list)) + {Flow.ENTRY, Flow.EXIT}
    ensures var p, e := PlainList(list), EdgesOf(blocks);
      Legal(p) ==>
        && (HasAllRuns(list, e) <==> Spec.Scoped(p, true, {}, {}, false))
        && (HasOnlySteps(list, e, ElseIfsList(list, true)) <==> Spec.Scoped(p, true, {}, {}, false))
        && (HasOnlySteps(list, e, {}) <==> Spec.Scoped(p, true, {}, {}, false) && !ComesToInit(list))
    ensures var p := PlainList(list);
      Legal(p) ==> forall x :: x in Ids(p) + {Flow.ENTRY} ==> Escapes(EdgesOf(blocks), x, {Flow.EXIT})
  {
    var b := new Builder(Ids(PlainList(list)) + {Flow.ENTRY, Flow.EXIT});
    b.prev := [Flow.ENTRY];
    assert b.Abs() == Spec.State({}, {Flow.ENTRY}, {}, {});
    b.BuildBlock(list);
    b.AddSucc(Flow.EXIT);
    blocks := b.blocks;
    if Legal(PlainList(list)) {
      GraphOfBody(list);
      forall x | x in Ids(PlainList(list)) + {Flow.ENTRY}
        ensures Escapes(EdgesOf(blocks), x, {Flow.EXIT})
      {
        ExitReachable(PlainList(list), x);
      }
    }
  }
}
