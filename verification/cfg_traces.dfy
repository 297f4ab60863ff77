/** Every transfer occurs on a complete execution, so the graph has all executions exactly when no branch is
    captured. */
module CfgTraces {
  import opened Finite
  import opened StructuredFlow
  import opened CfgEdges
  import opened CfgCapture

  // ----- composing executions -----

  lemma RunSeq(c: Code, s: seq<nat>, t: seq<nat>, o: Outcome)
    requires c.Seq? && Runs(c.first, s, Normal) && Runs(c.rest, t, o)
    ensures Runs(c, s + t, o)
  {
    assert (s + t)[..|s|] == s && (s + t)[|s|..] == t;
  }

  lemma RunFirst(c: Code, s: seq<nat>, o: Outcome)
    requires c.Seq? && Runs(c.first, s, o) && o != Normal
    ensures Runs(c, s, o)
  {
  }

  lemma RunIf(c: Code, t: seq<nat>, o: Outcome)
    requires c.If? && (Runs(c.yes, t, o) || Runs(c.no, t, o))
    ensures Runs(c, [c.id] + t, o)
  {
    assert ([c.id] + t)[1..] == t;
  }

  /** After a round of the body the loop can stop at its head. */
  function Rounds(c: Code, t: seq<nat>, o: Outcome): seq<nat>
    requires c.Loop?
  {
    [c.id] + t + if o in {Normal, Continues} then (if c.post.Some? then [c.post.value] else []) + [c.id] else []
  }

  lemma RunLoop(c: Code, t: seq<nat>, o: Outcome)
    requires c.Loop? && Runs(c.body, t, o)
    ensures Runs(c, Rounds(c, t, o), if o == Returns then Returns else Normal)
  {
    var tr := Rounds(c, t, o);
    if o in {Normal, Continues} {
      var i := 1 + |t|;
      assert tr[1..i] == t && RunsRound(c, tr[1..i]);
      if c.post.Some? {
        assert tr[i..] == [c.post.value, c.id] && tr[i..][1..] == [c.id];
      } else {
        assert tr[i..] == [c.id];
      }
      assert RunsLoop(c, [c.id], Normal);
      assert RunsNext(c, tr[i..], Normal);
    } else {
      assert tr[1..] == t;
    }
  }

  lemma RunFall(cs: Clauses, t: seq<nat>, u: seq<nat>, o: Outcome)
    requires cs.Clause? && cs.fall.Some? && Runs(cs.body, t, Normal) && RunsFrom(cs.rest, u, o)
    ensures RunsFrom(cs, t + [cs.fall.value] + u, o)
  {
    var tr := t + [cs.fall.value] + u;
    assert tr[..|t|] == t && tr[|t|] == cs.fall.value && tr[|t| + 1..] == u;
  }

  lemma RunChosen(cs: Clauses, t: seq<nat>, o: Outcome)
    requires RunsFrom(cs, t, o)
    ensures RunsSome(cs, [cs.id] + t, o)
  {
    assert ([cs.id] + t)[1..] == t;
  }

  // ----- some execution -----

  lemma {:induction false} SomeRun(c: Code) returns (tr: seq<nat>, o: Outcome)
    requires Closed(c)
    ensures Runs(c, tr, o)
    decreases c, 1
  {
    match c
    case Skip => tr, o := [], Normal;
    case Seq(a, b) =>
      tr, o := SomeRun(a);
      if o == Normal {
        var t, ob := SomeRun(b);
        RunSeq(c, tr, t, ob);
        tr, o := tr + t, ob;
      }
    case If(id, yes, _, _) =>
      var t, ob := SomeRun(yes);
      RunIf(c, t, ob);
      tr, o := [id] + t, ob;
    case Loop(id, _, _) => tr, o := [id], Normal;
    case Switch(id, cs) =>
      if cs.Clause? {
        var t, ob := SomeFrom(cs);
        RunChosen(cs, t, ob);
        tr, o := [id] + ([cs.id] + t), if ob == Breaks then Normal else ob;
        assert tr[1..] == [cs.id] + t;
      } else {
        tr, o := [id], Normal;
      }
    case Simple(id) => tr, o := [id], Normal;
    case Return(id) => tr, o := [id], Returns;
    case Break(id) => tr, o := [id], Breaks;
    case Continue(id) => tr, o := [id], Continues;
  }

  lemma {:induction false} SomeFrom(cs: Clauses) returns (tr: seq<nat>, o: Outcome)
    requires ClausesClosed(cs) && cs.Clause?
    ensures RunsFrom(cs, tr, o)
    decreases cs, 1
  {
    tr, o := SomeRun(cs.body);
    tr, o := BodyThen(cs, tr, o);
  }

  /** The body of a clause and, where it falls through, what follows. */
  lemma {:induction false} BodyThen(cs: Clauses, t: seq<nat>, ob: Outcome) returns (tr: seq<nat>, o: Outcome)
    requires ClausesClosed(cs) && cs.Clause? && Runs(cs.body, t, ob)
    ensures RunsFrom(cs, tr, o) && t <= tr && (ob != Normal ==> tr == t && o == ob)
    ensures ob == Normal && cs.fall.Some? ==> |tr| > |t| && tr[|t|] == cs.fall.value
    decreases cs, 0, 0
  {
    tr, o := t, ob;
    if ob == Normal && cs.fall.Some? {
      var u, ou := SomeFrom(cs.rest);
      RunFall(cs, t, u, ou);
      tr, o := t + [cs.fall.value] + u, ou;
    }
  }

  lemma {:induction false} RunStarts(c: Code, tr: seq<nat>, o: Outcome)
    requires Runs(c, tr, o)
    ensures if Through(c) then tr == [] && o == Normal else tr != [] && tr[0] == First(c)
  {
    if c.Seq? {
      if o != Normal && Runs(c.first, tr, o) {
        RunStarts(c.first, tr, o);
      } else {
        var i: nat :| i <= |tr| && Runs(c.first, tr[..i], Normal) && Runs(c.rest, tr[i..], o);
        RunStarts(c.first, tr[..i], Normal);
        RunStarts(c.rest, tr[i..], o);
      }
    }
  }

  // ----- executions to a given end -----

  lemma {:induction false} ThroughRuns(c: Code)
    requires Through(c)
    ensures Runs(c, [], Normal)
  {
    if c.Seq? {
      ThroughRuns(c.first);
      ThroughRuns(c.rest);
      var none: seq<nat> := [];
      RunSeq(c, none, none, Normal);
      assert none + none == none;
    }
  }

  lemma {:induction false} NormalRun(c: Code) returns (tr: seq<nat>)
    requires Closed(c) && Completes(c)
    ensures Runs(c, tr, Normal)
    decreases c, 2
  {
    if Through(c) {
      ThroughRuns(c);
      tr := [];
    } else {
      var x :| x in Exits(c);
      tr := EndRun(c, x, Normal);
    }
  }

  /** The statements at which executions of c can end so. */
  function EndsOf(c: Code, o: Outcome): set<nat>
    requires o != Returns
  {
    match o
    case Normal => Exits(c)
    case Breaks => Brks(c)
    case Continues => Conts(c)
  }

  lemma {:induction false} EndRun(c: Code, x: nat, o: Outcome) returns (tr: seq<nat>)
    requires Closed(c) && o != Returns && x in EndsOf(c, o)
    ensures Runs(c, tr, o) && tr != [] && Last(tr) == x
    decreases c, 1
  {
    match c
    case Seq(a, b) =>
      if Through(b) && o == Normal {
        tr := EndRun(a, x, o);
        ThroughRuns(b);
        RunSeq(c, tr, [], o);
        assert tr + [] == tr;
      } else if x in EndsOf(a, o) && o != Normal {
        tr := EndRun(a, x, o);
      } else {
        var s := NormalRun(a);
        var t := EndRun(b, x, o);
        RunSeq(c, s, t, o);
        tr := s + t;
      }
    case If(_, _, _, _) => tr := IfEndRun(c, x, o);
    case Loop(id, _, body) =>
      if x == id {
        tr := [id];
      } else {
        var t := EndRun(body, x, Breaks);
        RunLoop(c, t, Breaks);
        tr := Rounds(c, t, Breaks);
      }
    case Switch(id, cs) => tr := SwitchEndRun(c, x, o);
    case Simple(id) => tr := [id];
    case Break(id) => tr := [id];
    case Continue(id) => tr := [id];
    case _ => assert false;
  }

  lemma {:induction false} IfEndRun(c: Code, x: nat, o: Outcome) returns (tr: seq<nat>)
    requires c.If? && Closed(c) && o != Returns && x in EndsOf(c, o)
    ensures Runs(c, tr, o) && tr != [] && Last(tr) == x
    decreases c, 0
  {
    var t: seq<nat> := [];
    if x in EndsOf(c.yes, o) {
      t := EndRun(c.yes, x, o);
    } else if x in EndsOf(c.no, o) {
      t := EndRun(c.no, x, o);
    } else {
      assert x in Out({c.id}, c.yes) + Out({c.id}, c.no);
      if Through(c.yes) { ThroughRuns(c.yes); } else { ThroughRuns(c.no); }
    }
    RunIf(c, t, o);
    tr := [c.id] + t;
  }

  lemma {:induction false} SwitchEndRun(c: Code, x: nat, o: Outcome) returns (tr: seq<nat>)
    requires c.Switch? && Closed(c) && o != Returns && x in EndsOf(c, o)
    ensures Runs(c, tr, o) && tr != [] && Last(tr) == x
    decreases c, 0
  {
    var cs := c.clauses;
    if o == Normal && x == c.id && !HasDefault(cs) {
      tr := [c.id];
    } else {
      var t: seq<nat>;
      if o == Normal && x in ClauseExits(cs, {}) {
        var fell;
        t, fell := ClauseExitRun(cs, {}, 0, x);
      } else {
        t := ClauseLeaveRun(cs, x, if o == Normal then Breaks else o);
      }
      tr := [c.id] + t;
      assert tr[1..] == t;
    }
  }

  /** A break or continue out of some clause. */
  lemma {:induction false} ClauseLeaveRun(cs: Clauses, x: nat, o: Outcome) returns (tr: seq<nat>)
    requires ClausesClosed(cs) && ((o == Breaks && x in ClauseBrks(cs)) || (o == Continues && x in ClauseConts(cs)))
    ensures RunsSome(cs, tr, o) && tr != [] && Last(tr) == x
    decreases cs, 1
  {
    if x in EndsOf(cs.body, o) {
      var t := EndRun(cs.body, x, o);
      RunChosen(cs, t, o);
      tr := [cs.id] + t;
    } else {
      tr := ClauseLeaveRun(cs.rest, x, o);
    }
  }

  /** The clauses are entered by choice, or by falling from the statement f before them. */
  lemma {:induction false} ClauseExitRun(cs: Clauses, falls: set<nat>, f: nat, x: nat)
    returns (tr: seq<nat>, fell: bool)
    requires ClausesClosed(cs) && falls <= {f} && x in ClauseExits(cs, falls)
    ensures !fell ==> RunsSome(cs, tr, Normal) && tr != [] && Last(tr) == x
    ensures fell ==> f in falls && RunsFrom(cs, tr, Normal) && Last([f] + tr) == x
    decreases cs, 1
  {
    var outs := Out({cs.id} + falls, cs.body);
    if cs.fall.None? && x in outs {
      var t: seq<nat> := [];
      if Through(cs.body) { ThroughRuns(cs.body); } else { t := EndRun(cs.body, x, Normal); }
      fell := Through(cs.body) && x != cs.id;
      tr := if fell then t else [cs.id] + t;
      RunChosen(cs, t, Normal);
    } else {
      tr, fell := ClauseExitRun(cs.rest, Falls(cs, outs), if cs.fall.Some? then cs.fall.value else 0, x);
      if fell {
        var t := NormalRun(cs.body);
        RunFall(cs, t, tr, Normal);
        RunChosen(cs, t + [cs.fall.value] + tr, Normal);
        assert Last([cs.id] + (t + [cs.fall.value] + tr)) == Last([cs.fall.value] + tr);
        tr, fell := [cs.id] + (t + [cs.fall.value] + tr), false;
      }
    }
  }

  // ----- executions through a given transfer -----

  /** y comes right after x. */
  ghost predicate Shows(w: seq<nat>, x: nat, y: nat) {
    exists i: nat, j: nat :: j == i + 1 && j < |w| && w[i] == x && w[j] == y
  }

  lemma ShowsAt(w: seq<nat>, i: nat, x: nat, y: nat)
    requires i + 1 < |w| && w[i] == x && w[i + 1] == y
    ensures Shows(w, x, y)
  {
    var j := i + 1;
    assert w[i] == x && w[j] == y;
  }

  lemma ShowsInside(a: seq<nat>, w: seq<nat>, b: seq<nat>, x: nat, y: nat)
    requires Shows(w, x, y)
    ensures Shows(a + w + b, x, y)
  {
    var i: nat, j: nat :| j == i + 1 && j < |w| && w[i] == x && w[j] == y;
    ShowsAt(a + w + b, |a| + i, x, y);
  }

  function Walk(tr: seq<nat>, o: Outcome): seq<nat> {
    if o == Returns then tr + [EXIT] else tr
  }

  lemma WalkAfter(a: seq<nat>, tr: seq<nat>, o: Outcome, x: nat, y: nat)
    requires Shows(Walk(tr, o), x, y)
    ensures Shows(Walk(a + tr, o), x, y)
  {
    ShowsInside(a, Walk(tr, o), [], x, y);
    assert a + Walk(tr, o) + [] == Walk(a + tr, o);
  }

  lemma {:induction false} InnerRun(c: Code, x: nat, y: nat) returns (tr: seq<nat>, o: Outcome)
    requires Closed(c) && (x, y) in Inner(c)
    ensures Runs(c, tr, o) && Shows(Walk(tr, o), x, y)
    decreases c, 1
  {
    match c
    case Seq(_, _) => tr, o := SeqInnerRun(c, x, y);
    case If(_, _, _, _) => tr, o := IfInnerRun(c, x, y);
    case Loop(_, _, _) => tr, o := LoopInnerRun(c, x, y);
    case Switch(id, cs) =>
      var t, ob, fell := ClauseInnerRun(id, cs, {}, 0, x, y);
      tr, o := [id] + t, if ob == Breaks then Normal else ob;
      assert tr[1..] == t && Walk(tr, o) == Walk([id] + t, ob);
    case Return(id) =>
      tr, o := [id], Returns;
      ShowsAt(Walk(tr, o), 0, x, y);
    case _ => assert false;
  }

  lemma {:induction false} SeqInnerRun(c: Code, x: nat, y: nat) returns (tr: seq<nat>, o: Outcome)
    requires c.Seq? && Closed(c) && (x, y) in Inner(c)
    ensures Runs(c, tr, o) && Shows(Walk(tr, o), x, y)
    decreases c, 0
  {
    var a, b := c.first, c.rest;
    hide Shows, Runs;
    if (x, y) in Inner(a) {
      tr, o := InnerRun(a, x, y);
      tr, o := SeqGoesOn(c, tr, o, x, y);
    } else if (x, y) in Enter(Exits(a), b) {
      var s := EndRun(a, x, Normal);
      var t, ob := SomeRun(b);
      RunStarts(b, t, ob);
      RunSeq(c, s, t, ob);
      tr, o := s + t, ob;
      ShowsAt(Walk(tr, o), |s| - 1, x, y);
    } else {
      var s := NormalRun(a);
      var t, ob := InnerRun(b, x, y);
      RunSeq(c, s, t, ob);
      WalkAfter(s, t, ob, x, y);
      tr, o := s + t, ob;
    }
  }

  lemma SeqGoesOn(c: Code, s: seq<nat>, os: Outcome, x: nat, y: nat) returns (tr: seq<nat>, o: Outcome)
    requires c.Seq? && Closed(c) && Runs(c.first, s, os) && Shows(Walk(s, os), x, y)
    ensures Runs(c, tr, o) && Shows(Walk(tr, o), x, y)
  {
    hide Shows, Runs;
    tr, o := s, os;
    if o != Normal {
      RunFirst(c, tr, o);
    } else {
      var t, ob := SomeRun(c.rest);
      RunSeq(c, s, t, ob);
      ShowsInside([], s, Walk(t, ob), x, y);
      assert [] + s + Walk(t, ob) == Walk(s + t, ob);
      tr, o := s + t, ob;
    }
  }

  lemma {:induction false} IfInnerRun(c: Code, x: nat, y: nat) returns (tr: seq<nat>, o: Outcome)
    requires c.If? && Closed(c) && (x, y) in Inner(c)
    ensures Runs(c, tr, o) && Shows(Walk(tr, o), x, y)
    decreases c, 0
  {
    var part := if (x, y) in Enter({c.id}, c.yes) + Inner(c.yes) then c.yes else c.no;
    var t: seq<nat>;
    if (x, y) in Inner(part) {
      t, o := InnerRun(part, x, y);
      WalkAfter([c.id], t, o, x, y);
    } else {
      t, o := SomeRun(part);
      RunStarts(part, t, o);
      ShowsAt(Walk([c.id] + t, o), 0, x, y);
    }
    RunIf(c, t, o);
    tr := [c.id] + t;
  }

  lemma {:induction false} LoopInnerRun(c: Code, x: nat, y: nat) returns (tr: seq<nat>, o: Outcome)
    requires c.Loop? && Closed(c) && (x, y) in Inner(c)
    ensures Runs(c, tr, o) && Shows(Walk(tr, o), x, y)
    decreases c, 0
  {
    hide Shows, Runs;
    var body := c.body;
    var ends := Out({c.id}, body) + Conts(body);
    var t: seq<nat>, ob: Outcome;
    if (x, y) in Inner(body) {
      t, ob := InnerRun(body, x, y);
      ShowsInside([c.id], Walk(t, ob), Rounds(c, t, ob)[1 + |t|..], x, y);
      assert [c.id] + Walk(t, ob) + Rounds(c, t, ob)[1 + |t|..]
        == Walk(Rounds(c, t, ob), if ob == Returns then Returns else Normal);
    } else if (x, y) in Enter({c.id}, body) {
      t, ob := SomeRun(body);
      RunStarts(body, t, ob);
      ShowsAt(Walk(Rounds(c, t, ob), if ob == Returns then Returns else Normal), 0, x, y);
    } else if (x, y) in Cross(ends, Target(c)) {
      t, ob := RoundRun(c, x);
      ShowsAt(Rounds(c, t, ob), |t|, x, y);
    } else {
      var end :| end in ends;
      t, ob := RoundRun(c, end);
      ShowsAt(Rounds(c, t, ob), 1 + |t|, x, y);
    }
    RunLoop(c, t, ob);
    tr, o := Rounds(c, t, ob), if ob == Returns then Returns else Normal;
  }

  /** A round of the loop that ends at x. */
  lemma {:induction false} RoundRun(c: Code, x: nat) returns (t: seq<nat>, o: Outcome)
    requires c.Loop? && Closed(c) && x in Out({c.id}, c.body) + Conts(c.body)
    ensures Runs(c.body, t, o) && o in {Normal, Continues} && Last([c.id] + t) == x
    decreases c, 0
  {
    if x in Conts(c.body) {
      o := Continues;
      t := EndRun(c.body, x, o);
    } else if Through(c.body) {
      ThroughRuns(c.body);
      t, o := [], Normal;
    } else {
      o := Normal;
      t := EndRun(c.body, x, o);
    }
  }

  lemma {:induction false} ClauseInnerRun(sw: nat, cs: Clauses, falls: set<nat>, f: nat, x: nat, y: nat)
    returns (tr: seq<nat>, o: Outcome, fell: bool)
    requires ClausesClosed(cs) && falls <= {f} && (x, y) in ClauseInner(sw, cs, falls)
    ensures !fell ==> RunsSome(cs, tr, o) && Shows(Walk([sw] + tr, o), x, y)
    ensures fell ==> f in falls && RunsFrom(cs, tr, o) && Shows(Walk([f] + tr, o), x, y)
    decreases cs, 2
  {
    hide Shows, Runs, RunsFrom, Walk;
    var outs := Out({cs.id} + falls, cs.body);
    if (x, y) in ClauseInner(sw, cs.rest, Falls(cs, outs)) {
      tr, o, fell := ClauseInnerRun(sw, cs.rest, Falls(cs, outs), if cs.fall.Some? then cs.fall.value else 0, x, y);
      if fell {
        tr := FallInto(sw, cs, tr, o, x, y);
        fell := false;
      }
    } else if (x, y) == (sw, cs.id) {
      var t;
      t, o := SomeFrom(cs);
      RunChosen(cs, t, o);
      tr, fell := [cs.id] + t, false;
      ShowsStart(sw, cs.id, t, o);
    } else {
      var p;
      tr, o, p := FirstClauseRun(cs, falls, x, y);
      RunChosen(cs, tr, o);
      fell := p != cs.id;
      if !fell {
        WalkAfter([sw], [cs.id] + tr, o, x, y);
        tr := [cs.id] + tr;
      }
    }
  }

  lemma ShowsStart(x: nat, y: nat, t: seq<nat>, o: Outcome)
    ensures Shows(Walk([x] + ([y] + t), o), x, y)
  {
    ShowsAt(Walk([x] + ([y] + t), o), 0, x, y);
  }

  lemma FallInto(sw: nat, cs: Clauses, u: seq<nat>, o: Outcome, x: nat, y: nat) returns (tr: seq<nat>)
    requires cs.Clause? && ClausesClosed(cs) && cs.fall.Some? && Completes(cs.body)
    requires RunsFrom(cs.rest, u, o) && Shows(Walk([cs.fall.value] + u, o), x, y)
    ensures RunsSome(cs, tr, o) && Shows(Walk([sw] + tr, o), x, y)
  {
    hide Shows, Runs, RunsFrom, RunsSome, Walk;
    var t := NormalRun(cs.body);
    RunFall(cs, t, u, o);
    RunChosen(cs, t + [cs.fall.value] + u, o);
    tr := [cs.id] + (t + [cs.fall.value] + u);
    WalkAfter([sw, cs.id] + t, [cs.fall.value] + u, o, x, y);
    assert [sw, cs.id] + t + ([cs.fall.value] + u) == [sw] + tr;
  }

  /** A transfer of the first clause, entered from its head or from a fallthrough. */
  lemma {:induction false} FirstClauseRun(cs: Clauses, falls: set<nat>, x: nat, y: nat)
    returns (tr: seq<nat>, o: Outcome, p: nat)
    requires cs.Clause? && ClausesClosed(cs)
    requires (x, y) in Enter({cs.id} + falls, cs.body) + Inner(cs.body)
      + if cs.fall.Some? then Cross(Out({cs.id} + falls, cs.body), cs.fall.value) else {}
    ensures p in {cs.id} + falls && RunsFrom(cs, tr, o) && Shows(Walk([p] + tr, o), x, y)
    decreases cs, 1
  {
    hide Shows, RunsFrom, Runs;
    var body := cs.body;
    p := cs.id;
    if (x, y) in Inner(body) {
      var t, ob := InnerRun(body, x, y);
      tr, o := BodyThen(cs, t, ob);
      WalkExtends(p, t, ob, tr, o, x, y);
    } else if (x, y) in Enter({cs.id} + falls, body) {
      p := x;
      var t, ob := SomeRun(body);
      RunStarts(body, t, ob);
      tr, o := BodyThen(cs, t, ob);
      ShowsAt(Walk([p] + tr, o), 0, x, y);
    } else {
      tr, o, p := FallRun(cs, falls, x);
    }
  }

  /** The transfer from the end x of a clause to its fallthrough. */
  lemma {:induction false} FallRun(cs: Clauses, falls: set<nat>, x: nat) returns (tr: seq<nat>, o: Outcome, p: nat)
    requires cs.Clause? && ClausesClosed(cs) && cs.fall.Some? && x in Out({cs.id} + falls, cs.body)
    ensures p in {cs.id} + falls && RunsFrom(cs, tr, o) && Shows(Walk([p] + tr, o), x, cs.fall.value)
    decreases cs, 0, 1
  {
    hide Shows, RunsFrom;
    p := cs.id;
    var t: seq<nat> := [];
    if Through(cs.body) {
      ThroughRuns(cs.body);
      p := x;
    } else {
      t := EndRun(cs.body, x, Normal);
    }
    tr, o := BodyThen(cs, t, Normal);
    ShowsAt(Walk([p] + tr, o), |t|, x, cs.fall.value);
  }

  lemma WalkExtends(p: nat, t: seq<nat>, ob: Outcome, tr: seq<nat>, o: Outcome, x: nat, y: nat)
    requires Shows(Walk(t, ob), x, y) && t <= tr && (ob != Normal ==> tr == t && o == ob)
    ensures Shows(Walk([p] + tr, o), x, y)
  {
    var w := Walk(t, ob);
    var i: nat, j: nat :| j == i + 1 && j < |w| && w[i] == x && w[j] == y;
    if ob == Normal {
      assert t[i] == tr[i] && t[j] == tr[j];
    }
    ShowsAt(Walk([p] + tr, o), i + 1, x, y);
  }

  // ----- the graph has all executions exactly when no branch is captured -----

  /** Every transfer of a program occurs on a complete execution of it. */
  lemma TransferOccurs(p: Code, x: nat, y: nat) returns (tr: seq<nat>)
    requires Legal(p) && (x, y) in Transfers(p)
    ensures Trace(p, tr) && Shows([ENTRY] + tr + [EXIT], x, y)
  {
    hide Runs, Shows, Trace;
    var o;
    if (x, y) in Inner(p) {
      tr, o := InnerRun(p, x, y);
      ShowsInside([ENTRY], Walk(tr, o), if o == Returns then [] else [EXIT], x, y);
      assert [ENTRY] + tr + [EXIT] == [ENTRY] + Walk(tr, o) + if o == Returns then [] else [EXIT];
    } else if (x, y) in Enter({ENTRY}, p) {
      tr, o := SomeRun(p);
      RunStarts(p, tr, o);
      ShowsAt([ENTRY] + tr + [EXIT], 0, x, y);
    } else if Through(p) {
      ThroughRuns(p);
      tr, o := [], Normal;
      ShowsAt([ENTRY] + tr + [EXIT], 0, x, y);
    } else {
      o := Normal;
      tr := EndRun(p, x, o);
      ShowsAt([ENTRY] + tr + [EXIT], |tr|, x, y);
    }
    RunIsTrace(p, tr, o);
  }

  /** Every execution of a legal program is complete: no break or continue leaves it. */
  lemma RunIsTrace(p: Code, tr: seq<nat>, o: Outcome)
    requires Legal(p) && Runs(p, tr, o)
    ensures Trace(p, tr)
  {
    EnclosedStays(p, false, false);
    RunFits(ENTRY, p, tr, o, Transfers(p));
  }

  /** Every complete execution of p is a path of its graph from the entry to the exit. */
  ghost predicate TracesArePaths(p: Code) {
    forall tr :: Trace(p, tr) ==> Linked([ENTRY] + tr + [EXIT], Graph(p))
  }

  lemma TracesKeptExactly(p: Code)
    requires Legal(p)
    ensures TracesArePaths(p) <==> Scoped(p, true, {}, {}, false)
  {
    if Scoped(p, true, {}, {}, false) {
      ScopedKeepsTransfers(p);
      forall tr | Trace(p, tr)
        ensures Linked([ENTRY] + tr + [EXIT], Graph(p))
      {
        TraceFollowsTransfers(p, tr);
        LinkedMore([ENTRY] + tr + [EXIT], Transfers(p), Graph(p));
      }
    } else {
      var x, y := MissingTransfer(p);
      var tr := TransferOccurs(p, x, y);
      assert !Linked([ENTRY] + tr + [EXIT], Graph(p));
    }
  }

  /** A loop that breaks, then runs an inner loop, then does one more statement. */
  function BreakBeforeLoop(): Code {
    Loop(2, None, Seq(If(3, Break(4), Skip, None), Seq(Loop(5, None, Skip), Simple(6))))
  }

  lemma BreakLeavesLoop()
    ensures var p := BreakBeforeLoop(); Trace(p, [2, 3, 4])
  {
    var p := BreakBeforeLoop();
    RunIf(p.body.first, [4], Breaks);
    assert [3] + [4] == [3, 4];
    RunFirst(p.body, [3, 4], Breaks);
    RunLoop(p, [3, 4], Breaks);
    assert Rounds(p, [3, 4], Breaks) == [2, 3, 4];
  }

  /** The builder takes the break for the inner loop's, and hooks it up to the statement after that loop. */
  lemma BreakHookedUp()
    ensures Graph(BreakBeforeLoop()) == {(ENTRY, 2), (2, 3), (3, 4), (3, 5), (5, 5), (4, 6), (5, 6), (6, 2), (2, EXIT)}
  {
    var p := BreakBeforeLoop();
    var start := State({}, {ENTRY}, {}, {});
    var st0 := State({(ENTRY, 2)}, {2}, {}, {});
    assert OpenLoop(start, p) == st0;
    BodyBuilt(st0);
    var st3 := Build(p.body, st0);
    BodyCloses(p, st3);
    assert Build(p, start) == CloseLoop(st3, p);
    hide Build, OpenLoop, CloseLoop;
  }

  lemma BodyBuilt(st: State)
    requires st == State({(ENTRY, 2)}, {2}, {}, {})
    ensures Build(BreakBeforeLoop().body, st)
      == State({(ENTRY, 2), (2, 3), (3, 4), (3, 5), (5, 5), (4, 6), (5, 6)}, {6}, {}, {})
  {
    var body := BreakBeforeLoop().body;
    var st1 := State({(ENTRY, 2), (2, 3), (3, 4)}, {3}, {4}, {});
    var st2 := State(st1.edges + {(3, 5), (5, 5)}, {4, 5}, {}, {});
    BreakPends(st);
    LoopTakesBreak(st1);
    SixVisited(st2);
    assert Build(body, st) == Build(body.rest, st1);
    assert Build(body.rest, st1) == Build(body.rest.rest, st2);
    hide Build;
  }

  lemma SixVisited(st: State)
    requires st.prev == {4, 5} && st.breaks == {} && st.conts == {}
    ensures Build(Simple(6), st) == State(st.edges + {(4, 6), (5, 6)}, {6}, {}, {})
  {
  }

  lemma BodyCloses(p: Code, st: State)
    requires p.Loop? && p.id == 2 && p.post == None && st.prev == {6} && st.breaks == {} && st.conts == {}
    ensures CloseLoop(st, p) == State(st.edges + {(6, 2)}, {2}, {}, {})
  {
  }

  lemma BreakPends(st: State)
    requires st == State({(ENTRY, 2)}, {2}, {}, {})
    ensures Build(If(3, Break(4), Skip, None), st) == State({(ENTRY, 2), (2, 3), (3, 4)}, {3}, {4}, {})
  {
    assert Build(Break(4), Visit(st, 3)) == State({(ENTRY, 2), (2, 3), (3, 4)}, {}, {4}, {});
  }

  lemma LoopTakesBreak(st: State)
    requires st.prev == {3} && st.breaks == {4} && st.conts == {}
    ensures Build(Loop(5, None, Skip), st) == State(st.edges + {(3, 5), (5, 5)}, {4, 5}, {}, {})
  {
    assert Build(Skip, OpenLoop(st, Loop(5, None, Skip))) == State(st.edges + {(3, 5)}, {5}, {4}, {});
  }

  /** So an execution that leaves the loop by its break is not a path of the graph. */
  lemma BreakCaptured()
    ensures var p := BreakBeforeLoop();
      Legal(p) && !TracesArePaths(p) && !Scoped(p, true, {}, {}, false)
  {
    var p := BreakBeforeLoop();
    BreakLeavesLoop();
    BreakHookedUp();
    BreakLegal();
    hide Graph, Trace, Legal, Scoped, BreakBeforeLoop;
    var w := [ENTRY] + [2, 3, 4] + [EXIT];
    assert w[3] == 4 && w[4] == EXIT;
    TracesKeptExactly(p);
  }

  lemma BreakLegal()
    ensures Legal(BreakBeforeLoop())
  {
    var body := BreakBeforeLoop().body;
    assert Ids(body.first) == {3, 4} && Ids(body.rest) == {5, 6};
    assert Numbered(body.first) && Numbered(body.rest);
    assert Ids(body) == {3, 4, 5, 6};
  }
}
