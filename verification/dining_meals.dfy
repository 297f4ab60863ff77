/** Who can still eat: exactly those whose two chopsticks are within reach. */
module DiningMeals {
  import opened Dining

  /** The philosopher asks for nothing and holds nothing. */
  predicate Calm(me: Philosopher) { me.phase in {Thinking, Hungry} }

  /** Stick x is lost, or in the channel of an attempt that was given up. */
  ghost predicate Gone(s: Table, x: nat)
    requires x < |s|
  {
    s[x].lost > 0 || exists k: nat :: Stranded(s, Asker(|s|, x), k)
  }

  /** Stick x is being sent to a philosopher who has given up waiting for it. */
  predicate Adrift(s: Table, x: nat)
    requires x < |s|
  {
    s[x].giving + s[x].acks > 0 && Calm(s[Asker(|s|, x)])
  }

  /** The stick m places before x is neither gone nor adrift, and those after it up to x are adrift: each of them can be
      picked up when the one before it is back. */
  ghost predicate Free(s: Table, x: nat, m: nat)
    requires x < |s|
    decreases m
  {
    if m == 0 then !Gone(s, x) && !Adrift(s, x) else Adrift(s, x) && Free(s, Asker(|s|, x), m - 1)
  }

  ghost predicate WithinReach(s: Table, x: nat)
    requires x < |s|
  {
    exists m: nat :: m < |s| && Free(s, x, m)
  }

  /** What holds in every reachable state of a table of two or more. */
  ghost predicate Sane(s: Table) {
    |s| >= 2 && forall j: nat :: j < |s| ==> SaneAt(s, j)
  }

  ghost predicate SaneAt(s: Table, j: nat)
    requires j < |s|
  {
    Copies(s, j) == 1 && (s[j].phase == Waiting ==> s[j].attempts != [])
  }

  lemma SaneKept(s: Table, e: Step)
    requires Sane(s) && Enabled(s, e)
    ensures Sane(Apply(s, e))
  {
    forall j: nat | j < |s|
      ensures SaneAt(Apply(s, e), j)
    {
      assert SaneAt(s, j);
      Conserved(s, e, j);
      AttemptKept(s, e, j);
      hide Copies, Apply;
    }
  }

  lemma AttemptKept(s: Table, e: Step, j: nat)
    requires Enabled(s, e) && j < |s| && (s[j].phase == Waiting ==> s[j].attempts != [])
    ensures var s' := Apply(s, e); s'[j].phase == Waiting ==> s'[j].attempts != []
  {
  }

  lemma {:induction false} SaneRun(s: Table, steps: seq<Step>)
    requires Sane(s) && CanRun(s, steps)
    ensures Sane(Run(s, steps))
    decreases |steps|
  {
    if steps != [] {
      SaneKept(s, steps[0]);
      SaneRun(Apply(s, steps[0]), steps[1..]);
    }
  }

  lemma SaneReachable(n: nat, steps: seq<Step>)
    requires n >= 2 && CanRun(Start(n), steps)
    ensures Sane(Run(Start(n), steps))
  {
    assert Sane(Start(n)) by {
      forall j: nat | j < n
        ensures SaneAt(Start(n), j)
      {
        OneStick(n, [], j);
      }
    }
    SaneRun(Start(n), steps);
  }

  // ----- steps of one philosopher a and of the server it asks that harm nobody -----

  predicate Mild(s: Table, e: Step, a: nat) {
    && Enabled(s, e) && a < |s|
    && match e
       case GetHungry(i) => i == a
       case Take(i) => i == a
       case Ask(i, _) => i == a
       case ReadAck(i, k) => i == a && s[a].phase == Waiting && k == |s[a].attempts| - 1
       case Grab(i) => i == a
       case TimeOut(i) => i == a && s[a].attempts != [] && s[a].attempts[|s[a].attempts| - 1] != Full
       case PutBack(i) => i == a
       case ReturnOwn(i) => i == a
       case Release(i) => i == a
       case AcceptRequest(i) => i == Neighbour(|s|, a)
       case Give(i) => i == Neighbour(|s|, a)
       case SendAck(i) => i == Neighbour(|s|, a)
       case AcceptRelease(i) => i == Neighbour(|s|, a)
       case Put(i) => i == Neighbour(|s|, a)
       case _ => false
  }

  /** What such steps leave as it is: the phases and attempts of the others, and the acks of all other sticks. Nothing
      is lost or stranded. */
  ghost predicate Touches(s: Table, t: Table, a: nat) {
    && |t| == |s| && a < |s|
    && (forall z: nat :: z < |s| && z != a ==> t[z].phase == s[z].phase && t[z].attempts == s[z].attempts)
    && (forall z: nat :: z < |s| && z != Neighbour(|s|, a) ==> t[z].giving == s[z].giving && t[z].acks == s[z].acks)
    && (forall z: nat :: z < |s| ==> t[z].lost == s[z].lost)
    && (forall k: nat :: Stranded(t, a, k) ==> Stranded(s, a, k))
  }

  lemma MildTouches(s: Table, e: Step, a: nat)
    requires |s| >= 2 && Mild(s, e, a)
    ensures Touches(s, Apply(s, e), a)
  {
    var t := Apply(s, e);
    forall k: nat | Stranded(t, a, k)
      ensures Stranded(s, a, k)
    {
    }
  }

  /** A run leads from s to t. */
  ghost predicate Reaches(s: Table, t: Table) {
    exists steps :: CanRun(s, steps) && Run(s, steps) == t
  }

  lemma ReachesOn(s: Table, t: Table, u: Table)
    requires Reaches(s, t) && Reaches(t, u)
    ensures Reaches(s, u)
  {
    var first :| CanRun(s, first) && Run(s, first) == t;
    var rest :| CanRun(t, rest) && Run(t, rest) == u;
    RunSplits(s, first, rest);
  }

  lemma ReachesStep(s: Table, e: Step)
    requires Enabled(s, e)
    ensures Reaches(s, Apply(s, e)) && Reaches(s, s)
  {
    assert CanRun(s, []) && Run(s, []) == s;
    assert CanRun(Apply(s, e), []) && [e][1..] == [];
    assert CanRun(s, [e]) && Run(s, [e]) == Apply(s, e);
  }

  /** A run of mild steps of a leads from s to t. */
  ghost predicate Goes(s: Table, t: Table, a: nat) {
    Reaches(s, t) && Touches(s, t, a) && Sane(t)
  }

  lemma Stays(s: Table, a: nat)
    requires Sane(s) && a < |s|
    ensures Goes(s, s, a)
  {
    assert CanRun(s, []) && Run(s, []) == s;
  }

  lemma TouchesOn(s: Table, t: Table, u: Table, a: nat)
    requires Touches(s, t, a) && Touches(t, u, a)
    ensures Touches(s, u, a)
  {
    hide Stranded;
  }

  lemma GoesOn(s: Table, t: Table, u: Table, a: nat)
    requires Goes(s, t, a) && Goes(t, u, a)
    ensures Goes(s, u, a)
  {
    hide Sane, Reaches, Touches;
    ReachesOn(s, t, u);
    TouchesOn(s, t, u, a);
  }

  lemma MildGoes(s: Table, e: Step, a: nat)
    requires Sane(s) && Mild(s, e, a)
    ensures Goes(s, Apply(s, e), a)
  {
    MildTouches(s, e, a);
    SaneKept(s, e);
    ReachesStep(s, e);
    hide Sane, Reaches, Touches, Mild, Apply;
  }

  /** One more step. */
  lemma Then(s: Table, t: Table, e: Step, a: nat) returns (u: Table)
    requires Goes(s, t, a) && Mild(t, e, a)
    ensures |u| == |t| == |s| && Goes(s, u, a)
    ensures u[e.i] == Local(t, e)
    ensures var j := Neighbour(|t|, e.i); u[j] == Remote(t[j], e)
    ensures forall z: nat :: z < |t| && z != e.i && z != Neighbour(|t|, e.i) ==> u[z] == t[z]
  {
    u := Apply(t, e);
    MildGoes(t, e, a);
    hide Goes, Touches, Mild, Enabled, Local, Remote;
    GoesOn(s, t, u, a);
  }

  // ----- a philosopher eats -----

  function LastOf(me: Philosopher): Attempt
    requires me.attempts != []
  {
    me.attempts[|me.attempts| - 1]
  }

  /** The ack is there and a reads. */
  lemma AckArrives(s: Table, a: nat) returns (t: Table)
    requires Sane(s) && a < |s| && s[a].phase == Waiting && s[a].attempts != [] && LastOf(s[a]) in {Asking, Reading}
    requires var x := s[Neighbour(|s|, a)]; x.giving + x.acks > 0
    ensures Goes(s, t, a) && |t| == |s| && t[a].phase == Waiting && t[a].attempts != [] && LastOf(t[a]) == Reading
    ensures t[Neighbour(|s|, a)].acks > 0
  {
    var x, k := Neighbour(|s|, a), |s[a].attempts| - 1;
    Stays(s, a);
    t := s;
    hide Goes, Sane;
    if t[x].acks == 0 { t := Then(s, t, SendAck(x), a); }
    if LastOf(t[a]) == Asking { t := Then(s, t, Ask(a, k), a); }
  }

  /** The stick is on its way to a, who waits for it. */
  lemma FetchAck(s: Table, a: nat) returns (t: Table)
    requires Sane(s) && a < |s| && s[a].phase == Waiting && s[a].attempts != [] && LastOf(s[a]) in {Asking, Reading}
    requires var x := s[Neighbour(|s|, a)]; x.giving + x.acks > 0
    ensures Goes(s, t, a) && |t| == |s| && t[a].phase == Eating
  {
    t := AckArrives(s, a);
    hide Goes, Sane;
    t := Then(s, t, ReadAck(a, |t[a].attempts| - 1), a);
    t := Then(s, t, Grab(a), a);
  }

  /** Both sticks go back. */
  lemma PutsBack(s: Table, a: nat) returns (t: Table)
    requires Sane(s) && a < |s| && s[a].phase in {Eating, Finishing}
    ensures Goes(s, t, a) && |t| == |s| && t[a].phase == Thinking && t[Neighbour(|s|, a)].stick
    ensures s[a].phase == Eating ==> t[a].stick
    ensures t[Neighbour(|s|, a)].giving + t[Neighbour(|s|, a)].acks == 0
  {
    var x := Neighbour(|s|, a);
    Stays(s, a);
    t := s;
    assert SaneAt(s, a) && SaneAt(s, x) && !s[x].stick && s[x].giving + s[x].acks == 0;
    hide Goes, Sane, SaneAt;
    if t[a].phase == Eating { t := Then(s, t, ReturnOwn(a), a); }
    t := Releases(s, t, a);
  }

  lemma Releases(s: Table, t: Table, a: nat) returns (u: Table)
    requires Goes(s, t, a) && a < |t| && t[a].phase == Finishing && !t[Neighbour(|t|, a)].stick
    ensures Goes(s, u, a) && |u| == |t| && u[a].phase == Thinking && u[Neighbour(|t|, a)].stick
    ensures u[a].stick == t[a].stick
    ensures var x := Neighbour(|t|, a); u[x].giving == t[x].giving && u[x].acks == t[x].acks
  {
    assert |t| >= 2;
    hide Goes;
    u := Then(s, t, Release(a), a);
    u := TakesBack(s, u, a);
  }

  lemma TakesBack(s: Table, t: Table, a: nat) returns (u: Table)
    requires Goes(s, t, a) && a < |t| && t[Neighbour(|t|, a)].releases > 0 && !t[Neighbour(|t|, a)].stick
    ensures Goes(s, u, a) && |u| == |t| && u[a] == t[a] && u[Neighbour(|t|, a)].stick
    ensures var x := Neighbour(|t|, a); u[x].giving == t[x].giving && u[x].acks == t[x].acks
  {
    var x := Neighbour(|t|, a);
    assert |t| >= 2;
    hide Goes;
    u := Then(s, t, AcceptRelease(x), a);
    u := Then(s, u, Put(x), a);
  }

  lemma TakesAndAsks(s: Table, a: nat) returns (t: Table)
    requires Sane(s) && a < |s| && Calm(s[a]) && s[a].stick
    ensures Goes(s, t, a) && t[a].phase == Waiting && t[a].attempts == s[a].attempts + [Asking]
    ensures var x := Neighbour(|s|, a);
      t[x].giving == s[x].giving && t[x].acks == s[x].acks && t[x].stick == s[x].stick
  {
    Stays(s, a);
    t := s;
    hide Goes, Sane;
    if t[a].phase == Thinking { t := Then(s, t, GetHungry(a), a); }
    t := Then(s, t, Take(a), a);
  }

  /** a gives up and has its own stick back. */
  lemma GivesUpAgain(s: Table, a: nat) returns (t: Table)
    requires Sane(s) && a < |s| &&
      (s[a].phase == PuttingBack || (s[a].phase == Waiting && s[a].attempts != [] && LastOf(s[a]) != Full))
    ensures Goes(s, t, a) && t[a].phase == Thinking && t[a].stick
    ensures var x := Neighbour(|s|, a);
      t[x].giving == s[x].giving && t[x].acks == s[x].acks && t[x].stick == s[x].stick
  {
    Stays(s, a);
    t := s;
    assert SaneAt(s, a);
    hide Goes, Sane;
    if t[a].phase == Waiting { t := Then(s, t, TimeOut(a), a); }
    t := Then(s, t, PutBack(a), a);
  }

  /** a has its own stick, and the other one is on its way: a eats and puts both back. */
  lemma Serves(s: Table, a: nat) returns (t: Table)
    requires Sane(s) && a < |s| && Calm(s[a]) && s[a].stick
    requires var x := s[Neighbour(|s|, a)]; x.giving + x.acks > 0
    ensures Goes(s, t, a) && |t| == |s| && Calm(t[a]) && t[Neighbour(|s|, a)].stick
  {
    t := TakesAndAsks(s, a);
    var u := FetchAck(t, a);
    GoesOn(s, t, u, a);
    t := PutsBack(u, a);
    GoesOn(s, u, t, a);
  }

  lemma {:induction false} SomeFull(a: seq<Attempt>) returns (k: nat)
    requires Fulls(a) > 0
    ensures k < |a| && a[k] == Full
  {
    if a[|a| - 1] == Full { k := |a| - 1; } else { k := SomeFull(a[..|a| - 1]); }
  }

  /** A stick that is neither gone nor in its owner's hands nor adrift is in its channel, being put there, with a or
      on its way to a. */
  lemma WhereItIs(s: Table, x: nat)
    requires Sane(s) && x < |s| && !Gone(s, x) && s[x].phase !in {Waiting, PuttingBack, Eating}
    ensures var a := s[Asker(|s|, x)];
      || s[x].stick || s[x].releases > 0 || s[x].putting > 0 || s[x].giving + s[x].acks > 0
      || a.phase in {Eating, Finishing}
      || (a.phase == Waiting && a.attempts != [] && LastOf(a) == Full)
  {
    assert SaneAt(s, x);
    var a := Asker(|s|, x);
    if Fulls(s[a].attempts) > 0 {
      var k := SomeFull(s[a].attempts);
      assert !Stranded(s, a, k);
    }
  }

  /** Stick x comes home. */
  lemma Brings(s: Table, x: nat) returns (t: Table)
    requires Sane(s) && x < |s| && Calm(s[x]) && !Gone(s, x) && !Adrift(s, x)
    ensures Goes(s, t, Asker(|s|, x)) && |t| == |s| && t[x].stick
    ensures Calm(s[Asker(|s|, x)]) ==> Calm(t[Asker(|s|, x)])
  {
    var a := Asker(|s|, x);
    WhereItIs(s, x);
    Stays(s, a);
    hide Goes, Gone;
    if s[x].stick {
      t := s;
    } else if s[x].releases > 0 || s[x].putting > 0 {
      t := PutHome(s, x);
    } else {
      t := HandsBack(s, x);
    }
  }

  lemma PutHome(s: Table, x: nat) returns (t: Table)
    requires Sane(s) && x < |s| && !s[x].stick && (s[x].releases > 0 || s[x].putting > 0)
    ensures Goes(s, t, Asker(|s|, x)) && |t| == |s| && t[x].stick && t[Asker(|s|, x)].phase == s[Asker(|s|, x)].phase
    ensures t[Asker(|s|, x)].attempts == s[Asker(|s|, x)].attempts
  {
    var a := Asker(|s|, x);
    Stays(s, a);
    t := s;
    hide Goes, Sane;
    if t[x].putting == 0 { t := Then(s, t, AcceptRelease(x), a); }
    t := Then(s, t, Put(x), a);
  }

  /** From the philosopher that has it or waits for it. */
  lemma HandsBack(s: Table, x: nat) returns (t: Table)
    requires Sane(s) && x < |s|
    requires var a := s[Asker(|s|, x)];
      || (s[x].giving + s[x].acks > 0 && !Calm(a)) || a.phase in {Eating, Finishing}
      || (a.phase == Waiting && a.attempts != [] && LastOf(a) == Full)
    ensures Goes(s, t, Asker(|s|, x)) && |t| == |s| && t[x].stick && Calm(t[Asker(|s|, x)])
  {
    var a := Asker(|s|, x);
    assert SaneAt(s, x) && SaneAt(s, a);
    if s[a].phase in {Eating, Finishing} {
      t := PutsBack(s, a);
    } else if s[a].phase == Waiting && LastOf(s[a]) == Full {
      Stays(s, a);
      var u := Then(s, s, Grab(a), a);
      t := PutsBack(u, a);
      GoesOn(s, u, t, a);
    } else if s[a].phase == Waiting && LastOf(s[a]) != Over {
      var u := FetchAck(s, a);
      t := PutsBack(u, a);
      GoesOn(s, u, t, a);
    } else {
      var u := GivesUpAgain(s, a);
      t := Serves(u, a);
      GoesOn(s, u, t, a);
    }
  }

  // ----- a stick within reach comes home -----

  /** How many places z comes before x. */
  function Back(n: nat, x: nat, z: nat): nat
    requires x < n && z < n
  {
    if z <= x then x - z else x + n - z
  }

  /** Nobody who was calm has stopped being so, nothing more is gone, and only the m sticks before x and x itself have
      been sent around. */
  ghost predicate Quietly(s: Table, t: Table, x: nat, m: nat) {
    && |t| == |s| && x < |s|
    && (forall z: nat :: z < |s| && Calm(s[z]) ==> Calm(t[z]))
    && (forall z: nat :: z < |s| && Gone(t, z) ==> Gone(s, z))
    && (forall z: nat :: z < |s| && Back(|s|, x, z) > m ==> t[z].giving == s[z].giving && t[z].acks == s[z].acks)
  }

  lemma NothingGone(s: Table, t: Table, a: nat)
    requires |s| >= 2 && Touches(s, t, a)
    ensures forall z: nat :: z < |s| && Gone(t, z) ==> Gone(s, z)
  {
    forall z: nat | z < |s| && Gone(t, z)
      ensures Gone(s, z)
    {
      if t[z].lost == 0 {
        var b := Asker(|s|, z);
        var k: nat :| Stranded(t, b, k);
        assert Stranded(s, b, k);
      }
    }
  }

  lemma BringsQuietly(s: Table, t: Table, x: nat)
    requires Sane(s) && x < |s| && Goes(s, t, Asker(|s|, x))
    requires Calm(s[Asker(|s|, x)]) ==> Calm(t[Asker(|s|, x)])
    ensures Quietly(s, t, x, 0)
  {
    NothingGone(s, t, Asker(|s|, x));
    hide Gone, Sane, Reaches;
  }

  /** First the m sticks before x, then x. */
  lemma QuietlyOn(s: Table, t: Table, u: Table, x: nat, m: nat)
    requires |s| >= 2 && x < |s| && m > 0 && Quietly(s, t, Asker(|s|, x), m - 1) && Quietly(t, u, x, 0)
    ensures Quietly(s, u, x, m)
  {
    hide Gone, Calm;
    forall z: nat | z < |s| && Back(|s|, x, z) > m
      ensures u[z].giving == s[z].giving && u[z].acks == s[z].acks
    {
      assert Back(|s|, Asker(|s|, x), z) > m - 1;
    }
  }

  lemma {:induction false} Recovers(s: Table, x: nat, m: nat) returns (t: Table)
    requires Sane(s) && x < |s| && m < |s| && Calm(s[x]) && Free(s, x, m)
    ensures Reaches(s, t) && Sane(t) && Quietly(s, t, x, m) && t[x].stick
    decreases m
  {
    var a := Asker(|s|, x);
    if m == 0 {
      t := Brings(s, x);
      BringsQuietly(s, t, x);
    } else {
      var u := Recovers(s, a, m - 1);
      assert Back(|s|, a, x) > m - 1;
      t := Serves(u, a);
      BringsQuietly(u, t, x);
      hide Quietly, Sane, Reaches, Touches;
      QuietlyOn(s, u, t, x, m);
      ReachesOn(s, u, t);
    }
  }

  // ----- whoever has both sticks within reach can eat -----

  /** The stick that a waits for comes to its channel or on its way. */
  lemma Frees(s: Table, a: nat) returns (t: Table)
    requires Sane(s) && a < |s| && s[a].phase == Waiting && s[a].attempts != [] && LastOf(s[a]) in {Asking, Reading}
    requires !Gone(s, Neighbour(|s|, a))
    ensures Reaches(s, t) && Sane(t) && |t| == |s| && t[a].phase == Waiting && t[a].attempts == s[a].attempts
    ensures var x := t[Neighbour(|s|, a)]; x.giving + x.acks > 0 || x.stick
  {
    var x := Neighbour(|s|, a);
    assert SaneAt(s, x);
    Stays(s, a);
    t := s;
    if s[x].phase in {Waiting, PuttingBack, Eating} {
      t := LetsGo(s, x);
    } else {
      WhereItIs(s, x);
      hide Gone, Sane;
      if !s[x].stick && s[x].giving + s[x].acks == 0 {
        t := PutHome(s, x);
      }
    }
  }

  /** The owner of stick x puts it back, whatever that does to others. */
  lemma LetsGo(s: Table, x: nat) returns (t: Table)
    requires Sane(s) && x < |s| && s[x].phase in {Waiting, PuttingBack, Eating}
    ensures Reaches(s, t) && Sane(t) && |t| == |s| && t[x].stick
    ensures t[Asker(|s|, x)].phase == s[Asker(|s|, x)].phase && t[Asker(|s|, x)].attempts == s[Asker(|s|, x)].attempts
  {
    assert SaneAt(s, x);
    var a := Asker(|s|, x);
    if s[x].phase == Eating {
      t := OneStep(s, ReturnOwn(x));
    } else if s[x].phase == PuttingBack {
      t := OneStep(s, PutBack(x));
    } else {
      var u := OneStep(s, TimeOut(x));
      t := OneStep(u, PutBack(x));
      hide Sane, Reaches;
      ReachesOn(s, u, t);
    }
  }

  lemma OneStep(s: Table, e: Step) returns (t: Table)
    requires Sane(s) && Enabled(s, e)
    ensures t == Apply(s, e) && Reaches(s, t) && Sane(t)
  {
    t := Apply(s, e);
    ReachesStep(s, e);
    SaneKept(s, e);
  }

  /** Waiting for a stick that is not gone, a can eat. */
  lemma EatsSoon(s: Table, a: nat) returns (t: Table)
    requires Sane(s) && a < |s| && s[a].phase == Waiting && s[a].attempts != [] && LastOf(s[a]) in {Asking, Reading}
    requires !Gone(s, Neighbour(|s|, a))
    ensures Reaches(s, t) && Sane(t) && |t| == |s| && t[a].phase == Eating
  {
    var u := Frees(s, a);
    var x := Neighbour(|s|, a);
    hide Gone;
    if u[x].giving + u[x].acks > 0 {
      t := FetchAck(u, a);
    } else {
      t := Answers(u, a);
      var v := FetchAck(t, a);
      GoesOn(u, t, v, a);
      t := v;
    }
    hide Reaches, Touches, Sane;
    ReachesOn(s, u, t);
  }

  /** The server of the stick that a waits for gives it away; if the request may be lost, a asks anew. */
  lemma Answers(s: Table, a: nat) returns (t: Table)
    requires Sane(s) && a < |s| && s[a].phase == Waiting && s[a].attempts != [] && LastOf(s[a]) in {Asking, Reading}
    requires s[Neighbour(|s|, a)].stick
    ensures Goes(s, t, a) && |t| == |s| && t[a].phase == Waiting && t[a].attempts != [] && LastOf(t[a]) == Reading
    ensures t[Neighbour(|s|, a)].giving > 0
  {
    if LastOf(s[a]) == Asking {
      t := AnswersNow(s, a);
    } else {
      var u := GivesUpAgain(s, a);
      t := TakesAndAsks(u, a);
      GoesOn(s, u, t, a);
      u := AnswersNow(t, a);
      GoesOn(s, t, u, a);
      t := u;
    }
  }

  lemma AnswersNow(s: Table, a: nat) returns (t: Table)
    requires Sane(s) && a < |s| && s[a].phase == Waiting && s[a].attempts != [] && LastOf(s[a]) == Asking
    requires s[Neighbour(|s|, a)].stick
    ensures Goes(s, t, a) && |t| == |s| && t[a].phase == Waiting && t[a].attempts != [] && LastOf(t[a]) == Reading
    ensures t[Neighbour(|s|, a)].giving > 0
  {
    var x := Neighbour(|s|, a);
    Stays(s, a);
    hide Goes, Sane;
    t := Then(s, s, Ask(a, |s[a].attempts| - 1), a);
    t := Then(s, t, AcceptRequest(x), a);
    t := Then(s, t, Give(x), a);
  }

  /** Having its own stick, a can eat when the other one is not gone. */
  lemma EatsFromHome(s: Table, a: nat) returns (t: Table)
    requires Sane(s) && a < |s| && Calm(s[a]) && s[a].stick && !Gone(s, Neighbour(|s|, a))
    ensures Reaches(s, t) && Sane(t) && |t| == |s| && t[a].phase == Eating
  {
    var u := TakesAndAsks(s, a);
    NothingGone(s, u, a);
    hide Gone;
    t := EatsSoon(u, a);
    hide Reaches, Sane, Touches;
    ReachesOn(s, u, t);
  }

  lemma ReachNotGone(s: Table, x: nat)
    requires Sane(s) && x < |s| && WithinReach(s, x)
    ensures !Gone(s, x)
  {
    assert SaneAt(s, x);
    if exists k: nat :: Stranded(s, Asker(|s|, x), k) {
      var k: nat :| Stranded(s, Asker(|s|, x), k);
      FullCounts(s[Asker(|s|, x)].attempts, k);
    }
  }

  /** What is free stays so when nothing comes to be adrift or gone. */
  lemma {:induction false} FreeKept(s: Table, t: Table, x: nat, m: nat)
    requires |t| == |s| && x < |s| && Free(s, x, m)
    requires forall z: nat :: z < |s| ==> (Adrift(s, z) <==> Adrift(t, z)) && (Gone(t, z) ==> Gone(s, z))
    ensures Free(t, x, m)
    decreases m
  {
    if m > 0 { FreeKept(s, t, Asker(|s|, x), m - 1); }
  }

  /** A philosopher who has eaten is calm again, and its own stick is as much within reach as before. */
  lemma Finishes(s: Table, a: nat) returns (t: Table)
    requires Sane(s) && a < |s| && s[a].phase == Finishing && WithinReach(s, a)
    ensures Reaches(s, t) && Sane(t) && |t| == |s| && Calm(t[a]) && WithinReach(t, a)
    ensures !Gone(t, Neighbour(|s|, a))
  {
    var x := Neighbour(|s|, a);
    var m: nat :| m < |s| && Free(s, a, m);
    t := PutsBack(s, a);
    NothingGone(s, t, a);
    assert SaneAt(t, x) && !Adrift(t, x);
    assert !Gone(t, x) by {
      if Gone(t, x) { HomeNotGone(t, x); }
    }
    assert !Adrift(s, x);
    hide Gone, Sane;
    forall z: nat | z < |s|
      ensures Adrift(s, z) <==> Adrift(t, z)
    {
      assert z != x ==> Asker(|s|, z) != a;
    }
    FreeKept(s, t, a, m);
  }

  lemma HomeNotGone(s: Table, x: nat)
    requires Sane(s) && x < |s| && s[x].stick
    ensures !Gone(s, x)
  {
    assert SaneAt(s, x);
    if exists k: nat :: Stranded(s, Asker(|s|, x), k) {
      var k: nat :| Stranded(s, Asker(|s|, x), k);
      FullCounts(s[Asker(|s|, x)].attempts, k);
    }
  }

  /** With both sticks within reach, a can eat. */
  lemma EatsInReach(s: Table, a: nat) returns (t: Table)
    requires Sane(s) && a < |s| && WithinReach(s, a) && WithinReach(s, Neighbour(|s|, a))
    ensures Reaches(s, t) && Sane(t) && |t| == |s| && t[a].phase == Eating
  {
    ReachNotGone(s, Neighbour(|s|, a));
    assert SaneAt(s, a);
    Stays(s, a);
    var u := s;
    if s[a].phase == Finishing {
      u := Finishes(s, a);
      t := EatsCalmly(u, a);
    } else if Calm(s[a]) {
      t := EatsCalmly(s, a);
    } else if s[a].phase == Eating {
      t := s;
    } else if s[a].phase == Waiting && LastOf(s[a]) == Full {
      t := Then(s, s, Grab(a), a);
    } else if s[a].phase == Waiting && LastOf(s[a]) != Over {
      t := EatsSoon(s, a);
    } else {
      u := GivesUpAgain(s, a);
      NothingGone(s, u, a);
      t := EatsFromHome(u, a);
    }
    hide Gone, Sane, Touches, Reaches, WithinReach;
    ReachesOn(s, u, t);
  }

  lemma EatsCalmly(s: Table, a: nat) returns (t: Table)
    requires Sane(s) && a < |s| && Calm(s[a]) && WithinReach(s, a) && !Gone(s, Neighbour(|s|, a))
    ensures Reaches(s, t) && Sane(t) && |t| == |s| && t[a].phase == Eating
  {
    var m: nat :| m < |s| && Free(s, a, m);
    var u := Recovers(s, a, m);
    hide Gone;
    t := EatsFromHome(u, a);
    hide Sane, Quietly, Reaches;
    ReachesOn(s, u, t);
  }

  // ----- whoever has one of them out of reach never eats again -----

  /** Each of these sticks is gone, or adrift to a philosopher whose own stick is one of them. */
  ghost predicate Trap(s: Table, sticks: set<nat>) {
    forall x: nat :: x in sticks ==> x < |s| && Trapped(s, sticks, x)
  }

  ghost predicate Trapped(s: Table, sticks: set<nat>, x: nat)
    requires x < |s|
  {
    Gone(s, x) || (Adrift(s, x) && Asker(|s|, x) in sticks)
  }

  lemma GoneStays(s: Table, e: Step, x: nat)
    requires Enabled(s, e) && x < |s| && Gone(s, x)
    ensures Gone(Apply(s, e), x)
  {
    if s[x].lost == 0 {
      var k: nat :| Stranded(s, Asker(|s|, x), k);
      StrandedStays(s, e, Asker(|s|, x), k);
    }
  }

  /** A stick adrift stays so, or is gone, unless its philosopher takes its own stick. */
  lemma AdriftStays(s: Table, e: Step, x: nat)
    requires |s| >= 2 && Enabled(s, e) && x < |s| && Adrift(s, x) && e != Take(Asker(|s|, x))
    ensures Adrift(Apply(s, e), x) || Gone(Apply(s, e), x)
  {
    var a := Asker(|s|, x);
    if e.ReadAck? && e.i == a {
      assert Stranded(Apply(s, e), a, e.k);
    }
  }

  lemma NotHome(s: Table, sticks: set<nat>, x: nat)
    requires Sane(s) && x < |s| && Trapped(s, sticks, x)
    ensures !s[x].stick && s[x].phase != Eating && s[Asker(|s|, x)].phase != Eating
  {
    assert SaneAt(s, x);
    if exists k: nat :: Stranded(s, Asker(|s|, x), k) {
      var k: nat :| Stranded(s, Asker(|s|, x), k);
      FullCounts(s[Asker(|s|, x)].attempts, k);
    }
  }

  lemma TrapStays(s: Table, e: Step, sticks: set<nat>)
    requires Sane(s) && Enabled(s, e) && Trap(s, sticks)
    ensures Trap(Apply(s, e), sticks)
  {
    forall x: nat | x in sticks
      ensures x < |s| && Trapped(Apply(s, e), sticks, x)
    {
      assert Trapped(s, sticks, x);
      var a := Asker(|s|, x);
      if Gone(s, x) {
        GoneStays(s, e, x);
      } else {
        assert Trapped(s, sticks, a);
        NotHome(s, sticks, a);
        AdriftStays(s, e, x);
      }
      hide Apply, Gone, Adrift;
    }
  }

  lemma {:induction false} TrapHolds(s: Table, steps: seq<Step>, sticks: set<nat>)
    requires Sane(s) && CanRun(s, steps) && Trap(s, sticks)
    ensures Trap(Run(s, steps), sticks) && Sane(Run(s, steps))
    decreases |steps|
  {
    if steps != [] {
      TrapStays(s, steps[0], sticks);
      SaneKept(s, steps[0]);
      TrapHolds(Apply(s, steps[0]), steps[1..], sticks);
    }
  }

  /** The stick m places before a free one is where it ends. */
  lemma {:induction false} FreeEnds(s: Table, x: nat, m: nat, z: nat)
    requires |s| >= 2 && x < |s| && m < |s| && Free(s, x, m) && z < |s| && Back(|s|, x, z) == m
    ensures !Adrift(s, z)
    decreases m
  {
    if m > 0 { FreeEnds(s, Asker(|s|, x), m - 1, z); }
  }

  /** The sticks out of reach are a trap. */
  lemma OutOfReachTraps(s: Table)
    requires Sane(s)
    ensures Trap(s, set x: nat | x < |s| && !WithinReach(s, x))
  {
    var sticks := set x: nat | x < |s| && !WithinReach(s, x);
    forall x: nat | x in sticks
      ensures Trapped(s, sticks, x)
    {
      var a := Asker(|s|, x);
      assert !Free(s, x, 0);
      if !Gone(s, x) && WithinReach(s, a) {
        var m: nat :| m < |s| && Free(s, a, m);
        assert Free(s, x, m + 1);
        assert Back(|s|, a, x) == m;
        FreeEnds(s, a, m, x);
      }
    }
  }

  /** In some continuation philosopher i eats. */
  ghost predicate CanEat(s: Table, i: nat)
    requires i < |s|
  {
    exists more :: CanRun(s, more) && Run(s, more)[i].phase == Eating
  }

  /** From any reachable state a philosopher can eat again exactly when both its sticks are within reach. */
  lemma EatsExactly(n: nat, steps: seq<Step>, i: nat)
    requires n >= 2 && i < n && CanRun(Start(n), steps)
    ensures var s := Run(Start(n), steps);
      CanEat(s, i) <==> WithinReach(s, i) && WithinReach(s, Neighbour(n, i))
  {
    var s := Run(Start(n), steps);
    SaneReachable(n, steps);
    if WithinReach(s, i) && WithinReach(s, Neighbour(n, i)) {
      var t := EatsInReach(s, i);
      var more :| CanRun(s, more) && Run(s, more) == t;
      assert CanEat(s, i);
    } else {
      forall more | CanRun(s, more)
        ensures Run(s, more)[i].phase != Eating
      {
        NeverEats(s, more, i);
      }
    }
  }

  lemma NeverEats(s: Table, more: seq<Step>, i: nat)
    requires Sane(s) && i < |s| && CanRun(s, more) && !(WithinReach(s, i) && WithinReach(s, Neighbour(|s|, i)))
    ensures Run(s, more)[i].phase != Eating
  {
    var sticks := set x: nat | x < |s| && !WithinReach(s, x);
    OutOfReachTraps(s);
    hide WithinReach;
    TrapHolds(s, more, sticks);
    var t := Run(s, more);
    var x := if i in sticks then i else Neighbour(|s|, i);
    assert x in sticks && Trapped(t, sticks, x);
    NotHome(t, sticks, x);
  }

  /** From the start everyone can eat, and both sticks are back afterwards. */
  lemma EveryoneCanEat(n: nat, i: nat) returns (first: seq<Step>, rest: seq<Step>)
    requires n >= 2 && i < n
    ensures CanRun(Start(n), first) && Run(Start(n), first)[i].phase == Eating
    ensures CanRun(Run(Start(n), first), rest)
    ensures var t := Run(Run(Start(n), first), rest); t[i].phase == Thinking && t[i].stick && t[Neighbour(n, i)].stick
  {
    var s := Start(n);
    StartSane(n);
    var t := EatsInReach(s, i);
    var u := PutsBack(t, i);
    first :| CanRun(s, first) && Run(s, first) == t;
    rest :| CanRun(t, rest) && Run(t, rest) == u;
  }

  // ----- where nobody gives up and no stick is lost, everything is within reach -----

  /** While a waits for its answer at most one message stands for its request, and otherwise none. */
  predicate OneRequest(s: Table, a: nat)
    requires a < |s|
  {
    var me, x := s[a], s[Neighbour(|s|, a)];
    x.requests + x.waiting + x.giving + x.acks <=
      if me.phase == Waiting && me.attempts != [] && LastOf(me) in {Reading, Over} then 1 else 0
  }

  predicate Steady(e: Step) { !e.TimeOut? && !e.LoseAck? && !e.LoseRelease? }

  ghost predicate Patient(s: Table) {
    |s| >= 2 && forall a: nat :: a < |s| ==> PatientAt(s, a)
  }

  predicate PatientAt(s: Table, a: nat)
    requires a < |s|
  {
    NeverGaveUp(s[a]) && OneRequest(s, a) && s[a].lost == 0
  }

  /** What philosopher a itself does keeps it so. */
  lemma OwnRequestKept(s: Table, e: Step, a: nat)
    requires |s| >= 2 && a < |s| && Enabled(s, e) && e.i == a && Steady(e) && OneRequest(s, a) && NeverGaveUp(s[a])
    ensures OneRequest(Apply(s, e), a)
  {
    match e
    case Ask(_, k) => assert k == |s[a].attempts| - 1;
    case ReadAck(_, k) => assert k == |s[a].attempts| - 1;
    case ReadError(_, k) => assert k == |s[a].attempts| - 1;
    case _ =>
  }

  lemma OneRequestKept(s: Table, e: Step, a: nat)
    requires |s| >= 2 && a < |s| && Enabled(s, e) && Steady(e) && OneRequest(s, a) && NeverGaveUp(s[a])
    ensures OneRequest(Apply(s, e), a)
  {
    if e.i == a {
      OwnRequestKept(s, e, a);
    } else {
      var t, x := Apply(s, e), Neighbour(|s|, a);
      assert t[a].phase == s[a].phase && t[a].attempts == s[a].attempts;
      if e.i != x {
        assert t[x].requests == s[x].requests && t[x].waiting == s[x].waiting;
      }
    }
  }

  lemma {:induction false} PatientKept(s: Table, steps: seq<Step>)
    requires Patient(s) && CanRun(s, steps) && forall j :: 0 <= j < |steps| ==> Steady(steps[j])
    ensures Patient(Run(s, steps))
    decreases |steps|
  {
    if steps != [] {
      var t := Apply(s, steps[0]);
      forall a: nat | a < |s|
        ensures PatientAt(t, a)
      {
        assert PatientAt(s, a);
        OneRequestKept(s, steps[0], a);
        PatientStep(s, steps[0], a);
        NotLost(s, steps[0], a);
        hide OneRequest, NeverGaveUp, Apply;
      }
      hide PatientAt, Apply;
      PatientKept(t, steps[1..]);
    }
  }

  lemma NotLost(s: Table, e: Step, a: nat)
    requires a < |s| && Enabled(s, e) && Steady(e) && s[a].lost == 0
    ensures Apply(s, e)[a].lost == 0
  {
  }

  /** In a run without timeouts that loses no ack and no release, whatever else goes wrong, everyone can always eat. */
  lemma PatientEat(n: nat, steps: seq<Step>, i: nat)
    requires n >= 2 && i < n && CanRun(Start(n), steps) && forall j :: 0 <= j < |steps| ==> Steady(steps[j])
    ensures CanEat(Run(Start(n), steps), i)
  {
    var s := Run(Start(n), steps);
    StartPatient(n);
    PatientKept(Start(n), steps);
    hide Patient, WithinReach;
    PatientReach(s, i);
    PatientReach(s, Neighbour(n, i));
    EatsExactly(n, steps, i);
  }

  lemma StartPatient(n: nat)
    requires n >= 2
    ensures Patient(Start(n))
  {
  }

  lemma PatientReach(s: Table, x: nat)
    requires Patient(s) && x < |s|
    ensures WithinReach(s, x)
  {
    var a := Asker(|s|, x);
    assert PatientAt(s, a) && PatientAt(s, x);
    assert Free(s, x, 0);
  }

  // ----- a lost ack or release -----

  /** Where stick x is lost neither its owner nor the philosopher that asks for it can ever eat again. */
  lemma LossStarves(n: nat, steps: seq<Step>, x: nat)
    requires n >= 2 && x < n && CanRun(Start(n), steps) && Run(Start(n), steps)[x].lost > 0
    ensures var s := Run(Start(n), steps); !CanEat(s, x) && !CanEat(s, Asker(n, x))
  {
    var s := Run(Start(n), steps);
    SaneReachable(n, steps);
    hide CanEat;
    if WithinReach(s, x) { ReachNotGone(s, x); }
    EatsExactly(n, steps, x);
    EatsExactly(n, steps, Asker(n, x));
  }

  lemma StartSane(n: nat)
    requires n >= 2
    ensures Sane(Start(n)) && Reaches(Start(n), Start(n)) && forall x: nat :: x < n ==> WithinReach(Start(n), x)
  {
    var s := Start(n);
    SaneReachable(n, []);
    assert CanRun(s, []) && Run(s, []) == s;
    forall x: nat | x < n
      ensures WithinReach(s, x)
    {
      HomeNotGone(s, x);
      assert Free(s, x, 0);
    }
  }

  /** A run that ends with one more step. */
  lemma LastStep(n: nat, s: Table, e: Step) returns (steps: seq<Step>)
    requires Reaches(Start(n), s) && Enabled(s, e)
    ensures CanRun(Start(n), steps) && Run(Start(n), steps) == Apply(s, e)
  {
    var first :| CanRun(Start(n), first) && Run(Start(n), first) == s;
    Snoc(Start(n), first, e);
    steps := first + [e];
  }

  /** The ack to any philosopher can be lost, with nobody giving up. */
  lemma AckLost(n: nat, i: nat) returns (steps: seq<Step>)
    requires n >= 2 && i < n
    ensures CanRun(Start(n), steps) && Run(Start(n), steps)[Neighbour(n, i)].lost > 0
  {
    var s := Start(n);
    StartSane(n);
    var t := TakesAndAsks(s, i);
    var u := AnswersNow(t, i);
    GoesOn(s, t, u, i);
    t := AckArrives(u, i);
    GoesOn(s, u, t, i);
    steps := LastStep(n, t, LoseAck(Neighbour(n, i)));
  }

  /** So can the release with which it gives the stick back. */
  lemma ReleaseLost(n: nat, i: nat) returns (steps: seq<Step>)
    requires n >= 2 && i < n
    ensures CanRun(Start(n), steps) && Run(Start(n), steps)[Neighbour(n, i)].lost > 0
  {
    var s := Start(n);
    StartSane(n);
    var t := EatsInReach(s, i);
    assert SaneAt(t, i);
    var u := OneStep(t, ReturnOwn(i));
    var v := OneStep(u, Release(i));
    hide Sane;
    ReachesOn(s, t, u);
    ReachesOn(s, u, v);
    steps := LastStep(n, v, LoseRelease(Neighbour(n, i)));
  }

  // ----- everyone gives up once: nothing is lost or stranded, and nobody ever eats -----

  /** A philosopher who thinks and has no stick in any channel of an attempt. */
  predicate Resting(me: Philosopher) {
    me.phase == Thinking && me.lost == 0 && forall k :: 0 <= k < |me.attempts| ==> me.attempts[k] != Full
  }

  /** The first k philosophers have asked and given up; the servers of the first g sticks are giving them away. */
  ghost predicate InVain(s: Table, k: nat, g: nat) {
    && (forall z: nat :: z < |s| ==> Resting(s[z]))
    && (forall z: nat :: z < |s| && z >= g ==> s[z].stick && (Asker(|s|, z) < k ==> s[z].requests > 0))
    && (forall z: nat :: z < |s| && z < g ==> s[z].giving > 0)
  }

  lemma AsksOnce(s: Table, a: nat) returns (t: Table)
    requires Sane(s) && a < |s| && Resting(s[a]) && s[a].stick
    ensures Goes(s, t, a) && |t| == |s|
    ensures t[a] == s[a].(attempts := s[a].attempts + [Reading])
    ensures var x := Neighbour(|s|, a); t[x] == s[x].(requests := s[x].requests + 1)
    ensures forall z: nat :: z < |s| && z != a && z != Neighbour(|s|, a) ==> t[z] == s[z]
  {
    t := HasAsked(s, a);
    hide Goes, Sane;
    t := Then(s, t, TimeOut(a), a);
    t := Then(s, t, PutBack(a), a);
  }

  lemma HasAsked(s: Table, a: nat) returns (t: Table)
    requires Sane(s) && a < |s| && Resting(s[a]) && s[a].stick
    ensures Goes(s, t, a) && |t| == |s|
    ensures t[a] == s[a].(phase := Waiting, stick := false, attempts := s[a].attempts + [Reading])
    ensures var x := Neighbour(|s|, a); t[x] == s[x].(requests := s[x].requests + 1)
    ensures forall z: nat :: z < |s| && z != a && z != Neighbour(|s|, a) ==> t[z] == s[z]
  {
    Stays(s, a);
    hide Goes, Sane;
    t := Then(s, s, GetHungry(a), a);
    t := Then(s, t, Take(a), a);
    t := Then(s, t, Ask(a, |s[a].attempts|), a);
  }

  lemma OneMoreAsks(s: Table, k: nat) returns (t: Table)
    requires Sane(s) && k < |s| && InVain(s, k, 0)
    ensures Reaches(s, t) && Sane(t) && |t| == |s| && InVain(t, k + 1, 0)
  {
    t := AsksOnce(s, k);
    forall z: nat | z < |s|
      ensures Resting(t[z]) && t[z].stick && (Asker(|s|, z) < k + 1 ==> t[z].requests > 0)
    {
      assert Resting(s[z]);
    }
  }

  lemma OneMoreGives(s: Table, g: nat) returns (t: Table)
    requires Sane(s) && g < |s| && InVain(s, |s|, g)
    ensures Reaches(s, t) && Sane(t) && |t| == |s| && InVain(t, |s|, g + 1)
  {
    var a := Asker(|s|, g);
    Stays(s, a);
    assert s[g].requests > 0;
    var u := Then(s, s, AcceptRequest(g), a);
    t := Then(s, u, Give(g), a);
    assert forall z: nat :: z < |s| && z != g ==> t[z] == s[z];
    assert t[g].phase == s[g].phase && t[g].attempts == s[g].attempts && t[g].lost == s[g].lost;
    forall z: nat | z < |s|
      ensures Resting(t[z])
    {
      assert Resting(s[z]);
    }
  }

  lemma {:induction false} EveryoneAsks(n: nat, k: nat) returns (t: Table)
    requires n >= 2 && k <= n
    ensures Reaches(Start(n), t) && Sane(t) && |t| == n && InVain(t, k, 0)
  {
    SaneReachable(n, []);
    assert CanRun(Start(n), []) && Run(Start(n), []) == Start(n);
    t := Start(n);
    if k > 0 {
      var s := EveryoneAsks(n, k - 1);
      hide Sane, Reaches, InVain;
      t := OneMoreAsks(s, k - 1);
      ReachesOn(Start(n), s, t);
    }
  }

  lemma {:induction false} EveryoneGives(n: nat, g: nat) returns (t: Table)
    requires n >= 2 && g <= n
    ensures Reaches(Start(n), t) && Sane(t) && |t| == n && InVain(t, n, g)
  {
    if g == 0 {
      t := EveryoneAsks(n, n);
    } else {
      var s := EveryoneGives(n, g - 1);
      hide Sane, Reaches, InVain;
      t := OneMoreGives(s, g - 1);
      ReachesOn(Start(n), s, t);
    }
  }

  /** At every table of two or more, timeouts alone can end all meals: no message is lost and no stick stranded, yet
      nobody can ever eat again. */
  lemma TimeoutsEndMeals(n: nat) returns (steps: seq<Step>)
    requires n >= 2
    ensures CanRun(Start(n), steps)
    ensures var s := Run(Start(n), steps); forall x: nat :: x < n ==> !Gone(s, x) && !CanEat(s, x)
  {
    var s := EveryoneGives(n, n);
    steps :| CanRun(Start(n), steps) && Run(Start(n), steps) == s;
    hide CanEat;
    forall x: nat | x < n
      ensures !Gone(s, x) && !CanEat(s, x)
    {
      AllAdrift(s, x);
      EatsExactly(n, steps, x);
    }
  }

  lemma AllAdrift(s: Table, x: nat)
    requires Sane(s) && x < |s| && InVain(s, |s|, |s|)
    ensures !Gone(s, x) && !WithinReach(s, x)
  {
    assert Resting(s[Asker(|s|, x)]) && Resting(s[x]);
    forall m: nat | m < |s|
      ensures !Free(s, x, m)
    {
      NeverFree(s, x, m);
    }
  }

  lemma {:induction false} NeverFree(s: Table, x: nat, m: nat)
    requires x < |s| && InVain(s, |s|, |s|)
    ensures !Free(s, x, m)
    decreases m
  {
    assert Resting(s[Asker(|s|, x)]);
    if m > 0 { NeverFree(s, Asker(|s|, x), m - 1); }
  }
}
