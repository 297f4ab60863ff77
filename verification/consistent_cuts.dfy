/** Consistent cuts of well-formed logs, as points that give each host a time. */
module ConsistentCuts {
  import opened Clocks

  /** p gives a time to each of the n hosts and to nobody else. */
  ghost predicate Over(p: Clock, n: nat) {
    forall h: nat :: h in p <==> h < n
  }

  /** The event of host h that p stops at knows nothing beyond p. */
  ghost predicate Allowed(logs: Logs, p: Clock, h: nat) {
    && IsEvent(logs, h, Ticks(p, h))
    && (forall g :: 0 <= g < |logs| ==> Ticks(At(logs, h, Ticks(p, h)), g) <= Ticks(p, g))
  }

  ghost predicate Consistent(logs: Logs, p: Clock) {
    Over(p, |logs|) && forall h :: 0 <= h < |logs| ==> Allowed(logs, p, h)
  }

  function Sum(p: Clock, n: nat): nat {
    if n == 0 then 0 else Sum(p, n - 1) + Ticks(p, n - 1)
  }

  function Total(logs: Logs): nat {
    if logs == [] then 0 else Total(logs[..|logs| - 1]) + |logs[|logs| - 1]|
  }

  lemma {:induction false} SumTick(p: Clock, h: nat, n: nat)
    ensures Sum(Tick(p, h), n) == Sum(p, n) + (if h < n then 1 else 0)
  {
    if n > 0 {
      SumTick(p, h, n - 1);
    }
  }

  lemma {:induction false} SumLeq(a: Clock, b: Clock, n: nat)
    requires forall h :: 0 <= h < n ==> Ticks(a, h) <= Ticks(b, h)
    ensures Sum(a, n) <= Sum(b, n)
    ensures (exists h :: 0 <= h < n && Ticks(a, h) < Ticks(b, h)) ==> Sum(a, n) < Sum(b, n)
  {
    if n > 0 {
      SumLeq(a, b, n - 1);
    }
  }

  lemma {:induction false} SumTotal(p: Clock, logs: Logs)
    requires forall h :: 0 <= h < |logs| ==> 1 <= Ticks(p, h) <= |logs[h]|
    ensures |logs| <= Sum(p, |logs|) <= Total(logs)
  {
    if logs != [] {
      SumTotal(p, logs[..|logs| - 1]);
    }
  }

  /** Every host at its first event. */
  function Bottom(n: nat): (p: Clock)
    ensures forall h: nat :: h in p <==> h < n
    ensures forall h: nat :: h in p ==> p[h] == 1
  {
    if n == 0 then map[] else Tick(Bottom(n - 1), n - 1)
  }

  lemma {:induction false} SumBottom(p: Clock, n: nat)
    requires forall h :: 0 <= h < n ==> Ticks(p, h) == 1
    ensures Sum(p, n) == n
  {
    if n > 0 {
      SumBottom(p, n - 1);
    }
  }

  lemma BottomConsistent(logs: Logs)
    requires WellFormed(logs)
    ensures Consistent(logs, Bottom(|logs|)) && Sum(Bottom(|logs|), |logs|) == |logs|
  {
    var p := Bottom(|logs|);
    SumBottom(p, |logs|);
    forall h | 0 <= h < |logs|
      ensures Allowed(logs, p, h)
    {
      assert At(logs, h, 1) == map[h := 1];
    }
  }

  /** Moving one host to its next event keeps a cut consistent when that event allows it. */
  lemma TickConsistent(logs: Logs, p: Clock, h: nat)
    requires Consistent(logs, p) && h < |logs| && Allowed(logs, Tick(p, h), h)
    ensures Consistent(logs, Tick(p, h)) && Sum(Tick(p, h), |logs|) == Sum(p, |logs|) + 1
  {
    SumTick(p, h, |logs|);
    forall g | 0 <= g < |logs|
      ensures Allowed(logs, Tick(p, h), g)
    {
      assert Allowed(logs, p, g);
    }
  }

  /** The event counts as late as the ticks it knows of. */
  ghost function Weight(logs: Logs, q: Clock, h: nat): nat
    requires Consistent(logs, q) && h < |logs|
  {
    assert Allowed(logs, q, h);
    Sum(At(logs, h, Ticks(q, h)), |logs|)
  }

  /** Among the hosts past their first event, one whose event in q is latest. */
  lemma {:induction false} Latest(logs: Logs, q: Clock, n: nat) returns (h: nat)
    requires Consistent(logs, q) && n <= |logs| && exists g :: 0 <= g < n && Ticks(q, g) > 1
    ensures h < n && Ticks(q, h) > 1
    ensures forall g :: 0 <= g < n && Ticks(q, g) > 1 ==> Weight(logs, q, g) <= Weight(logs, q, h)
  {
    if forall g :: 0 <= g < n - 1 ==> Ticks(q, g) <= 1 {
      h := n - 1;
    } else {
      h := Latest(logs, q, n - 1);
      if Ticks(q, n - 1) > 1 && Weight(logs, q, n - 1) > Weight(logs, q, h) {
        h := n - 1;
      }
    }
  }

  /** Nobody else in the cut knows of the latest event. */
  lemma LatestUnknown(logs: Logs, q: Clock, h: nat, g: nat)
    requires WellFormed(logs) && Consistent(logs, q) && h < |logs| && g < |logs| && g != h && Ticks(q, h) > 1
    requires Ticks(q, g) > 1 ==> Weight(logs, q, g) <= Weight(logs, q, h)
    ensures IsEvent(logs, g, Ticks(q, g)) && Ticks(At(logs, g, Ticks(q, g)), h) < Ticks(q, h)
  {
    assert Allowed(logs, q, g) && Allowed(logs, q, h);
    var eg, eh := At(logs, g, Ticks(q, g)), At(logs, h, Ticks(q, h));
    if Ticks(eg, h) == Ticks(q, h) {
      assert Ticks(q, g) == 1 ==> eg == map[g := 1];
      assert KnownEvent(logs, g, Ticks(q, g), h);
      assert Ticks(eg, g) == Ticks(q, g);
      SumLeq(eh, eg, |logs|);
      assert false;
    }
  }

  /** Taking back the event of host h, which nobody else in the cut knows of. */
  lemma TakeBack(logs: Logs, q: Clock, h: nat, p: Clock)
    requires Monotone(logs) && OwnTicks(logs) && Consistent(logs, q) && h < |logs| && Ticks(q, h) > 1 &&
      p == q[h := Ticks(q, h) - 1]
    requires forall g :: 0 <= g < |logs| && g != h ==>
      IsEvent(logs, g, Ticks(q, g)) && Ticks(At(logs, g, Ticks(q, g)), h) < Ticks(q, h)
    ensures Consistent(logs, p)
  {
    forall g | 0 <= g < |logs|
      ensures Allowed(logs, p, g)
    {
      assert Allowed(logs, q, g);
      if g == h {
        assert IsEvent(logs, h, Ticks(q, h) - 1);
        assert Leq(At(logs, h, Ticks(q, h) - 1), At(logs, h, Ticks(q, h)));
      }
    }
  }

  lemma SomeMoved(logs: Logs, q: Clock)
    requires Consistent(logs, q) && Sum(q, |logs|) > |logs|
    ensures exists g :: 0 <= g < |logs| && Ticks(q, g) > 1
  {
    forall g | 0 <= g < |logs|
      ensures Ticks(q, g) >= 1
    {
      assert Allowed(logs, q, g);
    }
    if forall g :: 0 <= g < |logs| ==> Ticks(q, g) == 1 {
      SumBottom(q, |logs|);
    }
  }

  /** A consistent cut above the bottom has an event that can be taken back. */
  lemma Removable(logs: Logs, q: Clock) returns (h: nat, p: Clock)
    requires WellFormed(logs) && Consistent(logs, q) && Sum(q, |logs|) > |logs|
    ensures h < |logs| && Consistent(logs, p) && q == Tick(p, h) && Sum(q, |logs|) == Sum(p, |logs|) + 1
  {
    hide Consistent;
    SomeMoved(logs, q);
    h := Latest(logs, q, |logs|);
    p := q[h := Ticks(q, h) - 1];
    forall g | 0 <= g < |logs| && g != h
      ensures IsEvent(logs, g, Ticks(q, g)) && Ticks(At(logs, g, Ticks(q, g)), h) < Ticks(q, h)
    {
      LatestUnknown(logs, q, h, g);
    }
    TakeBack(logs, q, h, p);
    assert q == Tick(p, h);
    SumTick(p, h, |logs|);
  }

  lemma ConsistentSum(logs: Logs, p: Clock)
    requires Consistent(logs, p)
    ensures |logs| <= Sum(p, |logs|) <= Total(logs)
  {
    forall h | 0 <= h < |logs|
      ensures 1 <= Ticks(p, h) <= |logs[h]|
    {
      assert Allowed(logs, p, h);
    }
    SumTotal(p, logs);
  }

  /** The only consistent cut of the least sum is the bottom. */
  lemma {:induction false} LeastSum(p: Clock, n: nat)
    requires Sum(p, n) == n && forall h :: 0 <= h < n ==> Ticks(p, h) >= 1
    ensures forall h :: 0 <= h < n ==> Ticks(p, h) == 1
  {
    if n > 0 {
      SumAtLeast(p, n - 1);
      LeastSum(p, n - 1);
    }
  }

  lemma {:induction false} SumAtLeast(p: Clock, n: nat)
    requires forall h :: 0 <= h < n ==> Ticks(p, h) >= 1
    ensures Sum(p, n) >= n
  {
    if n > 0 {
      SumAtLeast(p, n - 1);
    }
  }

  lemma OnlyBottom(logs: Logs, p: Clock)
    requires Consistent(logs, p) && Sum(p, |logs|) == |logs|
    ensures p == Bottom(|logs|)
  {
    forall h | 0 <= h < |logs|
      ensures Ticks(p, h) >= 1
    {
      assert Allowed(logs, p, h);
    }
    LeastSum(p, |logs|);
    assert p.Keys == Bottom(|logs|).Keys;
    assert forall h :: h in p ==> p[h] == Ticks(p, h) && Bottom(|logs|)[h] == Ticks(Bottom(|logs|), h);
  }
}
