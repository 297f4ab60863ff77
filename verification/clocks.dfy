/** Vector clocks and per-host logs of them. Hosts are named by their position among the logs. */
module Clocks {

  type Clock = map<nat, nat>

  /** FindTicks: the component of host h, zero when the clock does not mention it. */
  function Ticks(c: Clock, h: nat): nat {
    if h in c then c[h] else 0
  }

  function Tick(c: Clock, h: nat): Clock {
    c[h := Ticks(c, h) + 1]
  }

  function Merge(a: Clock, b: Clock): (c: Clock)
    ensures forall h: nat :: Ticks(c, h) == if Ticks(a, h) < Ticks(b, h) then Ticks(b, h) else Ticks(a, h)
  {
    map h | h in a.Keys + b.Keys :: if Ticks(a, h) < Ticks(b, h) then Ticks(b, h) else Ticks(a, h)
  }

  /** a happened before b, or equals it. */
  ghost predicate Leq(a: Clock, b: Clock) {
    forall h: nat :: Ticks(a, h) <= Ticks(b, h)
  }

  ghost predicate SameTime(a: Clock, b: Clock) {
    forall h: nat :: Ticks(a, h) == Ticks(b, h)
  }

  /** Compare(_, Ancestor): is other strictly before c? */
  predicate Precedes(other: Clock, c: Clock) {
    && (forall h :: h in other ==> other[h] <= Ticks(c, h))
    && (exists h :: h in c && Ticks(other, h) < c[h])
  }

  lemma PrecedesMeans(other: Clock, c: Clock)
    ensures Precedes(other, c) <==> Leq(other, c) && !SameTime(other, c)
  {
    if Precedes(other, c) {
      var h :| h in c && Ticks(other, h) < c[h];
      assert Ticks(other, h) != Ticks(c, h);
    }
    if Leq(other, c) && !SameTime(other, c) {
      var h: nat :| Ticks(other, h) != Ticks(c, h);
      assert Ticks(other, h) < Ticks(c, h);
      assert forall g :: g in other ==> other[g] == Ticks(other, g);
    }
  }

  /** Compare(_, Equal) */
  predicate SameClock(a: Clock, b: Clock) {
    (forall h :: h in a ==> a[h] == Ticks(b, h)) && (forall h :: h in b ==> b[h] == Ticks(a, h))
  }

  lemma LeqTrans(a: Clock, b: Clock, c: Clock)
    requires Leq(a, b) && Leq(b, c)
    ensures Leq(a, c)
  {
  }

  type Logs = seq<seq<Clock>>

  predicate IsEvent(logs: Logs, h: nat, t: nat) {
    h < |logs| && 1 <= t <= |logs[h]|
  }

  /** The clock that host h logged at its own time t. */
  function At(logs: Logs, h: nat, t: nat): Clock
    requires IsEvent(logs, h, t)
  {
    logs[h][t - 1]
  }

  /** Host h logs its own times 1, 2, 3 and so on. */
  ghost predicate OwnTicks(logs: Logs) {
    forall h: nat, t: nat :: IsEvent(logs, h, t) ==> Ticks(At(logs, h, t), h) == t
  }

  ghost predicate Monotone(logs: Logs) {
    forall h: nat, t: nat, u: nat :: IsEvent(logs, h, t) && IsEvent(logs, h, u) && t <= u ==>
      Leq(At(logs, h, t), At(logs, h, u))
  }

  /** Whatever an event knows of another host has been logged there, and was known there no later. */
  ghost predicate CausallyClosed(logs: Logs) {
    forall h: nat, t: nat, g: nat :: IsEvent(logs, h, t) && Ticks(At(logs, h, t), g) > 0 ==> KnownEvent(logs, h, t, g)
  }

  ghost predicate KnownEvent(logs: Logs, h: nat, t: nat, g: nat)
    requires IsEvent(logs, h, t)
  {
    var k := Ticks(At(logs, h, t), g);
    IsEvent(logs, g, k) && Leq(At(logs, g, k), At(logs, h, t)) && (g != h ==> Ticks(At(logs, g, k), h) < t)
  }

  /** Every host starts alone at time 1, and a clock lists only hosts it knows something of. */
  ghost predicate Initialised(logs: Logs) {
    && (forall h :: 0 <= h < |logs| ==> |logs[h]| >= 1 && logs[h][0] == map[h := 1])
    && (forall h: nat, t: nat, g :: IsEvent(logs, h, t) && g in At(logs, h, t) ==> At(logs, h, t)[g] >= 1 && g < |logs|)
  }

  ghost predicate WellFormed(logs: Logs) {
    OwnTicks(logs) && Monotone(logs) && CausallyClosed(logs) && Initialised(logs)
  }

  /** A clock that host h may log next. */
  ghost predicate MayFollow(logs: Logs, h: nat, c: Clock) {
    && h < |logs| && |logs[h]| >= 1
    && Ticks(c, h) == |logs[h]| + 1
    && Leq(At(logs, h, |logs[h]|), c)
    && (forall g :: g in c ==> c[g] >= 1 && g < |logs|)
    && (forall g: nat :: g != h && Ticks(c, g) > 0 ==>
      IsEvent(logs, g, Ticks(c, g)) && Leq(At(logs, g, Ticks(c, g)), c))
  }

  function Append(logs: Logs, h: nat, c: Clock): Logs
    requires h < |logs|
  {
    logs[h := logs[h] + [c]]
  }

  /** Everything logged so far stays as it is. */
  ghost predicate Kept(logs: Logs, logs': Logs) {
    forall g: nat, t: nat :: IsEvent(logs, g, t) ==> IsEvent(logs', g, t) && At(logs', g, t) == At(logs, g, t)
  }

  lemma AppendEvents(logs: Logs, h: nat, c: Clock)
    requires h < |logs|
    ensures Kept(logs, Append(logs, h, c))
    ensures forall g: nat, t: nat :: IsEvent(Append(logs, h, c), g, t) ==>
      IsEvent(logs, g, t) || (g == h && t == |logs[h]| + 1)
    ensures IsEvent(Append(logs, h, c), h, |logs[h]| + 1) && At(Append(logs, h, c), h, |logs[h]| + 1) == c
  {
  }

  /** Logging such a clock keeps the logs well-formed. */
  lemma AppendKeeps(logs: Logs, h: nat, c: Clock)
    requires WellFormed(logs) && MayFollow(logs, h, c)
    ensures WellFormed(Append(logs, h, c))
  {
    AppendEvents(logs, h, c);
    var logs' := Append(logs, h, c);
    var T := |logs[h]| + 1;
    assert OwnTicks(logs');
    assert Monotone(logs') by {
      AppendMonotone(logs, h, c);
    }
    forall g: nat, t: nat, k: nat | IsEvent(logs', g, t) && Ticks(At(logs', g, t), k) > 0
      ensures KnownEvent(logs', g, t, k)
    {
      if IsEvent(logs, g, t) {
        assert KnownEvent(logs, g, t, k);
      } else {
        AppendKnown(logs, h, c, k);
      }
    }
    assert Initialised(logs');
  }

  lemma AppendMonotone(logs: Logs, h: nat, c: Clock)
    requires Monotone(logs) && MayFollow(logs, h, c)
    ensures Monotone(Append(logs, h, c))
  {
    AppendEvents(logs, h, c);
    var logs' := Append(logs, h, c);
    var T := |logs[h]| + 1;
    forall g: nat, t: nat, u: nat | IsEvent(logs', g, t) && IsEvent(logs', g, u) && t <= u
      ensures Leq(At(logs', g, t), At(logs', g, u))
    {
      if g == h && u == T && t < T {
        assert Leq(At(logs, h, t), At(logs, h, T - 1));
        LeqTrans(At(logs, h, t), At(logs, h, T - 1), c);
      }
    }
  }

  lemma AppendKnown(logs: Logs, h: nat, c: Clock, g: nat)
    requires WellFormed(logs) && MayFollow(logs, h, c) && Ticks(c, g) > 0
    ensures IsEvent(Append(logs, h, c), h, |logs[h]| + 1) && KnownEvent(Append(logs, h, c), h, |logs[h]| + 1, g)
  {
    AppendEvents(logs, h, c);
    if g != h {
      var k := Ticks(c, g);
      var e := At(logs, g, k);
      assert Ticks(e, h) > 0 ==> KnownEvent(logs, g, k, h);
    }
  }
}
