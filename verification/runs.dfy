/** Runs of hosts that follow the vector clock algorithm, one message per send event. */
module Runs {
  import opened Clocks

  /** A message: the send event, the destination, and the destination's receive event;
      recv is 0 while the message is in flight and -1 once it is lost. */
  datatype Msg = Msg(from: nat, sent: nat, to: nat, recv: int)

  datatype Sys = Sys(logs: Logs, msgs: seq<Msg>)

  datatype Step = Local(h: nat) | Send(h: nat, to: nat) | Receive(k: nat) | Lose(k: nat)

  function Start(n: nat): Sys {
    Sys(seq(n, h requires 0 <= h < n => [map[h := 1]]), [])
  }

  predicate InFlight(s: Sys, k: nat) {
    k < |s.msgs| && s.msgs[k].recv == 0
  }

  predicate Enabled(s: Sys, e: Step) {
    match e
    case Local(h) => h < |s.logs|
    case Send(h, to) => h < |s.logs| && to < |s.logs| && to != h
    case Receive(k) => InFlight(s, k)
    case Lose(k) => InFlight(s, k)
  }

  /** The clock a host logs next when nothing arrives. */
  function NextClock(logs: Logs, h: nat): Clock
    requires h < |logs| && |logs[h]| >= 1
  {
    Tick(At(logs, h, |logs[h]|), h)
  }

  ghost predicate InRange(s: Sys) {
    && (forall h :: 0 <= h < |s.logs| ==> |s.logs[h]| >= 1)
    && (forall k :: 0 <= k < |s.msgs| ==> IsEvent(s.logs, s.msgs[k].from, s.msgs[k].sent) && s.msgs[k].to < |s.logs|)
  }

  ghost function Apply(s: Sys, e: Step): Sys
    requires InRange(s) && Enabled(s, e)
  {
    match e
    case Local(h) =>
      s.(logs := Append(s.logs, h, NextClock(s.logs, h)))
    case Send(h, to) =>
      Sys(Append(s.logs, h, NextClock(s.logs, h)), s.msgs + [Msg(h, |s.logs[h]| + 1, to, 0)])
    case Receive(k) =>
      var m := s.msgs[k];
      var c := Merge(NextClock(s.logs, m.to), At(s.logs, m.from, m.sent));
      Sys(Append(s.logs, m.to, c), s.msgs[k := m.(recv := |s.logs[m.to]| + 1)])
    case Lose(k) =>
      s.(msgs := s.msgs[k := s.msgs[k].(recv := -1)])
  }

  /** A received message: its receive event knows of its send. */
  ghost predicate Delivered(s: Sys, k: nat)
    requires InRange(s)
  {
    && k < |s.msgs| && s.msgs[k].recv > 0 && IsEvent(s.logs, s.msgs[k].to, s.msgs[k].recv)
    && Leq(At(s.logs, s.msgs[k].from, s.msgs[k].sent), At(s.logs, s.msgs[k].to, s.msgs[k].recv))
  }

  ghost predicate Messages(s: Sys) {
    && InRange(s)
    && (forall k :: 0 <= k < |s.msgs| ==> s.msgs[k].to != s.msgs[k].from && (s.msgs[k].recv > 0 ==> Delivered(s, k)))
    && (forall k, l :: 0 <= k < l < |s.msgs| ==>
      !(s.msgs[k].from == s.msgs[l].from && s.msgs[k].sent == s.msgs[l].sent))
    && (forall k, l :: 0 <= k < l < |s.msgs| && s.msgs[k].recv > 0 ==>
      !(s.msgs[k].to == s.msgs[l].to && s.msgs[k].recv == s.msgs[l].recv))
  }

  /** The k-th message brought its own send time to its receiver as news. */
  ghost predicate News(s: Sys, k: nat)
    requires InRange(s)
  {
    Delivered(s, k) && Ticks(At(s.logs, s.msgs[k].to, s.msgs[k].recv), s.msgs[k].from) == s.msgs[k].sent
  }

  /** What (h, t) knows of g came through a message from g that was received no later. */
  ghost predicate Origin(s: Sys, h: nat, t: nat, g: nat)
    requires InRange(s) && IsEvent(s.logs, h, t)
  {
    exists k: nat :: OriginBy(s, h, t, g, k)
  }

  ghost predicate OriginBy(s: Sys, h: nat, t: nat, g: nat, k: nat)
    requires InRange(s) && IsEvent(s.logs, h, t)
  {
    && News(s, k) && s.msgs[k].from == g && s.msgs[k].sent == Ticks(At(s.logs, h, t), g)
    && Leq(At(s.logs, s.msgs[k].to, s.msgs[k].recv), At(s.logs, h, t))
  }

  ghost predicate Origins(s: Sys) {
    && InRange(s)
    && (forall h: nat, t: nat, g: nat ::
          IsEvent(s.logs, h, t) && g != h && Ticks(At(s.logs, h, t), g) > 0 ==> Origin(s, h, t, g))
  }

  /** What every step keeps. */
  ghost predicate Good(s: Sys) {
    WellFormed(s.logs) && Messages(s) && Origins(s)
  }

  lemma StartGood(n: nat)
    ensures Good(Start(n))
  {
    var s := Start(n);
    assert forall h: nat, t: nat :: IsEvent(s.logs, h, t) ==> t == 1 && At(s.logs, h, t) == map[h := 1];
    assert forall h: nat, g: nat :: Ticks(map[h := 1], g) > 0 ==> g == h;
  }

  lemma NextMayFollow(s: Sys, h: nat)
    requires WellFormed(s.logs) && h < |s.logs|
    ensures |s.logs[h]| >= 1 && MayFollow(s.logs, h, NextClock(s.logs, h))
    ensures forall g: nat :: g != h ==> Ticks(NextClock(s.logs, h), g) == Ticks(At(s.logs, h, |s.logs[h]|), g)
  {
    assert |s.logs[h]| >= 1;
    var T := |s.logs[h]|;
    var c, last := NextClock(s.logs, h), At(s.logs, h, T);
    assert IsEvent(s.logs, h, T);
    forall g: nat | g != h && Ticks(c, g) > 0
      ensures IsEvent(s.logs, g, Ticks(c, g)) && Leq(At(s.logs, g, Ticks(c, g)), c)
    {
      assert Ticks(last, g) == Ticks(c, g);
      assert KnownEvent(s.logs, h, T, g);
      LeqTrans(At(s.logs, g, Ticks(c, g)), last, c);
    }
  }

  /** The clock a receive logs. */
  ghost function ReceiveClock(s: Sys, k: nat): Clock
    requires InRange(s) && k < |s.msgs|
  {
    Merge(NextClock(s.logs, s.msgs[k].to), At(s.logs, s.msgs[k].from, s.msgs[k].sent))
  }

  lemma ReceiveMayFollow(s: Sys, k: nat)
    requires WellFormed(s.logs) && InRange(s) && k < |s.msgs| && s.msgs[k].to != s.msgs[k].from
    ensures MayFollow(s.logs, s.msgs[k].to, ReceiveClock(s, k))
  {
    var m := s.msgs[k];
    var r, T := m.to, |s.logs[m.to]|;
    var mc, next := At(s.logs, m.from, m.sent), NextClock(s.logs, r);
    var c := ReceiveClock(s, k);
    NextMayFollow(s, r);
    assert Ticks(mc, r) > 0 ==> KnownEvent(s.logs, m.from, m.sent, r);
    LeqTrans(At(s.logs, r, T), next, c);
    forall g: nat | g != r && Ticks(c, g) > 0
      ensures IsEvent(s.logs, g, Ticks(c, g)) && Leq(At(s.logs, g, Ticks(c, g)), c)
    {
      if Ticks(next, g) < Ticks(mc, g) {
        assert KnownEvent(s.logs, m.from, m.sent, g);
        LeqTrans(At(s.logs, g, Ticks(c, g)), mc, c);
      } else {
        LeqTrans(At(s.logs, g, Ticks(c, g)), next, c);
      }
    }
  }

  ghost predicate DeliveriesKept(s: Sys, s': Sys) {
    |s.msgs| <= |s'.msgs| && (forall i :: 0 <= i < |s.msgs| && s.msgs[i].recv > 0 ==> s'.msgs[i] == s.msgs[i])
  }

  /** An origin survives whatever keeps the logs and the deliveries. */
  lemma OldOrigin(s: Sys, s': Sys, h: nat, t: nat, g: nat)
    requires InRange(s) && InRange(s') && IsEvent(s.logs, h, t) && Origin(s, h, t, g)
    requires Kept(s.logs, s'.logs) && DeliveriesKept(s, s')
    ensures Origin(s', h, t, g)
  {
    var k: nat :| OriginBy(s, h, t, g, k);
    assert OriginBy(s', h, t, g, k);
  }

  /** Extending an origin from an event to a later clock with the same knowledge. */
  lemma LaterOrigin(s: Sys, h: nat, t: nat, x: nat, u: nat, g: nat)
    requires InRange(s) && IsEvent(s.logs, h, t) && IsEvent(s.logs, x, u) && Origin(s, h, t, g)
    requires Leq(At(s.logs, h, t), At(s.logs, x, u)) && Ticks(At(s.logs, h, t), g) == Ticks(At(s.logs, x, u), g)
    ensures Origin(s, x, u, g)
  {
    var k: nat :| OriginBy(s, h, t, g, k);
    LeqTrans(At(s.logs, s.msgs[k].to, s.msgs[k].recv), At(s.logs, h, t), At(s.logs, x, u));
    assert OriginBy(s, x, u, g, k);
  }

  /** A step of h that receives nothing, and sends at most one message. */
  ghost predicate Quiet(s: Sys, h: nat, s': Sys) {
    && InRange(s) && h < |s.logs| && s'.logs == Append(s.logs, h, NextClock(s.logs, h))
    && |s.msgs| <= |s'.msgs| <= |s.msgs| + 1 && s'.msgs[..|s.msgs|] == s.msgs
    && (|s'.msgs| > |s.msgs| ==> NewMessage(s, h, s'.msgs[|s.msgs|]))
  }

  predicate NewMessage(s: Sys, h: nat, m: Msg)
    requires h < |s.logs|
  {
    m.from == h && m.sent == |s.logs[h]| + 1 && m.to != h && m.to < |s.logs| && m.recv == 0
  }

  lemma QuietStep(s: Sys, h: nat, s': Sys)
    requires Good(s) && Quiet(s, h, s')
    ensures Good(s')
  {
    hide WellFormed, Messages, Origins, MayFollow, Kept;
    NextMayFollow(s, h);
    AppendKeeps(s.logs, h, NextClock(s.logs, h));
    QuietMessages(s, h, s');
    QuietOrigins(s, h, s');
  }

  lemma QuietMessages(s: Sys, h: nat, s': Sys)
    requires Messages(s) && Quiet(s, h, s')
    ensures InRange(s') && Messages(s')
  {
    hide Leq;
    AppendEvents(s.logs, h, NextClock(s.logs, h));
    QuietRange(s, h, s');
    forall k | 0 <= k < |s'.msgs| && s'.msgs[k].recv > 0
      ensures Delivered(s', k)
    {
      assert Delivered(s, k);
    }
  }

  lemma QuietRange(s: Sys, h: nat, s': Sys)
    requires InRange(s) && Quiet(s, h, s') && Kept(s.logs, s'.logs)
    ensures InRange(s')
    ensures forall k :: 0 <= k < |s.msgs| ==> s'.msgs[k] == s.msgs[k] && s.msgs[k].sent <= |s.logs[s.msgs[k].from]|
  {
    AppendEvents(s.logs, h, NextClock(s.logs, h));
    forall k | 0 <= k < |s.msgs|
      ensures s'.msgs[k] == s.msgs[k]
    {
      assert s'.msgs[..|s.msgs|][k] == s.msgs[k];
    }
  }

  lemma QuietOrigins(s: Sys, h: nat, s': Sys)
    requires WellFormed(s.logs) && Messages(s) && Origins(s) && Quiet(s, h, s') && InRange(s')
    ensures Origins(s')
  {
    hide Messages, Origins, Kept;
    var T, c := |s.logs[h]| + 1, NextClock(s.logs, h);
    NextMayFollow(s, h);
    AppendEvents(s.logs, h, c);
    assert DeliveriesKept(s, s');
    forall x: nat, u: nat, g: nat | IsEvent(s'.logs, x, u) && g != x && Ticks(At(s'.logs, x, u), g) > 0
      ensures Origin(s', x, u, g)
    {
      if IsEvent(s.logs, x, u) {
        KeptOrigin(s, s', x, u, g);
      } else {
        StillOrigin(s, s', h, T, g);
      }
    }
    OriginsAll(s');
  }

  lemma OriginsAll(s: Sys)
    requires InRange(s)
    requires forall x: nat, u: nat, g: nat ::
      IsEvent(s.logs, x, u) && g != x && Ticks(At(s.logs, x, u), g) > 0 ==> Origin(s, x, u, g)
    ensures Origins(s)
  {
  }

  lemma KeptOrigin(s: Sys, s': Sys, x: nat, u: nat, g: nat)
    requires Origins(s) && InRange(s') && Kept(s.logs, s'.logs) && DeliveriesKept(s, s')
    requires IsEvent(s.logs, x, u) && g != x && IsEvent(s'.logs, x, u) && Ticks(At(s'.logs, x, u), g) > 0
    ensures Origin(s', x, u, g)
  {
    OldOrigin(s, s', x, u, g);
  }

  /** The event after (h, T - 1) knows no more of g than that one did. */
  lemma StillOrigin(s: Sys, s': Sys, h: nat, T: nat, g: nat)
    requires Origins(s) && InRange(s') && Kept(s.logs, s'.logs) && DeliveriesKept(s, s')
    requires T > 1 && IsEvent(s.logs, h, T - 1) && IsEvent(s'.logs, h, T) && g != h
    requires Leq(At(s.logs, h, T - 1), At(s'.logs, h, T)) &&
      0 < Ticks(At(s'.logs, h, T), g) == Ticks(At(s.logs, h, T - 1), g)
    ensures Origin(s', h, T, g)
  {
    OldOrigin(s, s', h, T - 1, g);
    LaterOrigin(s', h, T - 1, h, T, g);
  }

  /** A receive of the k-th message. */
  ghost predicate Received(s: Sys, k: nat, s': Sys) {
    && InRange(s) && InFlight(s, k) && s.msgs[k].to != s.msgs[k].from
    && s'.msgs == s.msgs[k := s.msgs[k].(recv := |s.logs[s.msgs[k].to]| + 1)]
    && s'.logs == Append(s.logs, s.msgs[k].to, ReceiveClock(s, k))
  }

  lemma ReceiveStep(s: Sys, k: nat, s': Sys)
    requires Good(s) && Received(s, k, s')
    ensures Good(s')
  {
    hide WellFormed, Messages, Origins, MayFollow, Kept;
    ReceiveMayFollow(s, k);
    AppendKeeps(s.logs, s.msgs[k].to, ReceiveClock(s, k));
    ReceiveMessages(s, k, s');
    ReceiveOrigins(s, k, s');
  }

  lemma ReceiveMessages(s: Sys, k: nat, s': Sys)
    requires Messages(s) && Received(s, k, s')
    ensures InRange(s') && Messages(s')
  {
    AppendEvents(s.logs, s.msgs[k].to, ReceiveClock(s, k));
    assert InRange(s');
    forall i | 0 <= i < |s'.msgs| && s'.msgs[i].recv > 0
      ensures Delivered(s', i)
    {
      assert i != k ==> Delivered(s, i);
    }
    forall i | 0 <= i < |s.msgs| && s.msgs[i].recv > 0
      ensures s.msgs[i].recv <= |s.logs[s.msgs[i].to]|
    {
      assert Delivered(s, i);
    }
  }

  lemma ReceiveOrigins(s: Sys, k: nat, s': Sys)
    requires WellFormed(s.logs) && Messages(s) && Origins(s) && Received(s, k, s') && InRange(s')
    ensures Origins(s')
  {
    hide WellFormed, Messages, Origins, Kept;
    var m := s.msgs[k];
    AppendEvents(s.logs, m.to, ReceiveClock(s, k));
    assert DeliveriesKept(s, s');
    forall x: nat, u: nat, g: nat | IsEvent(s'.logs, x, u) && g != x && Ticks(At(s'.logs, x, u), g) > 0
      ensures Origin(s', x, u, g)
    {
      if IsEvent(s.logs, x, u) {
        KeptOrigin(s, s', x, u, g);
      } else {
        ReceiveOrigin(s, k, s', g);
      }
    }
    OriginsAll(s');
  }

  lemma ReceiveOrigin(s: Sys, k: nat, s': Sys, g: nat)
    requires WellFormed(s.logs) && Origins(s) && Received(s, k, s') && InRange(s')
    requires g != s.msgs[k].to && Ticks(ReceiveClock(s, k), g) > 0
    ensures IsEvent(s'.logs, s.msgs[k].to, |s.logs[s.msgs[k].to]| + 1)
    ensures Origin(s', s.msgs[k].to, |s.logs[s.msgs[k].to]| + 1, g)
  {
    hide WellFormed, Origins, Kept;
    var m := s.msgs[k];
    var r, T, c := m.to, |s.logs[m.to]| + 1, ReceiveClock(s, k);
    AppendEvents(s.logs, r, c);
    NextMayFollow(s, r);
    var mc, next := At(s.logs, m.from, m.sent), NextClock(s.logs, r);
    assert Leq(next, c) && Leq(mc, c);
    assert DeliveriesKept(s, s');
    if Ticks(next, g) < Ticks(mc, g) {
      OwnTime(s.logs, m.from, m.sent);
      FromMessage(s, k, s', g);
    } else {
      LeqTrans(At(s.logs, r, T - 1), next, c);
      StillOrigin(s, s', r, T, g);
    }
  }

  lemma OwnTime(logs: Logs, h: nat, t: nat)
    requires WellFormed(logs) && IsEvent(logs, h, t)
    ensures Ticks(At(logs, h, t), h) == t
  {
  }

  lemma FromMessage(s: Sys, k: nat, s': Sys, g: nat)
    requires Origins(s) && Received(s, k, s') && InRange(s') && Kept(s.logs, s'.logs) && DeliveriesKept(s, s')
    requires Ticks(At(s.logs, s.msgs[k].from, s.msgs[k].sent), s.msgs[k].from) == s.msgs[k].sent
    requires g != s.msgs[k].to &&
      0 < Ticks(ReceiveClock(s, k), g) == Ticks(At(s.logs, s.msgs[k].from, s.msgs[k].sent), g)
    requires Leq(At(s.logs, s.msgs[k].from, s.msgs[k].sent), ReceiveClock(s, k))
    ensures IsEvent(s'.logs, s.msgs[k].to, |s.logs[s.msgs[k].to]| + 1)
    ensures Origin(s', s.msgs[k].to, |s.logs[s.msgs[k].to]| + 1, g)
  {
    hide Origins;
    var m := s.msgs[k];
    var r, T, c := m.to, |s.logs[m.to]| + 1, ReceiveClock(s, k);
    AppendEvents(s.logs, r, c);
    if g == m.from {
      assert Delivered(s', k) && OriginBy(s', r, T, g, k);
    } else {
      KeptOrigin(s, s', m.from, m.sent, g);
      LaterOrigin(s', m.from, m.sent, r, T, g);
    }
  }

  lemma LoseStep(s: Sys, k: nat, s': Sys)
    requires Good(s) && InFlight(s, k) && s' == Sys(s.logs, s.msgs[k := s.msgs[k].(recv := -1)])
    ensures Good(s')
  {
    hide WellFormed, Origins;
    assert InRange(s');
    forall i | 0 <= i < |s'.msgs| && s'.msgs[i].recv > 0
      ensures Delivered(s', i)
    {
      assert Delivered(s, i);
    }
    assert Kept(s.logs, s'.logs) && DeliveriesKept(s, s');
    forall x: nat, u: nat, g: nat | IsEvent(s'.logs, x, u) && g != x && Ticks(At(s'.logs, x, u), g) > 0
      ensures Origin(s', x, u, g)
    {
      KeptOrigin(s, s', x, u, g);
    }
    OriginsAll(s');
  }

  lemma StepGood(s: Sys, e: Step)
    requires Good(s) && Enabled(s, e)
    ensures Good(Apply(s, e)) && |Apply(s, e).logs| == |s.logs|
  {
    hide Good;
    GoodRange(s);
    var s' := Apply(s, e);
    match e
    case Local(h) =>
      QuietStep(s, h, s');
    case Send(h, to) =>
      QuietStep(s, h, s');
    case Receive(k) =>
      ReceiveStep(s, k, s');
    case Lose(k) =>
      LoseStep(s, k, s');
  }

  lemma GoodRange(s: Sys)
    requires Good(s)
    ensures InRange(s) && forall k :: 0 <= k < |s.msgs| ==> s.msgs[k].to != s.msgs[k].from
  {
  }

  /** No message to the same host that was sent causally earlier is still on its way. */
  ghost predicate InCausalOrder(s: Sys, e: Step)
    requires InRange(s) && Enabled(s, e)
  {
    e.Receive? ==> forall i: nat :: InFlight(s, i) && s.msgs[i].to == s.msgs[e.k].to && i != e.k ==>
                     !Leq(At(s.logs, s.msgs[i].from, s.msgs[i].sent), At(s.logs, s.msgs[e.k].from, s.msgs[e.k].sent))
  }

  /** A run from the start of n hosts through the given states. */
  ghost predicate Run(n: nat, steps: seq<Step>, states: seq<Sys>) {
    && |states| == |steps| + 1 && states[0] == Start(n)
    && (forall i, j :: 0 <= i && j == i + 1 && j < |states| ==>
          InRange(states[i]) && Enabled(states[i], steps[i]) && states[j] == Apply(states[i], steps[i]))
  }

  ghost predicate CausalRun(n: nat, steps: seq<Step>, states: seq<Sys>) {
    && Run(n, steps, states)
    && (forall i :: 0 <= i < |steps| ==>
      InRange(states[i]) && Enabled(states[i], steps[i]) && InCausalOrder(states[i], steps[i]))
  }

  /** Every run gives well-formed logs, real deliveries, and traceable knowledge. */
  lemma {:induction false} RunGood(n: nat, steps: seq<Step>, states: seq<Sys>, i: nat)
    requires Run(n, steps, states) && i < |states|
    ensures Good(states[i]) && |states[i].logs| == n
  {
    hide Good, InRange;
    if i == 0 {
      StartGood(n);
    } else {
      RunGood(n, steps, states, i - 1);
      var was, now := states[i - 1], states[i];
      assert now == Apply(was, steps[i - 1]);
      StepGood(states[i - 1], steps[i - 1]);
    }
  }

  /** A receiver does not yet know of the sends of messages on their way to it. */
  ghost predicate Unheard(s: Sys) {
    && InRange(s)
    && (forall k: nat :: InFlight(s, k) ==>
      Ticks(At(s.logs, s.msgs[k].to, |s.logs[s.msgs[k].to]|), s.msgs[k].from) < s.msgs[k].sent)
    && (forall k: nat :: k < |s.msgs| && s.msgs[k].recv > 0 ==> News(s, k))
  }

  lemma HappenedBefore(logs: Logs, g: nat, k: nat, h: nat, t: nat)
    requires WellFormed(logs) && IsEvent(logs, g, k) && IsEvent(logs, h, t)
    ensures Leq(At(logs, g, k), At(logs, h, t)) <==> k <= Ticks(At(logs, h, t), g)
  {
    if k <= Ticks(At(logs, h, t), g) {
      assert KnownEvent(logs, h, t, g);
      LeqTrans(At(logs, g, k), At(logs, g, Ticks(At(logs, h, t), g)), At(logs, h, t));
    }
  }

  lemma CausalStep(s: Sys, e: Step)
    requires Good(s) && Unheard(s) && Enabled(s, e) && InCausalOrder(s, e)
    ensures Unheard(Apply(s, e))
  {
    hide Good, Unheard;
    GoodRange(s);
    StepGood(s, e);
    var s' := Apply(s, e);
    match e
    case Local(h) =>
      UnheardQuiet(s, h, s');
    case Send(h, to) =>
      UnheardQuiet(s, h, s');
    case Receive(k) =>
      UnheardReceive(s, k, s');
    case Lose(k) =>
      UnheardLose(s, k, s');
  }

  lemma UnheardLose(s: Sys, k: nat, s': Sys)
    requires Unheard(s) && InFlight(s, k) && s' == Sys(s.logs, s.msgs[k := s.msgs[k].(recv := -1)]) && InRange(s')
    ensures Unheard(s')
  {
    forall i: nat | i < |s'.msgs| && s'.msgs[i].recv > 0
      ensures News(s', i)
    {
      assert News(s, i);
    }
    assert forall i: nat :: InFlight(s', i) ==> InFlight(s, i);
  }

  lemma UnheardQuiet(s: Sys, h: nat, s': Sys)
    requires Good(s) && Unheard(s) && InRange(s') && Quiet(s, h, s')
    ensures Unheard(s')
  {
    hide Origins, Monotone;
    NextMayFollow(s, h);
    AppendEvents(s.logs, h, NextClock(s.logs, h));
    forall i | 0 <= i < |s.msgs|
      ensures s'.msgs[i] == s.msgs[i]
    {
      assert s'.msgs[..|s.msgs|][i] == s.msgs[i];
    }
    forall i: nat | InFlight(s', i)
      ensures Ticks(At(s'.logs, s'.msgs[i].to, |s'.logs[s'.msgs[i].to]|), s'.msgs[i].from) < s'.msgs[i].sent
    {
      if i < |s.msgs| {
        assert InFlight(s, i) && s.msgs[i].to != s.msgs[i].from;
      } else {
        var r := s'.msgs[i].to;
        assert Ticks(At(s.logs, r, |s.logs[r]|), h) > 0 ==> KnownEvent(s.logs, r, |s.logs[r]|, h);
      }
    }
    forall i: nat | i < |s'.msgs| && s'.msgs[i].recv > 0
      ensures News(s', i)
    {
      assert News(s, i);
    }
  }

  lemma UnheardReceive(s: Sys, k: nat, s': Sys)
    requires Good(s) && Unheard(s) && InRange(s') && Received(s, k, s') && InCausalOrder(s, Receive(k))
    ensures Unheard(s')
  {
    hide Good;
    forall i: nat | InFlight(s', i)
      ensures Ticks(At(s'.logs, s'.msgs[i].to, |s'.logs[s'.msgs[i].to]|), s'.msgs[i].from) < s'.msgs[i].sent
    {
      StillUnheard(s, k, s', i);
    }
    forall i: nat | i < |s'.msgs| && s'.msgs[i].recv > 0
      ensures News(s', i)
    {
      ReceivedIsNews(s, k, s', i);
    }
  }

  lemma StillUnheard(s: Sys, k: nat, s': Sys, i: nat)
    requires Good(s) && Unheard(s) && InRange(s') && Received(s, k, s') && InCausalOrder(s, Receive(k)) &&
      InFlight(s', i)
    ensures Ticks(At(s'.logs, s'.msgs[i].to, |s'.logs[s'.msgs[i].to]|), s'.msgs[i].from) < s'.msgs[i].sent
  {
    hide Origins, Monotone, CausallyClosed;
    var m := s.msgs[k];
    NextMayFollow(s, m.to);
    AppendEvents(s.logs, m.to, ReceiveClock(s, k));
    assert InFlight(s, i) && i != k && s.msgs[i].to != s.msgs[i].from;
    if s.msgs[i].to == m.to {
      HappenedBefore(s.logs, s.msgs[i].from, s.msgs[i].sent, m.from, m.sent);
    }
  }

  lemma ReceivedIsNews(s: Sys, k: nat, s': Sys, i: nat)
    requires Good(s) && Unheard(s) && InRange(s') && Received(s, k, s') && i < |s'.msgs| && s'.msgs[i].recv > 0
    ensures News(s', i)
  {
    hide Origins, Monotone, CausallyClosed;
    var m := s.msgs[k];
    var c := ReceiveClock(s, k);
    NextMayFollow(s, m.to);
    AppendEvents(s.logs, m.to, c);
    if i == k {
      assert Leq(At(s.logs, m.from, m.sent), c);
      assert Ticks(At(s.logs, m.from, m.sent), m.from) == m.sent;
    } else {
      assert News(s, i);
    }
  }

  /** In causally ordered runs every received message is news to its receiver. */
  lemma {:induction false} CausalRunUnheard(n: nat, steps: seq<Step>, states: seq<Sys>, i: nat)
    requires CausalRun(n, steps, states) && i < |states|
    ensures Good(states[i]) && Unheard(states[i])
  {
    RunGood(n, steps, states, i);
    if i == 0 {
      assert states[0].msgs == [];
    } else {
      hide Good, Unheard, InRange;
      CausalRunUnheard(n, steps, states, i - 1);
      var was, now := states[i - 1], states[i];
      assert now == Apply(was, steps[i - 1]);
      CausalStep(states[i - 1], steps[i - 1]);
    }
  }
}
