/** What a resend that is not due can lead to, with any number of hosts. */
module Resends {
  import opened Finite
  import opened RicartAgrawala

  lemma {:induction false} RunSplits(s: System, first: seq<Step>, rest: seq<Step>)
    requires CanRun(s, first) && CanRun(Run(s, first), rest)
    ensures CanRun(s, first + rest) && Run(s, first + rest) == Run(Run(s, first), rest)
    decreases |first|
  {
    if first == [] {
      assert first + rest == rest;
    } else {
      assert (first + rest)[1..] == first[1..] + rest;
      hide Apply, Enabled;
      RunSplits(Apply(s, first[0]), first[1..], rest);
    }
  }

  lemma OneStep(s: System, e: Step)
    requires Enabled(s, e)
    ensures CanRun(s, [e]) && Run(s, [e]) == Apply(s, e)
  {
    hide Apply, Enabled;
    assert CanRun(Apply(s, e), []);
  }

  /** Two steps that can be taken one after the other. */
  lemma TwoSteps(s: System, e: Step, f: Step)
    requires Enabled(s, e) && Enabled(Apply(s, e), f)
    ensures CanRun(s, [e, f]) && Run(s, [e, f]) == Apply(Apply(s, e), f)
  {
    OneStep(s, e);
    OneStep(Apply(s, e), f);
    RunSplits(s, [e], [f]);
    assert [e] + [f] == [e, f];
  }

  /** The host behind number i of h's broadcast. */
  function Dest(h: nat, i: nat): nat { if i < h then i else i + 1 }

  /** A host goes on with what it was doing; it may have read and answered messages. */
  predicate SameRole(me: Host, me': Host) {
    && me'.crit == me.crit && me'.finishing == me.finishing && me'.inCritical == me.inCritical
    && me'.criticals == me.criticals && me'.outstanding == me.outstanding
  }

  predicate SameRoles(s: System, s': System) {
    && |s'.hosts| == |s.hosts| && s'.plan == s.plan && s.net <= s'.net
    && (forall g :: 0 <= g < |s.hosts| ==> SameRole(s.hosts[g], s'.hosts[g]))
    && ((forall k :: k in s.gone ==> k < |s.net|) ==> forall k :: k in s'.gone ==> k < |s'.net|)
  }

  /** Number i of h's broadcast, sent from packet base on, is on its way to a host that wants nothing. */
  predicate Pending(s: System, h: nat, base: nat, i: nat) {
    && InFlight(s, base + i) && Dest(h, i) < |s.hosts| && Wants(s.net[base + i], h, Dest(h, i))
    && !s.hosts[Dest(h, i)].crit && !s.hosts[Dest(h, i)].inCritical
  }

  predicate Wants(m: Message, h: nat, to: nat) {
    m.body == Critical && m.sender == h && m.dest == to
  }

  /** A host that wants nothing reads the request in packet k and answers with the next packet. */
  lemma Answer(s: System, k: nat, h: nat, to: nat) returns (steps: seq<Step>)
    requires InFlight(s, k) && to < |s.hosts| && Wants(s.net[k], h, to) && !s.hosts[to].crit && !s.hosts[to].inCritical
    ensures CanRun(s, steps)
    ensures var s' := Run(s, steps);
      && SameRoles(s, s') && |s'.net| == |s.net| + 1 && OkOf(s'.net[|s.net|], to, h) && s'.gone == s.gone + {k}
      && (forall g :: 0 <= g < |s.hosts| ==> s'.hosts[g].okays == s.hosts[g].okays)
  {
    steps := [Deliver(k), Process(to)];
    TwoSteps(s, Deliver(k), Process(to));
    hide CanRun, Run;
  }

  predicate OkOf(m: Message, from: nat, to: nat) {
    m.body == Ok && m.sender == from && m.dest == to
  }

  /** A host reads the ok in packet k. */
  lemma Accept(s: System, k: nat, h: nat, from: nat) returns (steps: seq<Step>)
    requires InFlight(s, k) && h < |s.hosts| && OkOf(s.net[k], from, h) && !s.hosts[h].inCritical
    ensures CanRun(s, steps)
    ensures var s' := Run(s, steps);
      && SameRoles(s, s') && s'.net == s.net && s'.gone == s.gone + {k}
      && s'.hosts[h].okays == s.hosts[h].okays + {from}
      && (forall g :: 0 <= g < |s.hosts| && g != h ==> s'.hosts[g].okays == s.hosts[g].okays)
  {
    steps := [Deliver(k), Process(h)];
    TwoSteps(s, Deliver(k), Process(h));
    hide CanRun, Run;
  }

  lemma RolesTrans(a: System, b: System, c: System)
    requires SameRoles(a, b) && SameRoles(b, c)
    ensures SameRoles(a, c)
  {
    forall g | 0 <= g < |a.hosts|
      ensures SameRole(a.hosts[g], c.hosts[g])
    {
      assert SameRole(a.hosts[g], b.hosts[g]) && SameRole(b.hosts[g], c.hosts[g]);
    }
  }

  /** Number i of h's broadcast is answered and the answer read. */
  lemma Serve(s: System, h: nat, base: nat, i: nat) returns (steps: seq<Step>)
    requires h < |s.hosts| && !s.hosts[h].inCritical && Pending(s, h, base, i)
    requires forall k :: k in s.gone ==> k < |s.net|
    ensures CanRun(s, steps)
    ensures var s' := Run(s, steps);
      && SameRoles(s, s') && s'.gone == s.gone + {base + i, |s.net|}
      && s'.hosts[h].okays == s.hosts[h].okays + {Dest(h, i)}
      && (forall g :: 0 <= g < |s.hosts| && g != h ==> s'.hosts[g].okays == s.hosts[g].okays)
  {
    var to := Dest(h, i);
    var first := Answer(s, base + i, h, to);
    hide CanRun, Run;
    var s1 := Run(s, first);
    assert SameRole(s.hosts[h], s1.hosts[h]);
    var second := Accept(s1, |s.net|, h, to);
    RunSplits(s, first, second);
    steps := first + second;
    RolesTrans(s, s1, Run(s, steps));
  }

  /** Requests i and following of h's broadcast are answered and the answers read. */
  lemma {:induction false} Collect(s: System, h: nat, base: nat, i: nat) returns (steps: seq<Step>)
    requires h < |s.hosts| && !s.hosts[h].inCritical && i <= |s.hosts| - 1 && base + |s.hosts| - 1 <= |s.net|
    requires forall t: nat :: i <= t < |s.hosts| - 1 ==> Pending(s, h, base, t)
    requires forall k :: k in s.gone ==> k < |s.net|
    ensures CanRun(s, steps) && SameRoles(s, Run(s, steps)) && Collected(s, Run(s, steps), h, base, i)
    decreases |s.hosts| - i
  {
    if i == |s.hosts| - 1 {
      steps := [];
    } else {
      assert Pending(s, h, base, i);
      hide CanRun, Run, Pending, Collected;
      var first := Serve(s, h, base, i);
      var s2 := Run(s, first);
      assert SameRole(s.hosts[h], s2.hosts[h]);
      StillPending(s, s2, h, base, i);
      var rest := Collect(s2, h, base, i + 1);
      RunSplits(s, first, rest);
      steps := first + rest;
      RolesTrans(s, s2, Run(s, steps));
      CollectedMore(s, s2, Run(s, steps), h, base, i);
    }
  }

  /** h has the oks of the hosts behind i and following; other packets are where they were. */
  ghost predicate Collected(s: System, s': System, h: nat, base: nat, i: nat)
    requires h < |s.hosts| == |s'.hosts|
  {
    && (forall b: nat :: b in s'.hosts[h].okays <==> b in s.hosts[h].okays || Answering(|s.hosts|, h, i, b))
    && (forall g :: 0 <= g < |s.hosts| && g != h ==> s'.hosts[g].okays == s.hosts[g].okays)
    && (forall k: nat :: k < |s.net| ==> (k in s'.gone <==> k in s.gone || base + i <= k < base + |s.hosts| - 1))
  }

  /** b is one of the hosts behind i and following. */
  predicate Answering(n: nat, h: nat, i: nat, b: nat) {
    b < n && b != h && i <= if b < h then b else b - 1
  }

  lemma StillPending(s: System, s': System, h: nat, base: nat, i: nat)
    requires h < |s.hosts| && SameRoles(s, s') && base + |s.hosts| - 1 <= |s.net|
    requires s'.gone == s.gone + {base + i, |s.net|}
    requires forall t: nat :: i <= t < |s.hosts| - 1 ==> Pending(s, h, base, t)
    ensures forall t: nat :: i + 1 <= t < |s.hosts| - 1 ==> Pending(s', h, base, t)
  {
    forall t: nat | i + 1 <= t < |s.hosts| - 1
      ensures Pending(s', h, base, t)
    {
      assert Pending(s, h, base, t);
      assert SameRole(s.hosts[Dest(h, t)], s'.hosts[Dest(h, t)]);
      assert s'.net[base + t] == s.net[base + t];
    }
  }

  lemma CollectedMore(s: System, s2: System, s': System, h: nat, base: nat, i: nat)
    requires h < |s.hosts| == |s2.hosts| == |s'.hosts| && i < |s.hosts| - 1 && |s.net| <= |s2.net|
    requires s2.hosts[h].okays == s.hosts[h].okays + {Dest(h, i)} && s2.gone == s.gone + {base + i, |s.net|}
    requires forall g :: 0 <= g < |s.hosts| && g != h ==> s2.hosts[g].okays == s.hosts[g].okays
    requires Collected(s2, s', h, base, i + 1)
    ensures Collected(s, s', h, base, i)
  {
  }

  predicate Idle(me: Host, criticals: nat) {
    !me.crit && !me.inCritical && !me.finishing && me.criticals == criticals
  }

  predicate Waiting(me: Host, criticals: nat) {
    me.crit && !me.inCritical && !me.finishing && me.criticals == criticals && me.outstanding == []
  }

  predicate GoneOk(s: System) {
    forall k :: k in s.gone ==> k < |s.net|
  }

  /** A new request is on its way to all hosts; those that want nothing will answer it. */
  lemma Ask(s: System, h: nat) returns (steps: seq<Step>)
    requires h < |s.hosts| && Idle(s.hosts[h], s.hosts[h].criticals) && s.hosts[h].criticals != s.plan && GoneOk(s)
    ensures CanRun(s, steps)
    ensures var s' := Run(s, steps);
      && |s'.hosts| == |s.hosts| && s'.plan == s.plan && s.net <= s'.net && |s'.net| == |s.net| + |s.hosts| - 1 &&
        s'.gone == s.gone
      && Waiting(s'.hosts[h], s.hosts[h].criticals) && s'.hosts[h].okays == {}
      && (forall g :: 0 <= g < |s.hosts| && g != h ==> s'.hosts[g] == s.hosts[g])
      && (forall t: nat :: t < |s.hosts| - 1 && !s.hosts[Dest(h, t)].crit && !s.hosts[Dest(h, t)].inCritical ==>
            Pending(s', h, |s.net|, t))
  {
    steps := [Request(h)];
    OneStep(s, Request(h));
    var s' := Run(s, steps);
    hide CanRun, Run;
    forall t: nat | t < |s.hosts| - 1
      ensures InFlight(s', |s.net| + t) && Wants(s'.net[|s.net| + t], h, Dest(h, t))
    {
      assert s'.net[|s.net| + t] == Broadcast(s, h, Critical)[t];
    }
  }

  /** A host with the oks of all others may enter. */
  lemma AllOks(s: System, h: nat)
    requires h < |s.hosts| && s.hosts[h].crit && !s.hosts[h].inCritical
    requires forall b: nat :: b in s.hosts[h].okays <==> b < |s.hosts| && b != h
    ensures Enabled(s, Enter(h))
  {
    assert s.hosts[h].okays == NatsBelow(|s.hosts|) - {h};
    assert |NatsBelow(|s.hosts|) - {h}| == |s.hosts| - 1;
  }

  /** Host 0 asks twice for its first turn. */
  lemma AskedTwice(n: nat, plan: nat) returns (steps: seq<Step>)
    requires n >= 2 && plan >= 2
    ensures CanRun(Start(n, plan), steps)
    ensures var s := Run(Start(n, plan), steps);
      && |s.hosts| == n && s.plan == plan && s.gone == {} && Waiting(s.hosts[0], 0) && s.hosts[0].okays == {}
      && (forall g :: 0 < g < n ==> Idle(s.hosts[g], 0))
      && |s.net| == n && Wants(s.net[n - 1], 0, 1) && (forall t: nat :: t < n - 1 ==> Pending(s, 0, 0, t))
  {
    var start := Start(n, plan);
    var ask := Ask(start, 0);
    var s1 := Run(start, ask);
    OneStep(s1, Resend(0, 1));
    RunSplits(start, ask, [Resend(0, 1)]);
    hide CanRun, Run;
    steps := ask + [Resend(0, 1)];
    forall t: nat | t < n - 1
      ensures Pending(Run(start, steps), 0, 0, t)
    {
      assert Pending(s1, 0, 0, t);
    }
  }

  /** Host 1 answers the repeated request: one ok too many is on its way. */
  lemma AnsweredTwice(n: nat, plan: nat) returns (steps: seq<Step>)
    requires n >= 2 && plan >= 2
    ensures CanRun(Start(n, plan), steps)
    ensures var s := Run(Start(n, plan), steps);
      && |s.hosts| == n && s.plan == plan && GoneOk(s) && Waiting(s.hosts[0], 0) && s.hosts[0].okays == {}
      && (forall g :: 0 < g < n ==> Idle(s.hosts[g], 0))
      && |s.net| == n + 1 && n !in s.gone && OkOf(s.net[n], 1, 0) &&
        (forall t: nat :: t < n - 1 ==> Pending(s, 0, 0, t))
  {
    var start := Start(n, plan);
    steps := AskedTwice(n, plan);
    hide CanRun, Run;
    var s2 := Run(start, steps);
    var more := Answer(s2, n - 1, 0, 1);
    RunSplits(start, steps, more);
    steps := steps + more;
    var s3 := Run(start, steps);
    assert forall g :: 0 <= g < n ==> SameRole(s2.hosts[g], s3.hosts[g]);
    forall t: nat | t < n - 1
      ensures Pending(s3, 0, 0, t)
    {
      assert Pending(s2, 0, 0, t);
      assert s3.net[t] == s2.net[t];
    }
  }

  /** It takes its turn and leaves that ok on its way. */
  lemma SpareOk(n: nat, plan: nat) returns (steps: seq<Step>)
    requires n >= 2 && plan >= 2
    ensures CanRun(Start(n, plan), steps)
    ensures var s := Run(Start(n, plan), steps);
      && |s.hosts| == n && s.plan == plan && GoneOk(s) && Idle(s.hosts[0], 1) &&
        (forall g :: 0 < g < n ==> Idle(s.hosts[g], 0))
      && n < |s.net| && n !in s.gone && OkOf(s.net[n], 1, 0)
  {
    var start := Start(n, plan);
    steps := AnsweredTwice(n, plan);
    var s1 := Run(start, steps);
    var more := Collect(s1, 0, 0, 0);
    RunSplits(start, steps, more);
    steps := steps + more;
    var s2 := Run(start, steps);
    hide CanRun, Run;
    assert forall g :: 0 <= g < n ==> SameRole(s1.hosts[g], s2.hosts[g]);
    AllOks(s2, 0);
    TwoSteps(s2, Enter(0), Exit(0));
    RunSplits(start, steps, [Enter(0), Exit(0)]);
    steps := steps + [Enter(0), Exit(0)];
    assert s2.net[n] == s1.net[n];
  }

  /** Host 1 then gets all oks, host 0's among them, and enters. */
  lemma OneEnters(n: nat, plan: nat) returns (steps: seq<Step>)
    requires n >= 2 && plan >= 2
    ensures CanRun(Start(n, plan), steps)
    ensures var s := Run(Start(n, plan), steps);
      && |s.hosts| == n && s.plan == plan && GoneOk(s) && Idle(s.hosts[0], 1) && s.hosts[1].inCritical
      && (forall g :: 1 < g < n ==> Idle(s.hosts[g], 0)) && n < |s.net| && n !in s.gone && OkOf(s.net[n], 1, 0)
  {
    var start := Start(n, plan);
    steps := SpareOk(n, plan);
    var s0 := Run(start, steps);
    var ask := Ask(s0, 1);
    RunSplits(start, steps, ask);
    steps := steps + ask;
    var s1 := Run(start, steps);
    hide CanRun, Run;
    assert forall t: nat :: t < n - 1 ==> Pending(s1, 1, |s0.net|, t);
    var more := Collect(s1, 1, |s0.net|, 0);
    RunSplits(start, steps, more);
    steps := steps + more;
    var s2 := Run(start, steps);
    assert forall g :: 0 <= g < n ==> SameRole(s1.hosts[g], s2.hosts[g]);
    AllOks(s2, 1);
    OneStep(s2, Enter(1));
    RunSplits(start, steps, [Enter(1)]);
    steps := steps + [Enter(1)];
    assert s2.net[n] == s1.net[n] == s0.net[n];
  }

  /** Host 0 asks again and gets the oks of all but host 1. */
  lemma ZeroAsks(n: nat, plan: nat) returns (steps: seq<Step>)
    requires n >= 2 && plan >= 2
    ensures CanRun(Start(n, plan), steps)
    ensures var s := Run(Start(n, plan), steps);
      && |s.hosts| == n && Waiting(s.hosts[0], 1) && s.hosts[1].inCritical
      && (forall b: nat :: b in s.hosts[0].okays <==> 2 <= b < n) && InFlight(s, n) && OkOf(s.net[n], 1, 0)
  {
    var start := Start(n, plan);
    steps := OneEnters(n, plan);
    hide CanRun, Run;
    var s0 := Run(start, steps);
    var ask := Ask(s0, 0);
    RunSplits(start, steps, ask);
    steps := steps + ask;
    var s1 := Run(start, steps);
    forall t: nat | 1 <= t < n - 1
      ensures Pending(s1, 0, |s0.net|, t)
    {
      assert Idle(s0.hosts[Dest(0, t)], 0);
    }
    hide Pending;
    var more := Collect(s1, 0, |s0.net|, 1);
    RunSplits(start, steps, more);
    steps := steps + more;
    var s2 := Run(start, steps);
    assert SameRole(s1.hosts[0], s2.hosts[0]) && SameRole(s1.hosts[1], s2.hosts[1]);
    assert s2.net[n] == s1.net[n] == s0.net[n];
  }

  /** The resend of checkTimeout, made while the request is still on its way, breaks the guarantee with any number of
      hosts: the extra ok is counted for a later request. */
  lemma ResendBreaksExclusion(n: nat, plan: nat) returns (steps: seq<Step>)
    requires n >= 2 && plan >= 2
    ensures CanRun(Start(n, plan), steps)
    ensures var s := Run(Start(n, plan), steps); |s.hosts| == n && s.hosts[0].inCritical && s.hosts[1].inCritical
  {
    var start := Start(n, plan);
    steps := ZeroAsks(n, plan);
    hide CanRun, Run;
    var s2 := Run(start, steps);
    var last := Accept(s2, n, 0, 1);
    RunSplits(start, steps, last);
    steps := steps + last;
    var s3 := Run(start, steps);
    assert SameRole(s2.hosts[0], s3.hosts[0]) && SameRole(s2.hosts[1], s3.hosts[1]);
    AllOks(s3, 0);
    OneStep(s3, Enter(0));
    RunSplits(start, steps, [Enter(0)]);
    steps := steps + [Enter(0)];
  }

  /** No two hosts are in the critical section. */
  ghost predicate Exclusive(s: System) {
    forall a, b :: 0 <= a < b < |s.hosts| ==> !(s.hosts[a].inCritical && s.hosts[b].inCritical)
  }

  /** With at most one turn each, every resend is due. */
  lemma {:induction false} OneTurnIsDue(s: System, steps: seq<Step>)
    requires Inv(s) && s.plan < 2 && CanRun(s, steps)
    ensures DueResends(s, steps)
    decreases |steps|
  {
    if steps != [] {
      var e := steps[0];
      if e.Resend? {
        assert HostOk(s, e.h);
      }
      assert Due(s, e);
      StepInv(s, e);
      assert Apply(s, e).plan == s.plan;
      OneTurnIsDue(Apply(s, e), steps[1..]);
    }
  }

  /** Whatever is lost, delayed or resent, and however early: the hosts exclude each other in every run exactly when
      there is only one of them or each has at most one turn. */
  lemma ExclusionExactly(n: nat, plan: nat)
    ensures (forall steps :: CanRun(Start(n, plan), steps) ==> Exclusive(Run(Start(n, plan), steps))) <==>
      n < 2 || plan < 2
  {
    var start := Start(n, plan);
    if n < 2 || plan < 2 {
      forall steps | CanRun(start, steps)
        ensures Exclusive(Run(start, steps))
      {
        FewExclude(n, plan, steps);
      }
    } else {
      var steps := ResendBreaksExclusion(n, plan);
      var s := Run(start, steps);
      assert s.hosts[0].inCritical && s.hosts[1].inCritical;
      assert !Exclusive(s);
    }
  }

  lemma FewExclude(n: nat, plan: nat, steps: seq<Step>)
    requires (n < 2 || plan < 2) && CanRun(Start(n, plan), steps)
    ensures Exclusive(Run(Start(n, plan), steps))
  {
    if n < 2 {
      HostsStay(Start(n, plan), steps);
    } else {
      StartInv(n, plan);
      OneTurnIsDue(Start(n, plan), steps);
      HostsStay(Start(n, plan), steps);
      hide Inv, CanRun, Run, DueResends;
      forall a, b | 0 <= a < b < n
        ensures !(Run(Start(n, plan), steps).hosts[a].inCritical && Run(Start(n, plan), steps).hosts[b].inCritical)
      {
        MutualExclusion(n, plan, steps, a, b);
      }
    }
  }

  lemma {:induction false} HostsStay(s: System, steps: seq<Step>)
    requires CanRun(s, steps)
    ensures |Run(s, steps).hosts| == |s.hosts|
    decreases |steps|
  {
    if steps != [] {
      assert |Apply(s, steps[0]).hosts| == |s.hosts|;
      HostsStay(Apply(s, steps[0]), steps[1..]);
    }
  }
}
