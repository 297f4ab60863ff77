/** With nothing lost every host of the mutual exclusion example can take all its turns; without resends a lost request
    blocks its host for good. */
module Turns {
  import opened RicartAgrawala
  import opened Resends

  /** Nobody wants anything, and host g has had turns[g] turns. */
  ghost predicate Resting(s: System, turns: seq<nat>) {
    |s.hosts| == |turns| && GoneOk(s) && forall g :: 0 <= g < |turns| ==> Idle(s.hosts[g], turns[g])
  }

  /** Host h asks, gets the oks of all others, enters and leaves. */
  lemma OneTurn(s: System, turns: seq<nat>, h: nat) returns (steps: seq<Step>)
    requires Resting(s, turns) && h < |turns| && turns[h] != s.plan
    ensures CanRun(s, steps)
    ensures var s' := Run(s, steps); Resting(s', turns[h := turns[h] + 1]) && s'.plan == s.plan
  {
    steps := Ask(s, h);
    var s1 := Run(s, steps);
    hide CanRun, Run;
    forall t: nat | t < |turns| - 1
      ensures Pending(s1, h, |s.net|, t)
    {
      assert Idle(s.hosts[Dest(h, t)], turns[Dest(h, t)]);
    }
    hide Pending;
    var more := Collect(s1, h, |s.net|, 0);
    RunSplits(s, steps, more);
    steps := steps + more;
    var s2 := Run(s, steps);
    assert forall g :: 0 <= g < |turns| ==> SameRole(s1.hosts[g], s2.hosts[g]);
    EnterAndExit(s2, turns, h);
    RunSplits(s, steps, [Enter(h), Exit(h)]);
    steps := steps + [Enter(h), Exit(h)];
  }

  lemma EnterAndExit(s: System, turns: seq<nat>, h: nat)
    requires |s.hosts| == |turns| && h < |turns| && GoneOk(s) && Waiting(s.hosts[h], turns[h])
    requires forall g :: 0 <= g < |turns| && g != h ==> Idle(s.hosts[g], turns[g])
    requires forall b: nat :: b in s.hosts[h].okays <==> b < |s.hosts| && b != h
    ensures CanRun(s, [Enter(h), Exit(h)])
    ensures var s' := Run(s, [Enter(h), Exit(h)]); Resting(s', turns[h := turns[h] + 1]) && s'.plan == s.plan
  {
    AllOks(s, h);
    TwoSteps(s, Enter(h), Exit(h));
    hide CanRun, Run;
  }

  /** Host g takes t turns, after those before it have taken all of theirs. */
  function SoFar(n: nat, plan: nat, g: nat, t: nat): seq<nat> {
    seq(n, i => if i < g then plan else if i == g then t else 0)
  }

  lemma {:induction false} TakeTurns(n: nat, plan: nat, g: nat, t: nat) returns (steps: seq<Step>)
    requires g < n && t <= plan
    ensures CanRun(Start(n, plan), steps)
    ensures var s := Run(Start(n, plan), steps); Resting(s, SoFar(n, plan, g, t)) && s.plan == plan
    decreases g, t
  {
    if t > 0 {
      steps := TakeTurns(n, plan, g, t - 1);
      var s := Run(Start(n, plan), steps);
      hide CanRun, Run, Resting;
      var turns := SoFar(n, plan, g, t - 1);
      var more := OneTurn(s, turns, g);
      assert turns[g := t] == SoFar(n, plan, g, t);
      RunSplits(Start(n, plan), steps, more);
      steps := steps + more;
    } else if g > 0 {
      steps := TakeTurns(n, plan, g - 1, plan);
      assert SoFar(n, plan, g - 1, plan) == SoFar(n, plan, g, 0);
    } else {
      steps := [];
    }
  }

  /** In some run every host takes all its turns, and then each may finish. */
  lemma AllTurns(n: nat, plan: nat) returns (steps: seq<Step>)
    ensures CanRun(Start(n, plan), steps)
    ensures var s := Run(Start(n, plan), steps);
      |s.hosts| == n && forall h :: 0 <= h < n ==> s.hosts[h].criticals == plan && Enabled(s, Finish(h))
  {
    if n == 0 {
      steps := [];
    } else {
      steps := TakeTurns(n, plan, n - 1, plan);
      var s := Run(Start(n, plan), steps);
      hide CanRun, Run;
      forall h | 0 <= h < n
        ensures s.hosts[h].criticals == plan && Enabled(s, Finish(h))
      {
        assert Idle(s.hosts[h], SoFar(n, plan, n - 1, plan)[h]);
      }
    }
  }

  // ----- why resends are needed -----

  /** Host a waits, and neither its request to b nor the answer is anywhere. */
  ghost predicate Lacks(s: System, a: nat, b: nat) {
    a < |s.hosts| && b < |s.hosts| && a != b && s.hosts[a].crit && forall x :: !At(s, a, b, x)
  }

  /** No step but a resend makes a token of a host that has its request out. */
  lemma NoNewToken(s: System, e: Step, a: nat, b: nat, x: Place)
    requires Inv(s) && Enabled(s, e) && !e.Resend? && Lacks(s, a, b)
    ensures !At(Apply(s, e), a, b, x)
  {
    assert HostOk(s, a) && HostOk(s, b);
    assert !At(s, a, b, Hold) && !At(s, a, b, Grant) && !At(s, a, b, Slot(a)) && !At(s, a, b, Slot(b));
    assert !At(s, a, b, x);
    if e.Deliver? { assert !At(s, a, b, Packet(e.k)); }
    hide Inv;
    if e.Process? {
      NoneByProcess(s, e.h, a, b, x);
    }
  }

  /** The only oks that processing makes answer a message just read. */
  lemma NoneByProcess(s: System, h: nat, a: nat, b: nat, x: Place)
    requires Enabled(s, Process(h)) && a < |s.hosts| && HostOk(s, a) && b < |s.hosts| && HostOk(s, b) && a != b
    requires !At(s, a, b, Hold) && !At(s, a, b, Grant) && !At(s, a, b, Slot(a)) && !At(s, a, b, Slot(b))
    requires !At(s, a, b, x)
    ensures !At(Apply(s, Process(h)), a, b, x)
  {
    var t := ProcessMessage(s, h);
    assert |s.net| <= |t.net| && t.net[..|s.net|] == s.net;
  }

  lemma LacksStays(s: System, e: Step, a: nat, b: nat)
    requires Inv(s) && Enabled(s, e) && !e.Resend? && Lacks(s, a, b)
    ensures Lacks(Apply(s, e), a, b)
  {
    forall x
      ensures !At(Apply(s, e), a, b, x)
    {
      NoNewToken(s, e, a, b, x);
    }
    assert HostOk(s, a) && !At(s, a, b, Grant);
    hide Inv;
  }

  lemma {:induction false} LacksForever(s: System, steps: seq<Step>, a: nat, b: nat)
    requires Inv(s) && CanRun(s, steps) && Lacks(s, a, b) && forall i :: 0 <= i < |steps| ==> !steps[i].Resend?
    ensures var t := Run(s, steps); a < |t.hosts| && !t.hosts[a].inCritical
    decreases |steps|
  {
    if steps == [] {
      assert HostOk(s, a) && !At(s, a, b, Grant);
    } else {
      LacksStays(s, steps[0], a, b);
      StepInv(s, steps[0]);
      hide Inv, Lacks, Apply, Enabled;
      LacksForever(Apply(s, steps[0]), steps[1..], a, b);
    }
  }

  /** A lost request blocks its host for good unless something is resent, with any number of hosts. */
  lemma LossBlocks(n: nat, plan: nat, rest: seq<Step>)
    requires n >= 2 && plan >= 1
    ensures CanRun(Start(n, plan), [Request(0), Lose(0)])
    ensures var s := Run(Start(n, plan), [Request(0), Lose(0)]);
      CanRun(s, rest) && (forall i :: 0 <= i < |rest| ==> !rest[i].Resend?) ==>
        var t := Run(s, rest); 0 < |t.hosts| && !t.hosts[0].inCritical
  {
    var start := Start(n, plan);
    var s1 := Apply(start, Request(0));
    var s := Apply(s1, Lose(0));
    TwoSteps(start, Request(0), Lose(0));
    StartInv(n, plan);
    StepInv(start, Request(0));
    StepInv(s1, Lose(0));
    assert s.net == Broadcast(start, 0, Critical);
    forall x
      ensures !At(s, 0, 1, x)
    {
    }
    assert Lacks(s, 0, 1);
    if CanRun(s, rest) && forall i :: 0 <= i < |rest| ==> !rest[i].Resend? {
      LacksForever(s, rest, 0, 1);
    }
  }
}
