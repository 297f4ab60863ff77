/** Dining philosophers in a ring: each chopstick is one token, whatever is lost, late or timed out. */
module Dining {

  /** Where a philosopher is in dine: PuttingBack is past a timeout, Finishing has put its own stick back. */
  datatype Phase = Thinking | Hungry | Waiting | PuttingBack | Eating | Finishing

  /** One call of getChopsticks: its request goroutine and the channel it fills. */
  datatype Attempt = Asking | Reading | Full | Over

  /** A philosopher and the server of its chopstick.
      The counts are requests and releases on their way to the server, handlers blocked on an empty channel,
      handlers that hold the stick before they send the ack, acks on their way to the philosopher that asks here,
      handlers about to fill the channel, and messages lost that stood for the stick. */
  datatype Philosopher = Philosopher(
    phase: Phase, attempts: seq<Attempt>, stick: bool, requests: nat, waiting: nat, giving: nat, acks: nat,
    releases: nat, putting: nat, lost: nat)

  type Table = seq<Philosopher>

  datatype Step =
    | GetHungry(i: nat) | Take(i: nat) | Ask(i: nat, k: nat) | ReadAck(i: nat, k: nat) | ReadError(i: nat, k: nat)
    | Grab(i: nat) | TimeOut(i: nat) | PutBack(i: nat) | ReturnOwn(i: nat) | Release(i: nat)
    | AcceptRequest(i: nat) | Give(i: nat) | SendAck(i: nat) | AcceptRelease(i: nat) | Put(i: nat)
    | LoseRequest(i: nat) | LoseAck(i: nat) | LoseRelease(i: nat)

  function Start(n: nat): Table {
    seq(n, _ => Philosopher(Thinking, [], true, 0, 0, 0, 0, 0, 0, 0))
  }

  /** The philosopher that i asks. */
  function Neighbour(n: nat, i: nat): (r: nat)
    requires i < n
    ensures r < n
  {
    if i + 1 == n then 0 else i + 1
  }

  /** The philosopher that asks j. */
  function Asker(n: nat, j: nat): (r: nat)
    requires j < n
    ensures r < n && Neighbour(n, r) == j && forall i :: 0 <= i < n && Neighbour(n, i) == j ==> i == r
  {
    if j == 0 then n - 1 else j - 1
  }

  /** A send on a full channel blocks, so the steps that fill the channel wait until it is empty. */
  predicate Enabled(s: Table, e: Step) {
    e.i < |s| &&
    var me := s[e.i];
    var other := s[Neighbour(|s|, e.i)];
    match e
    case GetHungry(_) => me.phase == Thinking
    case Take(_) => me.phase == Hungry && me.stick
    case Ask(_, k) => k < |me.attempts| && me.attempts[k] == Asking
    case ReadAck(_, k) => k < |me.attempts| && me.attempts[k] == Reading && other.acks > 0
    case ReadError(_, k) => k < |me.attempts| && me.attempts[k] == Reading
    case Grab(_) => me.phase == Waiting && me.attempts != [] && me.attempts[|me.attempts| - 1] == Full
    case TimeOut(_) => me.phase == Waiting
    case PutBack(_) => me.phase == PuttingBack && !me.stick
    case ReturnOwn(_) => me.phase == Eating && !me.stick
    case Release(_) => me.phase == Finishing
    case AcceptRequest(_) => me.requests > 0
    case Give(_) => me.waiting > 0 && me.stick
    case SendAck(_) => me.giving > 0
    case AcceptRelease(_) => me.releases > 0
    case Put(_) => me.putting > 0 && !me.stick
    case LoseRequest(_) => me.requests > 0
    case LoseAck(_) => me.acks > 0
    case LoseRelease(_) => me.releases > 0
  }

  /** What the step does to philosopher e.i and its server. */
  function Local(s: Table, e: Step): (r: Philosopher)
    requires Enabled(s, e)
    ensures e.ReadAck? ==> r.acks == s[e.i].acks
  {
    var me := s[e.i];
    match e
    case GetHungry(_) => me.(phase := Hungry)
    case Take(_) => me.(phase := Waiting, stick := false, attempts := me.attempts + [Asking])
    case Ask(_, k) => me.(attempts := me.attempts[k := Reading])
    case ReadAck(_, k) => me.(attempts := me.attempts[k := Full])
    case ReadError(_, k) => me.(attempts := me.attempts[k := Over])
    case Grab(_) => me.(phase := Eating, attempts := me.attempts[|me.attempts| - 1 := Over])
    case TimeOut(_) => me.(phase := PuttingBack)
    case PutBack(_) => me.(phase := Thinking, stick := true)
    case ReturnOwn(_) => me.(phase := Finishing, stick := true)
    case Release(_) => me.(phase := Thinking)
    case AcceptRequest(_) => me.(requests := me.requests - 1, waiting := me.waiting + 1)
    case Give(_) => me.(waiting := me.waiting - 1, stick := false, giving := me.giving + 1)
    case SendAck(_) => me.(giving := me.giving - 1, acks := me.acks + 1)
    case AcceptRelease(_) => me.(releases := me.releases - 1, putting := me.putting + 1)
    case Put(_) => me.(putting := me.putting - 1, stick := true)
    case LoseRequest(_) => me.(requests := me.requests - 1)
    case LoseAck(_) => me.(acks := me.acks - 1, lost := me.lost + 1)
    case LoseRelease(_) => me.(releases := me.releases - 1, lost := me.lost + 1)
  }

  /** What it does to the server of the neighbour. */
  function Remote(other: Philosopher, e: Step): Philosopher
    requires e.ReadAck? ==> other.acks > 0
  {
    match e
    case Ask(_, _) => other.(requests := other.requests + 1)
    case ReadAck(_, _) => other.(acks := other.acks - 1)
    case Release(_) => other.(releases := other.releases + 1)
    case _ => other
  }

  function Apply(s: Table, e: Step): (r: Table)
    requires Enabled(s, e)
    ensures |r| == |s|
  {
    var s' := s[e.i := Local(s, e)];
    var j := Neighbour(|s|, e.i);
    s'[j := Remote(s'[j], e)]
  }

  function Bit(b: bool): nat { if b then 1 else 0 }

  function Fulls(attempts: seq<Attempt>): nat {
    if attempts == [] then 0 else Fulls(attempts[..|attempts| - 1]) + Bit(attempts[|attempts| - 1] == Full)
  }

  /** Copies of its own stick that a philosopher and its server account for. */
  function AtHome(me: Philosopher): nat {
    Bit(me.stick) + Bit(me.phase in {Waiting, PuttingBack, Eating}) + me.giving + me.acks + me.releases + me.putting
      + me.lost
  }

  /** Copies of the neighbour's stick with a philosopher: in the channel of some attempt, live or given up, or in
      hand. */
  function Away(me: Philosopher): nat {
    Fulls(me.attempts) + Bit(me.phase in {Eating, Finishing})
  }

  /** All copies of the stick of j. */
  function Copies(s: Table, j: nat): nat
    requires j < |s|
  {
    AtHome(s[j]) + Away(s[Asker(|s|, j)])
  }

  lemma {:induction false} FullsUpdate(a: seq<Attempt>, k: nat, v: Attempt)
    requires k < |a|
    ensures Fulls(a[k := v]) + Bit(a[k] == Full) == Fulls(a) + Bit(v == Full)
  {
    if k == |a| - 1 {
      assert a[k := v][..|a| - 1] == a[..|a| - 1];
    } else {
      FullsUpdate(a[..|a| - 1], k, v);
      assert a[k := v][..|a| - 1] == a[..|a| - 1][k := v];
    }
  }

  lemma FullsAppend(a: seq<Attempt>)
    ensures Fulls(a + [Asking]) == Fulls(a)
  {
    assert (a + [Asking])[..|a|] == a;
  }

  /** A step changes the copies at home and away by what it hands over. */
  lemma LocalCount(s: Table, e: Step)
    requires Enabled(s, e)
    ensures AtHome(Local(s, e)) == AtHome(s[e.i])
    ensures Away(Local(s, e)) + Bit(e.Release?) == Away(s[e.i]) + Bit(e.ReadAck?)
  {
    var me := s[e.i];
    hide Fulls;
    match e
    case Take(_) => FullsAppend(me.attempts);
    case Ask(_, k) => FullsUpdate(me.attempts, k, Reading);
    case ReadAck(_, k) => FullsUpdate(me.attempts, k, Full);
    case ReadError(_, k) => FullsUpdate(me.attempts, k, Over);
    case Grab(_) => FullsUpdate(me.attempts, |me.attempts| - 1, Over);
    case _ =>
  }

  lemma RemoteCount(other: Philosopher, e: Step)
    requires e.ReadAck? ==> other.acks > 0
    ensures AtHome(Remote(other, e)) + Bit(e.ReadAck?) == AtHome(other) + Bit(e.Release?)
    ensures Away(Remote(other, e)) == Away(other)
  {
  }

  /** A change of one philosopher reaches the copies of two sticks. */
  lemma UpdateCount(s: Table, i: nat, me: Philosopher, j: nat)
    requires i < |s| && j < |s|
    ensures var home, away := i == j, i == Asker(|s|, j);
      Copies(s[i := me], j) + (if home then AtHome(s[i]) else 0) + (if away then Away(s[i]) else 0)
      == Copies(s, j) + (if home then AtHome(me) else 0) + (if away then Away(me) else 0)
  {
    hide AtHome, Away;
  }

  /** No step makes or destroys a copy of any stick. */
  lemma Conserved(s: Table, e: Step, j: nat)
    requires Enabled(s, e) && j < |s|
    ensures Copies(Apply(s, e), j) == Copies(s, j)
  {
    var n := |s|;
    var t := s[e.i := Local(s, e)];
    LocalCount(s, e);
    var other := Neighbour(n, e.i);
    RemoteCount(t[other], e);
    hide AtHome, Away, Local, Remote, Copies, Enabled;
    UpdateCount(s, e.i, Local(s, e), j);
    UpdateCount(t, other, Remote(t[other], e), j);
  }

  predicate CanRun(s: Table, steps: seq<Step>)
    decreases |steps|
  {
    steps == [] || (Enabled(s, steps[0]) && CanRun(Apply(s, steps[0]), steps[1..]))
  }

  function Run(s: Table, steps: seq<Step>): (r: Table)
    requires CanRun(s, steps)
    ensures |r| == |s|
    decreases |steps|
  {
    if steps == [] then s else Run(Apply(s, steps[0]), steps[1..])
  }

  lemma {:induction false} RunConserves(s: Table, steps: seq<Step>, j: nat)
    requires CanRun(s, steps) && j < |s|
    ensures Copies(Run(s, steps), j) == Copies(s, j)
    decreases |steps|
  {
    if steps != [] {
      Conserved(s, steps[0], j);
      RunConserves(Apply(s, steps[0]), steps[1..], j);
    }
  }

  /** In every state of every run each chopstick is in exactly one place, counting the lost ones. */
  lemma OneStick(n: nat, steps: seq<Step>, j: nat)
    requires CanRun(Start(n), steps) && j < n
    ensures Copies(Run(Start(n), steps), j) == 1
  {
    RunConserves(Start(n), steps, j);
  }

  /** Two neighbours never hold the stick between them, and so never eat together. */
  lemma NeighboursExclude(n: nat, steps: seq<Step>, i: nat)
    requires CanRun(Start(n), steps) && i < n
    ensures var s := Run(Start(n), steps);
      var j := Neighbour(n, i);
      && !(s[i].phase in {Eating, Finishing} && s[j].phase in {Waiting, PuttingBack, Eating})
      && !(s[i].phase == Eating && s[j].phase == Eating)
  {
    OneStick(n, steps, Neighbour(n, i));
  }

  /** Nobody who fills a chopstick channel ever finds it full, and only one at a time does. */
  lemma NoSendBlocks(n: nat, steps: seq<Step>, i: nat)
    requires CanRun(Start(n), steps) && i < n
    ensures var me := Run(Start(n), steps)[i];
      && (me.phase in {PuttingBack, Eating} ==> !me.stick && me.putting == 0)
      && (me.putting > 0 ==> !me.stick && me.putting == 1)
  {
    OneStick(n, steps, i);
  }

  /** A late ack: a stick in the channel of an attempt that nobody reads any more. */
  ghost predicate Stranded(s: Table, i: nat, k: nat) {
    && i < |s| && k < |s[i].attempts| && s[i].attempts[k] == Full
    && (k == |s[i].attempts| - 1 ==> s[i].phase != Waiting)
  }

  /** A step strands a stick exactly when it reads an ack for an attempt that was given up, or times out while
      the ack is waiting to be taken. */
  lemma StrandsExactly(s: Table, e: Step, i: nat, k: nat)
    requires Enabled(s, e) && !Stranded(s, i, k)
    ensures Stranded(Apply(s, e), i, k) <==>
      && i < |s| && k < |s[i].attempts| && e.i == i
      && (|| (e.ReadAck? && e.k == k && (k == |s[i].attempts| - 1 ==> s[i].phase != Waiting))
          || (e.TimeOut? && k == |s[i].attempts| - 1 && s[i].attempts[k] == Full))
  {
  }

  /** While nobody gives up, every attempt but the last of a waiting philosopher is over. */
  ghost predicate NobodyGaveUp(s: Table) {
    forall i: nat :: i < |s| ==> NeverGaveUp(s[i])
  }

  predicate NeverGaveUp(me: Philosopher) {
    && me.phase != PuttingBack
    && forall k :: 0 <= k < |me.attempts| && (k < |me.attempts| - 1 || me.phase != Waiting) ==> me.attempts[k] == Over
  }

  lemma PatienceKept(s: Table, e: Step)
    requires Enabled(s, e) && NobodyGaveUp(s) && !e.TimeOut?
    ensures NobodyGaveUp(Apply(s, e))
  {
    var s' := Apply(s, e);
    forall i: nat | i < |s|
      ensures NeverGaveUp(s'[i])
    {
      assert NeverGaveUp(s[i]);
      PatientStep(s, e, i);
    }
  }

  lemma PatientStep(s: Table, e: Step, i: nat)
    requires Enabled(s, e) && i < |s| && NeverGaveUp(s[i]) && !e.TimeOut?
    ensures NeverGaveUp(Apply(s, e)[i])
  {
  }

  lemma {:induction false} PatientRun(s: Table, steps: seq<Step>)
    requires CanRun(s, steps) && NobodyGaveUp(s) && forall j :: 0 <= j < |steps| ==> !steps[j].TimeOut?
    ensures NobodyGaveUp(Run(s, steps))
    decreases |steps|
  {
    if steps != [] {
      PatienceKept(s, steps[0]);
      PatientRun(Apply(s, steps[0]), steps[1..]);
    }
  }

  /** Only timeouts strand sticks: in a run without them, whatever is lost, no ack is ever late. */
  lemma PatienceStrandsNothing(n: nat, steps: seq<Step>, i: nat, k: nat)
    requires CanRun(Start(n), steps) && forall j :: 0 <= j < |steps| ==> !steps[j].TimeOut?
    ensures !Stranded(Run(Start(n), steps), i, k)
  {
    PatientRun(Start(n), steps);
    var s := Run(Start(n), steps);
    if i < |s| {
      assert NeverGaveUp(s[i]);
    }
  }

  lemma StrandedStays(s: Table, e: Step, i: nat, k: nat)
    requires Enabled(s, e) && Stranded(s, i, k)
    ensures Stranded(Apply(s, e), i, k)
  {
  }

  lemma {:induction false} StrandedForever(s: Table, steps: seq<Step>, i: nat, k: nat)
    requires CanRun(s, steps) && Stranded(s, i, k)
    ensures Stranded(Run(s, steps), i, k)
    decreases |steps|
  {
    if steps != [] {
      StrandedStays(s, steps[0], i, k);
      StrandedForever(Apply(s, steps[0]), steps[1..], i, k);
    }
  }

  lemma {:induction false} FullCounts(a: seq<Attempt>, k: nat)
    requires k < |a| && a[k] == Full
    ensures Fulls(a) >= 1
  {
    if k < |a| - 1 { FullCounts(a[..|a| - 1], k); }
  }

  lemma {:induction false} RunSplits(s: Table, first: seq<Step>, rest: seq<Step>)
    requires CanRun(s, first) && CanRun(Run(s, first), rest)
    ensures CanRun(s, first + rest) && Run(s, first + rest) == Run(Run(s, first), rest)
    decreases |first|
  {
    if first == [] {
      assert first + rest == rest;
    } else {
      assert (first + rest)[1..] == first[1..] + rest;
      hide Apply, Enabled;
      RunSplits(Apply(s, first[0]), first[1..], rest);
    }
  }

  /** After one late ack the philosopher who gave up and its neighbour never eat again, whatever happens. */
  lemma LateAckStarves(n: nat, first: seq<Step>, rest: seq<Step>, i: nat, k: nat)
    requires CanRun(Start(n), first) && Stranded(Run(Start(n), first), i, k) && CanRun(Run(Start(n), first), rest)
    ensures var s := Run(Run(Start(n), first), rest);
      |s| == n && i < n && s[i].phase != Eating && s[Neighbour(n, i)].phase !in {Waiting, Eating}
  {
    RunSplits(Start(n), first, rest);
    StrandedForever(Run(Start(n), first), rest, i, k);
    OneStick(n, first + rest, Neighbour(n, i));
    FullCounts(Run(Run(Start(n), first), rest)[i].attempts, k);
  }

  lemma {:induction false} Snoc(s: Table, steps: seq<Step>, e: Step)
    requires CanRun(s, steps) && Enabled(Run(s, steps), e)
    ensures CanRun(s, steps + [e]) && Run(s, steps + [e]) == Apply(Run(s, steps), e)
  {
    assert CanRun(Apply(Run(s, steps), e), []);
    RunSplits(s, steps, [e]);
  }

  /** Philosopher 0 asks its neighbour and gives up before the neighbour has answered. */
  lemma GivesUp(n: nat) returns (steps: seq<Step>)
    requires n >= 2
    ensures CanRun(Start(n), steps)
    ensures var s := Run(Start(n), steps);
      s[0].phase == PuttingBack && s[0].attempts == [Reading] && s[1].requests == 1 && s[1].stick
  {
    var s := Start(n);
    steps := [];
    assert CanRun(s, steps) && Run(s, steps) == s;
    hide CanRun, Run;
    Snoc(s, steps, GetHungry(0));
    steps := steps + [GetHungry(0)];
    Snoc(s, steps, Take(0));
    steps := steps + [Take(0)];
    Snoc(s, steps, Ask(0, 0));
    steps := steps + [Ask(0, 0)];
    Snoc(s, steps, TimeOut(0));
    steps := steps + [TimeOut(0)];
  }

  /** A timeout alone, with nothing lost, strands a stick at every table of two or more. */
  lemma TimeoutStrands(n: nat) returns (steps: seq<Step>)
    requires n >= 2
    ensures CanRun(Start(n), steps) && Stranded(Run(Start(n), steps), 0, 0)
  {
    var s := Start(n);
    steps := GivesUp(n);
    hide CanRun, Run;
    Snoc(s, steps, AcceptRequest(1));
    steps := steps + [AcceptRequest(1)];
    Snoc(s, steps, Give(1));
    steps := steps + [Give(1)];
    Snoc(s, steps, SendAck(1));
    steps := steps + [SendAck(1)];
    Snoc(s, steps, ReadAck(0, 0));
    steps := steps + [ReadAck(0, 0)];
  }
}
