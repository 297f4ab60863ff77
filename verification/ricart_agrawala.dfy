/** Ricart-Agrawala mutual exclusion as hosts, packets and atomic steps. */
module RicartAgrawala {
  import opened Finite

  /** Other stands for the greetings and death notices, which nobody acts on. */
  datatype Body = Ok | Critical | Done | Other

  datatype Message = Message(lamport: int, body: Body, sender: nat, dest: nat)

  /** One process: its globals and the local variables of its main loop. */
  datatype Host = Host(
    lamport: int, requestTime: int, crit: bool, finishing: bool, inCritical: bool, criticals: nat,
    okays: set<nat>, done: set<nat>, outstanding: seq<nat>, updated: bool, lastMessage: Message)

  /** Every packet ever sent, in order, and which of them are gone: delivered or lost. */
  datatype System = System(hosts: seq<Host>, net: seq<Message>, gone: set<nat>, plan: nat)

  datatype Step =
    | Request(h: nat) | Finish(h: nat) | Process(h: nat) | Enter(h: nat) | Exit(h: nat)
    | Deliver(k: nat) | Lose(k: nat) | Say(h: nat, to: nat) | Resend(h: nat, to: nat)

  function Start(n: nat, plan: nat): System {
    System(seq(n, _ => Host(0, 0, false, false, false, 0, {}, {}, [], false, Message(0, Other, 0, 0))), [], {}, plan)
  }

  predicate InFlight(s: System, k: nat) {
    k < |s.net| && k !in s.gone
  }

  /** The messages of a broadcast of h, one to every other host. */
  function Broadcast(s: System, h: nat, body: Body): (r: seq<Message>)
    requires h < |s.hosts|
    ensures |r| == |s.hosts| - 1
  {
    var lamport := s.hosts[h].lamport;
    seq(|s.hosts| - 1, i requires 0 <= i < |s.hosts| - 1 =>
      Message(if body == Critical then lamport else lamport + 1 + i, body, h, if i < h then i else i + 1))
  }

  /** The oks a host owes when it leaves the critical section. */
  function Replies(s: System, h: nat): (r: seq<Message>)
    requires h < |s.hosts|
    ensures |r| == |s.hosts[h].outstanding|
  {
    var me := s.hosts[h];
    seq(|me.outstanding|, i requires 0 <= i < |me.outstanding| => Message(me.lamport + 1 + i, Ok, h, me.outstanding[i]))
  }

  predicate Enabled(s: System, e: Step) {
    match e
    case Request(h) => h < |s.hosts| && !s.hosts[h].crit && !s.hosts[h].finishing && s.hosts[h].criticals != s.plan
    case Finish(h) => h < |s.hosts| && !s.hosts[h].finishing && !s.hosts[h].inCritical && s.hosts[h].criticals == s.plan
    case Process(h) => h < |s.hosts| && s.hosts[h].updated && !s.hosts[h].inCritical
    case Enter(h) => h < |s.hosts| && s.hosts[h].crit && !s.hosts[h].inCritical && |s.hosts[h].okays| == |s.hosts| - 1
    case Exit(h) => h < |s.hosts| && s.hosts[h].inCritical
    case Deliver(k) => InFlight(s, k) && s.net[k].dest < |s.hosts|
    case Lose(k) => InFlight(s, k)
    case Say(h, to) => h < |s.hosts| && to < |s.hosts| && to != h
    case Resend(h, to) =>
      && h < |s.hosts| && to < |s.hosts| && to != h
      && (s.hosts[h].crit || s.hosts[h].finishing) && to !in s.hosts[h].okays
  }

  /** Does h answer the request m at once? */
  predicate Yields(me: Host, h: nat, m: Message) {
    !me.crit || me.requestTime > m.lamport || (me.requestTime == m.lamport && h < m.sender)
  }

  function Reply(s: System, h: nat, to: nat): System
    requires h < |s.hosts|
  {
    var me := s.hosts[h];
    s.(hosts := s.hosts[h := me.(lamport := me.lamport + 1)], net := s.net + [Message(me.lamport + 1, Ok, h, to)])
  }

  /** checkUpdates */
  function ProcessMessage(s: System, h: nat): System
    requires h < |s.hosts|
  {
    var me := s.hosts[h].(updated := false);
    var m := me.lastMessage;
    match m.body
    case Ok => s.(hosts := s.hosts[h := me.(okays := me.okays + {m.sender})])
    case Critical =>
      if Yields(me, h, m) then Reply(s.(hosts := s.hosts[h := me]), h, m.sender)
      else s.(hosts := s.hosts[h := me.(outstanding := me.outstanding + [m.sender])])
    case Done => Reply(s.(hosts := s.hosts[h := me.(done := me.done + {m.sender})]), h, m.sender)
    case Other => s.(hosts := s.hosts[h := me])
  }

  function Apply(s: System, e: Step): System
    requires Enabled(s, e)
  {
    match e
    case Request(h) =>
      var me := s.hosts[h];
      s.(hosts := s.hosts[h := me.(requestTime := me.lamport, crit := true, outstanding := [], okays := {},
        lamport := me.lamport + (|s.hosts| - 1))],
         net := s.net + Broadcast(s, h, Critical))
    case Finish(h) =>
      var me := s.hosts[h];
      s.(hosts := s.hosts[h := me.(finishing := true, done := me.done + {h}, okays := {},
        lamport := me.lamport + (|s.hosts| - 1))],
         net := s.net + Broadcast(s, h, Done))
    case Process(h) => ProcessMessage(s, h)
    case Enter(h) => s.(hosts := s.hosts[h := s.hosts[h].(inCritical := true)])
    case Exit(h) =>
      var me := s.hosts[h];
      s.(hosts := s.hosts[h := me.(inCritical := false, crit := false, criticals := me.criticals + 1,
        lamport := me.lamport + |me.outstanding|)],
         net := s.net + Replies(s, h))
    case Deliver(k) =>
      var m := s.net[k];
      var me := s.hosts[m.dest];
      var tick := me.lamport + 1;
      s.(hosts := s.hosts[m.dest := me.(lamport := if m.lamport > tick then m.lamport else tick, updated := true,
        lastMessage := m)], gone := s.gone + {k})
    case Lose(k) => s.(gone := s.gone + {k})
    case Say(h, to) =>
      var me := s.hosts[h];
      s.(hosts := s.hosts[h := me.(lamport := me.lamport + 1)], net := s.net + [Message(me.lamport + 1, Other, h, to)])
    case Resend(h, to) =>
      var me := s.hosts[h];
      var m := if me.crit then Message(me.requestTime, Critical, h, to) else Message(me.lamport + 1, Done, h, to);
      s.(hosts := s.hosts[h := me.(lamport := me.lamport + 1)], net := s.net + [m])
  }

  /** The request of host a and its answer from host b: one token that moves between five places. */
  predicate About(m: Message, a: nat, b: nat) {
    match m.body
    case Critical => m.sender == a && m.dest == b
    case Done => m.sender == a && m.dest == b
    case Ok => m.sender == b && m.dest == a
    case Other => false
  }

  predicate InNet(s: System, k: nat, a: nat, b: nat) {
    InFlight(s, k) && About(s.net[k], a, b)
  }

  predicate InSlot(s: System, h: nat, a: nat, b: nat) {
    h < |s.hosts| && s.hosts[h].updated && s.hosts[h].lastMessage.dest == h && About(s.hosts[h].lastMessage, a, b)
  }

  predicate Withheld(s: System, a: nat, b: nat) {
    b < |s.hosts| && s.hosts[b].crit && a in s.hosts[b].outstanding
  }

  predicate Granted(s: System, a: nat, b: nat) {
    a < |s.hosts| && b in s.hosts[a].okays
  }

  /** The places of a token. */
  datatype Place = Packet(k: nat) | Slot(h: nat) | Hold | Grant

  predicate At(s: System, a: nat, b: nat, x: Place) {
    match x
    case Packet(k) => InNet(s, k, a, b)
    case Slot(h) => InSlot(s, h, a, b)
    case Hold => Withheld(s, a, b)
    case Grant => Granted(s, a, b)
  }

  ghost predicate HasToken(s: System, a: nat, b: nat) {
    exists x :: At(s, a, b, x)
  }

  /** Host a has its last turn or has had it: it will not ask again. */
  predicate Final(s: System, a: nat)
    requires a < |s.hosts|
  {
    var me := s.hosts[a];
    s.plan == if me.crit then me.criticals + 1 else me.criticals
  }

  /** Host a has had all its turns, and at least one. */
  predicate Served(s: System, a: nat)
    requires a < |s.hosts|
  {
    var me := s.hosts[a];
    !me.crit && me.criticals == s.plan && s.plan > 0
  }

  /** A resend of a host that will not ask again is always due; another one only when the request it repeats, and any
      answer to it, was really lost. */
  ghost predicate Due(s: System, e: Step) {
    e.Resend? && e.h < |s.hosts| && !Final(s, e.h) ==> !HasToken(s, e.h, e.to)
  }

  /** Host a's request goes before host b's: it is older, or as old and from the higher number. */
  predicate Prior(s: System, a: nat, b: nat)
    requires a < |s.hosts| && b < |s.hosts|
  {
    var x, y := s.hosts[a].requestTime, s.hosts[b].requestTime;
    x < y || (x == y && a > b)
  }

  /** Host b is past a's request, and any request of its own comes second. */
  predicate Past(s: System, a: nat, b: nat)
    requires a < |s.hosts| && b < |s.hosts|
  {
    s.hosts[b].lamport > s.hosts[a].requestTime && (s.hosts[b].crit ==> Prior(s, a, b))
  }

  /** What b promises by its ok. */
  predicate AnswerOk(s: System, a: nat, b: nat)
    requires a < |s.hosts| && b < |s.hosts|
  {
    s.hosts[a].crit || Served(s, a) ==> Past(s, a, b)
  }

  /** A message between a and b is about what a stands for now. */
  predicate Current(s: System, a: nat, b: nat, m: Message)
    requires a < |s.hosts| && b < |s.hosts|
  {
    match m.body
    case Critical => (s.hosts[a].crit || Served(s, a)) && m.lamport == s.hosts[a].requestTime
    case Done => s.hosts[a].finishing
    case Ok => (s.hosts[a].crit || s.hosts[a].finishing || Served(s, a)) && AnswerOk(s, a, b)
    case Other => true
  }

  /** What a token's place says about the two hosts. */
  predicate TokenOk(s: System, a: nat, b: nat, x: Place)
    requires a < |s.hosts| && b < |s.hosts| && At(s, a, b, x)
  {
    match x
    case Packet(k) => Current(s, a, b, s.net[k])
    case Slot(h) => Current(s, a, b, s.hosts[h].lastMessage) && s.hosts[h].lamport >= s.hosts[h].lastMessage.lamport
    case Hold => s.hosts[a].crit && Prior(s, b, a) && s.hosts[b].lamport >= s.hosts[a].requestTime
    case Grant => AnswerOk(s, a, b)
  }

  /** Between the host a that asks and the host b that answers every token is in a fit place, and there is at most one
      as long as a may ask again; once a has been served, b is past its last request. */
  ghost predicate PairOk(s: System, a: nat, b: nat)
    requires a < |s.hosts| && b < |s.hosts|
  {
    && (!Final(s, a) ==> forall x, y :: At(s, a, b, x) && At(s, a, b, y) ==> x == y)
    && (forall x :: At(s, a, b, x) ==> TokenOk(s, a, b, x))
    && PromiseKept(s, a, b)
  }

  ghost predicate HostOk(s: System, h: nat)
    requires h < |s.hosts|
  {
    var me := s.hosts[h];
    && me.criticals <= s.plan && (me.finishing ==> me.criticals == s.plan)
    && (me.crit ==> !me.finishing && me.criticals < s.plan)
    && (me.inCritical ==> me.crit && forall b :: 0 <= b < |s.hosts| && b != h ==> b in me.okays)
    && (forall b :: b in me.okays ==> b < |s.hosts| && b != h)
    && (me.crit ==> forall i :: 0 <= i < |me.outstanding| ==> me.outstanding[i] < |s.hosts| && me.outstanding[i] != h)
    && (me.updated ==> MessageOk(s, me.lastMessage) && me.lastMessage.dest == h)
  }

  /** Only hosts that will not ask again are withheld twice. */
  ghost predicate HeldOnce(s: System, h: nat)
    requires h < |s.hosts|
  {
    var held := s.hosts[h].outstanding;
    s.hosts[h].crit ==> forall i, j :: 0 <= i < j < |held| && held[i] == held[j] ==>
      held[i] < |s.hosts| && Final(s, held[i])
  }

  predicate MessageOk(s: System, m: Message) {
    m.sender < |s.hosts| && m.dest < |s.hosts| && m.sender != m.dest
  }

  ghost predicate Inv(s: System) {
    && (forall k :: 0 <= k < |s.net| ==> MessageOk(s, s.net[k]))
    && (forall k :: k in s.gone ==> k < |s.net|)
    && (forall h :: 0 <= h < |s.hosts| ==> HostOk(s, h) && HeldOnce(s, h))
    && (forall a, b :: 0 <= a < |s.hosts| && 0 <= b < |s.hosts| && a != b ==> PairOk(s, a, b))
  }

  lemma StartInv(n: nat, plan: nat)
    ensures Inv(Start(n, plan))
  {
    var s := Start(n, plan);
    forall a, b | 0 <= a < n && 0 <= b < n && a != b
      ensures PairOk(s, a, b)
    {
      assert forall x :: !At(s, a, b, x);
    }
  }

  lemma EnterAll(s: System, h: nat)
    requires h < |s.hosts| && HostOk(s, h) && |s.hosts[h].okays| == |s.hosts| - 1
    ensures forall b :: 0 <= b < |s.hosts| && b != h ==> b in s.hosts[h].okays
  {
    SubsetSize(s.hosts[h].okays, NatsBelow(|s.hosts|) - {h});
  }

  /** A host stands for what it stood for; its clock may have ticked. */
  predicate SameStand(me: Host, me': Host) {
    && me'.crit == me.crit && (me.finishing ==> me'.finishing) && me'.criticals == me.criticals
    && me'.requestTime == me.requestTime && me'.lamport >= me.lamport
  }

  predicate SameStands(s: System, s': System, a: nat, b: nat)
    requires a < |s.hosts| && b < |s.hosts|
  {
    && |s'.hosts| == |s.hosts| && s'.plan == s.plan && s.net <= s'.net
    && SameStand(s.hosts[a], s'.hosts[a]) && SameStand(s.hosts[b], s'.hosts[b])
  }

  /** Then a token that stays where it is stays fit. */
  lemma StayingToken(s: System, s': System, a: nat, b: nat, x: Place)
    requires a < |s.hosts| && b < |s.hosts| && a != b && SameStands(s, s', a, b)
    requires At(s, a, b, x) && At(s', a, b, x) && TokenOk(s, a, b, x)
    requires x.Slot? ==> s'.hosts[x.h].lastMessage == s.hosts[x.h].lastMessage
    ensures TokenOk(s', a, b, x)
  {
  }

  lemma SameStandsPast(s: System, s': System, a: nat, b: nat)
    requires a < |s.hosts| && b < |s.hosts| && a != b && SameStands(s, s', a, b)
    ensures Final(s', a) == Final(s, a) && Served(s', a) == Served(s, a) && (Past(s, a, b) ==> Past(s', a, b))
  {
  }

  /** And unread messages stay, unless they are read. */
  predicate Calm(s: System, s': System, a: nat, b: nat)
    requires a < |s.hosts| && b < |s.hosts|
  {
    && SameStands(s, s', a, b)
    && (s'.hosts[a].updated ==> s.hosts[a].updated && s'.hosts[a].lastMessage == s.hosts[a].lastMessage)
    && (s'.hosts[b].updated ==> s.hosts[b].updated && s'.hosts[b].lastMessage == s.hosts[b].lastMessage)
  }

  /** Then a pair that gets no new token stays in order. */
  lemma CalmPair(s: System, s': System, a: nat, b: nat)
    requires a < |s.hosts| && b < |s.hosts| && a != b && PairOk(s, a, b)
    requires Calm(s, s', a, b) && forall x :: At(s', a, b, x) ==> At(s, a, b, x)
    ensures PairOk(s', a, b)
  {
    SameStandsPast(s, s', a, b);
    forall x | At(s', a, b, x)
      ensures TokenOk(s', a, b, x)
    {
      assert At(s, a, b, x) && TokenOk(s, a, b, x);
      assert x.Slot? ==> x.h == a || x.h == b;
      hide TokenOk;
      StayingToken(s, s', a, b, x);
    }
  }

  lemma RequestPair(s: System, h: nat, a: nat, b: nat)
    requires Enabled(s, Request(h)) && a < |s.hosts| && b < |s.hosts| && a != b
    requires HostOk(s, h) && PairOk(s, a, b)
    ensures PairOk(Apply(s, Request(h)), a, b)
  {
    var s' := Apply(s, Request(h));
    if a == h {
      RequestOwn(s, h, b);
    } else {
      hide PairOk, TokenOk;
      forall x | At(s', a, b, x)
        ensures At(s, a, b, x)
      {
        NewsOfOthers(s, s', Broadcast(s, h, Critical), h, a, b, x);
      }
      if b == h { RequestNew(s, a, b); } else { CalmPair(s, s', a, b); }
    }
  }

  /** Packets that h sends for itself are no tokens of a and b. */
  lemma NewsOfOthers(s: System, s': System, sent: seq<Message>, h: nat, a: nat, b: nat, x: Place)
    requires |s'.hosts| == |s.hosts| && s'.net == s.net + sent && s'.gone == s.gone && a < |s.hosts| && a != b
    requires forall i :: 0 <= i < |sent| ==> !About(sent[i], a, b)
    requires forall g :: 0 <= g < |s.hosts| ==>
      s'.hosts[g].updated == s.hosts[g].updated && s'.hosts[g].lastMessage == s.hosts[g].lastMessage
    requires At(s', a, b, x) && s'.hosts[a].okays == s.hosts[a].okays && (Withheld(s', a, b) ==> Withheld(s, a, b))
    ensures At(s, a, b, x)
  {
    assert forall i :: 0 <= i < |sent| ==> s'.net[|s.net| + i] == sent[i];
  }

  /** A new request of the answering host comes after what it has answered. */
  lemma RequestNew(s: System, a: nat, b: nat)
    requires Enabled(s, Request(b)) && a < |s.hosts| && b < |s.hosts| && a != b && PairOk(s, a, b)
    requires forall x :: At(Apply(s, Request(b)), a, b, x) ==> At(s, a, b, x)
    ensures PairOk(Apply(s, Request(b)), a, b)
  {
    var s' := Apply(s, Request(b));
    forall x | At(s', a, b, x)
      ensures TokenOk(s', a, b, x)
    {
      assert At(s, a, b, x) && TokenOk(s, a, b, x);
    }
  }

  /** A new request of the asking host is the only token: the old grants are gone. */
  lemma RequestOwn(s: System, h: nat, b: nat)
    requires Enabled(s, Request(h)) && b < |s.hosts| && h != b && PairOk(s, h, b) && HostOk(s, h)
    ensures PairOk(Apply(s, Request(h)), h, b)
  {
    var s' := Apply(s, Request(h));
    forall x | At(s', h, b, x)
      ensures TokenOk(s', h, b, x) && x == Packet(|s.net| + (if b < h then b else b - 1))
    {
      OnlyPackets(s, s', Broadcast(s, h, Critical), h, b, x);
      assert s'.net[x.k] == Broadcast(s, h, Critical)[x.k - |s.net|];
    }
  }

  /** A host that stands for nothing and drops its grants has no old token. */
  lemma OnlyPackets(s: System, s': System, sent: seq<Message>, h: nat, b: nat, x: Place)
    requires h < |s.hosts| && b < |s.hosts| && h != b && PairOk(s, h, b)
    requires !s.hosts[h].crit && !s.hosts[h].finishing && s.hosts[h].criticals != s.plan
    requires |s'.hosts| == |s.hosts| && s'.net == s.net + sent && s'.gone == s.gone && s'.hosts[h].okays == {}
    requires s'.hosts[b] == s.hosts[b]
    requires s'.hosts[h].updated == s.hosts[h].updated && s'.hosts[h].lastMessage == s.hosts[h].lastMessage
    requires At(s', h, b, x)
    ensures x.Packet? && x.k >= |s.net|
  {
    if !(x.Packet? && x.k >= |s.net|) {
      assert At(s, h, b, x);
      assert false;
    }
  }

  lemma FinishPair(s: System, h: nat, a: nat, b: nat)
    requires Enabled(s, Finish(h)) && a < |s.hosts| && b < |s.hosts| && a != b
    requires HostOk(s, h) && PairOk(s, a, b)
    ensures PairOk(Apply(s, Finish(h)), a, b)
  {
    var s' := Apply(s, Finish(h));
    if a == h {
      forall x | At(s', h, b, x)
        ensures TokenOk(s', h, b, x)
      {
        if x.Packet? && x.k >= |s.net| {
          assert s'.net[x.k] == Broadcast(s, h, Done)[x.k - |s.net|];
        } else {
          assert At(s, h, b, x) && TokenOk(s, h, b, x);
        }
      }
    } else {
      hide PairOk, TokenOk;
      forall x | At(s', a, b, x)
        ensures At(s, a, b, x)
      {
        NewsOfOthers(s, s', Broadcast(s, h, Done), h, a, b, x);
      }
      CalmPair(s, s', a, b);
    }
  }

  /** A delivered token moves from its packet into the slot of the destination. */
  lemma DeliverPair(s: System, k: nat, a: nat, b: nat)
    requires Enabled(s, Deliver(k)) && a < |s.hosts| && b < |s.hosts| && a != b
    requires PairOk(s, a, b)
    ensures PairOk(Apply(s, Deliver(k)), a, b)
  {
    var s' := Apply(s, Deliver(k));
    var d := s.net[k].dest;
    SameStandsPast(s, s', a, b);
    forall x | At(s', a, b, x)
      ensures TokenOk(s', a, b, x)
      ensures if x == Slot(d) then At(s, a, b, Packet(k)) else At(s, a, b, x) && x != Packet(k)
    {
      DeliveredFrom(s, k, a, b, x);
      hide At, TokenOk;
      if x == Slot(d) {
        assert TokenOk(s, a, b, Packet(k));
        DeliveredToken(s, k, a, b);
      } else {
        assert TokenOk(s, a, b, x);
        StayingToken(s, s', a, b, x);
      }
    }
  }

  /** Where a token was before the delivery of packet k. */
  lemma DeliveredFrom(s: System, k: nat, a: nat, b: nat, x: Place)
    requires Enabled(s, Deliver(k)) && At(Apply(s, Deliver(k)), a, b, x)
    ensures if x == Slot(s.net[k].dest) then At(s, a, b, Packet(k)) else At(s, a, b, x) && x != Packet(k)
  {
  }

  lemma DeliveredToken(s: System, k: nat, a: nat, b: nat)
    requires Enabled(s, Deliver(k)) && a < |s.hosts| && b < |s.hosts| && a != b
    requires At(s, a, b, Packet(k)) && TokenOk(s, a, b, Packet(k))
    ensures var s' := Apply(s, Deliver(k)); At(s', a, b, Slot(s.net[k].dest)) && TokenOk(s', a, b, Slot(s.net[k].dest))
  {
  }

  lemma ExitPair(s: System, h: nat, a: nat, b: nat)
    requires Enabled(s, Exit(h)) && a < |s.hosts| && b < |s.hosts| && a != b
    requires HostOk(s, h) && HeldOnce(s, h) && PairOk(s, a, b)
    ensures PairOk(Apply(s, Exit(h)), a, b)
  {
    var s' := Apply(s, Exit(h));
    if b == h {
      ExitHold(s, a, b);
    } else if a == h {
      ExitOwn(s, a, b);
    } else {
      hide PairOk, TokenOk;
      forall x | At(s', a, b, x)
        ensures At(s, a, b, x)
      {
        NewsOfOthers(s, s', Replies(s, h), h, a, b, x);
      }
      CalmPair(s, s', a, b);
    }
  }

  /** Leaving its last turn, a host has the promise of every other one. */
  lemma ExitOwn(s: System, a: nat, b: nat)
    requires Enabled(s, Exit(a)) && a < |s.hosts| && b < |s.hosts| && a != b && HostOk(s, a) && PairOk(s, a, b)
    ensures PairOk(Apply(s, Exit(a)), a, b)
  {
    var s' := Apply(s, Exit(a));
    assert At(s, a, b, Grant) && TokenOk(s, a, b, Grant);
    assert At(s, a, b, Hold) ==> TokenOk(s, a, b, Hold);
    assert !At(s, a, b, Hold);
    forall x | At(s', a, b, x)
      ensures At(s, a, b, x) && TokenOk(s', a, b, x)
    {
      NewsOfOthers(s, s', Replies(s, a), a, a, b, x);
      assert TokenOk(s, a, b, x);
    }
  }

  /** Leaving turns each token the host withholds into an ok on its way. */
  lemma ExitHold(s: System, a: nat, b: nat)
    requires Enabled(s, Exit(b)) && a < |s.hosts| && b < |s.hosts| && a != b && HostOk(s, b) && PairOk(s, a, b)
    requires HeldOnce(s, b)
    ensures PairOk(Apply(s, Exit(b)), a, b)
  {
    var s' := Apply(s, Exit(b));
    var held := s.hosts[b].outstanding;
    forall x | At(s', a, b, x)
      ensures TokenOk(s', a, b, x)
      ensures if x.Packet? && x.k >= |s.net| then x.k - |s.net| < |held| && held[x.k - |s.net|] == a &&
        At(s, a, b, Hold)
        else At(s, a, b, x) && x != Hold
    {
      if x.Packet? && x.k >= |s.net| {
        assert s'.net[x.k] == Replies(s, b)[x.k - |s.net|];
        assert At(s, a, b, Hold) && TokenOk(s, a, b, Hold);
      } else {
        assert At(s, a, b, x) && TokenOk(s, a, b, x);
      }
    }
  }

  /** Where the token in h's slot goes when h looks at it. */
  function Next(s: System, h: nat): Place
    requires h < |s.hosts|
  {
    var m := s.hosts[h].lastMessage;
    if m.body == Ok then Grant
    else if m.body == Critical && !Yields(s.hosts[h], h, m) then Hold
    else Packet(|s.net|)
  }

  /** A token in the slot of h moves on when h looks at it. */
  lemma ProcessMoved(s: System, h: nat, a: nat, b: nat)
    requires Enabled(s, Process(h)) && a < |s.hosts| && b < |s.hosts| && a != b
    requires HostOk(s, h) && HostOk(s, a) && PairOk(s, a, b) && At(s, a, b, Slot(h))
    ensures PairOk(Apply(s, Process(h)), a, b)
  {
    var s' := Apply(s, Process(h));
    assert TokenOk(s, a, b, Slot(h));
    SameStandsPast(s, s', a, b);
    forall x | At(s', a, b, x)
      ensures TokenOk(s', a, b, x) && (!Final(s, a) ==> x == Next(s, h))
    {
      if x == Next(s, h) {
        ReadToken(s, h, a, b);
      } else {
        ReadLeaves(s, h, a, b, x);
        assert At(s, a, b, x) && TokenOk(s, a, b, x);
        hide TokenOk;
        StayingToken(s, s', a, b, x);
      }
    }
  }

  /** The token that was read is fit where it goes. */
  lemma ReadToken(s: System, h: nat, a: nat, b: nat)
    requires Enabled(s, Process(h)) && a < |s.hosts| && b < |s.hosts| && a != b
    requires HostOk(s, h) && HostOk(s, a) && At(s, a, b, Slot(h)) && TokenOk(s, a, b, Slot(h)) && PromiseKept(s, a, b)
    ensures var s' := Apply(s, Process(h)); At(s', a, b, Next(s, h)) ==> TokenOk(s', a, b, Next(s, h))
  {
  }

  /** What a host that has been served was promised. */
  predicate PromiseKept(s: System, a: nat, b: nat)
    requires a < |s.hosts| && b < |s.hosts|
  {
    Served(s, a) ==> Past(s, a, b)
  }

  lemma ReadLeaves(s: System, h: nat, a: nat, b: nat, x: Place)
    requires Enabled(s, Process(h)) && HostOk(s, h) && At(s, a, b, Slot(h)) && x != Next(s, h)
    requires At(Apply(s, Process(h)), a, b, x)
    ensures At(s, a, b, x) && x != Slot(h)
  {
  }

  /** Where reading, entering, losing a packet or idle talk moves no token, the pair stays in order. */
  lemma QuietPair(s: System, e: Step, a: nat, b: nat)
    requires Enabled(s, e) && a < |s.hosts| && b < |s.hosts| && a != b && PairOk(s, a, b)
    requires e.Enter? || e.Lose? || e.Say? || (e.Process? && HostOk(s, e.h) && !At(s, a, b, Slot(e.h)))
    ensures PairOk(Apply(s, e), a, b)
  {
    hide PairOk, TokenOk;
    forall x | At(Apply(s, e), a, b, x)
      ensures At(s, a, b, x)
    {
      if e.Process? { ReadMovesNothing(s, e.h, a, b, x); }
    }
    CalmPair(s, Apply(s, e), a, b);
  }

  lemma ReadMovesNothing(s: System, h: nat, a: nat, b: nat, x: Place)
    requires Enabled(s, Process(h)) && HostOk(s, h) && !At(s, a, b, Slot(h)) && At(Apply(s, Process(h)), a, b, x)
    ensures At(s, a, b, x)
  {
  }

  /** A repeated request takes the place of the lost token. */
  lemma ResendPair(s: System, h: nat, to: nat, a: nat, b: nat)
    requires Enabled(s, Resend(h, to)) && Due(s, Resend(h, to)) && a < |s.hosts| && b < |s.hosts| && a != b &&
      PairOk(s, a, b)
    ensures PairOk(Apply(s, Resend(h, to)), a, b)
  {
    var s' := Apply(s, Resend(h, to));
    forall x | At(s', a, b, x)
      ensures if a == h && b == to then TokenOk(s', a, b, x) && (Final(s, a) || x == Packet(|s.net|))
        else At(s, a, b, x)
    {
      if x != Packet(|s.net|) {
        assert At(s, a, b, x) && TokenOk(s, a, b, x);
      }
    }
    if a != h || b != to {
      hide PairOk, TokenOk, At;
      CalmPair(s, s', a, b);
    }
  }

  lemma PairKept(s: System, e: Step, a: nat, b: nat)
    requires Inv(s) && Enabled(s, e) && Due(s, e) && a < |s.hosts| && b < |s.hosts| && a != b
    ensures |Apply(s, e).hosts| == |s.hosts| && PairOk(Apply(s, e), a, b)
  {
    assert PairOk(s, a, b) && HostOk(s, a);
    hide PairOk, HostOk, HeldOnce, Inv;
    match e
    case Request(h) => RequestPair(s, h, a, b);
    case Finish(h) => FinishPair(s, h, a, b);
    case Process(h) =>
      if At(s, a, b, Slot(h)) { ProcessMoved(s, h, a, b); } else { QuietPair(s, e, a, b); }
    case Exit(h) => ExitPair(s, h, a, b);
    case Deliver(k) => DeliverPair(s, k, a, b);
    case Resend(h, to) => ResendPair(s, h, to, a, b);
    case _ => QuietPair(s, e, a, b);
  }

  lemma ProcessHost(s: System, h: nat)
    requires Enabled(s, Process(h)) && HostOk(s, h)
    ensures HostOk(Apply(s, Process(h)), h)
  {
  }

  /** A host that will not ask again does not. */
  lemma FinalStays(s: System, e: Step, a: nat)
    requires Enabled(s, e) && a < |s.hosts| && HostOk(s, a) && Final(s, a)
    ensures |Apply(s, e).hosts| == |s.hosts| && Final(Apply(s, e), a)
  {
    if ActsOn(s, e, a) {
      assert Final(Apply(s, e), a);
    } else {
      OthersSame(s, e, a);
      hide Apply;
    }
  }

  /** A request withheld a second time would be a second token. */
  lemma HeldKept(s: System, e: Step, h: nat)
    requires Inv(s) && Enabled(s, e) && h < |s.hosts|
    ensures |Apply(s, e).hosts| == |s.hosts| && HeldOnce(Apply(s, e), h)
  {
    var s' := Apply(s, e);
    assert HostOk(s, h) && HeldOnce(s, h);
    HeldGrows(s, e, h);
    var held, held' := s.hosts[h].outstanding, s'.hosts[h].outstanding;
    forall i, j | s'.hosts[h].crit && 0 <= i < j < |held'| && held'[i] == held'[j]
      ensures held'[i] < |s.hosts| && Final(s', held'[i])
    {
      var a := held'[i];
      if j == |held| {
        var m := s.hosts[h].lastMessage;
        assert PairOk(s, a, h) && At(s, a, h, Slot(h)) && At(s, a, h, Hold);
      }
      assert HostOk(s, a);
      FinalStays(s, e, a);
    }
  }

  /** How the list of withheld hosts can change: it is emptied, or it gets the sender of the message just read. */
  lemma HeldGrows(s: System, e: Step, h: nat)
    requires Enabled(s, e) && h < |s.hosts| && HostOk(s, h)
    ensures |Apply(s, e).hosts| == |s.hosts|
    ensures var me, me' := s.hosts[h], Apply(s, e).hosts[h];
      me'.crit ==>
        || me'.outstanding == []
        || (me.crit && me'.outstanding == me.outstanding)
        || (me.crit && me.updated && me.lastMessage.body == Critical &&
          me'.outstanding == me.outstanding + [me.lastMessage.sender])
  {
    if ActsOn(s, e, h) {
    } else {
      OthersSame(s, e, h);
      hide Apply;
    }
  }

  /** A step changes one host at most. */
  predicate ActsOn(s: System, e: Step, h: nat) {
    match e
    case Deliver(k) => k < |s.net| && s.net[k].dest == h
    case Lose(_) => false
    case _ => e.h == h
  }

  lemma OthersSame(s: System, e: Step, h: nat)
    requires Enabled(s, e) && h < |s.hosts| && !ActsOn(s, e, h)
    ensures |Apply(s, e).hosts| == |s.hosts| && Apply(s, e).plan == s.plan && Apply(s, e).hosts[h] == s.hosts[h]
  {
  }

  lemma OwnHost(s: System, e: Step, h: nat)
    requires h < |s.hosts| && HostOk(s, h) && Enabled(s, e) &&
      (e.Request? || e.Finish? || e.Exit? || e.Say? || e.Resend?) && e.h == h
    ensures HostOk(Apply(s, e), h)
  {
  }

  lemma HostKept(s: System, e: Step, h: nat)
    requires Inv(s) && Enabled(s, e) && Due(s, e) && h < |s.hosts|
    ensures |Apply(s, e).hosts| == |s.hosts| && HostOk(Apply(s, e), h)
  {
    assert HostOk(s, h);
    if !ActsOn(s, e, h) {
      OthersSame(s, e, h);
      hide Inv, Apply;
      assert HostOk(Apply(s, e), h);
    } else if e == Process(h) {
      hide Inv;
      ProcessHost(s, h);
    } else if e == Enter(h) {
      EnterAll(s, h);
    } else if e.Deliver? {
      assert MessageOk(s, s.net[e.k]);
      hide Inv;
      assert HostOk(Apply(s, e), h);
    } else {
      OwnHost(s, e, h);
    }
  }

  lemma MessagesKept(s: System, e: Step)
    requires Inv(s) && Enabled(s, e) && Due(s, e)
    ensures forall k :: 0 <= k < |Apply(s, e).net| ==> MessageOk(Apply(s, e), Apply(s, e).net[k])
    ensures forall k :: k in Apply(s, e).gone ==> k < |Apply(s, e).net|
  {
    match e
    case Process(h) => assert HostOk(s, h);
    case Exit(h) => assert HostOk(s, h);
    case _ =>
  }

  lemma StepInv(s: System, e: Step)
    requires Inv(s) && Enabled(s, e) && Due(s, e)
    ensures Inv(Apply(s, e))
  {
    var s' := Apply(s, e);
    assert |s'.hosts| == |s.hosts|;
    MessagesKept(s, e);
    forall h | 0 <= h < |s.hosts|
      ensures HostOk(s', h) && HeldOnce(s', h)
    {
      HostKept(s, e, h);
      HeldKept(s, e, h);
    }
    forall a, b | 0 <= a < |s.hosts| && 0 <= b < |s.hosts| && a != b
      ensures PairOk(s', a, b)
    {
      PairKept(s, e, a, b);
    }
  }

  /** The steps can be taken one after the other. */
  predicate CanRun(s: System, steps: seq<Step>)
    decreases |steps|
  {
    steps == [] || (Enabled(s, steps[0]) && CanRun(Apply(s, steps[0]), steps[1..]))
  }

  function Run(s: System, steps: seq<Step>): System
    requires CanRun(s, steps)
    decreases |steps|
  {
    if steps == [] then s else Run(Apply(s, steps[0]), steps[1..])
  }

  /** Every resend of the run is due when it is made. */
  ghost predicate DueResends(s: System, steps: seq<Step>)
    requires CanRun(s, steps)
    decreases |steps|
  {
    steps == [] || (Due(s, steps[0]) && DueResends(Apply(s, steps[0]), steps[1..]))
  }

  /** A resend keeps the invariant exactly when it is due: otherwise a host that may ask again has two tokens. */
  lemma ResendKeepsInvExactly(s: System, h: nat, to: nat)
    requires Inv(s) && Enabled(s, Resend(h, to))
    ensures Inv(Apply(s, Resend(h, to))) <==> Due(s, Resend(h, to))
  {
    var s' := Apply(s, Resend(h, to));
    if Due(s, Resend(h, to)) {
      StepInv(s, Resend(h, to));
    } else {
      var x :| At(s, h, to, x);
      assert At(s', h, to, x) && At(s', h, to, Packet(|s.net|));
      assert !PairOk(s', h, to);
    }
  }

  lemma {:induction false} RunInv(s: System, steps: seq<Step>)
    requires Inv(s) && CanRun(s, steps) && DueResends(s, steps)
    ensures Inv(Run(s, steps)) && |Run(s, steps).hosts| == |s.hosts|
    decreases |steps|
  {
    if steps != [] {
      StepInv(s, steps[0]);
      RunInv(Apply(s, steps[0]), steps[1..]);
    }
  }

  /** However packets are lost, delayed or reordered, and lost requests repeated, two hosts are never in the critical
      section together. */
  lemma MutualExclusion(n: nat, plan: nat, steps: seq<Step>, a: nat, b: nat)
    requires CanRun(Start(n, plan), steps) && DueResends(Start(n, plan), steps) && a < n && b < n && a != b
    ensures var s := Run(Start(n, plan), steps);
      |s.hosts| == n && !(s.hosts[a].inCritical && s.hosts[b].inCritical)
  {
    StartInv(n, plan);
    RunInv(Start(n, plan), steps);
    var s := Run(Start(n, plan), steps);
    assert HostOk(s, a) && HostOk(s, b) && PairOk(s, a, b) && PairOk(s, b, a);
    if s.hosts[a].inCritical && s.hosts[b].inCritical {
      assert At(s, a, b, Grant) && At(s, b, a, Grant);
      assert false;
    }
  }

  /** A host that withholds an ok asked first. */
  lemma WithheldByPrior(n: nat, plan: nat, steps: seq<Step>, a: nat, b: nat)
    requires CanRun(Start(n, plan), steps) && DueResends(Start(n, plan), steps) && a < n &&
      Withheld(Run(Start(n, plan), steps), a, b)
    ensures var s := Run(Start(n, plan), steps);
      |s.hosts| == n && s.hosts[a].crit && s.hosts[b].crit && Prior(s, b, a)
  {
    StartInv(n, plan);
    RunInv(Start(n, plan), steps);
    WithheldHosts(Run(Start(n, plan), steps), a, b);
  }

  /** Host ring[i] waits for ring[i + 1], and the last for the first. */
  predicate WaitingRing(s: System, ring: seq<nat>) {
    && |ring| > 0
    && (forall i, j :: 0 <= i && j == i + 1 < |ring| ==> Withheld(s, ring[i], ring[j]))
    && Withheld(s, ring[|ring| - 1], ring[0])
  }

  /** Nobody waits, through others, for itself. */
  lemma NoCyclicWaiting(n: nat, plan: nat, steps: seq<Step>, ring: seq<nat>)
    requires CanRun(Start(n, plan), steps) && DueResends(Start(n, plan), steps)
    ensures !WaitingRing(Run(Start(n, plan), steps), ring)
  {
    var s := Run(Start(n, plan), steps);
    if WaitingRing(s, ring) {
      StartInv(n, plan);
      RunInv(Start(n, plan), steps);
      Descends(s, ring, |ring| - 1);
      WithheldHosts(s, ring[|ring| - 1], ring[0]);
      assert false;
    }
  }

  lemma WithheldHosts(s: System, a: nat, b: nat)
    requires Inv(s) && Withheld(s, a, b)
    ensures a < |s.hosts| && b < |s.hosts| && s.hosts[a].crit && Prior(s, b, a)
  {
    assert HostOk(s, b);
    assert PairOk(s, a, b) && At(s, a, b, Hold);
  }

  lemma {:induction false} Descends(s: System, ring: seq<nat>, k: nat)
    requires Inv(s) && WaitingRing(s, ring) && k < |ring|
    ensures ring[0] < |s.hosts| && ring[k] < |s.hosts| && (k == 0 || Prior(s, ring[k], ring[0]))
  {
    if k == 0 {
      WithheldHosts(s, ring[|ring| - 1], ring[0]);
    } else {
      Descends(s, ring, k - 1);
      WithheldHosts(s, ring[k - 1], ring[k]);
    }
  }

  /** A step that loses nothing: no packet dropped, no unread message overwritten. */
  ghost predicate Lossless(s: System, e: Step) {
    Due(s, e) && !e.Lose? && (e.Deliver? && Enabled(s, e) ==> !s.hosts[s.net[e.k].dest].updated)
  }

  ghost predicate LosslessRun(s: System, steps: seq<Step>)
    requires CanRun(s, steps)
    decreases |steps|
  {
    steps == [] || (Lossless(s, steps[0]) && LosslessRun(Apply(s, steps[0]), steps[1..]))
  }

  /** The token of every pending request exists. */
  ghost predicate Tokens(s: System) {
    forall a, b :: 0 <= a < |s.hosts| && 0 <= b < |s.hosts| && a != b && s.hosts[a].crit ==> HasToken(s, a, b)
  }

  /** Where a step takes the token of a and b. */
  function Moved(s: System, e: Step, a: nat, b: nat, x: Place): Place
    requires Enabled(s, e) && At(s, a, b, x)
  {
    match e
    case Process(h) => if x == Slot(h) then Next(s, h) else x
    case Deliver(k) => if x == Packet(k) then Slot(s.net[k].dest) else x
    case Exit(h) => if x == Hold && b == h then Packet(|s.net| + IndexOf(s.hosts[h].outstanding, a)) else x
    case _ => x
  }

  function IndexOf(q: seq<nat>, x: nat): (i: nat)
    requires x in q
    ensures i < |q| && q[i] == x
  {
    if q[0] == x then 0 else 1 + IndexOf(q[1..], x)
  }

  lemma {:induction false} TokenKept(s: System, e: Step, a: nat, b: nat)
    requires Inv(s) && Tokens(s) && Enabled(s, e) && Lossless(s, e) && a < |s.hosts| && b < |s.hosts| && a != b
    ensures |Apply(s, e).hosts| == |s.hosts|
    ensures Apply(s, e).hosts[a].crit ==> HasToken(Apply(s, e), a, b)
  {
    var s' := Apply(s, e);
    assert HostOk(s, a) && HostOk(s, b);
    if e == Request(a) {
      var i := if b < a then b else b - 1;
      assert s'.net[|s.net| + i] == Broadcast(s, a, Critical)[i];
      assert At(s', a, b, Packet(|s.net| + i));
    } else if s'.hosts[a].crit {
      assert HasToken(s, a, b);
      var x :| At(s, a, b, x);
      assert TokenOk(s, a, b, x) by { assert PairOk(s, a, b); }
      MovedThere(s, e, a, b, x);
    }
  }

  lemma MovedThere(s: System, e: Step, a: nat, b: nat, x: Place)
    requires Enabled(s, e) && Lossless(s, e) && a < |s.hosts| && b < |s.hosts| && a != b && e != Request(a)
    requires HostOk(s, a) && HostOk(s, b) && At(s, a, b, x) && s.hosts[a].crit
    requires forall k :: k in s.gone ==> k < |s.net|
    ensures At(Apply(s, e), a, b, Moved(s, e, a, b, x))
  {
    if e.Process? {
      ReadMoves(s, e.h, a, b, x);
    } else if e == Exit(b) && x == Hold {
      var i := IndexOf(s.hosts[b].outstanding, a);
      assert Apply(s, e).net[|s.net| + i] == Replies(s, b)[i];
    } else if e.Deliver? {
      DeliverMoves(s, e.k, a, b, x);
    } else {
      assert At(Apply(s, e), a, b, x);
    }
  }

  lemma DeliverMoves(s: System, k: nat, a: nat, b: nat, x: Place)
    requires a < |s.hosts| && b < |s.hosts| && a != b && At(s, a, b, x)
    requires Enabled(s, Deliver(k)) && Lossless(s, Deliver(k))
    ensures At(Apply(s, Deliver(k)), a, b, Moved(s, Deliver(k), a, b, x))
  {
    if x != Packet(k) {
      assert At(Apply(s, Deliver(k)), a, b, x);
    }
  }

  lemma ReadMoves(s: System, h: nat, a: nat, b: nat, x: Place)
    requires a < |s.hosts| && b < |s.hosts| && a != b && At(s, a, b, x)
    requires Enabled(s, Process(h)) && HostOk(s, a) && HostOk(s, b)
    requires forall k :: k in s.gone ==> k < |s.net|
    ensures At(Apply(s, Process(h)), a, b, Moved(s, Process(h), a, b, x))
  {
    var s' := Apply(s, Process(h));
    if x == Slot(h) {
      assert At(s', a, b, Next(s, h));
    } else {
      assert At(s', a, b, x);
    }
  }

  lemma {:induction false} TokensLast(s: System, steps: seq<Step>)
    requires Inv(s) && Tokens(s) && CanRun(s, steps) && LosslessRun(s, steps)
    ensures Inv(Run(s, steps)) && Tokens(Run(s, steps)) && |Run(s, steps).hosts| == |s.hosts|
    decreases |steps|
  {
    if steps != [] {
      var e := steps[0];
      StepInv(s, e);
      forall a, b | 0 <= a < |s.hosts| && 0 <= b < |s.hosts| && a != b && Apply(s, e).hosts[a].crit
        ensures HasToken(Apply(s, e), a, b)
      {
        TokenKept(s, e, a, b);
      }
      TokensLast(Apply(s, e), steps[1..]);
    }
  }

  /** Nothing on its way and nothing unread. */
  predicate Quiescent(s: System) {
    && (forall k :: 0 <= k < |s.net| ==> k in s.gone)
    && (forall h :: 0 <= h < |s.hosts| ==> !s.hosts[h].updated)
  }

  /** Some pending request goes before all others. */
  lemma {:induction false} FirstRequest(s: System, n: nat) returns (f: nat)
    requires n <= |s.hosts| && exists h :: 0 <= h < n && s.hosts[h].crit
    ensures f < n && s.hosts[f].crit && forall h :: 0 <= h < n && s.hosts[h].crit ==> h == f || Prior(s, f, h)
  {
    if exists h :: 0 <= h < n - 1 && s.hosts[h].crit {
      f := FirstRequest(s, n - 1);
      if s.hosts[n - 1].crit && Prior(s, n - 1, f) {
        f := n - 1;
      }
    } else {
      f := n - 1;
    }
  }

  /** Without losses the hosts never all stand waiting: when all messages are read, some request has all its oks. */
  lemma SomeoneEnters(n: nat, plan: nat, steps: seq<Step>) returns (f: nat)
    requires CanRun(Start(n, plan), steps) && LosslessRun(Start(n, plan), steps)
    requires var s := Run(Start(n, plan), steps);
      Quiescent(s) && exists h :: 0 <= h < |s.hosts| && s.hosts[h].crit
    ensures var s := Run(Start(n, plan), steps);
      f < n == |s.hosts| && s.hosts[f].crit && (s.hosts[f].inCritical || Enabled(s, Enter(f)))
  {
    StartInv(n, plan);
    TokensLast(Start(n, plan), steps);
    var s := Run(Start(n, plan), steps);
    f := FirstRequest(s, |s.hosts|);
    hide Inv, Tokens, Quiescent, CanRun, Run, LosslessRun;
    forall b: nat | b < n && b != f
      ensures b in s.hosts[f].okays
    {
      FirstHasOk(s, f, b);
    }
    FirstMayEnter(s, f);
  }

  lemma FirstHasOk(s: System, f: nat, b: nat)
    requires Inv(s) && Tokens(s) && Quiescent(s) && f < |s.hosts| && b < |s.hosts| && b != f && s.hosts[f].crit
    requires s.hosts[b].crit ==> Prior(s, f, b)
    ensures b in s.hosts[f].okays
  {
    assert HasToken(s, f, b) && PairOk(s, f, b);
    hide Inv, Tokens;
    var x :| At(s, f, b, x);
    assert TokenOk(s, f, b, x);
  }

  lemma FirstMayEnter(s: System, f: nat)
    requires Inv(s) && f < |s.hosts| && s.hosts[f].crit &&
      forall b: nat :: b < |s.hosts| && b != f ==> b in s.hosts[f].okays
    ensures s.hosts[f].inCritical || Enabled(s, Enter(f))
  {
    assert HostOk(s, f);
    hide Inv;
    assert s.hosts[f].okays == NatsBelow(|s.hosts|) - {f};
    assert |NatsBelow(|s.hosts|) - {f}| == |s.hosts| - 1;
  }
}
