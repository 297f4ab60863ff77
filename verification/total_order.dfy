/** Ordering the hosts of a cut into chains of senders and receivers. */
module TotalOrder {
  import opened Clocks
  import opened Runs
  import opened Matching
  import opened ConsistentCuts
  import opened Communication
  import opened Cuts

  /** How many of the first n clocks of the cut lie strictly before clock i. */
  ghost function Ancestors(cut: seq<Clock>, i: nat, n: nat): nat
    requires i < |cut| && n <= |cut|
  {
    if n == 0 then 0 else Ancestors(cut, i, n - 1) + if i != n - 1 && Precedes(cut[n - 1], cut[i]) then 1 else 0
  }

  method CountAncestors(cut: seq<Clock>) returns (ancestors: seq<nat>)
    ensures |ancestors| == |cut| && forall i :: 0 <= i < |cut| ==> ancestors[i] == Ancestors(cut, i, |cut|)
  {
    ancestors := seq(|cut|, _ => 0);
    for i := 0 to |cut|
      invariant |ancestors| == |cut|
      invariant forall k :: 0 <= k < i ==> ancestors[k] == Ancestors(cut, k, |cut|)
      invariant forall k :: i <= k < |cut| ==> ancestors[k] == 0
    {
      for j := 0 to |cut|
        invariant |ancestors| == |cut| && ancestors[i] == Ancestors(cut, i, j)
        invariant forall k :: 0 <= k < i ==> ancestors[k] == Ancestors(cut, k, |cut|)
        invariant forall k :: i < k < |cut| ==> ancestors[k] == 0
      {
        if i != j && Precedes(cut[j], cut[i]) {
          ancestors := ancestors[i := ancestors[i] + 1];
        }
      }
    }
  }

  /** findUnorderedHost: of the hosts still to be ordered the first one with the most ancestors. */
  method FindUnorderedHost(ancestors: seq<nat>, ordered: seq<bool>) returns (host: nat, found: bool)
    requires |ancestors| == |ordered|
    ensures found <==> exists i :: 0 <= i < |ordered| && !ordered[i]
    ensures found ==> host < |ordered| && !ordered[host]
    ensures found ==> forall i :: 0 <= i < |ordered| && !ordered[i] ==>
              ancestors[i] <= ancestors[host] && (i < host ==> ancestors[i] < ancestors[host])
  {
    host, found := 0, false;
    var maxAncestors: int := -1;
    for i := 0 to |ancestors|
      invariant found <==> maxAncestors >= 0
      invariant found ==> host < i && !ordered[host] && maxAncestors == ancestors[host]
      invariant forall k :: 0 <= k < i && !ordered[k] ==>
        found && ancestors[k] <= maxAncestors && (k < host ==> ancestors[k] < maxAncestors)
    {
      if ancestors[i] > maxAncestors && !ordered[i] {
        maxAncestors, host, found := ancestors[i], i, true;
      }
    }
  }

  /** The event of b in the cut p sent a message that event e of a received. */
  ghost predicate SentTo(s: Sys, p: Clock, b: nat, a: nat, e: nat)
    requires InRange(s)
  {
    Ticks(p, b) >= 1 && Pairs(s, b, Ticks(p, b) - 1, a, e)
  }

  /** The event of b in the cut p sent a message that a received. */
  ghost predicate Link(s: Sys, p: Clock, b: nat, a: nat)
    requires InRange(s)
  {
    exists e: nat :: SentTo(s, p, b, a, e)
  }

  /** The same, and the receive lies inside the cut. */
  ghost predicate LinkInside(s: Sys, p: Clock, b: nat, a: nat)
    requires InRange(s)
  {
    exists e: nat :: SentTo(s, p, b, a, e) && e < Ticks(p, a)
  }

  /** No open host sent anything to a. */
  ghost predicate NoneOpenSent(s: Sys, p: Clock, ordered: seq<bool>, a: nat)
    requires InRange(s)
  {
    forall b: nat, e: nat :: b < |ordered| && !ordered[b] && b != a ==> !SentTo(s, p, b, a, e)
  }

  /** What x sent to a was received no earlier than what any open host sent to a, and later than what one with a
      lower number sent. */
  ghost predicate LatestOpen(s: Sys, p: Clock, ordered: seq<bool>, a: nat, x: nat)
    requires InRange(s)
  {
    forall b: nat, e: nat, f: nat ::
      b < |ordered| && !ordered[b] && b != a && SentTo(s, p, b, a, e) && SentTo(s, p, x, a, f) ==>
        e <= f && (b < x ==> e < f)
  }

  /** findSenderInCut: the unordered host whose event in the cut was received last by the given one. */
  method FindSenderInCut(cut: seq<Clock>, logs: Logs, ordered: seq<bool>, receiver: nat, ghost s: Sys, ghost p: Clock)
    returns (sender: nat, found: bool)
    requires Good(s) && s.logs == logs && Consistent(logs, p) && cut == CutOf(logs, p) && |ordered| == |logs|
    ensures InRange(s)
    ensures found ==> sender < |logs| && !ordered[sender] && sender != receiver && Link(s, p, sender, receiver)
    ensures !found ==> NoneOpenSent(s, p, ordered, receiver)
    ensures found ==> LatestOpen(s, p, ordered, receiver, sender)
  {
    hide Good, Pairs, Candidate, Least;
    GoodRange(s);
    GoodWellFormed(s);
    sender, found := 0, false;
    var newestEvent: int := -1;
    for b := 0 to |cut|
      invariant found <==> newestEvent >= 0
      invariant found ==> sender < b && !ordered[sender] && sender != receiver
      invariant found ==> SentTo(s, p, sender, receiver, newestEvent)
      invariant found ==> forall f: nat :: SentTo(s, p, sender, receiver, f) ==> f == newestEvent
      invariant forall k, e: nat :: 0 <= k < b && !ordered[k] && k != receiver && SentTo(s, p, k, receiver, e) ==>
        found && e <= newestEvent && (k < sender ==> e < newestEvent)
    {
      if b != receiver && !ordered[b] {
        assert Allowed(logs, p, b);
        WellFormedAscends(logs, b);
        OwnTime(logs, b, Ticks(p, b));
        var matchedReceiver, event, matched := MatchSendAndReceive(cut[b], logs, b);
        MatcherFindsPairs(s, b, Ticks(p, b) - 1, Ticks(p, b), matchedReceiver, event, matched);
        if matched && matchedReceiver == receiver && event > newestEvent {
          newestEvent, sender, found := event, b, true;
        }
      }
    }
  }

  /** Position k of chain c. */
  predicate Place(ordering: seq<seq<nat>>, c: nat, k: nat) {
    c < |ordering| && k < |ordering[c]|
  }

  /** Exactly the ordered hosts stand in the chains, each in one place; neighbours are receiver and sender. */
  ghost predicate Chains(s: Sys, p: Clock, ordering: seq<seq<nat>>, ordered: seq<bool>) {
    && InRange(s) && |ordered| == |s.logs|
    && (forall c: nat, k: nat :: Place(ordering, c, k) ==> ordering[c][k] < |ordered| && ordered[ordering[c][k]])
    && (forall h :: 0 <= h < |ordered| && ordered[h] ==> exists c: nat,
      k: nat :: Place(ordering, c, k) && ordering[c][k] == h)
    && (forall c: nat, k: nat, d: nat,
      l: nat :: Place(ordering, c, k) && Place(ordering, d, l) && ordering[c][k] == ordering[d][l] ==> c == d && k == l)
    && (forall c: nat, k: nat, l: nat :: Place(ordering, c, k) && Place(ordering, c, l) && l == k + 1 ==>
          Link(s, p, ordering[c][l], ordering[c][k]))
  }

  /** Host b does not stand at place k of chain c or before it. */
  ghost predicate Later(ordering: seq<seq<nat>>, c: nat, k: int, b: nat) {
    forall d: nat, m: nat :: Place(ordering, d, m) && (d < c || (d == c && m <= k)) ==> ordering[d][m] != b
  }

  /** The head of chain c is the first host with the most ancestors of all hosts that are left for it. */
  ghost predicate HeadChosen(cut: seq<Clock>, ordering: seq<seq<nat>>, c: nat) {
    && Place(ordering, c, 0) && ordering[c][0] < |cut|
    && forall b: nat :: b < |cut| && Later(ordering, c, -1, b) ==>
         MoreAncestors(cut, b, ordering[c][0])
  }

  /** Host x has at least as many ancestors as b, and more than b when b has the lower number. */
  ghost predicate MoreAncestors(cut: seq<Clock>, b: nat, x: nat)
    requires b < |cut| && x < |cut|
  {
    var before, after := Ancestors(cut, b, |cut|), Ancestors(cut, x, |cut|);
    before <= after && (b < x ==> before < after)
  }

  /** Of all hosts left, x is the first one to have sent the message that the host at place k of chain c received
      last. */
  ghost predicate LatestSender(s: Sys, p: Clock, ordering: seq<seq<nat>>, c: nat, k: nat, x: nat)
    requires InRange(s)
  {
    && Place(ordering, c, k)
    && forall b: nat, e: nat, f: nat ::
         (b < |s.logs| && Later(ordering, c, k, b) && SentTo(s, p, b, ordering[c][k], e) &&
          SentTo(s, p, x, ordering[c][k], f)) ==> e <= f && (b < x ==> e < f)
  }

  /** No host left sent anything to the last host of chain c. */
  ghost predicate NoSender(s: Sys, p: Clock, ordering: seq<seq<nat>>, c: nat)
    requires InRange(s)
  {
    && c < |ordering| && ordering[c] != []
    && var k := |ordering[c]| - 1;
       forall b: nat, e: nat :: b < |s.logs| && Later(ordering, c, k, b) ==> !SentTo(s, p, b, ordering[c][k], e)
  }

  /** Every choice was the right one, and the first done chains go on as long as they can. */
  ghost predicate Greedy(s: Sys, p: Clock, cut: seq<Clock>, ordering: seq<seq<nat>>, done: nat)
    requires InRange(s)
  {
    && (forall c: nat :: c < |ordering| ==> HeadChosen(cut, ordering, c))
    && (forall c: nat, k: nat, l: nat :: Place(ordering, c, k) && Place(ordering, c, l) && l == k + 1 ==>
          LatestSender(s, p, ordering, c, k, ordering[c][l]))
    && (forall c: nat :: c < done && c < |ordering| ==> NoSender(s, p, ordering, c))
  }

  /** What totalOrderFromCut is to deliver. */
  ghost predicate OrderOf(s: Sys, p: Clock, cut: seq<Clock>, ordering: seq<seq<nat>>) {
    && Chains(s, p, ordering, seq(|s.logs|, _ => true))
    && (forall c :: 0 <= c < |ordering| ==> ordering[c] != [])
    && Greedy(s, p, cut, ordering, |ordering|)
  }

  /** One more host stands at the very end. */
  ghost predicate Appended(ordering: seq<seq<nat>>, o: seq<seq<nat>>) {
    && (forall c: nat, k: nat :: Place(ordering, c, k) ==> Place(o, c, k) && o[c][k] == ordering[c][k])
    && (forall c: nat, k: nat :: Place(o, c, k) && !Place(ordering, c, k) ==> c == |o| - 1 && k == |o[c]| - 1)
  }

  lemma LaterKept(ordering: seq<seq<nat>>, o: seq<seq<nat>>, c: nat, k: int)
    requires Appended(ordering, o) && c < |ordering| <= |o| && -1 <= k < |ordering[c]| && ordering[c] != []
    ensures forall b: nat :: Later(o, c, k, b) <==> Later(ordering, c, k, b)
  {
    forall d: nat, m: nat | Place(o, d, m) && (d < c || (d == c && m <= k))
      ensures Place(ordering, d, m)
    {
      assert Place(ordering, c, 0) && (k >= 0 ==> Place(ordering, c, k));
    }
  }

  /** Choices made stay right when a host is added at the end. */
  lemma GreedyKept(s: Sys, p: Clock, cut: seq<Clock>, ordering: seq<seq<nat>>, o: seq<seq<nat>>, done: nat)
    requires InRange(s) && Greedy(s, p, cut, ordering, done) && Appended(ordering, o) && |ordering| <= |o|
    requires forall c :: 0 <= c < |ordering| ==> ordering[c] != []
    requires forall c :: 0 <= c < done && c < |ordering| ==> o[c] == ordering[c]
    ensures forall c: nat :: c < |ordering| ==> HeadChosen(cut, o, c)
    ensures forall c: nat, k: nat, l: nat :: Place(ordering, c, k) && Place(ordering, c, l) && l == k + 1 ==>
              LatestSender(s, p, o, c, k, o[c][l])
    ensures forall c: nat :: c < done && c < |ordering| ==> NoSender(s, p, o, c)
  {
    hide SentTo, MoreAncestors;
    forall c: nat | c < |ordering|
      ensures HeadChosen(cut, o, c)
    {
      LaterKept(ordering, o, c, -1);
      assert HeadChosen(cut, ordering, c);
    }
    forall c: nat, k: nat, l: nat | Place(ordering, c, k) && Place(ordering, c, l) && l == k + 1
      ensures LatestSender(s, p, o, c, k, o[c][l])
    {
      LaterKept(ordering, o, c, k);
      assert LatestSender(s, p, ordering, c, k, ordering[c][l]);
    }
    forall c: nat | c < done && c < |ordering|
      ensures NoSender(s, p, o, c)
    {
      LaterKept(ordering, o, c, |ordering[c]| - 1);
      assert NoSender(s, p, ordering, c);
    }
  }

  /** After the last place, later means not ordered yet. */
  lemma LaterIsOpen(s: Sys, p: Clock, ordering: seq<seq<nat>>, ordered: seq<bool>, c: nat, k: int, b: nat)
    requires Chains(s, p, ordering, ordered) && b < |ordered| && Later(ordering, c, k, b)
    requires c >= |ordering| || (c == |ordering| - 1 && k >= |ordering[c]| - 1)
    ensures !ordered[b]
  {
    assert forall d: nat, m: nat :: Place(ordering, d, m) ==> ordering[d][m] != b;
  }

  /** Whoever stands after the last place is open. */
  lemma AfterLast(s: Sys, p: Clock, ordering: seq<seq<nat>>, ordered: seq<bool>, k: nat)
    requires Chains(s, p, ordering, ordered) && |ordering| > 0 && k + 1 == |ordering[|ordering| - 1]|
    ensures var m := |ordering| - 1;
      forall b: nat :: b < |ordered| && Later(ordering, m, k, b) ==> !ordered[b] && b != ordering[m][k]
  {
    var m := |ordering| - 1;
    assert Place(ordering, m, k);
    forall b: nat | b < |ordered| && Later(ordering, m, k, b)
      ensures !ordered[b]
    {
      LaterIsOpen(s, p, ordering, ordered, m, k, b);
    }
  }

  lemma AppendedStart(ordering: seq<seq<nat>>, host: nat)
    ensures Appended(ordering, ordering + [[host]])
  {
  }

  lemma AppendedExtend(ordering: seq<seq<nat>>, sender: nat)
    requires |ordering| > 0
    ensures var m := |ordering| - 1; Appended(ordering, ordering[m := ordering[m] + [sender]])
  {
  }

  /** A new chain is started by a host with the most ancestors. */
  lemma HeadIsChosen(s: Sys, p: Clock, cut: seq<Clock>, ordering: seq<seq<nat>>, ordered: seq<bool>, host: nat)
    requires Chains(s, p, ordering, ordered) && |cut| == |ordered| && host < |cut|
    requires forall b :: 0 <= b < |cut| && !ordered[b] ==> MoreAncestors(cut, b, host)
    ensures HeadChosen(cut, ordering + [[host]], |ordering|)
  {
    hide MoreAncestors, Chains;
    var o, c := ordering + [[host]], |ordering|;
    assert Place(o, c, 0);
    forall b: nat | b < |cut| && Later(o, c, -1, b)
      ensures !ordered[b]
    {
      assert forall d: nat, m: nat :: Place(ordering, d, m) ==> Place(o, d, m) && o[d][m] == ordering[d][m];
      LaterIsOpen(s, p, ordering, ordered, c, -1, b);
    }
  }

  lemma GreedyStart(s: Sys, p: Clock, cut: seq<Clock>, ordering: seq<seq<nat>>, ordered: seq<bool>, host: nat)
    requires Chains(s, p, ordering, ordered) && Greedy(s, p, cut, ordering, |ordering|) && |cut| == |ordered|
    requires (forall c :: 0 <= c < |ordering| ==> ordering[c] != []) && host < |cut|
    requires forall b :: 0 <= b < |cut| && !ordered[b] ==> MoreAncestors(cut, b, host)
    ensures Greedy(s, p, cut, ordering + [[host]], |ordering|)
  {
    ChainsShape(s, p, ordering, ordered);
    hide Chains, HeadChosen, LatestSender, NoSender, Appended, MoreAncestors, Later;
    var o := ordering + [[host]];
    AppendedStart(ordering, host);
    GreedyKept(s, p, cut, ordering, o, |ordering|);
    HeadIsChosen(s, p, cut, ordering, ordered, host);
    assert forall c: nat, k: nat :: Place(o, c, k) ==> Place(ordering, c, k) || (c == |ordering| && k == 0);
  }

  /** The last chain is continued by the latest sender. */
  lemma SenderIsLatest(s: Sys, p: Clock, ordering: seq<seq<nat>>, ordered: seq<bool>, sender: nat, k: nat)
    requires Chains(s, p, ordering, ordered) && |ordering| > 0 && k + 1 == |ordering[|ordering| - 1]|
    requires LatestOpen(s, p, ordered, ordering[|ordering| - 1][k], sender)
    ensures var m := |ordering| - 1; LatestSender(s, p, ordering[m := ordering[m] + [sender]], m, k, sender)
  {
    ChainsShape(s, p, ordering, ordered);
    var m := |ordering| - 1;
    var o := ordering[m := ordering[m] + [sender]];
    AppendedExtend(ordering, sender);
    LaterKept(ordering, o, m, k);
    AfterLast(s, p, ordering, ordered, k);
    hide Chains, SentTo, Later, Appended;
    assert Place(o, m, k) && o[m][k] == ordering[m][k];
  }

  lemma GreedyExtend(s: Sys, p: Clock, cut: seq<Clock>, ordering: seq<seq<nat>>, ordered: seq<bool>, sender: nat,
    k: nat)
    requires Chains(s, p, ordering, ordered) && |ordering| > 0 && Greedy(s, p, cut, ordering, |ordering| - 1)
    requires (forall c :: 0 <= c < |ordering| ==> ordering[c] != []) && k + 1 == |ordering[|ordering| - 1]|
    requires LatestOpen(s, p, ordered, ordering[|ordering| - 1][k], sender)
    ensures var m := |ordering| - 1; Greedy(s, p, cut, ordering[m := ordering[m] + [sender]], m)
  {
    ChainsShape(s, p, ordering, ordered);
    hide Chains, HeadChosen, LatestSender, NoSender, LatestOpen, Appended;
    var m := |ordering| - 1;
    var o := ordering[m := ordering[m] + [sender]];
    AppendedExtend(ordering, sender);
    GreedyKept(s, p, cut, ordering, o, m);
    SenderIsLatest(s, p, ordering, ordered, sender, k);
    assert forall c: nat, l: nat :: Place(o, c, l) ==>
      Place(ordering, c, l) || (c == m && l == k + 1 && o[c][l] == sender);
  }

  lemma ChainsShape(s: Sys, p: Clock, ordering: seq<seq<nat>>, ordered: seq<bool>)
    requires Chains(s, p, ordering, ordered)
    ensures InRange(s) && |ordered| == |s.logs|
  {
  }

  /** The last chain ends where nobody left sent anything. */
  lemma GreedyEnd(s: Sys, p: Clock, cut: seq<Clock>, ordering: seq<seq<nat>>, ordered: seq<bool>, k: nat)
    requires Chains(s, p, ordering, ordered) && |ordering| > 0 && Greedy(s, p, cut, ordering, |ordering| - 1)
    requires k + 1 == |ordering[|ordering| - 1]| && NoneOpenSent(s, p, ordered, ordering[|ordering| - 1][k])
    ensures Greedy(s, p, cut, ordering, |ordering|)
  {
    ChainsShape(s, p, ordering, ordered);
    AfterLast(s, p, ordering, ordered, k);
    hide SentTo, Chains, HeadChosen, LatestSender, Later;
    assert NoSender(s, p, ordering, |ordering| - 1);
  }

  /** The hosts that are not in a chain yet. */
  function Open(ordered: seq<bool>): (r: set<nat>)
    ensures forall h: nat :: h in r <==> h < |ordered| && !ordered[h]
  {
    set h: nat | h < |ordered| && !ordered[h]
  }

  /** totalOrderFromCut: the chains partition the hosts, links are matched sends and receives, each chain starts
      with the most ancestors, goes on with the latest sender and ends where nobody left sent anything. */
  method TotalOrderFromCut(cut: seq<Clock>, logs: Logs, ghost s: Sys, ghost p: Clock) returns (ordering: seq<seq<nat>>)
    requires Good(s) && s.logs == logs && Consistent(logs, p) && cut == CutOf(logs, p)
    ensures OrderOf(s, p, cut, ordering)
  {
    hide Good, Consistent, Chains, Greedy, SentTo, Ancestors, LatestOpen, NoneOpenSent;
    GoodRange(s);
    var ordered := seq(|cut|, _ => false);
    var ancestors := CountAncestors(cut);
    ordering := [];
    NoChains(s, p, cut, ordered);
    while true
      invariant |ordered| == |logs| && Chains(s, p, ordering, ordered) && Greedy(s, p, cut, ordering, |ordering|)
      invariant forall c :: 0 <= c < |ordering| ==> ordering[c] != []
      decreases Open(ordered)
    {
      ghost var before := Open(ordered);
      var host, found := FindUnorderedHost(ancestors, ordered);
      if !found {
        break;
      }
      GreedyStart(s, p, cut, ordering, ordered, host);
      StartChain(s, p, ordering, ordered, host);
      ordering := ordering + [[host]];
      ordered := ordered[host := true];
      assert host in before && host !in Open(ordered);
      var root := host;
      while true
        invariant |ordered| == |logs| && Chains(s, p, ordering, ordered) && Open(ordered) < before
        invariant forall c :: 0 <= c < |ordering| ==> ordering[c] != []
        invariant |ordering| > 0 && Greedy(s, p, cut, ordering, |ordering| - 1)
        invariant var last := ordering[|ordering| - 1]; last != [] && last[|last| - 1] == root
        decreases Open(ordered)
      {
        ghost var inner := Open(ordered);
        var sender, more := FindSenderInCut(cut, logs, ordered, root, s, p);
        if !more {
          GreedyEnd(s, p, cut, ordering, ordered, |ordering[|ordering| - 1]| - 1);
          break;
        }
        GreedyExtend(s, p, cut, ordering, ordered, sender, |ordering[|ordering| - 1]| - 1);
        ExtendChain(s, p, ordering, ordered, sender);
        var last := ordering[|ordering| - 1];
        ordering := ordering[|ordering| - 1 := last + [sender]];
        ordered := ordered[sender := true];
        assert sender in inner && sender !in Open(ordered);
        root := sender;
      }
    }
    assert ordered == seq(|logs|, _ => true);
  }

  lemma NoChains(s: Sys, p: Clock, cut: seq<Clock>, ordered: seq<bool>)
    requires InRange(s) && |ordered| == |s.logs| && forall h :: 0 <= h < |ordered| ==> !ordered[h]
    ensures Chains(s, p, [], ordered) && Greedy(s, p, cut, [], 0)
  {
  }

  /** o is ordering with x at the new place k of chain c, the last of its chain. */
  ghost predicate AddedAt(ordering: seq<seq<nat>>, o: seq<seq<nat>>, c: nat, k: nat, x: nat) {
    && Place(o, c, k) && o[c][k] == x
    && (forall d: nat, m: nat :: Place(o, d, m) <==> Place(ordering, d, m) || (d == c && m == k))
    && (forall d: nat, m: nat :: Place(ordering, d, m) ==> o[d][m] == ordering[d][m] && (d == c ==> m < k))
  }

  lemma AddHost(
    s: Sys, p: Clock, ordering: seq<seq<nat>>, ordered: seq<bool>, o: seq<seq<nat>>, c: nat, k: nat, x: nat)
    requires Chains(s, p, ordering, ordered) && AddedAt(ordering, o, c, k, x) && x < |ordered| && !ordered[x]
    requires k > 0 ==> Place(o, c, k - 1) && Link(s, p, x, o[c][k - 1])
    ensures Chains(s, p, o, ordered[x := true])
  {
    hide Link, InRange;
    forall h | 0 <= h < |ordered| && (ordered[h] || h == x)
      ensures exists d: nat, m: nat :: Place(o, d, m) && o[d][m] == h
    {
      if h == x {
        assert Place(o, c, k) && o[c][k] == h;
      } else {
        var d: nat, m: nat :| Place(ordering, d, m) && ordering[d][m] == h;
        assert Place(o, d, m) && o[d][m] == h;
      }
    }
    assert forall d: nat, m: nat :: Place(ordering, d, m) ==> ordering[d][m] != x;
  }

  lemma StartChain(s: Sys, p: Clock, ordering: seq<seq<nat>>, ordered: seq<bool>, host: nat)
    requires Chains(s, p, ordering, ordered) && host < |ordered| && !ordered[host]
    ensures Chains(s, p, ordering + [[host]], ordered[host := true])
  {
    hide Chains;
    AddHost(s, p, ordering, ordered, ordering + [[host]], |ordering|, 0, host);
  }

  lemma ExtendChain(s: Sys, p: Clock, ordering: seq<seq<nat>>, ordered: seq<bool>, sender: nat)
    requires Chains(s, p, ordering, ordered) && |ordering| > 0 && ordering[|ordering| - 1] != []
    requires sender < |ordered| && !ordered[sender]
    requires var last := ordering[|ordering| - 1]; Link(s, p, sender, last[|last| - 1])
    ensures Chains(s, p, ordering[|ordering| - 1 := ordering[|ordering| - 1] + [sender]], ordered[sender := true])
  {
    hide Chains, Link;
    var m, last := |ordering| - 1, ordering[|ordering| - 1];
    AddHost(s, p, ordering, ordered, ordering[m := last + [sender]], m, |last|, sender);
  }

  /** Every link of every chain is received inside the cut. */
  ghost predicate LinksInside(s: Sys, p: Clock, ordering: seq<seq<nat>>)
    requires InRange(s)
  {
    forall c: nat, k: nat, l: nat :: Place(ordering, c, k) && Place(ordering, c, l) && l == k + 1 ==>
      LinkInside(s, p, ordering[c][l], ordering[c][k])
  }

  /** In a mined cut they all are. */
  lemma QuietLinksInside(s: Sys, p: Clock, ordering: seq<seq<nat>>, ordered: seq<bool>)
    requires Chains(s, p, ordering, ordered) && NothingInFlight(s, p)
    ensures LinksInside(s, p, ordering)
  {
    hide Pairs;
    forall c: nat, k: nat, l: nat | Place(ordering, c, k) && Place(ordering, c, l) && l == k + 1
      ensures LinkInside(s, p, ordering[c][l], ordering[c][k])
    {
      var a, b := ordering[c][k], ordering[c][l];
      assert Link(s, p, b, a);
      var e: nat :| SentTo(s, p, b, a, e);
      var q := Pair(b, Ticks(p, b) - 1, a, e);
      assert Pairs(s, q.i, q.j, q.r, q.e) && SentIn(p, q);
      assert ReceivedIn(p, q);
    }
  }
}
