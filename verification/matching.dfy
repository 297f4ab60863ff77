/** Searching logs by one host's time, and pairing sends with receives by it. */
module Matching {
  import opened Clocks
  import opened Runs

  ghost predicate Ascending(log: seq<Clock>, id: nat) {
    forall i, j :: 0 <= i <= j < |log| ==> Ticks(log[i], id) <= Ticks(log[j], id)
  }

  /** searchClockById: binary search; without a match, the index next to where one would be. */
  method SearchClockById(log: seq<Clock>, key: Clock, id: nat) returns (found: bool, index: nat)
    ensures if |log| == 0 then !found && index == 0 else index < |log|
    ensures found ==> Ticks(log[index], id) == Ticks(key, id)
    ensures !found && Ascending(log, id) ==> forall j :: 0 <= j < |log| ==> Ticks(log[j], id) != Ticks(key, id)
    ensures !found && Ascending(log, id) ==> forall j :: 0 <= j < index ==> Ticks(log[j], id) < Ticks(key, id)
    ensures !found && Ascending(log, id) ==> forall j :: index < j < |log| ==> Ticks(log[j], id) > Ticks(key, id)
  {
    var min, max: int := 0, |log| - 1;
    index := 0;
    while max >= min
      invariant 0 <= min <= max + 1 <= |log|
      invariant if |log| == 0 then index == 0 else index < |log|
      invariant Ascending(log, id) ==> forall j :: 0 <= j < min ==> Ticks(log[j], id) < Ticks(key, id)
      invariant Ascending(log, id) ==> forall j :: max < j < |log| ==> Ticks(log[j], id) > Ticks(key, id)
      invariant (min == 0 && max == |log| - 1) || index == min - 1 || index == max + 1
    {
      index := min + (max - min) / 2;
      var a, b := Ticks(log[index], id), Ticks(key, id);
      if a == b {
        return true, index;
      } else if a < b {
        min := index + 1;
      } else {
        max := index - 1;
      }
    }
    found := false;
  }

  /** The earliest event of host r that knows exactly time t of host g. */
  ghost predicate Candidate(logs: Logs, g: nat, t: nat, r: nat, e: nat) {
    && r < |logs| && r != g && e < |logs[r]| && Ticks(logs[r][e], g) == t
    && (forall j :: 0 <= j < e ==> Ticks(logs[r][j], g) != t)
  }

  /** A candidate that precedes every other host's. */
  ghost predicate Least(logs: Logs, g: nat, t: nat, r: nat, e: nat) {
    && Candidate(logs, g, t, r, e)
    && (forall x: nat, y: nat :: Candidate(logs, g, t, x, y) && x != r ==> Precedes(logs[r][e], logs[x][y]))
  }

  ghost predicate AllAscending(logs: Logs, g: nat) {
    forall i :: 0 <= i < |logs| ==> Ascending(logs[i], g)
  }

  /** matchSendAndReceive: among the hosts' earliest events that know the sender's time exactly,
      the one before all others, when there is such a one. */
  method MatchSendAndReceive(sender: Clock, logs: Logs, id: nat) returns (receiver: int, event: int, matched: bool)
    requires AllAscending(logs, id)
    ensures matched <==> exists r: nat, e: nat :: Candidate(logs, id, Ticks(sender, id), r, e)
    ensures matched ==> 0 <= receiver && 0 <= event && Candidate(logs, id, Ticks(sender, id), receiver, event)
    ensures forall r: nat, e: nat :: Least(logs, id, Ticks(sender, id), r, e) ==> matched && receiver == r && event == e
  {
    var t := Ticks(sender, id);
    receiver, event, matched := -1, -1, false;
    var receiveClock: Clock := map[];
    for i := 0 to |logs|
      invariant matched <==> receiver >= 0
      invariant !matched ==> forall r: nat, e: nat :: r < i ==> !Candidate(logs, id, t, r, e)
      invariant matched ==> 0 <= receiver < i && 0 <= event && Candidate(logs, id, t, receiver, event)
      invariant matched ==> receiveClock == logs[receiver][event]
      invariant forall r: nat, e: nat :: Least(logs, id, t, r, e) && r < i ==> receiver == r && event == e
    {
      if i != id {
        var found, at := EarliestById(logs[i], sender, id);
        if found && (receiver < 0 || Precedes(logs[i][at], receiveClock)) {
          receiveClock := logs[i][at];
          receiver, event, matched := i, at, true;
        }
      }
    }
  }

  /** The binary search followed by the backtracking to the earliest clock with the same time. */
  method EarliestById(log: seq<Clock>, key: Clock, id: nat) returns (found: bool, event: nat)
    requires Ascending(log, id)
    ensures found ==> event < |log| && Ticks(log[event], id) == Ticks(key, id)
    ensures found ==> forall j :: 0 <= j < event ==> Ticks(log[j], id) != Ticks(key, id)
    ensures !found ==> forall j :: 0 <= j < |log| ==> Ticks(log[j], id) != Ticks(key, id)
  {
    found, event := SearchClockById(log, key, id);
    if found {
      while event > 0
        invariant event < |log| && Ticks(log[event], id) == Ticks(key, id)
        decreases event
      {
        if Ticks(log[event], id) == Ticks(log[event - 1], id) {
          event := event - 1;
        } else {
          break;
        }
      }
    }
  }

  lemma WellFormedAscends(logs: Logs, g: nat)
    requires WellFormed(logs)
    ensures AllAscending(logs, g)
  {
    forall h, i, j | 0 <= h < |logs| && 0 <= i <= j < |logs[h]|
      ensures Ticks(logs[h][i], g) <= Ticks(logs[h][j], g)
    {
      assert IsEvent(logs, h, i + 1) && IsEvent(logs, h, j + 1);
      assert Leq(At(logs, h, i + 1), At(logs, h, j + 1));
    }
  }

  /** Whoever knows time t of g exactly has it from the one message that brought it as news. */
  lemma CandidateIsNews(s: Sys, g: nat, t: nat, r: nat, e: nat) returns (k: nat)
    requires Good(s) && t > 0 && r < |s.logs| && r != g && e < |s.logs[r]| && Ticks(s.logs[r][e], g) == t
    ensures News(s, k) && s.msgs[k].from == g && s.msgs[k].sent == t
    ensures Leq(At(s.logs, s.msgs[k].to, s.msgs[k].recv), s.logs[r][e])
  {
    assert IsEvent(s.logs, r, e + 1) && At(s.logs, r, e + 1) == s.logs[r][e];
    assert Origin(s, r, e + 1, g);
    k :| OriginBy(s, r, e + 1, g, k);
  }

  /** A message is known by its send event. */
  lemma SameSend(s: Sys, k: nat, l: nat)
    requires Messages(s) && k < |s.msgs| && l < |s.msgs| && s.msgs[k].from == s.msgs[l].from &&
      s.msgs[k].sent == s.msgs[l].sent
    ensures k == l
  {
  }

  /** Two events of different hosts are never simultaneous. */
  lemma NotSameTime(logs: Logs, r: nat, u: nat, x: nat, v: nat)
    requires WellFormed(logs) && IsEvent(logs, r, u) && IsEvent(logs, x, v) && r != x
    ensures !SameTime(At(logs, r, u), At(logs, x, v))
  {
    assert Ticks(At(logs, x, v), x) == v && Ticks(At(logs, r, u), r) == u;
    assert Ticks(At(logs, r, u), x) > 0 ==> KnownEvent(logs, r, u, x);
  }

  /** The receive of a message that is news is the least candidate for its send time. */
  lemma NewsIsLeast(s: Sys, k: nat)
    requires Good(s) && News(s, k)
    ensures s.msgs[k].recv >= 1 && Least(s.logs, s.msgs[k].from, s.msgs[k].sent, s.msgs[k].to, s.msgs[k].recv - 1)
  {
    hide Origins, Monotone, CausallyClosed, Initialised;
    var m := s.msgs[k];
    var g, t, r, u := m.from, m.sent, m.to, m.recv;
    forall e | 0 <= e < |s.logs[r]| && Ticks(s.logs[r][e], g) == t
      ensures e >= u - 1
    {
      var l := CandidateIsNews(s, g, t, r, e);
      SameSend(s, k, l);
      assert Ticks(At(s.logs, r, u), r) == u && Ticks(At(s.logs, r, e + 1), r) == e + 1;
    }
    forall x: nat, y: nat | Candidate(s.logs, g, t, x, y) && x != r
      ensures Precedes(s.logs[r][u - 1], s.logs[x][y])
    {
      var l := CandidateIsNews(s, g, t, x, y);
      SameSend(s, k, l);
      NotSameTime(s.logs, r, u, x, y + 1);
      PrecedesMeans(s.logs[r][u - 1], s.logs[x][y]);
    }
  }

  /** The pairing that the logs hold: the j-th event of host i sent a message that was received,
      as news, by event e of host r. */
  ghost predicate Pairs(s: Sys, i: nat, j: nat, r: nat, e: nat)
    requires InRange(s)
  {
    exists k: nat :: News(s, k) && s.msgs[k].from == i && s.msgs[k].sent == j + 1 && s.msgs[k].to == r &&
      s.msgs[k].recv == e + 1
  }

  /** On the logs of any run, the matcher finds exactly that pairing. */
  lemma MatcherFindsPairs(s: Sys, i: nat, j: nat, t: nat, receiver: int, event: int, matched: bool)
    requires Good(s) && i < |s.logs| && j < |s.logs[i]| && t == j + 1
    requires matched <==> exists r: nat, e: nat :: Candidate(s.logs, i, t, r, e)
    requires forall r: nat, e: nat :: Least(s.logs, i, t, r, e) ==> matched && receiver == r && event == e
    ensures matched ==> 0 <= receiver < |s.logs| && 0 <= event < |s.logs[receiver]|
    ensures forall r: nat, e: nat :: Pairs(s, i, j, r, e) <==> matched && receiver == r && event == e
  {
    hide Good;
    GoodRange(s);
    if matched {
      var r, e :| Candidate(s.logs, i, t, r, e);
      var k := CandidateIsNews(s, i, t, r, e);
      NewsIsLeast(s, k);
      assert Pairs(s, i, j, s.msgs[k].to, s.msgs[k].recv - 1);
    }
    forall r: nat, e: nat | Pairs(s, i, j, r, e)
      ensures matched && receiver == r && event == e
    {
      var k: nat :| News(s, k) && s.msgs[k].from == i && s.msgs[k].sent == j + 1 && s.msgs[k].to == r &&
        s.msgs[k].recv == e + 1;
      NewsIsLeast(s, k);
    }
  }

  /** In causally ordered runs the pairing is simply: sent and received. */
  lemma CausalPairs(s: Sys, i: nat, j: nat, r: nat, e: nat)
    requires Good(s) && Unheard(s)
    ensures Pairs(s, i, j, r, e) <==> Msg(i, j + 1, r, e + 1) in s.msgs
  {
    hide Good;
    GoodRange(s);
    if Msg(i, j + 1, r, e + 1) in s.msgs {
      var k :| 0 <= k < |s.msgs| && s.msgs[k] == Msg(i, j + 1, r, e + 1);
      assert News(s, k);
    }
    if Pairs(s, i, j, r, e) {
      var k: nat :| News(s, k) && s.msgs[k].from == i && s.msgs[k].sent == j + 1 && s.msgs[k].to == r &&
        s.msgs[k].recv == e + 1;
      assert s.msgs[k] == Msg(i, j + 1, r, e + 1);
    }
  }
}
