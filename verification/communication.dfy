/** Send-minus-receive counts along the logs, and what their sum over a cut means. */
module Communication {
  import opened Clocks
  import opened Runs
  import opened Matching
  import opened ConsistentCuts

  type Table = seq<seq<int>>

  /** The first j entries of a row, added up. */
  function RowSum(row: seq<int>, j: nat): int
    requires j <= |row|
  {
    if j == 0 then 0 else RowSum(row, j - 1) + row[j - 1]
  }

  lemma {:induction false} RowSumBump(row: seq<int>, e: nat, d: int, j: nat)
    requires e < |row| && j <= |row|
    ensures RowSum(row[e := row[e] + d], j) == RowSum(row, j) + if e < j then d else 0
  {
    if j > 0 {
      RowSumBump(row, e, d, j - 1);
    }
  }

  /** A table shaped like the logs, and a point that stays within them. */
  ghost predicate Shaped(logs: Logs, delta: Table) {
    |delta| == |logs| && forall h :: 0 <= h < |logs| ==> |delta[h]| == |logs[h]|
  }

  ghost predicate Within(logs: Logs, p: Clock) {
    forall h :: 0 <= h < |logs| ==> Ticks(p, h) <= |logs[h]|
  }

  /** What the first n hosts have sent minus received, each up to its time in p. */
  ghost function CutSum(logs: Logs, delta: Table, p: Clock, n: nat): int
    requires Shaped(logs, delta) && Within(logs, p) && n <= |logs|
  {
    if n == 0 then 0 else CutSum(logs, delta, p, n - 1) + RowSum(delta[n - 1], Ticks(p, n - 1))
  }

  function Bump(delta: Table, i: nat, j: nat, d: int): Table
    requires i < |delta| && j < |delta[i]|
  {
    delta[i := delta[i][j := delta[i][j] + d]]
  }

  lemma {:induction false} CutSumBump(logs: Logs, delta: Table, i: nat, j: nat, d: int, p: Clock, n: nat)
    requires Shaped(logs, delta) && Within(logs, p) && n <= |logs| && i < |logs| && j < |logs[i]|
    ensures Shaped(logs, Bump(delta, i, j, d))
    ensures CutSum(logs, Bump(delta, i, j, d), p, n) == CutSum(logs, delta, p, n) + if i < n &&
      j < Ticks(p, i) then d else 0
  {
    if n > 0 {
      CutSumBump(logs, delta, i, j, d, p, n - 1);
      if i == n - 1 {
        RowSumBump(delta[i], j, d, Ticks(p, i));
      }
    }
  }

  /** A matched send (i, j) and receive (r, e), by host and position in its log. */
  datatype Pair = Pair(i: nat, j: nat, r: nat, e: nat)

  predicate SentIn(p: Clock, q: Pair) {
    q.j < Ticks(p, q.i)
  }

  predicate ReceivedIn(p: Clock, q: Pair) {
    q.e < Ticks(p, q.r)
  }

  /** Sends minus receives of the pairs that fall inside p. */
  function Net(pairs: seq<Pair>, p: Clock): int {
    if pairs == [] then 0
    else
      var q := pairs[|pairs| - 1];
      Net(pairs[..|pairs| - 1], p) + (if SentIn(p, q) then 1 else 0) - (if ReceivedIn(p, q) then 1 else 0)
  }

  /** When nothing is received before it is sent, the net count is the number in flight. */
  lemma {:induction false} NetZero(pairs: seq<Pair>, p: Clock)
    requires forall q :: q in pairs && ReceivedIn(p, q) ==> SentIn(p, q)
    ensures Net(pairs, p) >= 0
    ensures Net(pairs, p) == 0 <==> forall q :: q in pairs && SentIn(p, q) ==> ReceivedIn(p, q)
  {
    if pairs != [] {
      var last, rest := pairs[|pairs| - 1], pairs[..|pairs| - 1];
      assert last in pairs && forall q :: q in rest ==> q in pairs;
      NetZero(rest, p);
      assert forall q :: q in pairs <==> q in rest || q == last;
    }
  }

  lemma NetMore(pairs: seq<Pair>, q: Pair, p: Clock)
    ensures Net(pairs + [q], p) == Net(pairs, p) + (if SentIn(p, q) then 1 else 0) - (if ReceivedIn(p, q) then 1 else 0)
  {
    assert (pairs + [q])[..|pairs|] == pairs;
  }

  /** The table counts the given pairs, over every cut. */
  ghost predicate Counts(logs: Logs, delta: Table, pairs: seq<Pair>) {
    && Shaped(logs, delta)
    && (forall p: Clock :: Within(logs, p) ==> CutSum(logs, delta, p, |logs|) == Net(pairs, p))
  }

  lemma CountsMore(logs: Logs, delta: Table, pairs: seq<Pair>, q: Pair)
    requires Counts(logs, delta, pairs) && q.i < |logs| && q.j < |logs[q.i]| && q.r < |logs| && q.e < |logs[q.r]|
    ensures Counts(logs, Bump(Bump(delta, q.i, q.j, 1), q.r, q.e, -1), pairs + [q])
  {
    var d1 := Bump(delta, q.i, q.j, 1);
    var d2 := Bump(d1, q.r, q.e, -1);
    assert Shaped(logs, d1) && Shaped(logs, d2);
    forall p: Clock | Within(logs, p)
      ensures CutSum(logs, d2, p, |logs|) == Net(pairs + [q], p)
    {
      CutSumBump(logs, delta, q.i, q.j, 1, p, |logs|);
      CutSumBump(logs, d1, q.r, q.e, -1, p, |logs|);
      NetMore(pairs, q, p);
    }
  }

  lemma CountsNone(logs: Logs, delta: Table)
    requires Shaped(logs, delta) && forall h, j :: 0 <= h < |delta| && 0 <= j < |delta[h]| ==> delta[h][j] == 0
    ensures Counts(logs, delta, [])
  {
    forall p: Clock | Within(logs, p)
      ensures CutSum(logs, delta, p, |logs|) == 0
    {
      ZeroSum(logs, delta, p, |logs|);
    }
  }

  lemma {:induction false} ZeroSum(logs: Logs, delta: Table, p: Clock, n: nat)
    requires Shaped(logs, delta) && Within(logs, p) && n <= |logs|
    requires forall h, j :: 0 <= h < |delta| && 0 <= j < |delta[h]| ==> delta[h][j] == 0
    ensures CutSum(logs, delta, p, n) == 0
  {
    if n > 0 {
      ZeroSum(logs, delta, p, n - 1);
      ZeroRow(delta[n - 1], Ticks(p, n - 1));
    }
  }

  lemma {:induction false} ZeroRow(row: seq<int>, j: nat)
    requires j <= |row| && forall i :: 0 <= i < |row| ==> row[i] == 0
    ensures RowSum(row, j) == 0
  {
    if j > 0 {
      ZeroRow(row, j - 1);
    }
  }

  /** fillCommunicationDelta: every entry becomes the running count up to it. */
  method FillCommunicationDelta(commDelta: Table) returns (filled: Table)
    ensures |filled| == |commDelta|
    ensures forall h :: 0 <= h < |filled| ==> |filled[h]| == |commDelta[h]|
    ensures forall h, j :: 0 <= h < |filled| && 0 <= j < |filled[h]| ==> filled[h][j] == RowSum(commDelta[h], j + 1)
  {
    filled := commDelta;
    for i := 0 to |commDelta|
      invariant |filled| == |commDelta|
      invariant forall h :: 0 <= h < |filled| ==> |filled[h]| == |commDelta[h]|
      invariant forall h :: i <= h < |filled| ==> filled[h] == commDelta[h]
      invariant forall h, j :: 0 <= h < i && 0 <= j < |filled[h]| ==> filled[h][j] == RowSum(commDelta[h], j + 1)
    {
      var row := FillRow(filled[i]);
      filled := filled[i := row];
    }
  }

  method FillRow(row0: seq<int>) returns (row: seq<int>)
    ensures |row| == |row0| && forall j :: 0 <= j < |row| ==> row[j] == RowSum(row0, j + 1)
  {
    row := row0;
    var fill := 0;
    for j := 0 to |row0|
      invariant |row| == |row0| && fill == RowSum(row0, j)
      invariant forall k :: 0 <= k < j ==> row[k] == RowSum(row0, k + 1)
      invariant forall k :: j <= k < |row| ==> row[k] == row0[k]
    {
      if row[j] != 0 {
        var temp := row[j];
        row := row[j := row[j] + fill];
        fill := fill + temp;
      } else {
        row := row[j := row[j] + fill];
      }
    }
  }

  /** Every pair of the run whose send comes before position j of host i, and nothing else. */
  ghost predicate PairsBefore(s: Sys, pairs: seq<Pair>, i: nat, j: nat)
    requires InRange(s)
  {
    forall q: Pair :: q in pairs <==> Pairs(s, q.i, q.j, q.r, q.e) && (q.i < i || (q.i == i && q.j < j))
  }

  /** enumerateCommunication up to the filling: one up for a matched send, one down for its receive. */
  method TallyCommunication(logs: Logs, ghost s: Sys) returns (delta: Table, ghost pairs: seq<Pair>)
    requires Good(s) && s.logs == logs
    ensures Counts(logs, delta, pairs)
    ensures forall q: Pair :: q in pairs <==> Pairs(s, q.i, q.j, q.r, q.e)
  {
    hide Good, Counts, Pairs;
    GoodRange(s);
    delta := seq(|logs|, h requires 0 <= h < |logs| => seq(|logs[h]|, _ => 0));
    pairs := [];
    CountsNone(logs, delta);
    NoPairsBefore(s);
    for i := 0 to |logs|
      invariant Counts(logs, delta, pairs) && PairsBefore(s, pairs, i, 0)
    {
      delta, pairs := TallyHost(logs, i, delta, s, pairs);
    }
    AllPairsBefore(s, pairs);
  }

  method TallyHost(logs: Logs, i: nat, delta0: Table, ghost s: Sys, ghost pairs0: seq<Pair>)
    returns (delta: Table, ghost pairs: seq<Pair>)
    requires Good(s) && s.logs == logs && i < |logs| && Counts(logs, delta0, pairs0) && PairsBefore(s, pairs0, i, 0)
    ensures Counts(logs, delta, pairs) && PairsBefore(s, pairs, i + 1, 0)
  {
    hide Good, Counts, Pairs, Candidate, Least, PairsBefore;
    GoodRange(s);
    GoodWellFormed(s);
    WellFormedAscends(logs, i);
    delta, pairs := delta0, pairs0;
    var lastSend: Clock := map[];
    var sentBefore := false;
    for j := 0 to |logs[i]|
      invariant Counts(logs, delta, pairs) && PairsBefore(s, pairs, i, j)
      invariant sentBefore ==> Ticks(lastSend, i) <= j
    {
      OwnTime(logs, i, j + 1);
      var receiver, event, matched := MatchSendAndReceive(logs[i][j], logs, i);
      MatcherFindsPairs(s, i, j, j + 1, receiver, event, matched);
      assert sentBefore && SameClock(logs[i][j], lastSend) ==> Ticks(logs[i][j], i) == Ticks(lastSend, i);
      if matched && !(sentBefore && SameClock(logs[i][j], lastSend)) {
        CountsShape(logs, delta, pairs);
        CountsMore(logs, delta, pairs, Pair(i, j, receiver, event));
        delta := Bump(delta, i, j, 1);
        delta := Bump(delta, receiver, event, -1);
        OneMorePair(s, pairs, i, j, receiver, event);
        pairs := pairs + [Pair(i, j, receiver, event)];
        lastSend, sentBefore := logs[i][j], true;
      } else {
        NoMorePairs(s, pairs, i, j);
      }
    }
    NextHost(s, pairs, i);
  }

  lemma GoodWellFormed(s: Sys)
    requires Good(s)
    ensures WellFormed(s.logs)
  {
  }

  lemma CountsShape(logs: Logs, delta: Table, pairs: seq<Pair>)
    requires Counts(logs, delta, pairs)
    ensures Shaped(logs, delta)
  {
  }

  lemma PairEvents(s: Sys, i: nat, j: nat, r: nat, e: nat)
    requires InRange(s) && Pairs(s, i, j, r, e)
    ensures i < |s.logs| && j < |s.logs[i]| && r < |s.logs| && e < |s.logs[r]|
  {
  }

  lemma NoPairsBefore(s: Sys)
    requires InRange(s)
    ensures PairsBefore(s, [], 0, 0)
  {
  }

  lemma AllPairsBefore(s: Sys, pairs: seq<Pair>)
    requires InRange(s) && PairsBefore(s, pairs, |s.logs|, 0)
    ensures forall q: Pair :: q in pairs <==> Pairs(s, q.i, q.j, q.r, q.e)
  {
    hide Pairs;
    forall q: Pair | Pairs(s, q.i, q.j, q.r, q.e)
      ensures q in pairs
    {
      PairEvents(s, q.i, q.j, q.r, q.e);
    }
  }

  lemma OneMorePair(s: Sys, pairs: seq<Pair>, i: nat, j: nat, r: nat, e: nat)
    requires InRange(s) && PairsBefore(s, pairs, i, j)
    requires forall x: nat, y: nat :: Pairs(s, i, j, x, y) <==> r == x && e == y
    ensures PairsBefore(s, pairs + [Pair(i, j, r, e)], i, j + 1)
  {
    hide Pairs;
    forall q: Pair
      ensures q in pairs + [Pair(i, j, r, e)] <==>
        Pairs(s, q.i, q.j, q.r, q.e) && (q.i < i || (q.i == i && q.j < j + 1))
    {
    }
  }

  lemma NoMorePairs(s: Sys, pairs: seq<Pair>, i: nat, j: nat)
    requires InRange(s) && PairsBefore(s, pairs, i, j)
    requires forall x: nat, y: nat :: !Pairs(s, i, j, x, y)
    ensures PairsBefore(s, pairs, i, j + 1)
  {
  }

  lemma NextHost(s: Sys, pairs: seq<Pair>, i: nat)
    requires InRange(s) && i < |s.logs| && PairsBefore(s, pairs, i, |s.logs[i]|)
    ensures PairsBefore(s, pairs, i + 1, 0)
  {
    hide Pairs;
    forall q: Pair | Pairs(s, q.i, q.j, q.r, q.e) && q.i < i + 1
      ensures q in pairs
    {
      PairEvents(s, q.i, q.j, q.r, q.e);
    }
  }

  /** Each entry of running is the sum of the raw entries up to it. */
  ghost predicate RunningOf(running: Table, raw: Table) {
    && |raw| == |running|
    && (forall h :: 0 <= h < |running| ==> |raw[h]| == |running[h]|)
    && (forall h, j :: 0 <= h < |running| && 0 <= j < |running[h]| ==> running[h][j] == RowSum(raw[h], j + 1))
  }

  /** enumerateCommunication: the running counts, for the logs of any run. */
  method EnumerateCommunication(logs: Logs, ghost s: Sys)
    returns (running: Table, ghost raw: Table, ghost pairs: seq<Pair>)
    requires Good(s) && s.logs == logs
    ensures Counts(logs, raw, pairs)
    ensures forall q: Pair :: q in pairs <==> Pairs(s, q.i, q.j, q.r, q.e)
    ensures Shaped(logs, running)
    ensures RunningOf(running, raw)
  {
    hide Good, Counts, Pairs;
    var delta;
    delta, pairs := TallyCommunication(logs, s);
    CountsShape(logs, delta, pairs);
    raw := delta;
    running := FillCommunicationDelta(delta);
  }

  /** The sum that mining looks at: each host's running count at its event in the cut. */
  ghost function DeltaAt(logs: Logs, running: Table, p: Clock, n: nat): int
    requires Shaped(logs, running) && n <= |logs| && forall h :: 0 <= h < |logs| ==> 1 <= Ticks(p, h) <= |logs[h]|
  {
    if n == 0 then 0 else DeltaAt(logs, running, p, n - 1) + running[n - 1][Ticks(p, n - 1) - 1]
  }

  lemma {:induction false} DeltaIsCutSum(logs: Logs, running: Table, raw: Table, p: Clock, n: nat)
    requires Shaped(logs, running) && Shaped(logs, raw) && n <= |logs|
    requires forall h :: 0 <= h < |logs| ==> 1 <= Ticks(p, h) <= |logs[h]|
    requires forall h, j :: 0 <= h < |running| && 0 <= j < |running[h]| ==> running[h][j] == RowSum(raw[h], j + 1)
    ensures Within(logs, p) && DeltaAt(logs, running, p, n) == CutSum(logs, raw, p, n)
  {
    if n > 0 {
      DeltaIsCutSum(logs, running, raw, p, n - 1);
    }
  }

  /** Inside a consistent cut nothing is received that was not sent. */
  lemma ConsistentPair(s: Sys, p: Clock, q: Pair)
    requires Good(s) && Consistent(s.logs, p) && Pairs(s, q.i, q.j, q.r, q.e) && ReceivedIn(p, q)
    ensures SentIn(p, q)
  {
    hide Origins;
    PairEvents(s, q.i, q.j, q.r, q.e);
    assert Allowed(s.logs, p, q.r);
    assert IsEvent(s.logs, q.r, q.e + 1) && Leq(At(s.logs, q.r, q.e + 1), At(s.logs, q.r, Ticks(p, q.r)));
  }

  /** Nothing is in flight across p: every matched message sent inside is received inside. */
  ghost predicate NothingInFlight(s: Sys, p: Clock)
    requires InRange(s)
  {
    forall q: Pair :: Pairs(s, q.i, q.j, q.r, q.e) && SentIn(p, q) ==> ReceivedIn(p, q)
  }

  /** A consistent cut has a zero sum of running counts exactly when nothing is in flight across it. */
  lemma ZeroMeansQuiet(s: Sys, running: Table, raw: Table, pairs: seq<Pair>, p: Clock)
    requires Good(s) && Consistent(s.logs, p) && Counts(s.logs, raw, pairs) && Shaped(s.logs, running)
    requires forall h :: 0 <= h < |s.logs| ==> 1 <= Ticks(p, h) <= |s.logs[h]|
    requires forall q: Pair :: q in pairs <==> Pairs(s, q.i, q.j, q.r, q.e)
    requires RunningOf(running, raw)
    ensures InRange(s) && (DeltaAt(s.logs, running, p, |s.logs|) == 0 <==> NothingInFlight(s, p))
  {
    GoodRange(s);
    hide Good, Pairs, Consistent;
    DeltaIsCutSum(s.logs, running, raw, p, |s.logs|);
    forall q | q in pairs && ReceivedIn(p, q)
      ensures SentIn(p, q)
    {
      ConsistentPair(s, p, q);
    }
    NetZero(pairs, p);
  }
}
