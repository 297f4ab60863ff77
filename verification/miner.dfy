/** The assembly line from logs to states, for the logs of any run. */
module Miner {
  import opened Clocks
  import opened Runs
  import opened ConsistentCuts
  import opened Communication
  import opened Lattice
  import opened LatticeBuilder
  import opened Cuts
  import opened TotalOrder
  import opened Points
  import opened Finite

  datatype State = State(cut: seq<Clock>, points: seq<Point>, order: seq<seq<nat>>)

  /** c is a consistent cut of the run with nothing in flight across it. */
  ghost predicate QuietCut(s: Sys, c: seq<Clock>)
    requires InRange(s)
  {
    exists p: Clock :: QuietAt(s, p) && c == CutOf(s.logs, p)
  }

  ghost predicate QuietAt(s: Sys, p: Clock)
    requires InRange(s)
  {
    Consistent(s.logs, p) && NothingInFlight(s, p)
  }

  /** The tables decide every consistent cut. */
  lemma TablesDecide(s: Sys, running: Table, raw: Table, pairs: seq<Pair>)
    requires Good(s) && Counts(s.logs, raw, pairs) && Shaped(s.logs, running)
    requires forall q: Pair :: q in pairs <==> Matching.Pairs(s, q.i, q.j, q.r, q.e)
    requires RunningOf(running, raw)
    ensures Decisive(s, running)
  {
    hide Good, Consistent, Counts, NothingInFlight, Matching.Pairs;
    GoodRange(s);
    forall p: Clock | Consistent(s.logs, p)
      ensures Bounded(s.logs, p) && (DeltaAt(s.logs, running, p, |s.logs|) == 0 <==> NothingInFlight(s, p))
    {
      ConsistentBounded(s.logs, p);
      ZeroMeansQuiet(s, running, raw, pairs, p);
    }
  }

  /** Nothing unquiet is mined. */
  lemma MinedIsQuiet(s: Sys, cpus: nat, M: seq<Slot>, k: nat, c: seq<Clock>)
    requires InRange(s) && FromLattice(s, cpus, M, k, c)
    ensures QuietCut(s, c)
  {
    var i, j: nat :| 0 <= i < k <= |M| && M[i].Layer? && Mined(s, cpus, M[i].points, j, c);
    assert QuietAt(s, M[i].points[j]);
  }

  /** Nothing quiet is missed when the chunks reach every point. */
  lemma QuietIsMined(s: Sys, cpus: nat, M: seq<Slot>, k: nat, p: Clock)
    requires Good(s) && InRange(s) && cpus >= 1 && Built(s.logs, cpus, M, k) && CoveredUpTo(cpus, M, k - 1) &&
      QuietAt(s, p)
    ensures FromLattice(s, cpus, M, k - 1, CutOf(s.logs, p))
  {
    hide Good, NothingInFlight, Consistent, LevelFull;
    GoodWellFormed(s);
    EveryCutStored(s.logs, cpus, M, k, p);
    var i := Sum(p, |s.logs|) - |s.logs|;
    var points := M[i].points;
    var j :| 0 <= j < |points| && points[j] == p;
    assert FullyCovered(cpus, |points|);
    FullPart(cpus, |points|);
    assert Mined(s, cpus, points, j, CutOf(s.logs, p));
  }

  /** A point that the chunks do not reach is missed, quiet or not: no other point stands for its cut. */
  lemma SkippedIsMissed(s: Sys, cpus: nat, M: seq<Slot>, k: nat, i: nat, j: nat)
    requires InRange(s) && WellFormed(s.logs) && cpus >= 1 && Built(s.logs, cpus, M, k) && i < k
    requires M[i].Layer? && Covered(|M[i].points|, ThreadCount(|M[i].points|, cpus)) <= j < |M[i].points|
    ensures Consistent(s.logs, M[i].points[j]) && !FromLattice(s, cpus, M, k - 1, CutOf(s.logs, M[i].points[j]))
  {
    hide WellFormed, Consistent, NothingInFlight, LevelFull, Covered;
    var p := M[i].points[j];
    assert LevelSound(s.logs, i, M[i].points) && p in M[i].points;
    forall x, y: nat | 0 <= x < k - 1 && Mined(s, cpus, M[x].points, y, CutOf(s.logs, p))
      ensures false
    {
      assert LevelSound(s.logs, x, M[x].points) && M[x].points[y] in M[x].points;
      SameCut(s.logs, p, M[x].points[y]);
    }
  }

  /** Lattice, counts and mining together, for the logs of any run. Out come, once each and by size, exactly the quiet
      cuts of the points that the chunks reach; these are all quiet cuts when the numbers of cuts fit the threads. */
  method MineCuts(logs: Logs, cpus: nat, ghost s: Sys)
    returns (cuts: seq<seq<Clock>>, outcome: Outcome, ghost M: seq<Slot>, ghost levels: nat)
    requires Good(s) && s.logs == logs && cpus >= 1
    ensures InRange(s) && (outcome != Spilled ==> (outcome == Overrun <==> |logs| < 2))
    ensures outcome == Spilled ==> ManyCuts(logs)
    ensures outcome == Complete && ChunksFit(logs, cpus) ==> !ManyCuts(logs)
    ensures outcome == Complete ==> Built(logs, cpus, M, levels)
    ensures outcome == Complete ==> forall c :: c in cuts <==> FromLattice(s, cpus, M, levels - 1, c)
    ensures NoRepeats(cuts) && BySize(cuts) && forall c :: c in cuts ==> QuietCut(s, c)
    ensures outcome == Complete && ChunksFit(logs, cpus) ==> forall c :: c in cuts <==> QuietCut(s, c)
  {
    hide ManyCuts, ChunksFit, Good, Decisive, LevelSound, LevelFull, FromLattice, QuietCut, NothingInFlight, Counts,
      Matching.Pairs, NoRepeats, BySize;
    GoodRange(s);
    GoodWellFormed(s);
    cuts := [];
    NoneRepeat();
    var lw;
    lw, outcome, levels := BuildLattice5(logs, cpus);
    M := lw.LatticeM;
    if outcome != Complete {
      return;
    }
    var running, raw, pairs := EnumerateCommunication(logs, s);
    TablesDecide(s, running, raw, pairs);
    ghost var delivered;
    cuts, delivered := MineConsistentCuts2(lw, logs, running, cpus, levels, s);
    forall c | c in cuts
      ensures QuietCut(s, c)
    {
      MinedIsQuiet(s, cpus, M, levels - 1, c);
    }
    if ChunksFit(logs, cpus) {
      CoveredExactly(logs, cpus, M, levels);
      forall c | QuietCut(s, c)
        ensures c in cuts
      {
        QuietCutIsMined(s, cpus, M, levels, c);
      }
    }
  }

  lemma QuietCutIsMined(s: Sys, cpus: nat, M: seq<Slot>, k: nat, c: seq<Clock>)
    requires Good(s) && InRange(s) && cpus >= 1 && Built(s.logs, cpus, M, k) && CoveredUpTo(cpus, M, k - 1) &&
      QuietCut(s, c)
    ensures FromLattice(s, cpus, M, k - 1, c)
  {
    hide Good, Built, CoveredUpTo, FromLattice, Consistent, NothingInFlight;
    var p: Clock :| QuietAt(s, p) && c == CutOf(s.logs, p);
    QuietIsMined(s, cpus, M, k, p);
  }

  /** In a causally ordered run a cut is quiet exactly when every message that was sent inside it and
      ever received was received inside it. */
  lemma QuietInCausalRuns(s: Sys, p: Clock)
    requires Good(s) && Unheard(s)
    ensures InRange(s)
    ensures NothingInFlight(s, p) <==>
            forall k :: 0 <= k < |s.msgs| && s.msgs[k].recv > 0 && s.msgs[k].sent <= Ticks(p, s.msgs[k].from) ==>
              s.msgs[k].recv <= Ticks(p, s.msgs[k].to)
  {
    hide Good, Unheard;
    GoodRange(s);
    if NothingInFlight(s, p) {
      forall k | 0 <= k < |s.msgs| && s.msgs[k].recv > 0 && s.msgs[k].sent <= Ticks(p, s.msgs[k].from)
        ensures s.msgs[k].recv <= Ticks(p, s.msgs[k].to)
      {
        var m := s.msgs[k];
        var q := Pair(m.from, m.sent - 1, m.to, m.recv - 1);
        assert m == Msg(q.i, q.j + 1, q.r, q.e + 1);
        Matching.CausalPairs(s, q.i, q.j, q.r, q.e);
        assert SentIn(p, q) && ReceivedIn(p, q);
      }
    }
    if forall k :: 0 <= k < |s.msgs| && s.msgs[k].recv > 0 && s.msgs[k].sent <= Ticks(p, s.msgs[k].from) ==>
      s.msgs[k].recv <= Ticks(p, s.msgs[k].to) {
      forall q: Pair | Matching.Pairs(s, q.i, q.j, q.r, q.e) && SentIn(p, q)
        ensures ReceivedIn(p, q)
      {
        Matching.CausalPairs(s, q.i, q.j, q.r, q.e);
        var k :| 0 <= k < |s.msgs| && s.msgs[k] == Msg(q.i, q.j + 1, q.r, q.e + 1);
      }
    }
  }

  /** Every message sent inside p is received inside it. */
  ghost predicate AllArrived(s: Sys, p: Clock)
    requires InRange(s)
  {
    forall k :: 0 <= k < |s.msgs| && s.msgs[k].sent <= Ticks(p, s.msgs[k].from) ==>
      0 < s.msgs[k].recv <= Ticks(p, s.msgs[k].to)
  }

  /** In a causally ordered run quiet means that every message sent has arrived, for all consistent cuts, exactly when
      every message of the run is received in the end. */
  lemma ArrivedExactly(s: Sys)
    requires Good(s) && Unheard(s)
    ensures InRange(s)
    ensures (forall p: Clock :: Consistent(s.logs, p) ==> (NothingInFlight(s, p) <==> AllArrived(s, p)))
      <==> forall k :: 0 <= k < |s.msgs| ==> s.msgs[k].recv > 0
  {
    hide Unheard, Consistent, NothingInFlight;
    GoodRange(s);
    forall p: Clock
      ensures NothingInFlight(s, p) <==> Settled(s, p)
    {
      hide Good;
      QuietInCausalRuns(s, p);
    }
    var top := FullCut(s);
  }

  /** The cut at the end of all logs, in which everything that is ever received is received. */
  lemma FullCut(s: Sys) returns (top: Clock)
    requires Good(s)
    ensures InRange(s) && Consistent(s.logs, top) && Settled(s, top)
    ensures forall k :: 0 <= k < |s.msgs| ==> s.msgs[k].sent <= Ticks(top, s.msgs[k].from)
  {
    GoodRange(s);
    GoodWellFormed(s);
    assert Messages(s);
    hide Good, WellFormed;
    top := map h: nat | h < |s.logs| :: |s.logs[h]|;
    EndConsistent(s.logs, top);
    hide Messages, Consistent;
    forall k | 0 <= k < |s.msgs|
      ensures s.msgs[k].sent <= Ticks(top, s.msgs[k].from)
      ensures s.msgs[k].recv > 0 ==> s.msgs[k].recv <= Ticks(top, s.msgs[k].to)
    {
      EventsInside(s, k);
    }
  }

  /** Both events of a message are in the logs. */
  lemma EventsInside(s: Sys, k: nat)
    requires Messages(s) && k < |s.msgs|
    ensures var m := s.msgs[k];
      && m.from < |s.logs| && m.sent <= |s.logs[m.from]|
      && (m.recv > 0 ==> m.to < |s.logs| && m.recv <= |s.logs[m.to]|)
  {
    assert s.msgs[k].recv > 0 ==> Delivered(s, k);
  }

  lemma EndConsistent(logs: Logs, top: Clock)
    requires WellFormed(logs) && top == map h: nat | h < |logs| :: |logs[h]|
    ensures Consistent(logs, top) && forall h: nat :: h < |logs| ==> Ticks(top, h) == |logs[h]|
  {
    assert forall h: nat :: h < |logs| ==> Ticks(top, h) == |logs[h]|;
    forall h | 0 <= h < |logs|
      ensures Allowed(logs, top, h)
    {
      LastKnows(logs, h);
    }
  }

  /** A lost message goes unnoticed: host 0 sends one, it is lost, and the cut after the send counts as quiet. */
  lemma LostLooksQuiet() returns (steps: seq<Step>, states: seq<Sys>, p: Clock)
    ensures CausalRun(2, steps, states)
    ensures var s := states[|states| - 1]; InRange(s) && QuietAt(s, p) && !AllArrived(s, p)
  {
    steps, states := LostRun();
    var s := states[2];
    p := map[0 := 2, 1 := 1];
    CausalEnd(2, steps, states);
    hide Good, Unheard, CausalRun;
    QuietInCausalRuns(s, p);
    assert At(s.logs, 0, 2) == map[0 := 2] && At(s.logs, 1, 1) == map[1 := 1];
    assert Allowed(s.logs, p, 0) && Allowed(s.logs, p, 1);
    assert s.msgs[0].sent <= Ticks(p, s.msgs[0].from) && s.msgs[0].recv < 0;
  }

  lemma LostRun() returns (steps: seq<Step>, states: seq<Sys>)
    ensures CausalRun(2, steps, states) && |states| == 3
    ensures states[2] == Sys([[map[0 := 1], map[0 := 2]], [map[1 := 1]]], [Msg(0, 2, 1, -1)])
  {
    var s0 := Sys([[map[0 := 1]], [map[1 := 1]]], []);
    var s1 := Sys([[map[0 := 1], map[0 := 2]], [map[1 := 1]]], [Msg(0, 2, 1, 0)]);
    assert Start(2) == s0;
    var next: Clock := map[0 := 2];
    assert NextClock(s0.logs, 0) == next;
    assert s0.logs[0] + [next] == s1.logs[0];
    assert Append(s0.logs, 0, next) == s1.logs;
    assert InRange(s0) && Apply(s0, Send(0, 1)) == s1;
    assert IsEvent(s1.logs, 0, 2) && InRange(s1);
    steps, states := [Send(0, 1), Lose(0)], [s0, s1, Apply(s1, Lose(0))];
  }

  /** c is a consistent cut inside which every message sent in it, and ever received, is received. */
  ghost predicate SettledCut(s: Sys, c: seq<Clock>)
    requires InRange(s)
  {
    exists p: Clock :: Consistent(s.logs, p) && Settled(s, p) && c == CutOf(s.logs, p)
  }

  ghost predicate Settled(s: Sys, p: Clock)
    requires InRange(s)
  {
    forall k :: 0 <= k < |s.msgs| && s.msgs[k].recv > 0 && s.msgs[k].sent <= Ticks(p, s.msgs[k].from) ==>
      s.msgs[k].recv <= Ticks(p, s.msgs[k].to)
  }

  /** From a causally ordered run of two or more hosts the merger mines only cuts in which all messages sent are
      received, and it mines all of them when the numbers of cuts fit the threads. */
  method MineCausalRun(logs: Logs, cpus: nat, ghost n: nat, ghost steps: seq<Step>, ghost states: seq<Sys>)
    returns (cuts: seq<seq<Clock>>, outcome: Outcome, ghost M: seq<Slot>, ghost levels: nat)
    requires CausalRun(n, steps, states) && logs == states[|states| - 1].logs && cpus >= 1
    ensures InRange(states[|states| - 1]) && (outcome != Spilled ==> (outcome == Overrun <==> n < 2))
    ensures outcome == Spilled ==> ManyCuts(logs)
    ensures outcome == Complete && ChunksFit(logs, cpus) ==> !ManyCuts(logs)
    ensures outcome == Complete ==> Built(logs, cpus, M, levels)
    ensures outcome == Complete ==>
              forall c :: c in cuts <==> FromLattice(states[|states| - 1], cpus, M, levels - 1, c)
    ensures NoRepeats(cuts) && BySize(cuts) && forall c :: c in cuts ==> SettledCut(states[|states| - 1], c)
    ensures outcome == Complete && ChunksFit(logs, cpus) ==>
              forall c :: c in cuts <==> SettledCut(states[|states| - 1], c)
  {
    CausalEnd(n, steps, states);
    hide ManyCuts, ChunksFit, Built, Good, Unheard, CausalRun, FromLattice, QuietCut, SettledCut, NoRepeats, BySize,
      LevelSound, LevelFull;
    ghost var s := states[|states| - 1];
    cuts, outcome, M, levels := MineCuts(logs, cpus, s);
    forall c
      ensures QuietCut(s, c) <==> SettledCut(s, c)
    {
      QuietIsSettled(s, c);
    }
  }

  lemma CausalEnd(n: nat, steps: seq<Step>, states: seq<Sys>)
    requires CausalRun(n, steps, states)
    ensures states != [] && var s := states[|states| - 1]; Good(s) && Unheard(s) && |s.logs| == n && InRange(s)
  {
    hide Good, Unheard;
    CausalRunUnheard(n, steps, states, |states| - 1);
    RunGood(n, steps, states, |states| - 1);
    GoodRange(states[|states| - 1]);
  }

  lemma QuietIsSettled(s: Sys, c: seq<Clock>)
    requires Good(s) && Unheard(s) && InRange(s)
    ensures QuietCut(s, c) <==> SettledCut(s, c)
  {
    hide Good, Unheard, Consistent, NothingInFlight;
    forall p: Clock
      ensures NothingInFlight(s, p) <==> Settled(s, p)
    {
      QuietInCausalRuns(s, p);
    }
  }

  /** A state belongs to the cut at p: the right clocks, the point that each host's log shows for its time, and
      chains whose links lie inside the cut. */
  ghost predicate StateAt(s: Sys, points: seq<seq<Point>>, p: Clock, st: State)
    requires InRange(s) && |points| == |s.logs|
  {
    && QuietAt(s, p) && st.cut == CutOf(s.logs, p)
    && |st.points| == |s.logs| &&
      (forall h :: 0 <= h < |s.logs| ==> Shown(s.logs, points, h, Ticks(p, h), st.points[h]))
    && OrderOf(s, p, st.cut, st.order)
    && LinksInside(s, p, st.order)
  }

  /** x is what host h shows for its time t; for orderly points it is fixed which point that is. */
  ghost predicate Shown(logs: Logs, points: seq<seq<Point>>, h: nat, t: nat, x: Point)
    requires h < |logs| == |points|
  {
    Ticks(x.clock, h) == t && (Orderly(points[h], h, |logs[h]|) ==> Seen(points[h], logs[h], h, t, x))
  }

  ghost predicate IsState(s: Sys, points: seq<seq<Point>>, st: State)
    requires InRange(s) && |points| == |s.logs|
  {
    exists p: Clock :: StateAt(s, points, p, st)
  }

  /** Each host's points are indexed by its own time, without gaps. */
  ghost predicate PointIndex(logs: Logs, points: seq<seq<Point>>, mPoints: seq<map<nat, Point>>) {
    && |mPoints| == |logs| == |points|
    && (forall h, t: nat :: 0 <= h < |logs| ==> (t in mPoints[h] <==> IsEvent(logs, h, t)))
    && (forall h, t: nat :: 0 <= h < |logs| && t in mPoints[h] ==> Shown(logs, points, h, t, mPoints[h][t]))
  }

  /** Filling and indexing the point logs of all hosts. */
  method IndexAllPoints(logs: Logs, points: seq<seq<Point>>) returns (mPoints: seq<map<nat, Point>>)
    requires WellFormed(logs) && |points| == |logs|
    ensures PointIndex(logs, points, mPoints)
  {
    hide Seen, Orderly;
    mPoints := [];
    for h := 0 to |logs|
      invariant |mPoints| == h
      invariant forall g, t: nat :: 0 <= g < h ==> (t in mPoints[g] <==> IsEvent(logs, g, t))
      invariant forall g, t: nat :: 0 <= g < h && t in mPoints[g] ==> Shown(logs, points, g, t, mPoints[g][t])
    {
      OwnAscends(logs, h);
      var m := IndexPoints(points[h], logs[h], h);
      mPoints := mPoints + [m];
    }
  }

  /** statesFromCuts2 for one cut: the lookup never fails. */
  method StateFromCut(
    cut: seq<Clock>, logs: Logs, ghost points: seq<seq<Point>>, mPoints: seq<map<nat, Point>>, ghost s: Sys)
    returns (st: State)
    requires Good(s) && s.logs == logs && InRange(s) && PointIndex(logs, points, mPoints) && QuietCut(s, cut)
    ensures IsState(s, points, st) && st.cut == cut
  {
    hide Good, Consistent, NothingInFlight, Chains, OrderOf, Shown, WellFormed;
    ghost var p: Clock :| QuietAt(s, p) && cut == CutOf(s.logs, p);
    GoodWellFormed(s);
    ConsistentBounded(logs, p);
    var shown: seq<Point> := [];
    for i := 0 to |cut|
      invariant |shown| == i && forall h :: 0 <= h < i ==> Shown(logs, points, h, Ticks(p, h), shown[h])
    {
      OwnTime(logs, i, Ticks(p, i));
      var time := Ticks(cut[i], i);
      shown := shown + [mPoints[i][time]];
    }
    var order := TotalOrderFromCut(cut, logs, s, p);
    OrderLinksInside(s, p, cut, order);
    st := State(cut, shown, order);
    assert StateAt(s, points, p, st);
  }

  lemma OrderLinksInside(s: Sys, p: Clock, cut: seq<Clock>, order: seq<seq<nat>>)
    requires InRange(s) && OrderOf(s, p, cut, order) && NothingInFlight(s, p)
    ensures LinksInside(s, p, order)
  {
    hide Chains, Greedy, NothingInFlight;
    QuietLinksInside(s, p, order, seq(|s.logs|, _ => true));
  }

  /** mineStates: from the logs of any run to its states. */
  method MineStates(logs: Logs, points: seq<seq<Point>>, cpus: nat, ghost s: Sys)
    returns (states: seq<State>, outcome: Outcome, ghost M: seq<Slot>, ghost levels: nat)
    requires Good(s) && s.logs == logs && cpus >= 1 && |points| == |logs|
    ensures InRange(s) && (outcome != Spilled ==> (outcome == Overrun <==> |logs| < 2))
    ensures outcome == Spilled ==> ManyCuts(logs)
    ensures outcome == Complete && ChunksFit(logs, cpus) ==> !ManyCuts(logs)
    ensures forall i :: 0 <= i < |states| ==> IsState(s, points, states[i])
    ensures NoRepeats(CutsIn(states)) && BySize(CutsIn(states))
    ensures outcome == Complete ==> Built(logs, cpus, M, levels)
    ensures outcome == Complete ==> forall c :: c in CutsIn(states) <==> FromLattice(s, cpus, M, levels - 1, c)
    ensures outcome == Complete && ChunksFit(logs, cpus) ==> forall c :: c in CutsIn(states) <==> QuietCut(s, c)
  {
    hide ManyCuts, ChunksFit, Good, LevelSound, LevelFull, QuietCut, NothingInFlight, IsState, WellFormed, Consistent,
      PointIndex, BySize, FromLattice, Built, NoRepeats;
    GoodWellFormed(s);
    var cuts;
    cuts, outcome, M, levels := MineCuts(logs, cpus, s);
    states := [];
    if outcome != Complete {
      NoStates();
      return;
    }
    var mPoints := IndexAllPoints(logs, points);
    for k := 0 to |cuts|
      invariant |states| == k
      invariant forall i :: 0 <= i < k ==> IsState(s, points, states[i]) && states[i].cut == cuts[i]
    {
      assert cuts[k] in cuts;
      var st := StateFromCut(cuts[k], logs, points, mPoints, s);
      states := states + [st];
    }
    assert CutsIn(states) == cuts;
  }

  /** The cuts of the states, in their order. */
  function CutsIn(states: seq<State>): seq<seq<Clock>> {
    seq(|states|, i requires 0 <= i < |states| => states[i].cut)
  }

  lemma NoStates()
    ensures NoRepeats(CutsIn([])) && BySize(CutsIn([]))
  {
  }
}
