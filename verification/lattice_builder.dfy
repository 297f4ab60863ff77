/** The level store and the loop that fills it. */
module LatticeBuilder {
  import opened Clocks
  import opened ConsistentCuts
  import opened Lattice
  import opened Finite

  const POINT_DISK_LIMIT := 5000000

  /** A slot of the store: never written, or a level of points. */
  datatype Slot = Nil | Layer(points: seq<Clock>)

  class LatticeWrapper {
    var LatticeM: seq<Slot>
    var LatticeD: seq<string>
    var CurrentFile: int
    var Points: nat
    var LevelM: nat
    var LevelD: nat

    constructor (estimate: nat)
      ensures LatticeM == seq(estimate, _ => Nil) && LatticeD == [] && CurrentFile == 0
      ensures Points == 0 && LevelM == 0 && LevelD == 0
    {
      LatticeM := seq(estimate, _ => Nil);
      LatticeD := [];
      CurrentFile := 0;
      Points, LevelM, LevelD := 0, 0, 0;
    }

    /** Store one more level; spilled reports that the points no longer fit in memory. */
    method Push(layer: seq<Clock>) returns (spilled: bool)
      requires LevelM < |LatticeM|
      modifies this
      ensures spilled == old(Points > POINT_DISK_LIMIT * (|LatticeD| + 1))
      ensures LatticeM == old(LatticeM[LevelM := Layer(layer)]) && LatticeD == old(LatticeD) &&
        CurrentFile == old(CurrentFile)
      ensures !spilled ==> LevelM == old(LevelM) + 1 && LevelD == old(LevelD) + 1 && Points == old(Points) + |layer|
    {
      LatticeM := LatticeM[LevelM := Layer(layer)];
      spilled := Points > POINT_DISK_LIMIT * (|LatticeD| + 1);
      if spilled {
        return;
      }
      Points := Points + |layer|;
      LevelM := LevelM + 1;
      LevelD := LevelD + 1;
    }

    method Beginning()
      requires LatticeD == []
      modifies this
      ensures LevelM == 0 && LevelD == 0 && CurrentFile == 0
      ensures LatticeM == old(LatticeM) && LatticeD == [] && Points == old(Points)
    {
      LevelM := 0;
      LevelD := 0;
      CurrentFile := 0;
    }

    /** Deliver the next level; the last slot is the end mark, whatever it holds. */
    method Pop() returns (level: Slot)
      requires LatticeD == [] && CurrentFile == 0 && LevelM < |LatticeM|
      modifies this
      ensures LatticeM == old(LatticeM) && LatticeD == [] && CurrentFile == 0 && Points == old(Points)
      ensures old(LevelM) == |LatticeM| - 1 ==> level == Nil && LevelM == old(LevelM)
      ensures old(LevelM) < |LatticeM| - 1 ==> level == LatticeM[old(LevelM)] && LevelM == old(LevelM) + 1
    {
      if CurrentFile >= |LatticeD| - 1 && LevelM == |LatticeM| - 1 {
        return Nil;
      }
      level := LatticeM[LevelM];
      LevelM := LevelM + 1;
      LevelD := LevelD + 1;
    }
  }

  /** sumTime: the latest time of each host that any last clock knows of, added up. */
  method SumTime(logs: Logs) returns (total: nat)
    requires forall h :: 0 <= h < |logs| ==> |logs[h]| >= 1
    ensures WellFormed(logs) ==> total == Total(logs)
  {
    hide WellFormed;
    var n := |logs|;
    var maxMap: seq<nat> := seq(n, _ => 0);
    for i := 0 to n
      invariant |maxMap| == n
      invariant WellFormed(logs) ==>
        forall h :: 0 <= h < n ==> maxMap[h] <= |logs[h]| && (h < i ==> maxMap[h] == |logs[h]|)
    {
      var last := logs[i][|logs[i]| - 1];
      LastKnows(logs, i);
      ghost var was := maxMap;
      for id := 0 to n
        invariant |maxMap| == n
        invariant forall h :: 0 <= h < n ==>
          maxMap[h] == if h < id && Ticks(last, h) > was[h] then Ticks(last, h) else was[h]
      {
        var ticks := Ticks(last, id);
        if ticks > maxMap[id] {
          maxMap := maxMap[id := ticks];
        }
      }
    }
    total := 0;
    for h := 0 to n
      invariant WellFormed(logs) ==> total == Total(logs[..h])
    {
      total := total + maxMap[h];
      assert logs[..h + 1][..h] == logs[..h];
    }
    assert logs[..n] == logs;
  }

  /** The last clock of host i knows its own log's length, and no other log's beyond its end. */
  lemma LastKnows(logs: Logs, i: nat)
    requires i < |logs| && |logs[i]| >= 1
    ensures WellFormed(logs) ==> Ticks(logs[i][|logs[i]| - 1], i) == |logs[i]|
    ensures WellFormed(logs) ==> forall h :: 0 <= h < |logs| ==> Ticks(logs[i][|logs[i]| - 1], h) <= |logs[h]|
  {
    var T := |logs[i]|;
    var c := logs[i][T - 1];
    if WellFormed(logs) {
      assert IsEvent(logs, i, T) && At(logs, i, T) == c;
      forall h | 0 <= h < |logs|
        ensures Ticks(c, h) <= |logs[h]|
      {
        assert Ticks(c, h) > 0 ==> KnownEvent(logs, i, T, h);
      }
    }
  }

  /** The first k levels have been stored: sound ones, and full ones as long as the chunks covered
      every level before. */
  ghost predicate Stored(logs: Logs, cpus: nat, M: seq<Slot>, k: nat) {
    && 1 <= k <= |M|
    && (forall i :: 0 <= i < k ==> M[i].Layer? && LevelSound(logs, i, M[i].points))
    && (forall i :: k <= i < |M| ==> M[i] == Nil)
    && (forall i :: 0 <= i < k - 1 ==> M[i].points != [])
    && (forall i :: 0 <= i < k && CoveredUpTo(cpus, M, i) ==> LevelFull(logs, i, M[i].points))
    && M[0].points == [Bottom(|logs|)]
    && (forall i :: 0 <= i < k - 1 ==> GrowsInto(logs, cpus, M, i))
  }

  /** Level i + 1 holds exactly the consistent cuts one event above the points of level i that the chunks reach. */
  ghost predicate GrowsInto(logs: Logs, cpus: nat, M: seq<Slot>, i: nat) {
    && i + 1 < |M| && M[i].Layer? && M[i + 1].Layer?
    && forall q :: q in M[i + 1].points <==> Consistent(logs, q) && Above(cpus, M[i].points, |logs|, q)
  }

  /** q is one event of one of the n hosts above a point that the chunks reach. */
  ghost predicate Above(cpus: nat, level: seq<Clock>, n: nat, q: Clock) {
    cpus >= 1 && exists j: nat, h: nat ::
      j < Covered(|level|, ThreadCount(|level|, cpus)) && h < n && q == Tick(level[j], h)
  }

  /** A consistent cut grows by one event into a point exactly when that is a consistent cut again. */
  lemma GrownFromMeans(logs: Logs, m: ClockIndex, p: Clock, h: nat, q: Clock)
    requires WellFormed(logs) && Indexed(logs, m) && Consistent(logs, p) && h < |logs|
    ensures GrownFrom(m, p, h, q) <==> Consistent(logs, q) && q == Tick(p, h)
  {
    if q == Tick(p, h) {
      FastMeansAllowed(logs, m, q, h);
      hide Indexed, WellFormed, FastCorrectLatticePoint;
      if Allowed(logs, q, h) {
        TickConsistent(logs, p, h);
      }
    }
  }

  lemma GrownIsAbove(logs: Logs, cpus: nat, m: ClockIndex, k: nat, level: seq<Clock>, q: Clock)
    requires WellFormed(logs) && Indexed(logs, m) && LevelSound(logs, k, level) && cpus >= 1
    ensures Grown(m, level[..Covered(|level|, ThreadCount(|level|, cpus))], |logs|, q) <==>
      Consistent(logs, q) && Above(cpus, level, |logs|, q)
  {
    var part := Covered(|level|, ThreadCount(|level|, cpus));
    hide Covered, NoRepeats, WellFormed, Indexed, Consistent, GrownFrom;
    forall j: nat, h: nat | j < part && h < |logs|
      ensures GrownFrom(m, level[..part][j], h, q) <==> Consistent(logs, q) && q == Tick(level[j], h)
    {
      assert level[j] in level;
      GrownFromMeans(logs, m, level[j], h, q);
    }
  }

  /** The chunks reach every point of the levels before i. */
  predicate CoveredUpTo(cpus: nat, M: seq<Slot>, i: nat)
    requires i <= |M| && forall j :: 0 <= j < i ==> M[j].Layer?
  {
    forall j :: 0 <= j < i ==> FullyCovered(cpus, |M[j].points|)
  }

  predicate FullyCovered(cpus: nat, size: nat) {
    var div := ThreadCount(size, cpus);
    div >= 1 && size % div == 0
  }

  /** The lattice is complete: an empty level ends it. */
  ghost predicate Built(logs: Logs, cpus: nat, M: seq<Slot>, k: nat) {
    Stored(logs, cpus, M, k) && M[k - 1].points == []
  }

  /** How the building ends: with a complete lattice, with more points than fit in memory, or with an
      index past the end of the store, where the program stops. */
  datatype Outcome = Complete | Spilled | Overrun

  /** How many points the first k levels hold. */
  function PointsStored(M: seq<Slot>, k: nat): nat
    requires k <= |M|
  {
    if k == 0 then 0 else PointsStored(M, k - 1) + if M[k - 1].Layer? then |M[k - 1].points| else 0
  }

  ghost function AllStored(M: seq<Slot>, k: nat): set<Clock>
    requires k <= |M|
  {
    if k == 0 then {} else AllStored(M, k - 1) + if M[k - 1].Layer? then Elements(M[k - 1].points) else {}
  }

  /** The run has more consistent cuts than fit in memory. */
  ghost predicate ManyCuts(logs: Logs) {
    exists all: set<Clock> :: |all| > POINT_DISK_LIMIT && forall p :: p in all ==> Consistent(logs, p)
  }

  ghost predicate SoundUpTo(logs: Logs, M: seq<Slot>, k: nat) {
    k <= |M| && forall i :: 0 <= i < k ==> M[i].Layer? && LevelSound(logs, i, M[i].points)
  }

  /** The stored points are so many different consistent cuts. */
  lemma {:induction false} StoredAreCuts(logs: Logs, M: seq<Slot>, k: nat)
    requires SoundUpTo(logs, M, k)
    ensures |AllStored(M, k)| == PointsStored(M, k)
    ensures forall p :: p in AllStored(M, k) ==> Consistent(logs, p) && Sum(p, |logs|) < |logs| + k
  {
    if k > 0 {
      hide LevelSound, Consistent, Sum;
      StoredAreCuts(logs, M, k - 1);
      AddLevel(logs, k - 1, AllStored(M, k - 1), M[k - 1].points);
    }
  }

  lemma {:induction false} StoredIsIn(M: seq<Slot>, k: nat, i: nat, p: Clock)
    requires i < k <= |M| && M[i].Layer? && p in M[i].points
    ensures p in AllStored(M, k)
  {
    if i == k - 1 {
      assert p in Elements(M[i].points);
    } else {
      StoredIsIn(M, k - 1, i, p);
    }
  }

  lemma AddLevel(logs: Logs, k: nat, before: set<Clock>, level: seq<Clock>)
    requires LevelSound(logs, k, level)
    requires forall p :: p in before ==> Consistent(logs, p) && Sum(p, |logs|) < |logs| + k
    ensures |before + Elements(level)| == |before| + |level|
    ensures forall p :: p in before + Elements(level) ==> Consistent(logs, p) && Sum(p, |logs|) < |logs| + (k + 1)
  {
    hide Consistent, NoRepeats;
    DistinctCount(level);
    assert before !! Elements(level);
  }

  lemma ManyStored(logs: Logs, cpus: nat, M: seq<Slot>, k: nat)
    requires Stored(logs, cpus, M, k) && PointsStored(M, k) > POINT_DISK_LIMIT
    ensures ManyCuts(logs)
  {
    hide Consistent, LevelSound, LevelFull;
    StoredAreCuts(logs, M, k);
    assert |AllStored(M, k)| > POINT_DISK_LIMIT;
  }

  lemma {:induction false} PointsKept(M: seq<Slot>, M': seq<Slot>, k: nat)
    requires k <= |M| == |M'| && forall i :: 0 <= i < k ==> M'[i] == M[i]
    ensures PointsStored(M', k) == PointsStored(M, k)
  {
    if k > 0 { PointsKept(M, M', k - 1); }
  }

  /** A lattice that fits in memory and was built from every point has few cuts. */
  lemma FewCuts(logs: Logs, cpus: nat, M: seq<Slot>, k: nat)
    requires WellFormed(logs) && Built(logs, cpus, M, k) && CoveredUpTo(cpus, M, k - 1)
    requires PointsStored(M, k) <= POINT_DISK_LIMIT
    ensures !ManyCuts(logs)
  {
    hide WellFormed, Consistent, LevelFull, LevelSound;
    StoredAreCuts(logs, M, k);
    forall all: set<Clock> | forall p :: p in all ==> Consistent(logs, p)
      ensures |all| <= POINT_DISK_LIMIT
    {
      forall p | p in all
        ensures p in AllStored(M, k)
      {
        EveryCutStored(logs, cpus, M, k, p);
        StoredIsIn(M, k, Sum(p, |logs|) - |logs|, p);
      }
      SubsetSize(all, AllStored(M, k));
    }
  }

  /** The points of level i are exactly the consistent cuts i events above the bottom. */
  ghost predicate LevelOf(logs: Logs, i: nat, level: seq<Clock>) {
    LevelSound(logs, i, level) && LevelFull(logs, i, level)
  }

  /** For every i, the cuts i events above the bottom are too few to be split, or divide evenly among the threads. */
  ghost predicate ChunksFit(logs: Logs, cpus: nat) {
    forall i: nat, level: seq<Clock> :: LevelOf(logs, i, level) ==> FullyCovered(cpus, |level|)
  }

  lemma OneThreadFits(logs: Logs)
    ensures ChunksFit(logs, 1)
  {
    forall i: nat, level: seq<Clock> | LevelOf(logs, i, level)
      ensures FullyCovered(1, |level|)
    {
      assert |level| % 1 == 0;
    }
  }

  lemma SameSize(a: seq<Clock>, b: seq<Clock>)
    requires NoRepeats(a) && NoRepeats(b) && forall p :: p in a <==> p in b
    ensures |a| == |b|
  {
    DistinctCount(a);
    DistinctCount(b);
    assert Elements(a) == Elements(b);
  }

  lemma {:induction false} FitCovers(logs: Logs, cpus: nat, M: seq<Slot>, k: nat, j: nat)
    requires Stored(logs, cpus, M, k) && ChunksFit(logs, cpus) && j <= k
    ensures CoveredUpTo(cpus, M, j)
  {
    hide LevelSound, LevelFull, FullyCovered;
    if j > 0 {
      FitCovers(logs, cpus, M, k, j - 1);
      assert LevelOf(logs, j - 1, M[j - 1].points);
    }
  }

  /** The chunks cover every level exactly when the numbers of cuts fit: a condition on the logs alone. */
  lemma CoveredExactly(logs: Logs, cpus: nat, M: seq<Slot>, k: nat)
    requires WellFormed(logs) && cpus >= 1 && Built(logs, cpus, M, k)
    ensures CoveredUpTo(cpus, M, k - 1) <==> ChunksFit(logs, cpus)
  {
    hide WellFormed, Consistent;
    if ChunksFit(logs, cpus) {
      FitCovers(logs, cpus, M, k, k - 1);
    }
    if CoveredUpTo(cpus, M, k - 1) {
      forall i: nat, level: seq<Clock> | LevelOf(logs, i, level)
        ensures FullyCovered(cpus, |level|)
      {
        CoveredLevel(logs, cpus, M, k, i, level);
      }
    }
  }

  lemma CoveredLevel(logs: Logs, cpus: nat, M: seq<Slot>, k: nat, i: nat, level: seq<Clock>)
    requires WellFormed(logs) && cpus >= 1 && Built(logs, cpus, M, k) && CoveredUpTo(cpus, M, k - 1)
    requires LevelOf(logs, i, level)
    ensures FullyCovered(cpus, |level|)
  {
    hide WellFormed, Consistent;
    if i < k - 1 {
      assert LevelSound(logs, i, M[i].points);
      assert CoveredUpTo(cpus, M, i);
      assert LevelFull(logs, i, M[i].points);
      SameSize(level, M[i].points);
      assert FullyCovered(cpus, |M[i].points|);
    } else if level != [] {
      assert level[0] in level;
      EveryCutStored(logs, cpus, M, k, level[0]);
    }
  }

  /** p stands in a level at a place that some chunk reaches. */
  ghost predicate Looked(cpus: nat, M: seq<Slot>, k: nat, p: Clock)
    requires cpus >= 1
  {
    exists i: nat, j: nat :: LookedAt(cpus, M, k, i, j, p)
  }

  predicate LookedAt(cpus: nat, M: seq<Slot>, k: nat, i: nat, j: nat, p: Clock)
    requires cpus >= 1
  {
    && i + 1 < k <= |M| && M[i].Layer? && j < Covered(|M[i].points|, ThreadCount(|M[i].points|, cpus))
    && M[i].points[j] == p
  }

  /** Every consistent cut is looked at exactly when the numbers of cuts fit the threads. */
  lemma AllLookedExactly(logs: Logs, cpus: nat, M: seq<Slot>, k: nat)
    requires WellFormed(logs) && cpus >= 1 && Built(logs, cpus, M, k)
    ensures (forall p :: Consistent(logs, p) ==> Looked(cpus, M, k, p)) <==> ChunksFit(logs, cpus)
  {
    hide WellFormed, Consistent, ChunksFit, Looked, LevelSound, LevelFull;
    CoveredExactly(logs, cpus, M, k);
    if CoveredUpTo(cpus, M, k - 1) {
      forall p | Consistent(logs, p)
        ensures Looked(cpus, M, k, p)
      {
        StoredIsLooked(logs, cpus, M, k, p);
      }
    } else {
      var p := SomeSkipped(logs, cpus, M, k);
    }
  }

  lemma StoredIsLooked(logs: Logs, cpus: nat, M: seq<Slot>, k: nat, p: Clock)
    requires WellFormed(logs) && cpus >= 1 && Built(logs, cpus, M, k) && CoveredUpTo(cpus, M, k - 1) &&
      Consistent(logs, p)
    ensures Looked(cpus, M, k, p)
  {
    hide WellFormed, Consistent, LevelFull;
    EveryCutStored(logs, cpus, M, k, p);
    var i: nat := Sum(p, |logs|) - |logs|;
    var j: nat :| j < |M[i].points| && M[i].points[j] == p;
    assert FullyCovered(cpus, |M[i].points|);
    FullPart(cpus, |M[i].points|);
    assert LookedAt(cpus, M, k, i, j, p);
  }

  /** Otherwise the last point of some level is not looked at. */
  lemma SomeSkipped(logs: Logs, cpus: nat, M: seq<Slot>, k: nat) returns (p: Clock)
    requires cpus >= 1 && Built(logs, cpus, M, k) && !CoveredUpTo(cpus, M, k - 1)
    ensures Consistent(logs, p) && !Looked(cpus, M, k, p)
  {
    hide Consistent, LevelFull;
    var i: nat :| i < k - 1 && !FullyCovered(cpus, |M[i].points|);
    var points := M[i].points;
    assert LevelSound(logs, i, points);
    p := points[|points| - 1];
    assert p in points;
    if Looked(cpus, M, k, p) {
      var x: nat, y: nat :| LookedAt(cpus, M, k, x, y, p);
      StandsOnce(logs, cpus, M, k, i, |points| - 1, x, y);
    }
  }

  /** No point stands twice in the lattice. */
  lemma StandsOnce(logs: Logs, cpus: nat, M: seq<Slot>, k: nat, i: nat, j: nat, x: nat, y: nat)
    requires Built(logs, cpus, M, k) && i < k && x < k && j < |M[i].points| && y < |M[x].points|
    requires M[i].points[j] == M[x].points[y]
    ensures i == x && j == y
  {
    hide Consistent, LevelFull;
    assert LevelSound(logs, i, M[i].points) && LevelSound(logs, x, M[x].points);
    assert M[i].points[j] in M[i].points && M[x].points[y] in M[x].points;
  }

  /** BuildLattice5, in memory. It stays inside its estimate exactly when there are two or more hosts, and it spills
      only when the run has more consistent cuts than fit; when the chunks miss none, exactly then. */
  method BuildLattice5(logs: Logs, cpus: nat) returns (lw: LatticeWrapper, outcome: Outcome, ghost levels: nat)
    requires WellFormed(logs) && cpus >= 1
    ensures fresh(lw) && lw.LatticeD == []
    ensures outcome == Complete ==> |lw.LatticeM| == Total(logs) && Built(logs, cpus, lw.LatticeM, levels)
    ensures outcome != Spilled ==> (outcome == Overrun <==> |logs| < 2)
    ensures outcome == Spilled ==> ManyCuts(logs)
    ensures outcome == Complete && ChunksFit(logs, cpus) ==> !ManyCuts(logs)
  {
    hide WellFormed, Stored, ManyCuts, ChunksFit;
    Nonempty(logs);
    var m := ClocksToMaps(logs);
    IndexOk(logs, m);
    var estimate := SumTime(logs);
    lw := new LatticeWrapper(estimate);
    levels := 0;
    if estimate == 0 {
      BottomSum(logs);
      return lw, Overrun, levels;
    }
    var spilled := lw.Push([Bottom(|logs|)]);
    outcome := if spilled then Spilled else Complete;
    levels := 1;
    FirstStored(logs, cpus, lw.LatticeM, estimate);
    StoredShape(logs, cpus, lw.LatticeM, levels);
    while outcome == Complete && |lw.LatticeM[lw.LevelM - 1].points| > 0
      invariant fresh(lw) && lw.LatticeD == [] && |lw.LatticeM| == Total(logs)
      invariant outcome == Complete ==> lw.LevelM == levels && Stored(logs, cpus, lw.LatticeM, levels)
      invariant outcome == Complete ==> 1 <= levels <= |lw.LatticeM| && lw.LatticeM[levels - 1].Layer?
      invariant outcome == Complete ==> lw.Points == PointsStored(lw.LatticeM, levels)
      invariant outcome == Complete ==> PointsStored(lw.LatticeM, levels - 1) <= POINT_DISK_LIMIT
      invariant outcome == Overrun ==> |logs| < 2
      invariant outcome == Spilled ==> ManyCuts(logs)
      decreases outcome == Complete, Total(logs) - levels
    {
      var level := lw.LatticeM[lw.LevelM - 1].points;
      var next := NextLevel(m, level, |logs|, ThreadCount(|level|, cpus));
      if lw.LevelM == |lw.LatticeM| {
        if |logs| >= 2 { RoomForNext(logs, cpus, lw.LatticeM, levels); }
        outcome := Overrun;
      } else {
        StoreNext(logs, cpus, m, lw.LatticeM, levels, next);
        ghost var before := lw.LatticeM;
        spilled := lw.Push(next);
        PointsKept(before, lw.LatticeM, levels);
        if spilled {
          ManyStored(logs, cpus, before, levels);
          outcome := Spilled;
        } else {
          levels := levels + 1;
          StoredShape(logs, cpus, lw.LatticeM, levels);
        }
      }
    }
    if outcome == Complete {
      SeveralHosts(logs, cpus, lw.LatticeM, levels);
      if ChunksFit(logs, cpus) {
        CoveredExactly(logs, cpus, lw.LatticeM, levels);
        FewCuts(logs, cpus, lw.LatticeM, levels);
      }
    }
  }

  lemma BottomSum(logs: Logs)
    requires WellFormed(logs)
    ensures Total(logs) >= |logs|
  {
    hide WellFormed;
    BottomConsistent(logs);
    ConsistentSum(logs, Bottom(|logs|));
  }

  /** A lattice that ends has two hosts at least. */
  lemma SeveralHosts(logs: Logs, cpus: nat, M: seq<Slot>, k: nat)
    requires WellFormed(logs) && cpus >= 1 && |M| == Total(logs) && Built(logs, cpus, M, k)
    ensures |logs| >= 2
  {
    if |logs| == 1 {
      OneHostNeverEnds(logs, cpus, M, k);
    }
  }

  lemma Nonempty(logs: Logs)
    requires WellFormed(logs)
    ensures forall h :: 0 <= h < |logs| ==> |logs[h]| >= 1
  {
  }

  lemma IndexOk(logs: Logs, m: ClockIndex)
    requires WellFormed(logs) && (OwnTicks(logs) && Initialised(logs) ==> Indexed(logs, m))
    ensures Indexed(logs, m)
  {
  }

  lemma StoredShape(logs: Logs, cpus: nat, M: seq<Slot>, k: nat)
    requires Stored(logs, cpus, M, k)
    ensures 1 <= k <= |M| && M[k - 1].Layer?
  {
  }

  lemma FirstStored(logs: Logs, cpus: nat, M: seq<Slot>, estimate: nat)
    requires WellFormed(logs) && estimate >= 1 && M == seq(estimate, _ => Nil)[0 := Layer([Bottom(|logs|)])]
    ensures Stored(logs, cpus, M, 1)
  {
    hide WellFormed, Consistent;
    BottomConsistent(logs);
    forall p | Consistent(logs, p) && Sum(p, |logs|) == |logs|
      ensures p in M[0].points
    {
      OnlyBottom(logs, p);
    }
  }

  /** A level with a point leaves room for the next one, because there are at least two hosts. */
  lemma RoomForNext(logs: Logs, cpus: nat, M: seq<Slot>, k: nat)
    requires WellFormed(logs) && |logs| >= 2 && Stored(logs, cpus, M, k) && |M| == Total(logs) && M[k - 1].points != []
    ensures k < |M|
  {
    var p := M[k - 1].points[0];
    assert p in M[k - 1].points;
    ConsistentSum(logs, p);
  }

  lemma SameCover(cpus: nat, M: seq<Slot>, M': seq<Slot>, k: nat, i: nat)
    requires i <= k <= |M| == |M'| && (forall j :: 0 <= j < k ==> M[j].Layer?) &&
      (forall j :: 0 <= j < i ==> M'[j] == M[j])
    requires CoveredUpTo(cpus, M, k)
    ensures CoveredUpTo(cpus, M', i)
  {
    forall j | 0 <= j < i
      ensures FullyCovered(cpus, |M'[j].points|)
    {
      assert FullyCovered(cpus, |M[j].points|);
    }
  }

  lemma FullPart(cpus: nat, size: nat)
    requires cpus >= 1 && FullyCovered(cpus, size)
    ensures Covered(size, ThreadCount(size, cpus)) == size
  {
  }

  /** The next level is full when the chunks covered every level before it. */
  lemma NextStaysFull(logs: Logs, cpus: nat, m: ClockIndex, M: seq<Slot>, k: nat, next: seq<Clock>)
    requires WellFormed(logs) && Indexed(logs, m) && cpus >= 1 && Stored(logs, cpus, M, k) && CoveredUpTo(cpus, M, k)
    requires var level := M[k - 1].points;
             forall q :: q in next <==> Grown(m, level[..Covered(|level|, ThreadCount(|level|, cpus))], |logs|, q)
    ensures LevelFull(logs, k, next)
  {
    hide WellFormed, LevelSound, LevelFull, NoRepeats, Grown, Covered, Indexed;
    var level := M[k - 1].points;
    assert FullyCovered(cpus, |level|);
    FullPart(cpus, |level|);
    assert level[..|level|] == level;
    assert LevelFull(logs, k - 1, level);
    NextFull(logs, m, k - 1, level, next);
  }

  lemma StoreNext(logs: Logs, cpus: nat, m: ClockIndex, M: seq<Slot>, k: nat, next: seq<Clock>)
    requires WellFormed(logs) && Indexed(logs, m) && cpus >= 1 && k < |M|
    requires Stored(logs, cpus, M, k) && M[k - 1].points != [] && NoRepeats(next)
    requires var level := M[k - 1].points;
             forall q :: q in next <==> Grown(m, level[..Covered(|level|, ThreadCount(|level|, cpus))], |logs|, q)
    ensures Stored(logs, cpus, M[k := Layer(next)], k + 1)
  {
    hide WellFormed, LevelSound, LevelFull, NoRepeats, Grown, Covered, Indexed, Above, Consistent;
    var level := M[k - 1].points;
    NextSound(logs, m, k - 1, level, Covered(|level|, ThreadCount(|level|, cpus)), next);
    var M' := M[k := Layer(next)];
    forall i | 0 <= i < k
      ensures GrowsInto(logs, cpus, M', i)
    {
      if i < k - 1 {
        assert GrowsInto(logs, cpus, M, i);
      } else {
        forall q
          ensures q in next <==> Consistent(logs, q) && Above(cpus, level, |logs|, q)
        {
          GrownIsAbove(logs, cpus, m, k - 1, level, q);
        }
      }
    }
    forall i | 0 <= i < k + 1 && CoveredUpTo(cpus, M', i)
      ensures LevelFull(logs, i, M'[i].points)
    {
      SameCover(cpus, M', M, i, i);
      if i == k {
        NextStaysFull(logs, cpus, m, M, k, next);
      }
    }
  }

  /** Past the end of a full lattice there is nothing. */
  lemma {:induction false} NothingBeyond(logs: Logs, k: nat, p: Clock)
    requires WellFormed(logs) && Consistent(logs, p) && Sum(p, |logs|) >= |logs| + k
    requires forall q :: Consistent(logs, q) ==> Sum(q, |logs|) != |logs| + k
    ensures false
    decreases Sum(p, |logs|)
  {
    if Sum(p, |logs|) > |logs| + k {
      var h, q := Removable(logs, p);
      NothingBeyond(logs, k, q);
    }
  }

  /** Every consistent cut is in the lattice, at the level of its sum, when the chunks covered everything. */
  lemma EveryCutStored(logs: Logs, cpus: nat, M: seq<Slot>, k: nat, p: Clock)
    requires WellFormed(logs) && Built(logs, cpus, M, k) && CoveredUpTo(cpus, M, k - 1) && Consistent(logs, p)
    ensures var i := Sum(p, |logs|) - |logs|; 0 <= i < k - 1 && p in M[i].points
  {
    ConsistentSum(logs, p);
    var i := Sum(p, |logs|) - |logs|;
    assert LevelFull(logs, k - 1, []);
    if i >= k - 1 {
      NothingBeyond(logs, k - 1, p);
    }
    assert CoveredUpTo(cpus, M, i);
    assert LevelFull(logs, i, M[i].points);
  }

  /** With a single host every level has one point: a level holds one cut at most, so the chunks cover it. */
  lemma OneHostCovered(logs: Logs, cpus: nat, M: seq<Slot>, k: nat)
    requires |logs| == 1 && cpus >= 1 && Stored(logs, cpus, M, k)
    ensures CoveredUpTo(cpus, M, k)
  {
    forall j | 0 <= j < k
      ensures FullyCovered(cpus, |M[j].points|)
    {
      var points := M[j].points;
      assert LevelSound(logs, j, points);
      if |points| >= 2 {
        assert points[0] in points && points[1] in points;
        OneHostPoint(logs, points[0]);
        OneHostPoint(logs, points[1]);
        assert false;
      }
    }
  }

  lemma OneHostPoint(logs: Logs, p: Clock)
    requires |logs| == 1 && Consistent(logs, p)
    ensures p == map[0 := Sum(p, 1)]
  {
    assert Sum(p, 0) == 0;
    assert p.Keys == {0};
  }

  /** With a single host no stored level is empty, so the loop goes on until the store is full. */
  lemma OneHostNeverEnds(logs: Logs, cpus: nat, M: seq<Slot>, k: nat)
    requires WellFormed(logs) && |logs| == 1 && cpus >= 1 && |M| == Total(logs) && Stored(logs, cpus, M, k)
    ensures M[k - 1].points != []
  {
    OneHostCovered(logs, cpus, M, k);
    assert CoveredUpTo(cpus, M, k - 1);
    assert logs[..0] == [] && Total(logs) == Total(logs[..0]) + |logs[0]|;
    var top: Clock := map[0 := k];
    assert IsEvent(logs, 0, k);
    assert Ticks(At(logs, 0, k), 0) == k;
    assert Allowed(logs, top, 0) && Consistent(logs, top);
    assert Sum(top, 0) == 0 && Sum(top, 1) == k;
    assert LevelFull(logs, k - 1, M[k - 1].points);
    assert top in M[k - 1].points;
  }
}
