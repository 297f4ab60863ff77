/** Mining the lattice for cuts with nothing in flight. */
module Cuts {
  import opened Clocks
  import opened Runs
  import opened Matching
  import opened ConsistentCuts
  import opened Communication
  import opened Lattice
  import opened Finite
  import opened LatticeBuilder

  /** The clock of each host at its event in p. */
  ghost function CutOf(logs: Logs, p: Clock): seq<Clock>
    requires Consistent(logs, p)
  {
    seq(|logs|, h requires 0 <= h < |logs| => assert Allowed(logs, p, h); At(logs, h, Ticks(p, h)))
  }

  /** How many events lie in a cut: each clock counts its host's own. */
  ghost function CutSize(c: seq<Clock>): nat {
    if c == [] then 0 else CutSize(c[..|c| - 1]) + Ticks(c[|c| - 1], |c| - 1)
  }

  ghost predicate BySize(cuts: seq<seq<Clock>>) {
    forall i, j :: 0 <= i < j < |cuts| ==> CutSize(cuts[i]) <= CutSize(cuts[j])
  }

  lemma {:induction false} FirstSize(logs: Logs, p: Clock, n: nat)
    requires WellFormed(logs) && Consistent(logs, p) && n <= |logs|
    ensures CutSize(CutOf(logs, p)[..n]) == Sum(p, n)
  {
    if n > 0 {
      FirstSize(logs, p, n - 1);
      var c := CutOf(logs, p);
      assert c[..n][..n - 1] == c[..n - 1];
      assert Allowed(logs, p, n - 1);
      OwnTime(logs, n - 1, Ticks(p, n - 1));
    }
  }

  /** The size of a cut is the sum of its times. */
  lemma SizeIsSum(logs: Logs, p: Clock)
    requires WellFormed(logs) && Consistent(logs, p)
    ensures CutSize(CutOf(logs, p)) == Sum(p, |logs|)
  {
    FirstSize(logs, p, |logs|);
    assert CutOf(logs, p)[..|logs|] == CutOf(logs, p);
  }

  /** Different points are different cuts. */
  lemma SameCut(logs: Logs, p: Clock, q: Clock)
    requires WellFormed(logs) && Consistent(logs, p) && Consistent(logs, q) && CutOf(logs, p) == CutOf(logs, q)
    ensures p == q
  {
    forall h | 0 <= h < |logs|
      ensures Ticks(p, h) == Ticks(q, h)
    {
      assert Allowed(logs, p, h) && Allowed(logs, q, h);
      OwnTime(logs, h, Ticks(p, h));
      OwnTime(logs, h, Ticks(q, h));
      assert CutOf(logs, p)[h] == CutOf(logs, q)[h];
    }
    assert forall h :: h in p <==> h in q;
    assert forall h :: h in p ==> p[h] == Ticks(p, h) == Ticks(q, h) == q[h];
  }

  /** A point of a level, in the part that the chunks reach, is kept as the cut c. */
  ghost predicate Mined(s: Sys, cpus: nat, points: seq<Clock>, j: nat, c: seq<Clock>)
    requires InRange(s)
  {
    && cpus >= 1 && j < Covered(|points|, ThreadCount(|points|, cpus))
    && Consistent(s.logs, points[j]) && NothingInFlight(s, points[j]) && c == CutOf(s.logs, points[j])
  }

  /** What the tables say of every consistent cut of the run. */
  ghost predicate Decisive(s: Sys, running: Table) {
    && InRange(s) && Shaped(s.logs, running)
    && (forall p: Clock :: Consistent(s.logs, p) ==>
      Bounded(s.logs, p) && (DeltaAt(s.logs, running, p, |s.logs|) == 0 <==> NothingInFlight(s, p)))
  }

  ghost predicate Bounded(logs: Logs, p: Clock) {
    forall h :: 0 <= h < |logs| ==> 1 <= Ticks(p, h) <= |logs[h]|
  }

  lemma ConsistentBounded(logs: Logs, p: Clock)
    requires Consistent(logs, p)
    ensures Bounded(logs, p)
  {
    forall h | 0 <= h < |logs|
      ensures 1 <= Ticks(p, h) <= |logs[h]|
    {
      assert Allowed(logs, p, h);
    }
  }

  /** The inner loop over the hosts: look up each event, add its count, collect its clock. */
  method Examine(logs: Logs, running: Table, point: Clock) returns (delta: int, cut: seq<Clock>)
    requires WellFormed(logs) && Shaped(logs, running) && Consistent(logs, point)
    ensures Bounded(logs, point) && delta == DeltaAt(logs, running, point, |logs|)
    ensures cut == CutOf(logs, point)
  {
    hide WellFormed;
    ConsistentBounded(logs, point);
    delta, cut := 0, [];
    for k := 0 to |logs|
      invariant |cut| == k && delta == DeltaAt(logs, running, point, k)
      invariant forall h :: 0 <= h < k ==> cut[h] == CutOf(logs, point)[h]
    {
      if k !in point {
        break;
      }
      var found, index := SearchClockById(logs[k], point, k);
      FindsEvent(logs, point, k, found, index);
      if !found {
        break;
      }
      delta := delta + running[k][index];
      cut := cut + [logs[k][index]];
    }
    assert cut == CutOf(logs, point);
  }

  /** The search finds the host's event of a consistent cut. */
  lemma FindsEvent(logs: Logs, p: Clock, k: nat, found: bool, index: nat)
    requires WellFormed(logs) && Consistent(logs, p) && k < |logs|
    requires index < |logs[k]| && (found ==> Ticks(logs[k][index], k) == Ticks(p, k))
    requires !found && Ascending(logs[k], k) ==> forall j :: 0 <= j < |logs[k]| ==> Ticks(logs[k][j], k) != Ticks(p, k)
    ensures found && index == Ticks(p, k) - 1
  {
    OwnAscends(logs, k);
    assert Allowed(logs, p, k);
    var t := Ticks(p, k);
    assert Ticks(logs[k][t - 1], k) == t;
  }

  /** Two points of a level never give the same cut. */
  lemma MinedOnce(s: Sys, cpus: nat, points: seq<Clock>, j: nat, k: nat, c: seq<Clock>)
    requires InRange(s) && WellFormed(s.logs) && NoRepeats(points) && Mined(s, cpus, points, j, c) &&
      Mined(s, cpus, points, k, c)
    ensures j == k
  {
    hide WellFormed, Consistent, NothingInFlight;
    SameCut(s.logs, points[j], points[k]);
  }

  /** More cuts, from later points, repeat none. */
  lemma JoinDistinct(s: Sys, cpus: nat, points: seq<Clock>, mid: nat, a: seq<seq<Clock>>, b: seq<seq<Clock>>)
    requires InRange(s) && WellFormed(s.logs) && NoRepeats(points) && NoRepeats(a) && NoRepeats(b)
    requires forall c :: c in a ==> exists j: nat :: j < mid && Mined(s, cpus, points, j, c)
    requires forall c :: c in b ==> exists j: nat :: mid <= j && Mined(s, cpus, points, j, c)
    ensures NoRepeats(a + b)
  {
    hide WellFormed, Mined;
    forall x, y | 0 <= x < |a| && 0 <= y < |b|
      ensures a[x] != b[y]
    {
      if a[x] == b[y] {
        assert a[x] in a && b[y] in b;
        var j: nat :| j < mid && Mined(s, cpus, points, j, a[x]);
        var k: nat :| mid <= k && Mined(s, cpus, points, k, b[y]);
        MinedOnce(s, cpus, points, j, k, a[x]);
      }
    }
  }

  /** One level's worth of the mining loop, all threads together. */
  method MineLevel(logs: Logs, running: Table, points: seq<Clock>, cpus: nat, ghost s: Sys)
    returns (cuts: seq<seq<Clock>>)
    requires Good(s) && s.logs == logs && Decisive(s, running) && cpus >= 1
    requires (forall p :: p in points ==> Consistent(logs, p)) && NoRepeats(points)
    ensures NoRepeats(cuts) && forall c :: c in cuts <==> exists j: nat :: Mined(s, cpus, points, j, c)
  {
    hide Good, Decisive, Consistent, NothingInFlight, NoRepeats, WellFormed;
    GoodRange(s);
    GoodWellFormed(s);
    var div := ThreadCount(|points|, cpus);
    var size := |points| / div;
    ChunkArithmetic(|points|, div);
    NoneRepeat();
    cuts := [];
    for core := 0 to div
      invariant size * core <= |points| && NoRepeats(cuts)
      invariant forall c :: c in cuts <==> exists j: nat :: j < size * core && Mined(s, cpus, points, j, c)
    {
      ChunkStep(|points|, div, core);
      ChunkWithin(|points|, div, core);
      var more := MineChunk(logs, running, points, size * core, size * (core + 1), cpus, s);
      JoinDistinct(s, cpus, points, size * core, cuts, more);
      cuts := cuts + more;
    }
  }

  lemma ChunkWithin(size: nat, div: nat, core: nat)
    requires div >= 1 && core < div
    ensures size / div * (core + 1) <= Covered(size, div)
  {
    MulMonotone(size / div, core + 1, div);
  }

  method MineChunk(logs: Logs, running: Table, points: seq<Clock>, lo: nat, hi: nat, ghost cpus: nat, ghost s: Sys)
    returns (cuts: seq<seq<Clock>>)
    requires Good(s) && s.logs == logs && Decisive(s, running) && cpus >= 1
    requires lo <= hi <= Covered(|points|, ThreadCount(|points|, cpus))
    requires (forall p :: p in points ==> Consistent(logs, p)) && NoRepeats(points)
    ensures InRange(s) && NoRepeats(cuts)
    ensures forall c :: c in cuts <==> exists j: nat :: lo <= j < hi && Mined(s, cpus, points, j, c)
  {
    hide Good, Consistent, NothingInFlight, Shaped, WellFormed, CutOf;
    GoodRange(s);
    GoodWellFormed(s);
    cuts := [];
    for j := lo to hi
      invariant NoRepeats(cuts)
      invariant forall c :: c in cuts <==> exists k: nat :: lo <= k < j && Mined(s, cpus, points, k, c)
    {
      var delta, cut := Examine(logs, running, points[j]);
      assert Bounded(logs, points[j]);
      if delta == 0 {
        assert Mined(s, cpus, points, j, cut);
        JoinDistinct(s, cpus, points, j, cuts, [cut]);
        cuts := cuts + [cut];
      }
      assert forall c :: Mined(s, cpus, points, j, c) <==> delta == 0 && c == cut;
    }
  }

  /** c is mined from one of the first n levels. */
  ghost predicate FromLattice(s: Sys, cpus: nat, M: seq<Slot>, n: nat, c: seq<Clock>)
    requires InRange(s)
  {
    exists i, j: nat :: 0 <= i < n <= |M| && M[i].Layer? && Mined(s, cpus, M[i].points, j, c)
  }

  /** mineConsistentCuts2: pop level after level; every level with points is delivered once, in order. */
  method MineConsistentCuts2(lw: LatticeWrapper, logs: Logs, running: Table, cpus: nat, ghost levels: nat, ghost s: Sys)
    returns (cuts: seq<seq<Clock>>, ghost delivered: seq<Slot>)
    requires Good(s) && s.logs == logs && Decisive(s, running) && cpus >= 1
    requires lw.LatticeD == [] && |lw.LatticeM| >= 1 && Built(logs, cpus, lw.LatticeM, levels)
    modifies lw
    ensures InRange(s) && lw.LatticeM == old(lw.LatticeM)
    ensures levels - 1 <= |delivered| <= levels <= |lw.LatticeM| && delivered == lw.LatticeM[..|delivered|]
    ensures forall c :: c in cuts <==> FromLattice(s, cpus, lw.LatticeM, levels - 1, c)
    ensures NoRepeats(cuts) && BySize(cuts)
  {
    hide Good, Decisive, Consistent, NothingInFlight, LevelFull, Mined, NoRepeats, WellFormed, CutSize, BySize,
      FromLattice, Built, LevelSound;
    GoodWellFormed(s);
    GoodRange(s);
    cuts, delivered := [], [];
    NoneRepeat();
    lw.Beginning();
    ghost var M := lw.LatticeM;
    ghost var i := 0;
    FromNone(s, cpus, M);
    BuiltShape(logs, cpus, M, levels);
    var level := lw.Pop();
    while level != Nil
      invariant lw.LatticeD == [] && lw.CurrentFile == 0 && lw.LatticeM == M && lw.LevelM < |M|
      invariant 0 <= i <= levels
      invariant level != Nil ==> i < levels && level == M[i] && lw.LevelM == i + 1
      invariant level == Nil ==> i >= levels - 1
      invariant delivered == M[..i]
      invariant NoRepeats(cuts) && BySize(cuts) && forall c :: c in cuts ==> CutSize(c) < |logs| + i
      invariant forall c :: c in cuts <==> FromLattice(s, cpus, M, i, c)
      decreases levels - i, level != Nil
    {
      var more := MineLevel(logs, running, level.points, cpus, s);
      LevelSize(s, cpus, level.points, i, more);
      JoinBySize(cuts, more, |logs| + i);
      FromMore(s, cpus, M, i, i + 1);
      delivered := delivered + [level];
      cuts := cuts + more;
      i := i + 1;
      level := lw.Pop();
    }
    if i > levels - 1 {
      LastEmpty(s, cpus);
      FromMore(s, cpus, M, levels - 1, levels);
    }
  }

  lemma BuiltShape(logs: Logs, cpus: nat, M: seq<Slot>, k: nat)
    requires Built(logs, cpus, M, k)
    ensures 1 <= k <= |M| && M[k - 1] == Layer([])
    ensures forall i :: 0 <= i < k ==> M[i].Layer? && LevelSound(logs, i, M[i].points)
    ensures forall i :: k <= i < |M| ==> M[i] == Nil
    ensures forall i, p :: 0 <= i < k && p in M[i].points ==> Consistent(logs, p)
    ensures forall i :: 0 <= i < k ==> NoRepeats(M[i].points)
  {
    hide Consistent, LevelFull, NoRepeats;
    assert M[k - 1] == Layer([]);
  }

  lemma FromNone(s: Sys, cpus: nat, M: seq<Slot>)
    requires InRange(s)
    ensures forall c :: !FromLattice(s, cpus, M, 0, c)
  {
  }

  /** The cuts of one more level. */
  lemma FromMore(s: Sys, cpus: nat, M: seq<Slot>, i: nat, next: nat)
    requires InRange(s) && i < |M| && next == i + 1 && M[i].Layer?
    ensures forall c :: FromLattice(s, cpus, M, next, c)
              <==> FromLattice(s, cpus, M, i, c) || exists j: nat :: Mined(s, cpus, M[i].points, j, c)
  {
    hide Mined;
  }

  lemma NoneRepeat()
    ensures NoRepeats<seq<Clock>>([]) && BySize([])
  {
  }

  /** All cuts of a level have one size. */
  lemma LevelSize(s: Sys, cpus: nat, points: seq<Clock>, i: nat, cuts: seq<seq<Clock>>)
    requires InRange(s) && WellFormed(s.logs) && LevelSound(s.logs, i, points)
    requires forall c :: c in cuts ==> exists j: nat :: Mined(s, cpus, points, j, c)
    ensures forall c :: c in cuts ==> CutSize(c) == |s.logs| + i
  {
    hide WellFormed, Consistent, NothingInFlight;
    forall c | c in cuts
      ensures CutSize(c) == |s.logs| + i
    {
      var j: nat :| Mined(s, cpus, points, j, c);
      assert points[j] in points;
      SizeIsSum(s.logs, points[j]);
    }
  }

  lemma JoinBySize(a: seq<seq<Clock>>, b: seq<seq<Clock>>, size: nat)
    requires NoRepeats(a) && NoRepeats(b) && BySize(a)
    requires (forall c :: c in a ==> CutSize(c) < size) && (forall c :: c in b ==> CutSize(c) == size)
    ensures NoRepeats(a + b) && BySize(a + b) && forall c :: c in a + b ==> CutSize(c) < size + 1
  {
    hide CutSize;
    assert forall i :: 0 <= i < |a| ==> a[i] in a;
    assert forall i :: 0 <= i < |b| ==> b[i] in b;
  }

  lemma LastEmpty(s: Sys, cpus: nat)
    requires InRange(s)
    ensures forall j: nat, c :: !Mined(s, cpus, [], j, c)
  {
  }
}
