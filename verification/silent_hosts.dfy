/** Two hosts that never talk: a run whose lattice the threads do not cover. */
module SilentHosts {
  import opened Finite
  import opened Clocks
  import opened Runs
  import opened ConsistentCuts
  import opened Communication
  import opened Lattice
  import opened LatticeBuilder
  import opened Cuts
  import opened Miner

  /** The log of a host that only ever counts its own events. */
  function Alone(h: nat, t: nat): (log: seq<Clock>)
    ensures |log| == t
  {
    seq(t, i requires 0 <= i < t => map[h := i + 1])
  }

  function Silent(a: nat, b: nat): Sys {
    Sys([Alone(0, a), Alone(1, b)], [])
  }

  lemma OneMore(a: nat, b: nat, h: nat)
    requires a >= 1 && b >= 1 && h < 2
    ensures InRange(Silent(a, b)) && Enabled(Silent(a, b), Local(h))
    ensures Apply(Silent(a, b), Local(h)) == if h == 0 then Silent(a + 1, b) else Silent(a, b + 1)
  {
    var s := Silent(a, b);
    var t := if h == 0 then a else b;
    var next: Clock := map[h := t + 1];
    assert NextClock(s.logs, h) == next;
    assert s.logs[h] + [next] == Alone(h, t + 1);
  }

  /** Such logs come out of a causally ordered run. */
  lemma {:induction false} SilentRun(a: nat, b: nat) returns (steps: seq<Step>, states: seq<Sys>)
    requires a >= 1 && b >= 1
    ensures CausalRun(2, steps, states) && states != [] && states[|states| - 1] == Silent(a, b)
  {
    if a == 1 && b == 1 {
      steps, states := [], [Start(2)];
      assert Alone(0, 1) == [map[0 := 1]] && Alone(1, 1) == [map[1 := 1]];
      assert Start(2).logs == Silent(1, 1).logs;
    } else {
      hide CausalRun, InRange, Enabled, Apply;
      var h := if a > 1 then 0 else 1;
      var a0, b0 := if a > 1 then a - 1 else a, if a > 1 then b else b - 1;
      steps, states := SilentRun(a0, b0);
      OneMore(a0, b0, h);
      Extend(steps, states, Local(h));
      steps, states := steps + [Local(h)], states + [Silent(a, b)];
    }
  }

  lemma Extend(steps: seq<Step>, states: seq<Sys>, e: Step)
    requires CausalRun(2, steps, states) && states != [] && e.Local?
    requires var s := states[|states| - 1]; InRange(s) && Enabled(s, e)
    ensures CausalRun(2, steps + [e], states + [Apply(states[|states| - 1], e)])
  {
    var steps', states' := steps + [e], states + [Apply(states[|states| - 1], e)];
    forall i, j | 0 <= i && j == i + 1 && j < |states'|
      ensures InRange(states'[i]) && Enabled(states'[i], steps'[i]) && states'[j] == Apply(states'[i], steps'[i])
    {
      if i < |steps| {
        assert states[j] == Apply(states[i], steps[i]);
      }
    }
  }

  lemma SilentGood(t: nat)
    requires t >= 1
    ensures Good(Silent(t, t)) && Unheard(Silent(t, t)) && InRange(Silent(t, t)) && WellFormed(Silent(t, t).logs)
  {
    var steps, states := SilentRun(t, t);
    hide Good, Unheard, CausalRun, WellFormed;
    CausalEnd(2, steps, states);
    GoodWellFormed(Silent(t, t));
  }

  /** Every pair of times is a consistent cut. */
  function Pt(x: nat, y: nat): (p: Clock)
    ensures Ticks(p, 0) == x && Ticks(p, 1) == y
  {
    map[0 := x, 1 := y]
  }

  lemma SilentCuts(t: nat, p: Clock)
    ensures Consistent(Silent(t, t).logs, p) <==>
      1 <= Ticks(p, 0) <= t && 1 <= Ticks(p, 1) <= t && p == Pt(Ticks(p, 0), Ticks(p, 1))
    ensures Sum(p, 2) == Ticks(p, 0) + Ticks(p, 1)
  {
    var logs := Silent(t, t).logs;
    assert Sum(p, 0) == 0 && Sum(p, 1) == Ticks(p, 0);
    if 1 <= Ticks(p, 0) <= t && 1 <= Ticks(p, 1) <= t {
      assert At(logs, 0, Ticks(p, 0)) == map[0 := Ticks(p, 0)] && At(logs, 1, Ticks(p, 1)) == map[1 := Ticks(p, 1)];
      assert Allowed(logs, p, 0) && Allowed(logs, p, 1);
    }
    if Consistent(logs, p) {
      assert Allowed(logs, p, 0) && Allowed(logs, p, 1);
      assert p.Keys == {0, 1};
    }
  }

  /** The cuts i events above the bottom, i below t. */
  function Diagonal(i: nat): (level: seq<Clock>)
    ensures |level| == i + 1 && forall x :: 0 <= x <= i ==> level[x] == Pt(x + 1, i + 1 - x)
  {
    seq(i + 1, x requires 0 <= x < i + 1 => Pt(x + 1, i + 1 - x))
  }

  lemma DiagonalIsLevel(t: nat, i: nat)
    requires i < t
    ensures LevelOf(Silent(t, t).logs, i, Diagonal(i))
  {
    var logs, level := Silent(t, t).logs, Diagonal(i);
    forall x, y | 0 <= x < y < |level|
      ensures level[x] != level[y]
    {
      assert Ticks(level[x], 0) != Ticks(level[y], 0);
    }
    forall p | p in level
      ensures Consistent(logs, p) && Sum(p, 2) == 2 + i
    {
      var x :| 0 <= x < |level| && level[x] == p;
      SilentCuts(t, p);
    }
    forall p | Consistent(logs, p) && Sum(p, 2) == 2 + i
      ensures p in level
    {
      SilentCuts(t, p);
      assert level[Ticks(p, 0) - 1] == p;
    }
  }

  /** With a thousand and one events each, no number of threads but one divides all levels. */
  lemma SilentDoesNotFit(t: nat, cpus: nat)
    requires t > THREAD_BOOST && cpus >= 2
    ensures !ChunksFit(Silent(t, t).logs, cpus)
  {
    var i := if THREAD_BOOST % cpus != 0 then THREAD_BOOST - 1 else THREAD_BOOST;
    DiagonalIsLevel(t, i);
    if THREAD_BOOST % cpus == 0 { NextNotDivisible(THREAD_BOOST, cpus); }
    assert !FullyCovered(cpus, |Diagonal(i)|);
  }

  lemma NextNotDivisible(n: nat, d: nat)
    requires d >= 2 && n % d == 0
    ensures (n + 1) % d != 0
  {
    var q, r := n / d, (n + 1) / d;
    assert n == d * q && d * r <= n + 1 < d * r + d;
    assert r >= q + 1 ==> d * r >= d * (q + 1) == d * q + d;
    assert r + 1 <= q ==> d * (r + 1) == d * r + d <= d * q;
    assert r == q;
  }

  // ----- they fit in memory, so the merger does finish, and misses a quiet cut -----

  /** All points with a first time up to x and a second up to t. */
  function Grid(x: nat, t: nat): (points: seq<Clock>)
    ensures |points| == x * t
  {
    if x == 0 then [] else Grid(x - 1, t) + seq(t, y requires 0 <= y < t => Pt(x, y + 1))
  }

  lemma {:induction false} GridHolds(x: nat, t: nat, a: nat, b: nat)
    requires 1 <= a <= x && 1 <= b <= t
    ensures Pt(a, b) in Grid(x, t)
  {
    if a < x {
      GridHolds(x - 1, t, a, b);
    } else {
      var row := seq(t, y requires 0 <= y < t => Pt(x, y + 1));
      assert row[b - 1] == Pt(a, b);
    }
  }

  lemma {:induction false} ElementsFew<T>(s: seq<T>)
    ensures |Elements(s)| <= |s|
  {
    if s != [] {
      var t, last := s[..|s| - 1], s[|s| - 1];
      ElementsFew(t);
      assert s == t + [last];
      assert Elements(s) == Elements(t) + {last};
    }
  }

  lemma SilentIsSmall(t: nat)
    requires t * t <= POINT_DISK_LIMIT
    ensures !ManyCuts(Silent(t, t).logs)
  {
    var logs := Silent(t, t).logs;
    forall all: set<Clock> | forall p :: p in all ==> Consistent(logs, p)
      ensures |all| <= POINT_DISK_LIMIT
    {
      forall p | p in all
        ensures p in Elements(Grid(t, t))
      {
        SilentCuts(t, p);
        GridHolds(t, t, Ticks(p, 0), Ticks(p, 1));
      }
      SubsetSize(all, Elements(Grid(t, t)));
      ElementsFew(Grid(t, t));
    }
  }

  /** Only a point that some chunk reaches is mined. */
  lemma MinedIsLooked(s: Sys, cpus: nat, M: seq<Slot>, k: nat, p: Clock)
    requires InRange(s) && WellFormed(s.logs) && cpus >= 1 && 1 <= k <= |M|
    requires Consistent(s.logs, p) && FromLattice(s, cpus, M, k - 1, CutOf(s.logs, p))
    ensures Looked(cpus, M, k, p)
  {
    hide WellFormed, NothingInFlight, Consistent, CutOf;
    var i: nat, j: nat :| i < k - 1 && M[i].Layer? && Mined(s, cpus, M[i].points, j, CutOf(s.logs, p));
    SameCut(s.logs, p, M[i].points[j]);
    assert LookedAt(cpus, M, k, i, j, p);
  }

  lemma UnlookedIsMissed(s: Sys, cpus: nat, M: seq<Slot>, k: nat, p: Clock)
    requires InRange(s) && WellFormed(s.logs) && cpus >= 1 && Built(s.logs, cpus, M, k)
    requires Consistent(s.logs, p) && !Looked(cpus, M, k, p)
    ensures !FromLattice(s, cpus, M, k - 1, CutOf(s.logs, p))
  {
    if FromLattice(s, cpus, M, k - 1, CutOf(s.logs, p)) {
      MinedIsLooked(s, cpus, M, k, p);
    }
  }

  /** Whatever lattice is built of two silent hosts with more than a thousand events each, by two or more threads, a
      quiet cut is not mined from it. */
  lemma SilentMisses(t: nat, cpus: nat, M: seq<Slot>, k: nat) returns (missed: seq<Clock>)
    requires t > THREAD_BOOST && cpus >= 2 && Built(Silent(t, t).logs, cpus, M, k)
    ensures InRange(Silent(t, t)) && QuietCut(Silent(t, t), missed)
    ensures !FromLattice(Silent(t, t), cpus, M, k - 1, missed)
  {
    var s := Silent(t, t);
    SilentGood(t);
    GoodWellFormed(s);
    SilentDoesNotFit(t, cpus);
    hide Good, Unheard, WellFormed, ChunksFit, Built, FromLattice, Looked, QuietCut, Alone, Consistent;
    AllLookedExactly(s.logs, cpus, M, k);
    var p: Clock :| Consistent(s.logs, p) && !Looked(cpus, M, k, p);
    UnlookedIsMissed(s, cpus, M, k, p);
    missed := CutOf(s.logs, p);
    SilentIsQuiet(t, p);
  }

  /** The merger on two silent hosts of 1001 events each, with any number of threads from two on: it completes, and a
      quiet cut is not among its results. */
  method MissesQuietCut(cpus: nat)
    returns (cuts: seq<seq<Clock>>, outcome: Outcome, ghost missed: seq<Clock>, ghost M: seq<Slot>, ghost levels: nat)
    requires cpus >= 2
    ensures outcome == Complete && Built(Silent(1001, 1001).logs, cpus, M, levels)
    ensures InRange(Silent(1001, 1001))
    ensures forall c :: c in cuts <==> FromLattice(Silent(1001, 1001), cpus, M, levels - 1, c)
    ensures QuietCut(Silent(1001, 1001), missed) && missed !in cuts
  {
    ghost var s := Silent(1001, 1001);
    SilentGood(1001);
    SilentIsSmall(1001);
    hide Good, Unheard, WellFormed, ManyCuts, ChunksFit, Built, FromLattice, NoRepeats, BySize, QuietCut, Alone,
      Consistent;
    cuts, outcome, M, levels := MineCuts(Silent(1001, 1001).logs, cpus, s);
    missed := SilentMisses(1001, cpus, M, levels);
  }

  lemma SilentIsQuiet(t: nat, p: Clock)
    requires t >= 1 && Consistent(Silent(t, t).logs, p)
    ensures InRange(Silent(t, t)) && QuietCut(Silent(t, t), CutOf(Silent(t, t).logs, p))
  {
    var s := Silent(t, t);
    SilentGood(t);
    QuietInCausalRuns(s, p);
    assert QuietAt(s, p);
  }
}
