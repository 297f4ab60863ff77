/** Building the lattice of consistent cuts level by level. */
module Lattice {
  import opened Clocks
  import opened Matching
  import opened ConsistentCuts
  import opened Finite

  /** clocksToMaps: host, own time, and then the clock logged there. */
  type ClockIndex = map<nat, map<nat, Clock>>

  ghost predicate Indexed(logs: Logs, m: ClockIndex) {
    && (forall h: nat :: h in m <==> h < |logs|)
    && (forall h: nat, t: nat :: h < |logs| ==> (t in m[h] <==> IsEvent(logs, h, t)))
    && (forall h: nat, t: nat :: IsEvent(logs, h, t) ==> m[h][t] == At(logs, h, t))
  }

  method ClocksToMaps(logs: Logs) returns (m: ClockIndex)
    ensures OwnTicks(logs) && Initialised(logs) ==> Indexed(logs, m)
  {
    hide Initialised;
    ghost var ok := OwnTicks(logs) && Initialised(logs);
    m := map[];
    for i := 0 to |logs|
      invariant forall h: nat :: h in m <==> h < i
      invariant ok ==> forall h: nat, t: nat :: h < i ==> (t in m[h] <==> IsEvent(logs, h, t))
      invariant ok ==> forall h: nat, t: nat :: h < i && IsEvent(logs, h, t) ==> m[h][t] == At(logs, h, t)
    {
      var byTime := IndexHost(logs, i);
      m := m[i := byTime];
    }
  }

  method IndexHost(logs: Logs, i: nat) returns (byTime: map<nat, Clock>)
    requires i < |logs|
    ensures OwnTicks(logs) && Initialised(logs) ==> forall t: nat :: t in byTime <==> IsEvent(logs, i, t)
    ensures OwnTicks(logs) && Initialised(logs) ==> forall t: nat :: IsEvent(logs, i, t) ==> byTime[t] == At(logs, i, t)
  {
    ghost var ok := OwnTicks(logs) && Initialised(logs);
    byTime := map[];
    for j := 0 to |logs[i]|
      invariant ok ==> forall t: nat :: t in byTime <==> 1 <= t <= j
      invariant ok ==> forall t: nat :: 1 <= t <= j ==> byTime[t] == At(logs, i, t)
    {
      assert IsEvent(logs, i, j + 1) && At(logs, i, j + 1) == logs[i][j];
      if i in logs[i][j] {
        var entry := Restrict(logs[i][j], |logs|);
        byTime := byTime[logs[i][j][i] := entry];
        if ok {
          assert entry == logs[i][j];
        }
      }
    }
  }

  method Restrict(c: Clock, n: nat) returns (entry: Clock)
    ensures forall h: nat :: h in entry <==> h in c && h < n
    ensures forall h: nat :: h in entry ==> entry[h] == c[h]
  {
    entry := map[];
    for cid := 0 to n
      invariant forall h: nat :: h in entry <==> h in c && h < cid
      invariant forall h: nat :: h in entry ==> entry[h] == c[h]
    {
      if cid in c {
        entry := entry[cid := c[cid]];
      }
    }
  }

  function FastSearchClockById(m: ClockIndex, point: Clock, id: nat): Option<Clock> {
    var v := Ticks(point, id);
    if id !in m || v !in m[id] then None
    else if id !in point then None
    else if Ticks(m[id][v], id) != v then None
    else Some(m[id][v])
  }

  predicate FastCorrectLatticePoint(m: ClockIndex, point: Clock, id: nat) {
    match FastSearchClockById(m, point, id)
    case None => false
    case Some(clock) => forall cid :: cid in clock ==> clock[cid] <= Ticks(point, cid)
  }

  /** The indexed check accepts exactly the points that the id's event allows. */
  lemma FastMeansAllowed(logs: Logs, m: ClockIndex, point: Clock, id: nat)
    requires Indexed(logs, m) && OwnTicks(logs) && Initialised(logs) && id < |logs| && Over(point, |logs|)
    ensures FastCorrectLatticePoint(m, point, id) <==> Allowed(logs, point, id)
  {
    var t := Ticks(point, id);
    if IsEvent(logs, id, t) {
      var c := At(logs, id, t);
      assert m[id][t] == c && Ticks(c, id) == t;
      if Allowed(logs, point, id) {
        forall cid | cid in c
          ensures c[cid] <= Ticks(point, cid)
        {
          assert cid < |logs| && Ticks(c, cid) == c[cid];
        }
      }
      if FastCorrectLatticePoint(m, point, id) {
        forall g | 0 <= g < |logs|
          ensures Ticks(c, g) <= Ticks(point, g)
        {
          assert g in c ==> c[g] == Ticks(c, g);
        }
      }
    }
  }

  predicate LatticeValidWithLog(point: Clock, logged: Clock) {
    forall id :: id in point ==> Ticks(logged, id) <= Ticks(point, id)
  }

  function NearestPrecedingClock(log: seq<Clock>, proposed: Clock, index: nat, id: nat): (int, bool)
    requires index < |log|
  {
    var loggedTicks, proposedTicks := Ticks(log[index], id), Ticks(proposed, id);
    if index == 0 && proposedTicks < loggedTicks then (0, false)
    else if index >= |log| - 1 && proposedTicks > loggedTicks then (0, false)
    else if proposedTicks > loggedTicks then (index, true)
    else (index - 1, true)
  }

  /** The simple check: search the log, fall back to the nearest clock, compare component by component. */
  method CorrectLatticePoint(logs: Logs, point: Clock, id: nat) returns (r: bool)
    requires OwnTicks(logs) && id < |logs| && |logs[id]| >= 1 && Over(point, |logs|)
    ensures r <==> Allowed(logs, point, id)
  {
    var log := logs[id];
    OwnAscends(logs, id);
    var found, i := SearchClockById(log, point, id);
    var index: int := i;
    if !found {
      var near := NearestPrecedingClock(log, point, i, id);
      index, found := near.0, near.1;
      NoNearest(logs, point, id, i);
    }
    var hostClock := log[index];
    r := LatticeValidWithLog(point, hostClock) && found;
    if found {
      assert IsEvent(logs, id, index + 1) && At(logs, id, index + 1) == hostClock;
    }
  }

  lemma OwnAscends(logs: Logs, id: nat)
    requires OwnTicks(logs) && id < |logs|
    ensures Ascending(logs[id], id)
    ensures forall j :: 0 <= j < |logs[id]| ==> Ticks(logs[id][j], id) == j + 1
  {
    forall j | 0 <= j < |logs[id]|
      ensures Ticks(logs[id][j], id) == j + 1
    {
      assert IsEvent(logs, id, j + 1) && At(logs, id, j + 1) == logs[id][j];
    }
  }

  /** On logs without gaps a time that is not found lies outside, and no nearest clock is accepted for it. */
  lemma NoNearest(logs: Logs, point: Clock, id: nat, i: nat)
    requires OwnTicks(logs) && id < |logs| && i < |logs[id]|
    requires forall j :: 0 <= j < |logs[id]| ==> Ticks(logs[id][j], id) != Ticks(point, id)
    requires forall j :: 0 <= j < i ==> Ticks(logs[id][j], id) < Ticks(point, id)
    requires forall j :: i < j < |logs[id]| ==> Ticks(logs[id][j], id) > Ticks(point, id)
    ensures NearestPrecedingClock(logs[id], point, i, id) == (0, false) && !IsEvent(logs, id, Ticks(point, id))
  {
    OwnAscends(logs, id);
    var t, log := Ticks(point, id), logs[id];
    var k := if 1 <= t <= |log| then t - 1 else 0;
    assert Ticks(log[k], id) == k + 1 && Ticks(log[k], id) != t;
    assert i > 0 ==> Ticks(log[0], id) < t;
    assert i < |log| - 1 ==> Ticks(log[|log| - 1], id) > t;
  }

  /** Both checks give the same answer. */
  method CheckBoth(logs: Logs, point: Clock, id: nat) returns (fast: bool, slow: bool)
    requires OwnTicks(logs) && Initialised(logs) && id < |logs| && Over(point, |logs|)
    ensures fast == slow
    ensures fast <==> Allowed(logs, point, id)
  {
    var m := ClocksToMaps(logs);
    fast := FastCorrectLatticePoint(m, point, id);
    FastMeansAllowed(logs, m, point, id);
    slow := CorrectLatticePoint(logs, point, id);
  }

  const THREAD_BOOST := 1000

  /** ThreadCount: small levels are not split. */
  function ThreadCount(size: nat, cpus: nat): nat {
    if size < THREAD_BOOST then 1 else cpus
  }

  /** How many points of a level the equal chunks reach: whatever is left over is never looked at. */
  function Covered(size: nat, div: nat): (k: nat)
    requires div >= 1
    ensures k <= size < k + div && (k == size <==> size % div == 0)
  {
    ChunkArithmetic(size, div);
    size / div * div
  }

  lemma ChunkArithmetic(size: nat, div: nat)
    requires div >= 1
    ensures 0 <= size / div * div <= size < size / div * div + div
    ensures size / div * div == size <==> size % div == 0
  {
    assert size == div * (size / div) + size % div;
  }

  /** q is a successor of one of the points, accepted by the indexed check. */
  ghost predicate Grown(m: ClockIndex, points: seq<Clock>, n: nat, q: Clock) {
    exists j, h :: 0 <= j < |points| && 0 <= h < n && GrownFrom(m, points[j], h, q)
  }

  predicate GrownFrom(m: ClockIndex, p: Clock, h: nat, q: Clock) {
    q == Tick(p, h) && FastCorrectLatticePoint(m, q, h)
  }

  /** One thread's share of a level. */
  method Chunk(m: ClockIndex, level: seq<Clock>, lo: nat, hi: nat, n: nat) returns (sub: set<Clock>)
    requires lo <= hi <= |level|
    ensures forall q :: q in sub <==> Grown(m, level[lo..hi], n, q)
  {
    sub := {};
    for j := lo to hi
      invariant forall q :: q in sub <==> Grown(m, level[lo..j], n, q)
    {
      var p := level[j];
      var more := Successors(m, p, n, sub);
      forall q
        ensures q in more <==> Grown(m, level[lo..j + 1], n, q)
      {
        GrownMore(m, level, lo, j, n, q);
      }
      sub := more;
    }
  }

  method Successors(m: ClockIndex, p: Clock, n: nat, sub: set<Clock>) returns (r: set<Clock>)
    ensures forall q :: q in r <==> q in sub || exists h :: 0 <= h < n && GrownFrom(m, p, h, q)
  {
    r := sub;
    for id := 0 to n
      invariant forall q :: q in r <==> q in sub || exists h :: 0 <= h < id && GrownFrom(m, p, h, q)
    {
      var pu := Tick(p, id);
      if pu !in r && FastCorrectLatticePoint(m, pu, id) {
        r := r + {pu};
      }
      assert GrownFrom(m, p, id, pu) <==> FastCorrectLatticePoint(m, pu, id);
      assert forall q :: q in r <==>
        q in sub || (exists h :: 0 <= h < id && GrownFrom(m, p, h, q)) || GrownFrom(m, p, id, q);
    }
  }

  lemma GrownMore(m: ClockIndex, level: seq<Clock>, lo: nat, j: nat, n: nat, q: Clock)
    requires lo <= j < |level|
    ensures Grown(m, level[lo..j + 1], n, q) <==>
      Grown(m, level[lo..j], n, q) || exists h :: 0 <= h < n && GrownFrom(m, level[j], h, q)
  {
    assert level[lo..j + 1] == level[lo..j] + [level[j]];
    GrownConcat(m, level[lo..j], [level[j]], n, q);
    if exists h :: 0 <= h < n && GrownFrom(m, level[j], h, q) {
      var h :| 0 <= h < n && GrownFrom(m, level[j], h, q);
      assert GrownFrom(m, [level[j]][0], h, q);
    }
  }

  lemma GrownNone(m: ClockIndex, n: nat)
    ensures forall q :: !Grown(m, [], n, q)
  {
  }

  lemma GrownConcat(m: ClockIndex, a: seq<Clock>, b: seq<Clock>, n: nat, q: Clock)
    ensures Grown(m, a + b, n, q) <==> Grown(m, a, n, q) || Grown(m, b, n, q)
  {
    if Grown(m, a, n, q) {
      var j, h :| 0 <= j < |a| && 0 <= h < n && GrownFrom(m, a[j], h, q);
      assert (a + b)[j] == a[j];
    }
    if Grown(m, b, n, q) {
      var j, h :| 0 <= j < |b| && 0 <= h < n && GrownFrom(m, b[j], h, q);
      assert (a + b)[|a| + j] == b[j];
    }
    if Grown(m, a + b, n, q) {
      var j, h :| 0 <= j < |a + b| && 0 <= h < n && GrownFrom(m, (a + b)[j], h, q);
      if j < |a| {
        assert GrownFrom(m, a[j], h, q);
      } else {
        assert GrownFrom(m, b[j - |a|], h, q);
      }
    }
  }

  /** mapToArray: the points of the map in some order, each once. */
  method MapToArray(points: set<Clock>) returns (array': seq<Clock>)
    ensures NoRepeats(array') && forall q :: q in array' <==> q in points
  {
    array' := [];
    var rest := points;
    while rest != {}
      invariant NoRepeats(array') && rest <= points
      invariant forall q :: q in array' <==> q in points && q !in rest
      decreases rest
    {
      var q :| q in rest;
      rest := rest - {q};
      array' := array' + [q];
    }
  }

  /** One round of the main loop: the next level from the covered part of this one. */
  method NextLevel(m: ClockIndex, level: seq<Clock>, n: nat, div: nat) returns (next: seq<Clock>)
    requires div >= 1
    ensures NoRepeats(next)
    ensures forall q :: q in next <==> Grown(m, level[..Covered(|level|, div)], n, q)
  {
    hide Grown, NoRepeats;
    var size := |level| / div;
    CoveredIs(|level|, div);
    hide Covered;
    GrownNone(m, n);
    var nextMap: set<Clock> := {};
    for core := 0 to div
      invariant size * core <= |level|
      invariant forall q :: q in nextMap <==> Grown(m, level[..size * core], n, q)
    {
      ChunkStep(|level|, div, core);
      var lo, hi := size * core, size * (core + 1);
      var sub := Chunk(m, level, lo, hi, n);
      forall q
        ensures q in nextMap + sub <==> Grown(m, level[..hi], n, q)
      {
        assert level[..hi] == level[..lo] + level[lo..hi];
        GrownConcat(m, level[..lo], level[lo..hi], n, q);
      }
      nextMap := nextMap + sub;
    }
    next := MapToArray(nextMap);
  }

  lemma CoveredIs(size: nat, div: nat)
    requires div >= 1
    ensures Covered(size, div) == size / div * div <= size
  {
  }

  lemma ChunkStep(size: nat, div: nat, core: nat)
    requires div >= 1 && core < div
    ensures 0 <= size / div * core <= size / div * (core + 1) <= size
  {
    ChunkArithmetic(size, div);
    MulMonotone(size / div, core, core + 1);
    MulMonotone(size / div, core + 1, div);
  }

  lemma MulMonotone(k: nat, a: nat, b: nat)
    requires a <= b
    ensures 0 <= k * a <= k * b
  {
    assert k * b == k * a + k * (b - a);
  }

  /** The points of a level are different consistent cuts, k events above the bottom. */
  ghost predicate LevelSound(logs: Logs, k: nat, level: seq<Clock>) {
    && NoRepeats(level)
    && (forall p :: p in level ==> Consistent(logs, p) && Sum(p, |logs|) == |logs| + k)
  }

  ghost predicate LevelFull(logs: Logs, k: nat, level: seq<Clock>) {
    forall p :: Consistent(logs, p) && Sum(p, |logs|) == |logs| + k ==> p in level
  }

  lemma NextSound(logs: Logs, m: ClockIndex, k: nat, level: seq<Clock>, part: nat, next: seq<Clock>)
    requires WellFormed(logs) && Indexed(logs, m) && LevelSound(logs, k, level) && part <= |level|
    requires NoRepeats(next) && forall q :: q in next <==> Grown(m, level[..part], |logs|, q)
    ensures LevelSound(logs, k + 1, next)
  {
    forall q | q in next
      ensures Consistent(logs, q) && Sum(q, |logs|) == |logs| + (k + 1)
    {
      var j, h :| 0 <= j < part && 0 <= h < |logs| && GrownFrom(m, level[..part][j], h, q);
      var p := level[j];
      assert p in level && q == Tick(p, h);
      FastMeansAllowed(logs, m, q, h);
      TickConsistent(logs, p, h);
    }
  }

  lemma NextFull(logs: Logs, m: ClockIndex, k: nat, level: seq<Clock>, next: seq<Clock>)
    requires WellFormed(logs) && Indexed(logs, m) && LevelFull(logs, k, level)
    requires forall q :: q in next <==> Grown(m, level, |logs|, q)
    ensures LevelFull(logs, k + 1, next)
  {
    forall q | Consistent(logs, q) && Sum(q, |logs|) == |logs| + (k + 1)
      ensures q in next
    {
      var h, p := Removable(logs, q);
      assert p in level;
      var j :| 0 <= j < |level| && level[j] == p;
      assert Allowed(logs, q, h);
      FastMeansAllowed(logs, m, q, h);
      assert GrownFrom(m, level[j], h, q);
    }
  }
}
