/** Program points: filling the gaps of a host's point log, and reading states off cuts. */
module Points {
  import opened Clocks

  /** A logged program point; an injected one carries no values. */
  datatype Point = Point(clock: Clock, dump: seq<string>)

  function Injected(log: seq<Clock>, g: nat): Point
    requires g < |log|
  {
    Point(log[g], [])
  }

  /** Every point has a time of its host within the log, and times do not go back. */
  ghost predicate Orderly(points: seq<Point>, id: nat, n: nat) {
    && (forall i :: 0 <= i < |points| ==> id in points[i].clock && 1 <= Ticks(points[i].clock, id) <= n)
    && (forall i, j :: 0 <= i <= j < |points| ==> Ticks(points[i].clock, id) <= Ticks(points[j].clock, id))
  }

  /** The log holds the host's own times without gaps. */
  ghost predicate Gapless(log: seq<Clock>, id: nat) {
    forall g :: 0 <= g < |log| ==> Ticks(log[g], id) == g + 1
  }

  /** Where each output point comes from: the number of an input point, or -1 for an injected one. The
      first kept input points appear, in order, and nothing else does. */
  ghost predicate Weave(out: seq<Point>, origin: seq<int>, points: seq<Point>, log: seq<Clock>, id: nat, kept: nat) {
    && |origin| == |out| && kept <= |points|
    && (forall k :: 0 <= k < |out| ==> 1 <= Ticks(out[k].clock, id) <= |log| && -1 <= origin[k] < kept)
    && (forall k :: 0 <= k < |out| && origin[k] >= 0 ==> out[k] == points[origin[k]])
    && (forall k :: 0 <= k < |out| && origin[k] == -1 ==> out[k] == Injected(log, Ticks(out[k].clock, id) - 1))
    && (forall k, l :: 0 <= k < l < |out| && origin[k] >= 0 && origin[l] >= 0 ==> origin[k] < origin[l])
    && (forall i :: 0 <= i < kept ==> Placed(origin, i))
  }

  ghost predicate Placed(origin: seq<int>, i: int) {
    exists k :: 0 <= k < |origin| && origin[k] == i
  }

  ghost predicate SortedBy(out: seq<Point>, id: nat, bound: int) {
    && (forall k, l :: 0 <= k < l < |out| ==> Ticks(out[k].clock, id) <= Ticks(out[l].clock, id))
    && (forall k :: 0 <= k < |out| ==> Ticks(out[k].clock, id) <= bound)
  }

  ghost predicate CoversUpTo(out: seq<Point>, id: nat, g: nat) {
    forall t :: 1 <= t <= g ==> HasTime(out, id, t)
  }

  ghost predicate HasTime(out: seq<Point>, id: nat, t: nat) {
    exists k :: 0 <= k < |out| && Ticks(out[k].clock, id) == t
  }

  /** No injected point stands beside a real one of the same time. */
  ghost predicate NotMixed(out: seq<Point>, origin: seq<int>, id: nat, t: nat)
    requires |origin| == |out|
  {
    forall k, l ::
      (0 <= k < |out| && 0 <= l < |out| && Ticks(out[k].clock, id) == Ticks(out[l].clock, id) == t && origin[k] >= 0)
      ==> origin[l] >= 0
  }

  lemma WeaveReal(out: seq<Point>, origin: seq<int>, points: seq<Point>, log: seq<Clock>, id: nat, kept: nat)
    requires Weave(out, origin, points, log, id, kept) && kept < |points| && 1 <= Ticks(points[kept].clock, id) <= |log|
    ensures Weave(out + [points[kept]], origin + [kept], points, log, id, kept + 1)
  {
    var o, r := out + [points[kept]], origin + [kept];
    forall i | 0 <= i < kept + 1
      ensures Placed(r, i)
    {
      if i == kept {
        assert r[|out|] == i;
      } else {
        assert Placed(origin, i);
        var k :| 0 <= k < |out| && origin[k] == i;
        assert r[k] == i;
      }
    }
  }

  lemma WeaveInjected(out: seq<Point>, origin: seq<int>, points: seq<Point>, log: seq<Clock>, id: nat, kept: nat,
    g: nat)
    requires Weave(out, origin, points, log, id, kept) && g < |log| && Gapless(log, id)
    ensures Weave(out + [Injected(log, g)], origin + [-1], points, log, id, kept)
  {
    var o, r := out + [Injected(log, g)], origin + [-1];
    forall i | 0 <= i < kept
      ensures Placed(r, i)
    {
      assert Placed(origin, i);
      var k :| 0 <= k < |out| && origin[k] == i;
      assert r[k] == i;
    }
  }

  /** One more point of time t at the end. */
  lemma Extend(out: seq<Point>, id: nat, x: Point, g: nat)
    requires SortedBy(out, id, g + 1) && CoversUpTo(out, id, g) && Ticks(x.clock, id) == g + 1
    ensures SortedBy(out + [x], id, g + 1) && CoversUpTo(out + [x], id, g + 1)
  {
    forall t | 1 <= t <= g + 1
      ensures HasTime(out + [x], id, t)
    {
      if t == g + 1 {
        assert (out + [x])[|out|] == x;
      } else {
        assert HasTime(out, id, t);
        var k :| 0 <= k < |out| && Ticks(out[k].clock, id) == t;
        assert (out + [x])[k] == out[k];
      }
    }
  }

  lemma ExtendSame(out: seq<Point>, id: nat, x: Point, g: nat)
    requires SortedBy(out, id, g + 1) && CoversUpTo(out, id, g + 1) && Ticks(x.clock, id) == g + 1
    ensures SortedBy(out + [x], id, g + 1) && CoversUpTo(out + [x], id, g + 1)
  {
    assert CoversUpTo(out, id, g);
    Extend(out, id, x, g);
  }

  /** What the first loop keeps while it stands at log position g with the first i points taken;
      seen says that the last of them has the time of g. */
  ghost predicate Filling(out: seq<Point>, origin: seq<int>, points: seq<Point>, log: seq<Clock>, id: nat, i: nat,
    g: nat, seen: bool) {
    var b := if seen then g + 1 else g;
    && Weave(out, origin, points, log, id, i) && b <= |log|
    && SortedBy(out, id, b) && CoversUpTo(out, id, b)
    && Orderly(points[..i], id, |log|)
    && (i > 0 ==> if seen then Ticks(points[i - 1].clock, id) == g + 1 else Ticks(points[i - 1].clock, id) <= g)
    && (seen ==> i > 0)
  }

  lemma FillReal(out: seq<Point>, origin: seq<int>, points: seq<Point>, log: seq<Clock>, id: nat, i: nat, g: nat,
    seen: bool)
    requires Filling(out, origin, points, log, id, i, g, seen) && i < |points| && g < |log|
    requires id in points[i].clock && Ticks(points[i].clock, id) == g + 1
    ensures Filling(out + [points[i]], origin + [i], points, log, id, i + 1, g, true)
  {
    hide Weave, SortedBy, CoversUpTo;
    WeaveReal(out, origin, points, log, id, i);
    if !seen {
      LooserBound(out, id, g);
      Extend(out, id, points[i], g);
    } else {
      ExtendSame(out, id, points[i], g);
    }
    OrderlyMore(points, id, |log|, i);
  }

  lemma LooserBound(out: seq<Point>, id: nat, g: nat)
    requires SortedBy(out, id, g)
    ensures SortedBy(out, id, g + 1)
  {
  }

  lemma OrderlyMore(points: seq<Point>, id: nat, n: nat, i: nat)
    requires i < |points| && Orderly(points[..i], id, n) && id in points[i].clock &&
      1 <= Ticks(points[i].clock, id) <= n
    requires i > 0 ==> Ticks(points[i - 1].clock, id) <= Ticks(points[i].clock, id)
    ensures Orderly(points[..i + 1], id, n)
  {
    var a, b := points[..i], points[..i + 1];
    assert forall k :: 0 <= k < i ==> a[k] == b[k];
    forall k, l | 0 <= k <= l < |b|
      ensures Ticks(b[k].clock, id) <= Ticks(b[l].clock, id)
    {
      if l == i && k < i {
        assert Ticks(a[k].clock, id) <= Ticks(a[i - 1].clock, id);
      }
    }
  }

  lemma FillInjected(out: seq<Point>, origin: seq<int>, points: seq<Point>, log: seq<Clock>, id: nat, i: nat, g: nat,
    seen: bool)
    requires Filling(out, origin, points, log, id, i, g, seen) && g < |log| && Gapless(log, id)
    ensures Filling(out + [Injected(log, g)], origin + [-1], points, log, id, i, g + 1, false)
  {
    hide Weave, SortedBy, CoversUpTo, Orderly;
    WeaveInjected(out, origin, points, log, id, i, g);
    if !seen {
      LooserBound(out, id, g);
      Extend(out, id, Injected(log, g), g);
    } else {
      ExtendSame(out, id, Injected(log, g), g);
    }
  }

  /** No time has both real and injected points. */
  ghost predicate Unmixed(out: seq<Point>, origin: seq<int>, id: nat) {
    |origin| == |out| && forall t: nat :: NotMixed(out, origin, id, t)
  }

  lemma UnmixedReal(out: seq<Point>, origin: seq<int>, points: seq<Point>, log: seq<Clock>, id: nat, i: nat, g: nat,
    seen: bool)
    requires Filling(out, origin, points, log, id, i, g, seen) && i < |points| && Ticks(points[i].clock, id) == g + 1
    requires Unmixed(out, origin, id)
    ensures Unmixed(out + [points[i]], origin + [i], id)
  {
    var o, r := out + [points[i]], origin + [i];
    if seen {
      assert Placed(origin, i - 1);
      var k :| 0 <= k < |out| && origin[k] == i - 1;
      assert out[k] == points[i - 1] && NotMixed(out, origin, id, g + 1);
    }
    forall t: nat
      ensures NotMixed(o, r, id, t)
    {
      assert NotMixed(out, origin, id, t);
    }
  }

  lemma UnmixedInjected(out: seq<Point>, origin: seq<int>, log: seq<Clock>, id: nat, g: nat)
    requires SortedBy(out, id, g) && g < |log| && Gapless(log, id) && Unmixed(out, origin, id)
    ensures Unmixed(out + [Injected(log, g)], origin + [-1], id)
  {
    var o, r := out + [Injected(log, g)], origin + [-1];
    forall t: nat
      ensures NotMixed(o, r, id, t)
    {
      assert NotMixed(out, origin, id, t);
    }
  }

  /** An injected point of time t stands behind every real one. */
  ghost predicate Shadowed(out: seq<Point>, origin: seq<int>, id: nat, t: nat) {
    |origin| == |out| && exists l :: 0 <= l < |out| && ShadowedBy(out, origin, id, t, l)
  }

  ghost predicate ShadowedBy(out: seq<Point>, origin: seq<int>, id: nat, t: nat, l: nat)
    requires l < |out| == |origin|
  {
    && Ticks(out[l].clock, id) == t && origin[l] == -1
    && (forall k :: l < k < |out| ==> origin[k] == -1)
  }

  /** injectMissingPoints: whatever the points are, the output is sorted and has every time of the log;
      it keeps all points exactly when they are orderly. Even then the last time with a real point gets an
      injected one as well, behind it. */
  method InjectMissingPoints(points: seq<Point>, log: seq<Clock>, id: nat)
    returns (out: seq<Point>, ghost origin: seq<int>, ghost kept: nat)
    requires Gapless(log, id)
    ensures Weave(out, origin, points, log, id, kept) && SortedBy(out, id, |log|) && CoversUpTo(out, id, |log|)
    ensures kept == |points| <==> Orderly(points, id, |log|)
    ensures kept == |points| > 0 ==> Shadowed(out, origin, id, Ticks(points[kept - 1].clock, id))
    ensures kept == |points| > 0 ==>
      forall t: nat :: t != Ticks(points[kept - 1].clock, id) ==> NotMixed(out, origin, id, t)
  {
    hide Filling, Weave, SortedBy, CoversUpTo, Unmixed;
    var pointIndex, goLogIndex := 0, 0;
    out, origin := [], [];
    var indexFound := false;
    FillStart(points, log, id);
    while pointIndex < |points| && goLogIndex < |log|
      invariant pointIndex <= |points| && goLogIndex <= |log|
      invariant Filling(out, origin, points, log, id, pointIndex, goLogIndex, indexFound)
      invariant Orderly(points, id, |log|) ==> Unmixed(out, origin, id)
      invariant Orderly(points, id, |log|) && pointIndex < |points| ==>
        Ticks(points[pointIndex].clock, id) >= goLogIndex + 1
      invariant pointIndex < |points| || pointIndex == 0 || indexFound
      decreases |points| - pointIndex, |log| - goLogIndex
    {
      var pointClock := points[pointIndex].clock;
      var ticks, found := Ticks(pointClock, id), id in pointClock;
      if found && ticks == goLogIndex + 1 {
        FillReal(out, origin, points, log, id, pointIndex, goLogIndex, indexFound);
        if Orderly(points, id, |log|) {
          UnmixedReal(out, origin, points, log, id, pointIndex, goLogIndex, indexFound);
        }
        out, origin := out + [points[pointIndex]], origin + [pointIndex];
        pointIndex := pointIndex + 1;
        indexFound := true;
      } else if found && ticks != goLogIndex + 1 && indexFound {
        FillAdvance(out, origin, points, log, id, pointIndex, goLogIndex);
        goLogIndex := goLogIndex + 1;
        indexFound := false;
      } else {
        FillInjected(out, origin, points, log, id, pointIndex, goLogIndex, indexFound);
        if Orderly(points, id, |log|) {
          FillSorted(out, origin, points, log, id, pointIndex, goLogIndex);
          UnmixedInjected(out, origin, log, id, goLogIndex);
        }
        out, origin := out + [Injected(log, goLogIndex)], origin + [-1];
        goLogIndex := goLogIndex + 1;
        indexFound := false;
      }
    }
    kept := pointIndex;
    KeptIff(out, origin, points, log, id, pointIndex, goLogIndex, indexFound);
    out, origin := InjectRest(points, log, id, goLogIndex, out, origin, pointIndex, indexFound);
  }

  /** The second loop: the rest of the log. */
  method InjectRest(points: seq<Point>, log: seq<Clock>, id: nat, g: nat, out0: seq<Point>, ghost origin0: seq<int>,
    ghost i: nat, ghost seen: bool)
    returns (out: seq<Point>, ghost origin: seq<int>)
    requires Gapless(log, id) && Filling(out0, origin0, points, log, id, i, g, seen) && g <= |log|
    requires i == |points| && i > 0 ==> seen && Unmixed(out0, origin0, id)
    ensures Weave(out, origin, points, log, id, i) && SortedBy(out, id, |log|) && CoversUpTo(out, id, |log|)
    ensures i == |points| > 0 ==> Shadowed(out, origin, id, Ticks(points[i - 1].clock, id))
    ensures i == |points| > 0 ==> forall t: nat :: t != Ticks(points[i - 1].clock, id) ==> NotMixed(out, origin, id, t)
  {
    hide Weave, SortedBy, CoversUpTo, Unmixed, ShadowedBy;
    out, origin := out0, origin0;
    RestStart(out, origin, points, log, id, i, g, seen);
    for k := g to |log|
      invariant Weave(out, origin, points, log, id, i) && SortedBy(out, id, k + 1) && CoversUpTo(out, id, k)
      invariant i == |points| > 0 ==> RestMixed(out, origin, points, id, i)
      invariant i == |points| > 0 && k > g ==> Shadowed(out, origin, id, Ticks(points[i - 1].clock, id))
    {
      RestOne(out, origin, points, log, id, i, k);
      if i == |points| > 0 {
        RestShadow(out, origin, points, log, id, i, k, g);
      }
      out, origin := out + [Injected(log, k)], origin + [-1];
    }
    RestEnd(out, origin, points, log, id, i);
  }

  /** Apart from the last real point's, no time has both real and injected points. */
  ghost predicate RestMixed(out: seq<Point>, origin: seq<int>, points: seq<Point>, id: nat, i: nat)
    requires 0 < i <= |points|
  {
    |origin| == |out| && forall t: nat :: t != Ticks(points[i - 1].clock, id) ==> NotMixed(out, origin, id, t)
  }

  lemma FillStart(points: seq<Point>, log: seq<Clock>, id: nat)
    ensures Filling([], [], points, log, id, 0, 0, false) && Unmixed([], [], id)
    ensures Orderly(points, id, |log|) && points != [] ==> Ticks(points[0].clock, id) >= 1
  {
  }

  lemma FillSorted(out: seq<Point>, origin: seq<int>, points: seq<Point>, log: seq<Clock>, id: nat, i: nat, g: nat)
    requires Filling(out, origin, points, log, id, i, g, false)
    ensures SortedBy(out, id, g)
  {
  }

  lemma FillAdvance(out: seq<Point>, origin: seq<int>, points: seq<Point>, log: seq<Clock>, id: nat, i: nat, g: nat)
    requires Filling(out, origin, points, log, id, i, g, true)
    ensures Filling(out, origin, points, log, id, i, g + 1, false)
  {
  }

  /** All points were taken exactly when they are orderly. */
  lemma KeptIff(out: seq<Point>, origin: seq<int>, points: seq<Point>, log: seq<Clock>, id: nat, i: nat, g: nat,
    seen: bool)
    requires Filling(out, origin, points, log, id, i, g, seen) && i <= |points| && (i == |points| || g >= |log|)
    requires Orderly(points, id, |log|) && i < |points| ==> Ticks(points[i].clock, id) >= g + 1
    ensures i == |points| <==> Orderly(points, id, |log|)
  {
    if i == |points| {
      assert points[..i] == points;
    }
  }

  lemma RestStart(out: seq<Point>, origin: seq<int>, points: seq<Point>, log: seq<Clock>, id: nat, i: nat, g: nat,
    seen: bool)
    requires Filling(out, origin, points, log, id, i, g, seen)
    requires i == |points| && i > 0 ==> seen && Unmixed(out, origin, id)
    ensures Weave(out, origin, points, log, id, i) && SortedBy(out, id, g + 1) && CoversUpTo(out, id, g)
    ensures i == |points| > 0 ==>
      RestMixed(out, origin, points, id, i) && Ticks(points[i - 1].clock, id) == g + 1 && g < |log|
  {
  }

  lemma RestOne(out: seq<Point>, origin: seq<int>, points: seq<Point>, log: seq<Clock>, id: nat, i: nat, k: nat)
    requires Gapless(log, id) && k < |log| && Weave(out, origin, points, log, id, i) && SortedBy(out, id, k + 1) &&
      CoversUpTo(out, id, k)
    ensures Weave(out + [Injected(log, k)], origin + [-1], points, log, id, i)
    ensures SortedBy(out + [Injected(log, k)], id, k + 2) && CoversUpTo(out + [Injected(log, k)], id, k + 1)
  {
    WeaveInjected(out, origin, points, log, id, i, k);
    Extend(out, id, Injected(log, k), k);
  }

  lemma RestShadow(out: seq<Point>, origin: seq<int>, points: seq<Point>, log: seq<Clock>, id: nat, i: nat, k: nat,
    g: nat)
    requires Gapless(log, id) && g <= k < |log| && 0 < i <= |points| && RestMixed(out, origin, points, id, i)
    requires Weave(out, origin, points, log, id, i) && Ticks(points[i - 1].clock, id) == g + 1
    requires forall j :: 0 <= j < i ==> Ticks(points[j].clock, id) <= g + 1
    requires k > g ==> Shadowed(out, origin, id, g + 1)
    ensures RestMixed(out + [Injected(log, k)], origin + [-1], points, id, i)
    ensures Shadowed(out + [Injected(log, k)], origin + [-1], id, g + 1)
  {
    var o, r := out + [Injected(log, k)], origin + [-1];
    if k == g {
      assert ShadowedBy(o, r, id, g + 1, |out|);
    } else {
      var l :| 0 <= l < |out| && ShadowedBy(out, origin, id, g + 1, l);
      assert ShadowedBy(o, r, id, g + 1, l);
    }
    forall t: nat | t != g + 1
      ensures NotMixed(o, r, id, t)
    {
      assert NotMixed(out, origin, id, t);
      assert forall x :: 0 <= x < |out| && origin[x] >= 0 ==> Ticks(out[x].clock, id) <= g + 1;
    }
  }

  lemma RestEnd(out: seq<Point>, origin: seq<int>, points: seq<Point>, log: seq<Clock>, id: nat, i: nat)
    requires Weave(out, origin, points, log, id, i) && SortedBy(out, id, |log| + 1)
    ensures SortedBy(out, id, |log|)
  {
  }

  /** The k-th point is the last one of its time. */
  ghost predicate LastOfTime(points: seq<Point>, id: nat, k: nat) {
    k < |points| && forall l :: k < l < |points| ==> Ticks(points[l].clock, id) != Ticks(points[k].clock, id)
  }

  /** m has the times of the points, and the last point of each. */
  ghost predicate Maps(m: map<nat, Point>, points: seq<Point>, id: nat) {
    && (forall t: nat :: t in m <==> HasTime(points, id, t))
    && (forall k: nat :: LastOfTime(points, id, k) ==>
      Ticks(points[k].clock, id) in m && m[Ticks(points[k].clock, id)] == points[k])
  }

  /** pointsToMaps for one host: the last point of a time wins. */
  method PointsToMap(points: seq<Point>, id: nat) returns (m: map<nat, Point>)
    ensures Maps(m, points, id)
  {
    hide Maps;
    m := map[];
    MapsNone(id);
    for j := 0 to |points|
      invariant Maps(m, points[..j], id)
    {
      MapsMore(m, points[..j], points[j], id);
      assert points[..j + 1] == points[..j] + [points[j]];
      m := m[Ticks(points[j].clock, id) := points[j]];
    }
    assert points[..|points|] == points;
  }

  lemma MapsNone(id: nat)
    ensures Maps(map[], [], id)
  {
  }

  lemma MapsMore(m: map<nat, Point>, a: seq<Point>, x: Point, id: nat)
    requires Maps(m, a, id)
    ensures Maps(m[Ticks(x.clock, id) := x], a + [x], id)
  {
    var b, value := a + [x], Ticks(x.clock, id);
    assert b[|a|] == x;
    forall t: nat
      ensures HasTime(b, id, t) <==> HasTime(a, id, t) || t == value
    {
      if HasTime(a, id, t) {
        var k :| 0 <= k < |a| && Ticks(a[k].clock, id) == t;
        assert b[k] == a[k];
      }
    }
    forall k: nat | LastOfTime(b, id, k) && k < |a|
      ensures LastOfTime(a, id, k) && Ticks(a[k].clock, id) != value
    {
      assert forall l :: k < l < |a| ==> b[l] == a[l];
    }
  }

  /** The point log of a host as the states see it: gaps filled, then indexed by time. */
  method IndexPoints(points: seq<Point>, log: seq<Clock>, id: nat) returns (m: map<nat, Point>)
    requires Gapless(log, id)
    ensures forall t: nat :: t in m <==> 1 <= t <= |log|
    ensures forall t: nat :: t in m ==> Ticks(m[t].clock, id) == t
    ensures Orderly(points, id, |log|) ==> forall t: nat :: t in m ==> Seen(points, log, id, t, m[t])
  {
    hide Weave, SortedBy, CoversUpTo, Shadowed, NotMixed, Orderly, Maps, Seen;
    var out, origin, kept := InjectMissingPoints(points, log, id);
    m := PointsToMap(out, id);
    InRangeTimes(out, origin, points, log, id, kept, m);
    if Orderly(points, id, |log|) {
      forall t: nat | t in m
        ensures Seen(points, log, id, t, m[t])
      {
        SeenFromMap(out, origin, points, log, id, m, t);
      }
    }
  }

  /** The point x that a state shows for time t: the last one logged at t, if any was, but an injected one
      for the time of the very last logged point, whose values are lost, and for a time without a point. */
  ghost predicate Seen(points: seq<Point>, log: seq<Clock>, id: nat, t: nat, x: Point) {
    && 1 <= t <= |log|
    && (points != [] && t == Ticks(points[|points| - 1].clock, id) ==> x == Injected(log, t - 1))
    && (forall i: nat ::
          LastOfTime(points, id, i) && t == Ticks(points[i].clock, id) != Ticks(points[|points| - 1].clock, id)
          ==> x == points[i])
    && ((forall i :: 0 <= i < |points| ==> Ticks(points[i].clock, id) != t) ==> x == Injected(log, t - 1))
  }

  lemma SeenFromMap(
    out: seq<Point>, origin: seq<int>, points: seq<Point>, log: seq<Clock>, id: nat, m: map<nat, Point>, t: nat)
    requires Weave(out, origin, points, log, id, |points|) && Maps(m, out, id) && Orderly(points, id, |log|) && t in m
    requires points != [] ==> Shadowed(out, origin, id, Ticks(points[|points| - 1].clock, id))
    requires points != [] && t != Ticks(points[|points| - 1].clock, id) ==> NotMixed(out, origin, id, t)
    requires 1 <= t <= |log|
    ensures Seen(points, log, id, t, m[t])
  {
    hide Weave, Shadowed, NotMixed, Orderly, Maps;
    if points != [] && t == Ticks(points[|points| - 1].clock, id) {
      LastIsInjected(out, origin, points, log, id, m);
    }
    forall i: nat | LastOfTime(points, id, i) && Ticks(points[i].clock, id) == t &&
      t != Ticks(points[|points| - 1].clock, id)
      ensures m[t] == points[i]
    {
      EarlierIsReal(out, origin, points, log, id, m, i);
    }
    if forall i :: 0 <= i < |points| ==> Ticks(points[i].clock, id) != t {
      NeverLogged(out, origin, points, log, id, m, t);
    }
  }

  lemma NeverLogged(
    out: seq<Point>, origin: seq<int>, points: seq<Point>, log: seq<Clock>, id: nat, m: map<nat, Point>, t: nat)
    requires Weave(out, origin, points, log, id, |points|) && Maps(m, out, id) && t in m && 1 <= t <= |log|
    requires forall i :: 0 <= i < |points| ==> Ticks(points[i].clock, id) != t
    ensures m[t] == Injected(log, t - 1)
  {
    hide Weave;
    assert HasTime(out, id, t);
    hide Maps;
    var j :| 0 <= j < |out| && Ticks(out[j].clock, id) == t;
    var k := FindLast(out, id, t, j);
    MapsAt(m, out, id, k);
    WeaveAt(out, origin, points, log, id, k);
  }

  /** Every output point is an input point or an injected one. */
  lemma WeaveAt(out: seq<Point>, origin: seq<int>, points: seq<Point>, log: seq<Clock>, id: nat, k: nat)
    requires Weave(out, origin, points, log, id, |points|) && k < |out|
    ensures out[k] in points || (1 <= Ticks(out[k].clock, id) <= |log| && out[k]
      == Injected(log, Ticks(out[k].clock, id) - 1))
  {
    if origin[k] >= 0 {
      assert points[origin[k]] in points;
    }
  }

  /** The last position of a time that occurs. */
  lemma {:induction false} FindLast(points: seq<Point>, id: nat, t: nat, k: nat) returns (l: nat)
    requires k < |points| && Ticks(points[k].clock, id) == t
    ensures k <= l < |points| && Ticks(points[l].clock, id) == t && LastOfTime(points, id, l)
    decreases |points| - k
  {
    if j :| k < j < |points| && Ticks(points[j].clock, id) == t {
      l := FindLast(points, id, t, j);
    } else {
      l := k;
    }
  }

  lemma InRangeTimes(out: seq<Point>, origin: seq<int>, points: seq<Point>, log: seq<Clock>, id: nat, kept: nat,
    m: map<nat, Point>)
    requires Weave(out, origin, points, log, id, kept) && CoversUpTo(out, id, |log|)
    requires Maps(m, out, id)
    ensures forall t: nat :: t in m <==> 1 <= t <= |log|
    ensures forall t: nat :: t in m ==> Ticks(m[t].clock, id) == t
  {
    forall t: nat | t in m
      ensures 1 <= t <= |log| && Ticks(m[t].clock, id) == t
    {
      var k :| 0 <= k < |out| && Ticks(out[k].clock, id) == t;
      var l := FindLast(out, id, t, k);
    }
  }

  lemma MapsAt(m: map<nat, Point>, points: seq<Point>, id: nat, k: nat)
    requires Maps(m, points, id) && LastOfTime(points, id, k)
    ensures Ticks(points[k].clock, id) in m && m[Ticks(points[k].clock, id)] == points[k]
  {
  }

  lemma LastIsInjected(out: seq<Point>, origin: seq<int>, points: seq<Point>, log: seq<Clock>, id: nat,
    m: map<nat, Point>)
    requires points != [] && Weave(out, origin, points, log, id, |points|)
    requires Shadowed(out, origin, id, Ticks(points[|points| - 1].clock, id))
    requires Maps(m, out, id)
    ensures var t := Ticks(points[|points| - 1].clock, id); 1 <= t <= |log| && t in m && m[t] == Injected(log, t - 1)
  {
    hide Maps;
    var t := Ticks(points[|points| - 1].clock, id);
    var l :| 0 <= l < |out| && ShadowedBy(out, origin, id, t, l);
    var k := FindLast(out, id, t, l);
    MapsAt(m, out, id, k);
  }

  lemma EarlierIsReal(out: seq<Point>, origin: seq<int>, points: seq<Point>, log: seq<Clock>, id: nat,
    m: map<nat, Point>, i: nat)
    requires i < |points| && Weave(out, origin, points, log, id, |points|) && LastOfTime(points, id, i) &&
      Orderly(points, id, |log|)
    requires NotMixed(out, origin, id, Ticks(points[i].clock, id))
    requires Maps(m, out, id)
    ensures Ticks(points[i].clock, id) in m && m[Ticks(points[i].clock, id)] == points[i]
  {
    var t := Ticks(points[i].clock, id);
    assert Placed(origin, i);
    var k :| 0 <= k < |out| && origin[k] == i;
    var l := FindLast(out, id, t, k);
    assert origin[l] >= 0;
    assert out[l] == points[origin[l]];
  }
}
