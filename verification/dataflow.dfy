/** Reaching definitions and live variables as repeat-until-stable set equations. */
module Dataflow {
  import opened Graphs

  /** A union data-flow problem: facts enter a block from its sources, some are killed, some generated.
      Only the blocks in active are ever updated. */
  datatype Problem = Problem(source: seq<seq<nat>>, gen: seq<set<nat>>, kill: seq<set<nat>>, active: seq<nat>)
  {
    ghost predicate Valid() {
      && |source| == |gen| == |kill|
      && (forall b, q :: 0 <= b < |source| && q in source[b] ==> q < |source|)
      && (forall k :: 0 <= k < |active| ==> active[k] < |source|)
    }

    /** x is generated at the start of p and survives every later block of it. */
    ghost predicate Carries(p: seq<nat>, x: nat)
      requires Valid()
    {
      && |p| > 0 && (forall i :: 0 <= i < |p| ==> p[i] < |source| && p[i] in active)
      && x in gen[p[0]]
      && (forall i :: 0 < i < |p| ==> x !in kill[p[i]])
      && (forall i, j :: 0 <= i && j == i + 1 && j < |p| ==> p[i] in source[p[j]])
    }

    /** x leaves block b along some path. */
    ghost predicate Leaves(x: nat, b: nat)
      requires Valid()
    {
      exists p :: Carries(p, x) && p[|p| - 1] == b
    }

    /** x enters block b along some path. */
    ghost predicate Enters(x: nat, b: nat)
      requires Valid()
    {
      b < |source| && b in active && exists q :: q in source[b] && Leaves(x, q)
    }

    lemma LeavesStep(x: nat, b: nat)
      requires Valid() && b < |source| && b in active
      ensures x in gen[b] ==> Leaves(x, b)
      ensures Enters(x, b) && x !in kill[b] ==> Leaves(x, b)
    {
      if x in gen[b] {
        assert Carries([b], x);
      }
      if Enters(x, b) && x !in kill[b] {
        var q :| q in source[b] && Leaves(x, q);
        var p :| Carries(p, x) && p[|p| - 1] == q;
        assert Carries(p + [b], x);
      }
    }

    /** Nothing flows out of a solution of the equations: it holds everything that leaves a block. */
    ghost predicate Solution(ins: seq<set<nat>>, outs: seq<set<nat>>)
      requires Valid()
    {
      && |ins| == |outs| == |source|
      && (forall b, q :: 0 <= b < |source| && b in active && q in source[b] ==> outs[q] <= ins[b])
      && (forall b :: 0 <= b < |source| && b in active ==> outs[b] == gen[b] + (ins[b] - kill[b]))
    }

    lemma {:induction false} SolutionCovers(ins: seq<set<nat>>, outs: seq<set<nat>>, p: seq<nat>, x: nat)
      requires Valid() && Solution(ins, outs) && Carries(p, x)
      ensures x in outs[p[|p| - 1]]
      decreases |p|
    {
      var b := p[|p| - 1];
      if |p| > 1 {
        var q := p[..|p| - 1];
        assert Carries(q, x);
        SolutionCovers(ins, outs, q, x);
        assert p[|p| - 2] in source[b];
      }
    }

    /** Only what really flows has been put into the sets so far. */
    ghost predicate Sound(ins: seq<set<nat>>, outs: seq<set<nat>>)
      requires Valid()
    {
      && |ins| == |outs| == |source|
      && (forall b, x :: 0 <= b < |source| && x in ins[b] ==> Enters(x, b))
      && (forall b, x :: 0 <= b < |source| && x in outs[b] ==> Leaves(x, b))
    }
  }

  /** All facts there are. */
  ghost function Universe(sets: seq<set<nat>>): (u: set<nat>)
    ensures forall b :: 0 <= b < |sets| ==> sets[b] <= u
  {
    if sets == [] then {} else Universe(sets[..|sets| - 1]) + sets[|sets| - 1]
  }

  /** The facts of every block, as block-fact pairs. */
  ghost function Pairs(outs: seq<set<nat>>): (ps: set<(nat, nat)>)
    ensures forall b: nat, x: nat :: (b, x) in ps <==> b < |outs| && x in outs[b]
  {
    var u := Universe(outs);
    set b: nat, x: nat | b < |outs| && x in u && x in outs[b] :: (b, x)
  }

  ghost function AllPairs(n: nat, u: set<nat>): (ps: set<(nat, nat)>)
    ensures forall b: nat, x: nat :: (b, x) in ps <==> b < n && x in u
  {
    set b: nat, x: nat | b < n && x in u :: (b, x)
  }

  /** Taking the union over the sources of b. */
  method Gather(pr: Problem, b: nat, now: set<nat>, outs: seq<set<nat>>) returns (r: set<nat>)
    requires pr.Valid() && b < |pr.source| && |outs| == |pr.source|
    ensures forall x :: x in r <==> x in now || exists q :: q in pr.source[b] && x in outs[q]
  {
    r := now;
    for k := 0 to |pr.source[b]|
      invariant forall q :: q in pr.source[b][..k] ==> q in pr.source[b]
      invariant forall x :: x in r <==> x in now || exists q :: q in pr.source[b][..k] && x in outs[q]
    {
      var q := pr.source[b][k];
      assert q in pr.source[b] && pr.source[b][..k + 1] == pr.source[b][..k] + [q];
      r := r + outs[q];
    }
    assert pr.source[b][..|pr.source[b]|] == pr.source[b];
  }

  /** The sets are sound, in line with their equations from below, and within the universe. */
  ghost predicate Stage(pr: Problem, u: set<nat>, ins: seq<set<nat>>, outs: seq<set<nat>>) {
    && pr.Valid() && pr.Sound(ins, outs)
    && (forall b :: 0 <= b < |outs| ==> outs[b] <= pr.gen[b] + (ins[b] - pr.kill[b]))
    && (forall b :: 0 <= b < |outs| ==> ins[b] <= u && outs[b] <= u && pr.gen[b] <= u)
  }

  lemma StageShape(pr: Problem, u: set<nat>, ins: seq<set<nat>>, outs: seq<set<nat>>)
    requires Stage(pr, u, ins, outs)
    ensures pr.Valid() && |ins| == |outs| == |pr.source|
    ensures forall b :: 0 <= b < |outs| ==> outs[b] <= u
  {
  }

  /** One pass over the active blocks. */
  method Pass(pr: Problem, ghost u: set<nat>, ins0: seq<set<nat>>, outs0: seq<set<nat>>)
    returns (ins: seq<set<nat>>, outs: seq<set<nat>>, changed: bool)
    requires Stage(pr, u, ins0, outs0)
    ensures Stage(pr, u, ins, outs) && |outs| == |outs0|
    ensures forall b :: 0 <= b < |outs| ==> outs0[b] <= outs[b]
    ensures changed ==> exists b :: 0 <= b < |outs| && outs0[b] != outs[b]
    ensures !changed ==> outs == outs0 && pr.Solution(ins, outs)
  {
    hide Stage;
    StageShape(pr, u, ins0, outs0);
    ins, outs, changed := ins0, outs0, false;
    for k := 0 to |pr.active|
      invariant Stage(pr, u, ins, outs) && |ins| == |outs| == |pr.source|
      invariant forall b :: 0 <= b < |outs| ==> outs0[b] <= outs[b]
      invariant changed ==> exists b :: 0 <= b < |outs| && outs0[b] != outs[b]
      invariant !changed ==> outs == outs0
      invariant !changed ==> forall m :: 0 <= m < k ==> Settled(pr, ins, outs, pr.active[m])
    {
      var b := pr.active[k];
      var was := outs[b];
      var in' := Gather(pr, b, ins[b], outs);
      StageShape(pr, u, ins, outs);
      GatherSound(pr, u, ins, outs, b, in');
      ins := ins[b := in'];
      outs := outs[b := pr.gen[b] + (in' - pr.kill[b])];
      changed := changed || was != outs[b];
    }
    if !changed {
      forall b | 0 <= b < |outs| && b in pr.active
        ensures Settled(pr, ins, outs, b)
      {
        var m :| 0 <= m < |pr.active| && pr.active[m] == b;
      }
    }
  }

  /** Block b is in line with its equations. */
  ghost predicate Settled(pr: Problem, ins: seq<set<nat>>, outs: seq<set<nat>>, b: nat)
    requires pr.Valid() && |ins| == |outs| == |pr.source|
  {
    && b < |outs| && outs[b] == pr.gen[b] + (ins[b] - pr.kill[b])
    && forall q :: q in pr.source[b] ==> outs[q] <= ins[b]
  }

  lemma GatherSound(pr: Problem, u: set<nat>, ins: seq<set<nat>>, outs: seq<set<nat>>, b: nat, in': set<nat>)
    requires Stage(pr, u, ins, outs) && b < |outs| && b in pr.active
    requires forall x :: x in in' <==> x in ins[b] || exists q :: q in pr.source[b] && x in outs[q]
    ensures Stage(pr, u, ins[b := in'], outs[b := pr.gen[b] + (in' - pr.kill[b])])
    ensures outs[b] <= pr.gen[b] + (in' - pr.kill[b])
  {
    var o := pr.gen[b] + (in' - pr.kill[b]);
    forall x | x in in'
      ensures pr.Enters(x, b) && x in u
    {
    }
    forall x | x in o
      ensures pr.Leaves(x, b)
    {
      pr.LeavesStep(x, b);
    }
  }

  /** A pass that changes something leaves fewer facts to add. */
  lemma Shrinks(n: nat, u: set<nat>, was: seq<set<nat>>, outs: seq<set<nat>>)
    requires |was| == |outs| == n && (forall b :: 0 <= b < n ==> was[b] <= outs[b] <= u)
    requires exists b :: 0 <= b < n && was[b] != outs[b]
    ensures AllPairs(n, u) - Pairs(outs) < AllPairs(n, u) - Pairs(was)
  {
    var b: nat :| b < n && was[b] != outs[b];
    var more := outs[b] - was[b];
    assert outs[b] == was[b] + more;
    var x: nat :| x in more;
    assert (b, x) in AllPairs(n, u) - Pairs(was) && (b, x) !in AllPairs(n, u) - Pairs(outs);
    assert Pairs(was) <= Pairs(outs);
  }

  lemma EmptyStage(pr: Problem, u: set<nat>, ins: seq<set<nat>>, outs: seq<set<nat>>)
    requires pr.Valid() && u == Universe(pr.gen) && |ins| == |outs| == |pr.source|
    requires forall b :: 0 <= b < |ins| ==> ins[b] == {} && outs[b] == {}
    ensures Stage(pr, u, ins, outs)
  {
  }

  /** Repeat passes until nothing changes: the result is the least solution, which is what the paths say. */
  method Solve(pr: Problem) returns (ins: seq<set<nat>>, outs: seq<set<nat>>)
    requires pr.Valid()
    ensures |ins| == |outs| == |pr.source|
    ensures forall b, x :: 0 <= b < |ins| ==> (x in ins[b] <==> pr.Enters(x, b))
    ensures forall b, x :: 0 <= b < |outs| ==> (x in outs[b] <==> pr.Leaves(x, b))
  {
    hide Stage, Problem.Solution, Problem.Enters, Problem.Leaves;
    var n := |pr.source|;
    ghost var u := Universe(pr.gen);
    ins, outs := seq(n, _ => {}), seq(n, _ => {});
    EmptyStage(pr, u, ins, outs);
    var changed := true;
    while changed
      invariant Stage(pr, u, ins, outs) && |outs| == n
      invariant !changed ==> pr.Solution(ins, outs)
      decreases AllPairs(n, u) - Pairs(outs), changed
    {
      ghost var was := outs;
      ins, outs, changed := Pass(pr, u, ins, outs);
      StageShape(pr, u, ins, outs);
      if changed {
        Shrinks(n, u, was, outs);
      }
    }
    StageShape(pr, u, ins, outs);
    LeastIsPaths(pr, u, ins, outs);
  }

  lemma LeastIsPaths(pr: Problem, u: set<nat>, ins: seq<set<nat>>, outs: seq<set<nat>>)
    requires Stage(pr, u, ins, outs) && pr.Solution(ins, outs)
    ensures forall b, x :: 0 <= b < |ins| ==> (x in ins[b] <==> pr.Enters(x, b))
    ensures forall b, x :: 0 <= b < |outs| ==> (x in outs[b] <==> pr.Leaves(x, b))
  {
    forall b, x | 0 <= b < |outs| && pr.Leaves(x, b)
      ensures x in outs[b]
    {
      var p :| pr.Carries(p, x) && p[|p| - 1] == b;
      pr.SolutionCovers(ins, outs, p, x);
    }
    forall b, x | 0 <= b < |ins| && pr.Enters(x, b)
      ensures x in ins[b]
    {
      var q :| q in pr.source[b] && pr.Leaves(x, q);
    }
  }

  predicate Defines(defs: seq<seq<nat>>, k: nat, v: nat) {
    k < |defs| && v in defs[k]
  }

  /** Two statements define a common variable. */
  ghost predicate ShareDef(defs: seq<seq<nat>>, j: nat, k: nat) {
    exists v: nat :: Defines(defs, j, v) && Defines(defs, k, v)
  }

  /** What a statement kills: every other statement defining one of its variables. */
  ghost predicate KillsExactly(defs: seq<seq<nat>>, j: nat, kill: set<nat>)
    requires j < |defs|
  {
    forall k: nat :: k in kill <==> k < |defs| && k != j && ShareDef(defs, j, k)
  }

  ghost predicate KillsAtMost(defs: seq<seq<nat>>, j: nat, kill: set<nat>)
    requires j < |defs|
  {
    forall k: nat :: k in kill ==> k < |defs| && k != j && ShareDef(defs, j, k)
  }

  /** okills maps a variable to statements that define it. */
  ghost predicate DefinersOnly(defs: seq<seq<nat>>, okills: map<nat, set<nat>>) {
    forall v: nat, k: nat :: v in okills && k in okills[v] ==> Defines(defs, k, v)
  }

  /** The first j statements are known as definers of all their variables. */
  ghost predicate Knows(defs: seq<seq<nat>>, okills: map<nat, set<nat>>, j: nat) {
    forall k: nat, v: nat :: k < j && Defines(defs, k, v) ==> v in okills && k in okills[v]
  }

  /** genKillBitsets: two passes, because the first does not know the later definers yet. */
  method GenKill(defs: seq<seq<nat>>) returns (gen: seq<set<nat>>, kill: seq<set<nat>>)
    ensures |gen| == |kill| == |defs|
    ensures forall j :: 0 <= j < |defs| ==> gen[j] == if defs[j] == [] then {} else {j}
    ensures forall j :: 0 <= j < |defs| ==> KillsExactly(defs, j, kill[j])
  {
    hide KillsExactly, KillsAtMost, DefinersOnly, Knows, ShareDef;
    var n := |defs|;
    gen, kill := seq(n, _ => {}), seq(n, _ => {});
    var okills: map<nat, set<nat>> := map[];
    NothingKnown(defs);
    for pass := 0 to 2
      invariant |gen| == |kill| == n && DefinersOnly(defs, okills)
      invariant forall j :: 0 <= j < n ==> KillsAtMost(defs, j, kill[j])
      invariant forall j :: 0 <= j < n ==> gen[j] == if defs[j] == [] || pass == 0 then {} else {j}
      invariant Knows(defs, okills, if pass > 0 then n else 0)
      invariant pass == 2 ==> forall j :: 0 <= j < n ==> KillsExactly(defs, j, kill[j])
    {
      for j := 0 to n
        invariant |gen| == |kill| == n && DefinersOnly(defs, okills)
        invariant forall m :: 0 <= m < n ==> KillsAtMost(defs, m, kill[m])
        invariant forall m :: 0 <= m < n ==> gen[m] == if defs[m] == [] || (pass == 0 && j <= m) then {} else {m}
        invariant Knows(defs, okills, if pass > 0 then n else j)
        invariant pass > 0 ==> forall m :: 0 <= m < j ==> KillsExactly(defs, m, kill[m])
      {
        var g, k, o := GenKillOne(defs, j, gen[j], kill[j], okills, pass > 0);
        gen, kill, okills := gen[j := g], kill[j := k], o;
      }
    }
  }

  lemma NothingKnown(defs: seq<seq<nat>>)
    ensures DefinersOnly(defs, map[]) && Knows(defs, map[], 0)
    ensures forall j :: 0 <= j < |defs| ==> KillsAtMost(defs, j, {})
  {
  }

  lemma AddDefiner(defs: seq<seq<nat>>, okills: map<nat, set<nat>>, j: nat, d: nat)
    requires DefinersOnly(defs, okills) && j < |defs| && d in defs[j]
    ensures var s := (if d in okills then okills[d] else {}) + {j};
            DefinersOnly(defs, okills[d := s]) && forall k: nat :: k in s ==> k < |defs| && ShareDef(defs, j, k)
  {
    var s := (if d in okills then okills[d] else {}) + {j};
    forall k: nat | k in s
      ensures k < |defs| && ShareDef(defs, j, k)
    {
      assert Defines(defs, j, d) && Defines(defs, k, d);
    }
  }

  /** One statement's turn in a pass; full says that every definer is already known. */
  method GenKillOne(defs: seq<seq<nat>>, j: nat, gen: set<nat>, kill: set<nat>, okills: map<nat, set<nat>>,
    ghost full: bool)
    returns (gen': set<nat>, kill': set<nat>, okills': map<nat, set<nat>>)
    requires j < |defs| && (gen == {} || gen == {j}) && KillsAtMost(defs, j, kill) && DefinersOnly(defs, okills)
    requires Knows(defs, okills, if full then |defs| else j)
    ensures gen' == if defs[j] == [] then gen else {j}
    ensures KillsAtMost(defs, j, kill') && DefinersOnly(defs, okills')
    ensures Knows(defs, okills', if full then |defs| else j + 1)
    ensures full ==> KillsExactly(defs, j, kill')
  {
    gen', kill', okills' := gen, kill, okills;
    for e := 0 to |defs[j]|
      invariant gen' == if e == 0 then gen else {j}
      invariant KillsAtMost(defs, j, kill') && DefinersOnly(defs, okills')
      invariant Knows(defs, okills', if full then |defs| else j)
      invariant forall m :: 0 <= m < e ==> defs[j][m] in okills' && j in okills'[defs[j][m]]
      invariant full ==> forall k,
        m :: 0 <= m < e && 0 <= k < |defs| && k != j && Defines(defs, k, defs[j][m]) ==> k in kill'
    {
      var d := defs[j][e];
      assert Defines(defs, j, d);
      AddDefiner(defs, okills', j, d);
      if d !in okills' {
        okills' := okills'[d := {}];
      }
      gen' := gen' + {j};
      okills' := okills'[d := okills'[d] + {j}];
      kill' := kill' + okills'[d] - gen';
    }
    if full {
      forall k | 0 <= k < |defs| && k != j && ShareDef(defs, j, k)
        ensures k in kill'
      {
        var v :| Defines(defs, j, v) && Defines(defs, k, v);
        var m :| 0 <= m < |defs[j]| && defs[j][m] == v;
      }
    }
  }

  /** The definitions made at d reach the entry of s: some path from d to s, clear of the Entry
      statement, has no inner statement other than d that defines a variable d defines. */
  ghost predicate ReachesAlong(g: Graph, defs: seq<seq<nat>>, entry: nat, d: nat, s: nat, p: seq<nat>) {
    && PathFromTo(g, p, d, s) && |p| >= 2 && entry !in p
    && d < |defs| && defs[d] != []
    && (forall i :: 0 < i < |p| - 1 ==> p[i] == d || !ShareDef(defs, p[i], d))
  }

  ghost predicate ReachesEntryOf(g: Graph, defs: seq<seq<nat>>, entry: nat, d: nat, s: nat) {
    exists p :: ReachesAlong(g, defs, entry, d, s, p)
  }

  /** Every statement but Entry, in some order. */
  ghost predicate AllBut(order: seq<nat>, n: nat, entry: nat) {
    forall b: nat :: b in order <==> b < n && b != entry
  }

  /** ReachingDefs: the fixpoint of the bit sets is the path meaning. */
  method ReachingDefs(g: Graph, defs: seq<seq<nat>>, entry: nat, order: seq<nat>) returns (ins: seq<set<nat>>)
    requires g.Valid() && |defs| == |g.succ| && AllBut(order, |defs|, entry)
    ensures |ins| == |defs|
    ensures forall s, d :: 0 <= s < |ins| ==> (d in ins[s] <==> ReachesEntryOf(g, defs, entry, d, s))
  {
    hide Problem.Enters, Problem.Leaves, KillsExactly, ReachesEntryOf;
    var gen, kill := GenKill(defs);
    var pr := Problem(g.pred, gen, kill, order);
    PredsInRange(g, pr);
    var outs;
    ins, outs := Solve(pr);
    forall s, d: nat | 0 <= s < |ins|
      ensures pr.Enters(d, s) <==> ReachesEntryOf(g, defs, entry, d, s)
    {
      EntersIsReaches(g, defs, entry, pr, d, s);
    }
  }

  lemma PredsInRange(g: Graph, pr: Problem)
    requires g.Valid() && pr.source == g.pred && |pr.gen| == |pr.kill| == |g.pred|
    requires forall b :: b in pr.active ==> b < |g.pred|
    ensures pr.Valid()
  {
    assert forall k :: 0 <= k < |pr.active| ==> pr.active[k] in pr.active;
    forall b, q | 0 <= b < |pr.source| && q in pr.source[b]
      ensures q < |pr.source|
    {
      assert g.BackEdge(q, b) && g.Edge(q, b);
    }
  }

  lemma EntersIsReaches(g: Graph, defs: seq<seq<nat>>, entry: nat, pr: Problem, d: nat, s: nat)
    requires g.Valid() && |defs| == |g.succ| && pr.Valid() && pr.source == g.pred && AllBut(pr.active, |defs|, entry)
    requires s < |defs|
    requires forall j :: 0 <= j < |defs| ==> pr.gen[j] == if defs[j] == [] then {} else {j}
    requires forall j :: 0 <= j < |defs| ==> KillsExactly(defs, j, pr.kill[j])
    ensures pr.Enters(d, s) <==> ReachesEntryOf(g, defs, entry, d, s)
  {
    if pr.Enters(d, s) {
      var q :| q in pr.source[s] && pr.Leaves(d, q);
      var p :| pr.Carries(p, d) && p[|p| - 1] == q;
      CarriedPath(g, defs, entry, pr, d, p + [s]);
    }
    if ReachesEntryOf(g, defs, entry, d, s) {
      var p :| ReachesAlong(g, defs, entry, d, s, p);
      PathCarries(g, defs, entry, pr, d, s, p);
    }
  }

  lemma CarriedPath(g: Graph, defs: seq<seq<nat>>, entry: nat, pr: Problem, d: nat, p: seq<nat>)
    requires g.Valid() && |defs| == |g.succ| && pr.Valid() && pr.source == g.pred && AllBut(pr.active, |defs|, entry)
    requires forall j :: 0 <= j < |defs| ==> pr.gen[j] == if defs[j] == [] then {} else {j}
    requires forall j :: 0 <= j < |defs| ==> KillsExactly(defs, j, pr.kill[j])
    requires |p| >= 2 && pr.Carries(p[..|p| - 1], d) && p[|p| - 1] in pr.active && p[|p| - 2] in g.pred[p[|p| - 1]]
    ensures ReachesAlong(g, defs, entry, d, p[|p| - 1], p)
  {
    var q := p[..|p| - 1];
    forall i, j | 0 <= i && j == i + 1 && j < |p|
      ensures g.Edge(p[i], p[j])
    {
      assert j < |q| ==> q[i] in pr.source[q[j]];
      assert g.BackEdge(p[i], p[j]);
    }
    forall i | 0 < i < |p| - 1
      ensures p[i] == d || !ShareDef(defs, p[i], d)
    {
      assert d !in pr.kill[q[i]] && KillsExactly(defs, q[i], pr.kill[q[i]]);
    }
    assert forall i :: 0 <= i < |p| - 1 ==> p[i] == q[i];
  }

  lemma PathCarries(g: Graph, defs: seq<seq<nat>>, entry: nat, pr: Problem, d: nat, s: nat, p: seq<nat>)
    requires g.Valid() && |defs| == |g.succ| && pr.Valid() && pr.source == g.pred && AllBut(pr.active, |defs|, entry)
    requires s < |defs|
    requires forall j :: 0 <= j < |defs| ==> pr.gen[j] == if defs[j] == [] then {} else {j}
    requires forall j :: 0 <= j < |defs| ==> KillsExactly(defs, j, pr.kill[j])
    requires ReachesAlong(g, defs, entry, d, s, p)
    ensures pr.Enters(d, s)
  {
    var q := p[..|p| - 1];
    forall i, j | 0 <= i && j == i + 1 && j < |p|
      ensures p[i] in pr.source[p[j]]
    {
      assert g.Edge(p[i], p[j]) && g.BackEdge(p[i], p[j]);
    }
    forall i | 0 < i < |q|
      ensures d !in pr.kill[q[i]]
    {
      assert KillsExactly(defs, q[i], pr.kill[q[i]]);
    }
    assert pr.Carries(q, d);
    assert pr.Leaves(d, q[|q| - 1]);
    assert q[|q| - 1] in pr.source[s];
  }

  /** Variable v is live on entry to b: some path from b reads v before anything on it defines v. */
  ghost predicate LiveAlong(g: Graph, def: seq<set<nat>>, use: seq<set<nat>>, v: nat, b: nat, p: seq<nat>) {
    && |def| == |use| == |g.succ| && IsPath(g, p) && p[0] == b && v in use[p[|p| - 1]]
    && (forall i :: 0 <= i < |p| - 1 ==> v !in def[p[i]])
  }

  ghost predicate Live(g: Graph, def: seq<set<nat>>, use: seq<set<nat>>, v: nat, b: nat) {
    exists p :: LiveAlong(g, def, use, v, b, p)
  }

  /** LiveVars: the backward dual, over all statements. */
  method LiveVars(g: Graph, def: seq<set<nat>>, use: seq<set<nat>>, order: seq<nat>)
    returns (ins: seq<set<nat>>, outs: seq<set<nat>>)
    requires g.Valid() && |def| == |use| == |g.succ| && (forall b: nat :: b in order <==> b < |g.succ|)
    ensures |ins| == |outs| == |g.succ|
    ensures forall b, v :: 0 <= b < |ins| ==> (v in ins[b] <==> Live(g, def, use, v, b))
    ensures forall b, v :: 0 <= b < |outs| ==> (v in outs[b] <==> exists s :: g.Edge(b, s) && Live(g, def, use, v, s))
  {
    hide Problem.Leaves, Live;
    var pr := Problem(g.succ, use, def, order);
    SuccsInRange(g, pr);
    outs, ins := Solve(pr);
    forall b, v: nat | 0 <= b < |ins|
      ensures pr.Leaves(v, b) <==> Live(g, def, use, v, b)
    {
      LeavesIsLive(g, pr, v, b);
    }
    assert forall b, s: nat :: 0 <= b < |outs| ==> (s in pr.source[b] <==> g.Edge(b, s));
  }

  lemma SuccsInRange(g: Graph, pr: Problem)
    requires g.Valid() && pr.source == g.succ && |pr.gen| == |pr.kill| == |g.succ|
    requires forall b :: b in pr.active ==> b < |g.succ|
    ensures pr.Valid()
  {
    assert forall k :: 0 <= k < |pr.active| ==> pr.active[k] in pr.active;
    forall b, q | 0 <= b < |pr.source| && q in pr.source[b]
      ensures q < |pr.source|
    {
      assert g.Edge(b, q);
    }
  }

  lemma LeavesIsLive(g: Graph, pr: Problem, v: nat, b: nat)
    requires g.Valid() && pr.Valid() && pr.source == g.succ && b < |g.succ| &&
      (forall x: nat :: x in pr.active <==> x < |g.succ|)
    ensures pr.Leaves(v, b) <==> Live(g, pr.kill, pr.gen, v, b)
  {
    if pr.Leaves(v, b) {
      var p :| pr.Carries(p, v) && p[|p| - 1] == b;
      var r := Reversed(p);
      forall i, j | 0 <= i && j == i + 1 && j < |r|
        ensures g.Edge(r[i], r[j])
      {
        assert p[|p| - 1 - j] in pr.source[p[|p| - 1 - i]];
      }
      assert LiveAlong(g, pr.kill, pr.gen, v, b, r);
    }
    if Live(g, pr.kill, pr.gen, v, b) {
      var p :| LiveAlong(g, pr.kill, pr.gen, v, b, p);
      var r := Reversed(p);
      forall i, j | 0 <= i && j == i + 1 && j < |r|
        ensures r[i] in pr.source[r[j]]
      {
        assert g.Edge(p[|p| - 1 - j], p[|p| - 1 - i]);
      }
      assert pr.Carries(r, v);
    }
  }
}
