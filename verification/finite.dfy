/** Small facts about finite collections. */
module Finite {

  datatype Option<T> = None | Some(value: T)

  /** No entry occurs twice. */
  predicate NoRepeats<T(==)>(s: seq<T>) {
    forall i, j :: 0 <= i < j < |s| ==> s[i] != s[j]
  }

  /** The set 0..n-1. */
  function NatsBelow(n: nat): (s: set<nat>)
    ensures |s| == n && forall x: nat :: x in s <==> x < n
  {
    if n == 0 then {} else NatsBelow(n - 1) + {n - 1}
  }

  lemma {:induction false} SubsetSize<T>(a: set<T>, b: set<T>)
    requires a <= b
    ensures |a| <= |b|
    ensures |a| == |b| ==> a == b
  {
    if |a| != 0 {
      var x :| x in a;
      SubsetSize(a - {x}, b - {x});
    }
  }

  ghost function Elements<T>(s: seq<T>): set<T> {
    set x | x in s
  }

  /** Distinct entries fill a set of their own number. */
  lemma {:induction false} DistinctCount<T>(s: seq<T>)
    requires NoRepeats(s)
    ensures |Elements(s)| == |s|
  {
    if s != [] {
      var t, last := s[..|s| - 1], s[|s| - 1];
      assert s == t + [last];
      assert forall i :: 0 <= i < |t| ==> t[i] == s[i] != last;
      DistinctCount(t);
      ElementsMore(t, last);
    }
  }

  lemma ElementsMore<T>(s: seq<T>, x: T)
    requires x !in s
    ensures Elements(s + [x]) == Elements(s) + {x} && |Elements(s + [x])| == |Elements(s)| + 1
  {
    assert forall y :: y in s + [x] <==> y in s || y == x;
  }

  /** There is always one more number. */
  lemma FreshNumber(s: set<nat>) returns (x: nat)
    ensures x !in s
  {
    var all := NatsBelow(|s| + 1);
    assert !(all <= s) by {
      if all <= s { SubsetSize(all, s); }
    }
    x :| x in all && x !in s;
  }
}
