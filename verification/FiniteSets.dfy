/** Counting with finite sets of numbers. */
module FiniteSets {

  lemma {:induction false} SubsetSize<T>(a: set<T>, b: set<T>)
    requires a <= b
    ensures |a| <= |b| && (a < b ==> |a| < |b|)
    decreases |a|
  {
    if a != {} {
      var x :| x in a;
      SubsetSize(a - {x}, b - {x});
      if a < b {
        var y :| y in b && y !in a;
        assert y in b - {x} && y !in a - {x};
      }
    } else if b != {} {
      assert |b| > 0;
    }
  }

  /** A set of numbers below n has n elements exactly when it has them all. */
  lemma {:induction false} BoundedSize(s: set<nat>, n: nat)
    requires forall x :: x in s ==> x < n
    ensures |s| <= n && (|s| == n <==> forall x :: 0 <= x < n ==> x in s)
  {
    if n > 0 {
      var t := s - {n - 1};
      BoundedSize(t, n - 1);
      assert n - 1 in s ==> |s| == |t| + 1;
      assert n - 1 !in s ==> t == s;
      assert (forall x :: 0 <= x < n ==> x in s) <==> n - 1 in s && forall x :: 0 <= x < n - 1 ==> x in t;
    } else {
      assert s == {};
    }
  }

  ghost function Elements(s: seq<nat>): set<nat> {
    set x | x in s
  }

  lemma {:induction false} DistinctSize(s: seq<nat>)
    requires forall i, j :: 0 <= i < j < |s| ==> s[i] != s[j]
    ensures |Elements(s)| == |s|
  {
    if s != [] {
      var n := |s| - 1;
      DistinctSize(s[..n]);
      assert Elements(s) == Elements(s[..n]) + {s[n]};
    }
  }

  /** A sequence of numbers below n without repetitions has at most n elements, and n exactly if it has
      them all. */
  lemma Pigeonhole(s: seq<nat>, n: nat)
    requires forall i, j :: 0 <= i < j < |s| ==> s[i] != s[j]
    requires forall i :: 0 <= i < |s| ==> s[i] < n
    ensures |s| <= n
    ensures (forall b :: 0 <= b < n ==> b in s) <==> |s| == n
  {
    DistinctSize(s);
    BoundedSize(Elements(s), n);
    assert forall b: nat :: b in s <==> b in Elements(s);
  }
}
