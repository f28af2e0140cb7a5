/** Intervals of integers as finite sets, and the sizes of finite sets. */
module Intervals {

  lemma SomeMember(s: set<int>)
    ensures s != {} ==> exists a :: a in s
  {
    assert (forall a :: a !in s) ==> s == {};
  }

  predicate In(a: int, n: int, x: int) {
    a <= x < a + n
  }

  ghost function Interval(a: int, n: int): set<int> {
    set x | a <= x < a + n && In(a, n, x)
  }

  lemma {:induction false} IntervalSize(a: int, n: int)
    requires n >= 0
    ensures |Interval(a, n)| == n
    decreases n
  {
    if n == 0 {
      assert Interval(a, n) == {};
    } else {
      IntervalSize(a, n - 1);
      assert Interval(a, n) == Interval(a, n - 1) + {a + n - 1};
    }
  }

  lemma IntervalJoin(a: int, m: int, n: int)
    requires m >= 0 && n >= 0
    ensures Interval(a, m + n) == Interval(a, m) + Interval(a + m, n)
    ensures Interval(a, m) !! Interval(a + m, n)
  {
    forall x
      ensures x in Interval(a, m + n) <==> x in Interval(a, m) || x in Interval(a + m, n)
    {
      assert In(a, m + n, x) <==> In(a, m, x) || In(a + m, n, x);
    }
  }

  lemma {:induction false} SubsetSize(a: set<int>, b: set<int>)
    requires a <= b
    ensures |a| <= |b|
  {
    if a != {} {
      SomeMember(a);
      var x :| x in a;
      SubsetSize(a - {x}, b - {x});
    }
  }

  lemma UnionSize(a: set<int>, b: set<int>)
    requires a !! b
    ensures |a + b| == |a| + |b|
  {
  }
}
