/**
 Maps from the start address of a chunk to its size, and the bytes they stand for.
 */
module ChunkMaps {
  import opened Intervals

  type Chunks = map<int, int>

  ghost predicate Covers(m: Chunks, x: int) {
    exists a :: a in m && a <= x < a + m[a]
  }

  ghost predicate Positive(m: Chunks) {
    forall a :: a in m ==> m[a] > 0
  }

  /** No two chunks overlap. */
  ghost predicate Disjoint(m: Chunks) {
    forall a, b :: a in m && b in m && a < b ==> a + m[a] <= b
  }

  /** No two chunks overlap or touch. */
  ghost predicate Separate(m: Chunks) {
    forall a, b :: a in m && b in m && a < b ==> a + m[a] < b
  }

  predicate Has(m: Chunks, a: int, n: int) {
    a in m && m[a] == n
  }

  /** `end` holds the chunks of `start` by their end address. */
  ghost predicate Mirror(start: Chunks, end: Chunks) {
    && (forall a, n :: Has(start, a, n) ==> Has(end, a + n, n))
    && (forall e, n :: Has(end, e, n) ==> Has(start, e - n, n))
  }

  lemma EndIsChunk(start: Chunks, end: Chunks, e: int)
    requires Mirror(start, end) && e in end
    ensures e - end[e] in start && start[e - end[e]] == end[e]
  {
    assert Has(end, e, end[e]);
  }

  // ---------------------------------------------------------------------------------------------
  // Canonicity: separate chunks are the maximal runs of the bytes they cover

  /** A run of covered bytes lies within one chunk. */
  lemma {:induction false} RunInOneChunk(m: Chunks, a: int, n: int) returns (c: int)
    requires Separate(m) && n > 0
    requires forall x :: a <= x < a + n ==> Covers(m, x)
    ensures c in m && c <= a && a + n <= c + m[c]
    decreases n
  {
    assert Covers(m, a + n - 1);
    c :| c in m && c <= a + n - 1 < c + m[c];
    if n > 1 {
      var d := RunInOneChunk(m, a, n - 1);
      assert d == c;
    }
  }

  /** The chunk that starts at a is a maximal run of covered bytes. */
  lemma ChunkIsMaximal(m: Chunks, a: int)
    requires Separate(m) && Positive(m) && a in m
    ensures !Covers(m, a - 1) && !Covers(m, a + m[a])
  {
  }

  lemma SameBytesIncluded(m: Chunks, n: Chunks, a: int)
    requires Separate(m) && Positive(m) && Separate(n) && Positive(n)
    requires forall x :: Covers(m, x) <==> Covers(n, x)
    requires a in m
    ensures a in n && n[a] == m[a]
  {
    forall x | a <= x < a + m[a]
      ensures Covers(n, x)
    {
      assert Covers(m, x);
    }
    var c := RunInOneChunk(n, a, m[a]);
    ChunkIsMaximal(m, a);
    assert c < a ==> Covers(n, a - 1);
    var e := a + m[a];
    assert e < c + n[c] ==> Covers(n, e);
  }

  /** Separate chunks are determined by the bytes they cover. */
  lemma SameBytesSameChunks(m: Chunks, n: Chunks)
    requires Separate(m) && Positive(m) && Separate(n) && Positive(n)
    requires forall x :: Covers(m, x) <==> Covers(n, x)
    ensures m == n
  {
    forall a | a in m {
      SameBytesIncluded(m, n, a);
    }
    forall a | a in n {
      SameBytesIncluded(n, m, a);
    }
  }

  /** ... and so is their mirror. */
  lemma SameMirror(start: Chunks, e1: Chunks, e2: Chunks)
    requires Mirror(start, e1) && Mirror(start, e2)
    ensures e1 == e2
  {
    forall e
      ensures (e in e1 <==> e in e2) && (e in e1 ==> e1[e] == e2[e])
    {
      assert e in e1 ==> Has(e1, e, e1[e]) && Has(e2, e, e1[e]);
      assert e in e2 ==> Has(e2, e, e2[e]) && Has(e1, e, e2[e]);
    }
  }

  // ---------------------------------------------------------------------------------------------
  // Sizes

  /** The sum of all sizes. */
  ghost function Sum(m: Chunks): int {
    if m.Keys == {} then 0
    else
      SomeMember(m.Keys);
      var a :| a in m.Keys;
      m[a] + Sum(m - {a})
  }

  lemma {:induction false} SumWithout(m: Chunks, a: int)
    requires a in m
    ensures Sum(m) == m[a] + Sum(m - {a})
    decreases |m|
  {
    var b :| b in m && Sum(m) == m[b] + Sum(m - {b});
    if a != b {
      SumWithout(m - {b}, a);
      SumWithout(m - {a}, b);
      assert m - {a} - {b} == m - {b} - {a};
    }
  }

  lemma SumWith(m: Chunks, a: int, n: int)
    ensures Sum(m[a := n]) == Sum(m) + n - (if a in m then m[a] else 0)
  {
    SumWithout(m[a := n], a);
    assert m[a := n] - {a} == m - {a};
    if a in m {
      SumWithout(m, a);
    } else {
      assert m - {a} == m;
    }
  }

  lemma MirrorWithout(start: Chunks, end: Chunks, a: int)
    requires Mirror(start, end) && a in start
    ensures Has(end, a + start[a], start[a])
    ensures Mirror(start - {a}, end - {a + start[a]})
  {
    var r, f := start - {a}, end - {a + start[a]};
    assert Has(start, a, start[a]);
    forall b, n | Has(r, b, n)
      ensures Has(f, b + n, n)
    {
      assert Has(start, b, n);
    }
    forall e, n | Has(f, e, n)
      ensures Has(r, e - n, n)
    {
      assert Has(end, e, n);
    }
  }

  lemma {:induction false} SumMirror(start: Chunks, end: Chunks)
    requires Mirror(start, end)
    ensures Sum(start) == Sum(end)
    decreases |start|
  {
    if start.Keys == {} {
      if e :| e in end.Keys {
        assert Has(end, e, end[e]);
        assert false;
      }
    } else {
      SomeMember(start.Keys);
      var a :| a in start.Keys;
      MirrorWithout(start, end, a);
      SumWithout(start, a);
      SumWithout(end, a + start[a]);
      SumMirror(start - {a}, end - {a + start[a]});
    }
  }

  ghost function Bytes(m: Chunks): set<int> {
    set a, x | a in m && a <= x < a + m[a] && In(a, m[a], x) :: x
  }

  lemma BytesWithout(m: Chunks, a: int)
    requires Disjoint(m) && Positive(m) && a in m
    ensures Bytes(m) == Bytes(m - {a}) + Interval(a, m[a])
    ensures Bytes(m - {a}) !! Interval(a, m[a])
  {
    var r := m - {a};
    forall x | x in Bytes(m)
      ensures x in Bytes(r) || x in Interval(a, m[a])
    {
      var b :| b in m && In(b, m[b], x);
      if b == a {
        assert In(a, m[a], x);
      } else {
        assert b in r && In(b, r[b], x);
      }
    }
    forall x | x in Bytes(r)
      ensures x in Bytes(m) && x !in Interval(a, m[a])
    {
      var b :| b in r && In(b, r[b], x);
      assert b in m && In(b, m[b], x);
    }
    forall x | x in Interval(a, m[a])
      ensures x in Bytes(m)
    {
      assert In(a, m[a], x);
    }
  }

  lemma {:induction false} SumIsBytes(m: Chunks)
    requires Disjoint(m) && Positive(m)
    ensures Sum(m) == |Bytes(m)|
    decreases |m|
  {
    if m.Keys == {} {
      assert Bytes(m) == {};
    } else {
      hide Bytes, Interval, Sum;
      SomeMember(m.Keys);
      var a :| a in m.Keys;
      SumWithout(m, a);
      SumIsBytes(m - {a});
      IntervalSize(a, m[a]);
      BytesWithout(m, a);
      UnionSize(Bytes(m - {a}), Interval(a, m[a]));
    }
  }

  // ---------------------------------------------------------------------------------------------
  // Translation

  /** n holds the chunks of m, d bytes further up. */
  ghost predicate Shifted(m: Chunks, n: Chunks, d: int) {
    && (forall a, k :: Has(m, a, k) ==> Has(n, a + d, k))
    && (forall b, k :: Has(n, b, k) ==> Has(m, b - d, k))
  }
}
