/**
 The state of an mspace as a value, what each of its operations makes of that state, and what the
 operations keep.  Addresses and sizes are integers; a null pointer is `Null`.
 */
module HeapSpace {
  import opened Intervals
  import opened Limits
  import opened Arithmetic
  import opened ChunkMaps

  datatype Space = Space(start: Chunks, end: Chunks, inuse: Chunks, total: int)

  datatype Ptr = Null | At(p: int)

  // ---------------------------------------------------------------------------------------------
  // The operations

  const ALIGNMENT := 512

  function AlignRequest(n: int): (r: int)
    ensures r % ALIGNMENT == 0 && n <= r < n + ALIGNMENT
  {
    (n + (ALIGNMENT - 1)) / ALIGNMENT * ALIGNMENT
  }

  function AlignOffset(a: int): (d: int)
    ensures 0 <= d < ALIGNMENT && (a + d) % ALIGNMENT == 0
  {
    if a % ALIGNMENT == 0 then 0 else ALIGNMENT - a % ALIGNMENT
  }

  function Fresh(base: int, capacity: int): Space {
    var d := AlignOffset(base);
    if capacity - d > 0 then
      Space(map[base + d := capacity - d], map[base + capacity := capacity - d], map[], capacity - d)
    else
      Space(map[], map[], map[], 0)
  }

  /** A new space; its size and its end wrap when the capacity does not cover the alignment offset. */
  function NewSpace(base: int, capacity: int): Space {
    var d := AlignOffset(base);
    if capacity >= d then Fresh(base, capacity)
    else
      var size := capacity - d + SIZE_RANGE;
      Space(map[base + d := size], map[base + capacity := size], map[], size)
  }

  /** The chunk [b, b + c) becomes free and merges with the free chunk after it. */
  function MergeNext(sp: Space, b: int, c: int): Space {
    if b + c in sp.start then
      var n := sp.start[b + c];
      sp.(start := (sp.start - {b + c})[b := c + n], end := (sp.end - {b + c})[b + c + n := c + n])
    else
      sp.(start := sp.start[b := c], end := sp.end[b + c := c])
  }

  /** A chunk becomes free and merges with the free chunks before and after it. */
  function AddFree(sp: Space, base: int, capacity: int): Space {
    if base in sp.end then
      var b, c := base - sp.end[base], capacity + sp.end[base];
      MergeNext(sp.(start := sp.start[b := c], end := (sp.end - {base})[base + capacity := c]), b, c)
    else
      MergeNext(sp, base, capacity)
  }

  function AddNew(sp: Space, base: int, capacity: int): Space {
    AddFree(sp.(total := sp.total + capacity), base, capacity)
  }

  ghost predicate IsFirstFit(start: Chunks, n: int, a: int) {
    && a in start
    && start[a] >= n
    && forall b :: b in start && start[b] >= n ==> a <= b
  }

  /** The free chunk with the lowest address among those of at least n bytes. */
  ghost function FirstFit(start: Chunks, n: int): (r: Ptr)
    ensures r.Null? <==> forall a :: a in start ==> start[a] < n
    ensures r.At? ==> IsFirstFit(start, n, r.p)
  {
    if a :| a in start && start[a] >= n then
      LowestExists(start, n, a);
      var b :| IsFirstFit(start, n, b);
      At(b)
    else
      Null
  }

  /** The first n bytes of the free chunk at a become an in-use chunk. */
  function Take(sp: Space, a: int, n: int): Space
    requires a in sp.start
  {
    var size := sp.start[a];
    var r := size - n;
    if r > 0 then
      sp.(start := sp.start[a + n := r] - {a}, end := sp.end[a + size := r], inuse := sp.inuse[a := n])
    else
      sp.(start := sp.start - {a}, end := sp.end - {a + size}, inuse := sp.inuse[a := n])
  }

  ghost function Allocate(sp: Space, bytes: int): (r: (Space, Ptr))
    ensures r.1.At? ==> r.1.p in r.0.inuse
  {
    if bytes == 0 then (sp, Null)
    else
      var r := FirstFit(sp.start, AlignRequest(bytes));
      if r.Null? then (sp, Null) else (Take(sp, r.p, AlignRequest(bytes)), r)
  }

  function Deallocate(sp: Space, p: int): Space
    requires p in sp.inuse
  {
    AddFree(sp.(inuse := sp.inuse - {p}), p, sp.inuse[p])
  }

  function RoundUp(p: int, alignment: int): int
    requires alignment > 0
  {
    alignment * ((p + (alignment - 1)) / alignment)
  }

  /** The in-use chunk at p loses the bytes before q. */
  function TrimFront(sp: Space, p: int, q: int): Space
    requires p in sp.inuse
  {
    if q == p then sp
    else AddFree(sp.(inuse := sp.inuse[q := sp.inuse[p] - (q - p)] - {p}), p, q - p)
  }

  ghost function AllocateAligned(sp: Space, alignment: int, bytes: int): (Space, Ptr)
    requires alignment > 0
  {
    var (t, r) := Allocate(sp, bytes + alignment);
    if r.Null? then (t, Null)
    else
      var q := RoundUp(r.p, alignment);
      (TrimFront(t, r.p, q), At(q))
  }

  lemma {:induction false} LowestExists(start: Chunks, n: int, a: int)
    requires a in start && start[a] >= n
    ensures exists b :: IsFirstFit(start, n, b)
    decreases |start|
  {
    if b :| b in start && start[b] >= n && b < a {
      var rest := start - {a};
      LowestExists(rest, n, b);
      var c :| IsFirstFit(rest, n, c);
      assert rest[b] >= n && c <= b;
      forall d | d in start && start[d] >= n
        ensures c <= d
      {
        assert d == a || d in rest;
      }
      assert IsFirstFit(start, n, c);
    } else {
      assert IsFirstFit(start, n, a);
    }
  }

  // ---------------------------------------------------------------------------------------------
  // The invariant

  /** The free maps: separate chunks at aligned addresses, listed by start and by end. */
  ghost predicate FreeOk(sp: Space) {
    && Positive(sp.start)
    && Separate(sp.start)
    && Mirror(sp.start, sp.end)
    && forall a :: a in sp.start ==> a % ALIGNMENT == 0
  }

  ghost predicate InuseOk(sp: Space) {
    && Positive(sp.inuse)
    && Disjoint(sp.inuse)
    && forall a :: a in sp.inuse ==> a % ALIGNMENT == 0 && sp.inuse[a] % ALIGNMENT == 0
  }

  /** Free and in-use chunks tile the managed bytes. */
  ghost predicate Tiles(sp: Space, managed: set<int>) {
    && (forall x :: Covers(sp.inuse, x) ==> x in managed)
    && (forall x :: Covers(sp.start, x) <==> x in managed && !Covers(sp.inuse, x))
    && sp.total == |managed|
  }

  ghost predicate Inv(sp: Space, managed: set<int>) {
    FreeOk(sp) && InuseOk(sp) && Tiles(sp, managed)
  }

  /**
   The free maps are canonical: they are determined by which bytes are managed and which chunks are
   in use, no matter by which operations the state was reached.
   */
  lemma Canonical(s: Space, t: Space, managed: set<int>)
    requires Inv(s, managed) && Inv(t, managed) && s.inuse == t.inuse
    ensures s == t
  {
    SameBytesSameChunks(s.start, t.start);
    SameMirror(s.start, s.end, t.end);
  }

  /** The debug assertion of the allocator: the sizes of both free maps agree and add up. */
  lemma Conservation(sp: Space, managed: set<int>)
    requires Inv(sp, managed)
    ensures Sum(sp.start) == Sum(sp.end)
    ensures Sum(sp.start) + Sum(sp.inuse) == sp.total
  {
    SumMirror(sp.start, sp.end);
    SumIsBytes(sp.start);
    SumIsBytes(sp.inuse);
    BytesTile(sp, managed);
  }

  lemma ByteTiles(sp: Space, managed: set<int>, x: int)
    requires Tiles(sp, managed)
    ensures x in Bytes(sp.start) <==> x in managed && x !in Bytes(sp.inuse)
    ensures x in Bytes(sp.inuse) ==> x in managed
  {
    BytesCovered(sp.start, x);
    BytesCovered(sp.inuse, x);
  }

  lemma SplitSize(f: set<int>, u: set<int>, m: set<int>)
    requires f == m - u && u <= m
    ensures |f| + |u| == |m|
  {
    assert m == f + u;
  }

  lemma BytesTile(sp: Space, managed: set<int>)
    requires Tiles(sp, managed)
    ensures |Bytes(sp.start)| + |Bytes(sp.inuse)| == |managed|
  {
    var f, u := Bytes(sp.start), Bytes(sp.inuse);
    assert f == managed - u && u <= managed by {
      forall x
        ensures (x in f <==> x in managed - u) && (x in u ==> x in managed)
      {
        ByteTiles(sp, managed, x);
      }
    }
    SplitSize(f, u, managed);
  }

  lemma BytesCovered(m: Chunks, x: int)
    ensures x in Bytes(m) <==> Covers(m, x)
  {
    if a :| a in m && a <= x < a + m[a] {
      assert In(a, m[a], x);
    }
  }

  // ---------------------------------------------------------------------------------------------
  // add_free_chunk

  /** The region [base, base + capacity) holds no free byte. */
  ghost predicate NotFree(sp: Space, base: int, capacity: int) {
    forall x :: base <= x < base + capacity ==> !Covers(sp.start, x)
  }

  lemma ChunkOutside(sp: Space, base: int, capacity: int, a: int)
    requires Positive(sp.start) && capacity > 0 && NotFree(sp, base, capacity) && a in sp.start
    ensures a + sp.start[a] <= base || base + capacity <= a
  {
    if a < base + capacity && base < a + sp.start[a] {
      var x := if a < base then base else a;
      assert Covers(sp.start, x);
    }
  }

  /** Where the merged chunk starts and ends. */
  function MergedLow(sp: Space, base: int): int {
    if base in sp.end then base - sp.end[base] else base
  }

  function MergedHigh(sp: Space, base: int, capacity: int): int {
    base + capacity + if base + capacity in sp.start then sp.start[base + capacity] else 0
  }

  lemma AddFreeShape(sp: Space, base: int, capacity: int)
    requires FreeOk(sp) && capacity > 0 && NotFree(sp, base, capacity)
    ensures var lo, hi := MergedLow(sp, base), MergedHigh(sp, base, capacity);
      AddFree(sp, base, capacity) ==
      sp.(start := MergedStart(sp, base, capacity), end := MergedEnd(sp, base, capacity))
  {
    hide Covers, NotFree, Separate;
    NoEndInside(sp, base, capacity);
    if base in sp.end {
      assert Has(sp.end, base, sp.end[base]);
      MergeBothShape(sp, base, capacity);
    } else {
      assert sp.end - {base, base + capacity} == sp.end - {base + capacity};
      MergeNextShape(sp, base, capacity);
    }
  }

  /** No free chunk ends where the added one does. */
  lemma NoEndInside(sp: Space, base: int, capacity: int)
    requires FreeOk(sp) && capacity > 0 && NotFree(sp, base, capacity)
    ensures base + capacity !in sp.end
  {
    if base + capacity in sp.end {
      assert Has(sp.end, base + capacity, sp.end[base + capacity]);
      ChunkOutside(sp, base, capacity, base + capacity - sp.end[base + capacity]);
    }
  }

  lemma MergeNextShape(sp: Space, base: int, capacity: int)
    requires base !in sp.end && base + capacity !in sp.end && capacity > 0
    ensures AddFree(sp, base, capacity) ==
      sp.(start := MergedStart(sp, base, capacity), end := MergedEnd(sp, base, capacity))
  {
    var e := base + capacity;
    assert e !in sp.start ==> sp.start - {e} == sp.start;
    assert sp.end - {base, e} == sp.end && sp.end - {e} == sp.end;
  }

  lemma MergeBothShape(sp: Space, base: int, capacity: int)
    requires base in sp.end && base + capacity !in sp.end && capacity > 0 && sp.end[base] > 0
    ensures AddFree(sp, base, capacity) ==
      sp.(start := MergedStart(sp, base, capacity), end := MergedEnd(sp, base, capacity))
  {
    var b, c, e := base - sp.end[base], capacity + sp.end[base], base + capacity;
    var start, end := sp.start[b := c], (sp.end - {base})[e := c];
    if e in sp.start {
      var n := sp.start[e];
      assert (start - {e})[b := c + n] == (sp.start - {e})[b := c + n];
      assert (end - {e})[e + n := c + n] == (sp.end - {base, e})[e + n := c + n];
    } else {
      assert start[b := c] == (sp.start - {e})[b := c];
      assert end[e := c] == (sp.end - {base, e})[e := c];
    }
  }

  /** A chunk that does not merge stays clear of the merged one. */
  lemma OtherChunkClear(sp: Space, base: int, capacity: int, a: int)
    requires FreeOk(sp) && capacity > 0 && NotFree(sp, base, capacity)
    requires a in sp.start && a != MergedLow(sp, base) && a != base + capacity
    ensures a + sp.start[a] < MergedLow(sp, base) || MergedHigh(sp, base, capacity) < a
  {
    var lo := MergedLow(sp, base);
    ChunkOutside(sp, base, capacity, a);
    assert Has(sp.start, a, sp.start[a]);
    if base in sp.end {
      assert Has(sp.end, base, sp.end[base]) && Has(sp.start, lo, base - lo);
    }
  }

  /** The free chunk before the added one, if the merged chunk starts with it. */
  lemma PreviousChunk(sp: Space, base: int, capacity: int)
    requires FreeOk(sp) && capacity > 0 && NotFree(sp, base, capacity)
    ensures MergedLow(sp, base) in sp.start <==> base in sp.end
    ensures base in sp.end ==> Has(sp.start, MergedLow(sp, base), base - MergedLow(sp, base))
    ensures MergedLow(sp, base) <= base
  {
    if base in sp.end {
      assert Has(sp.end, base, sp.end[base]);
    } else if base in sp.start {
      assert Covers(sp.start, base);
    }
  }

  lemma AddFreeMirror(sp: Space, base: int, capacity: int)
    requires FreeOk(sp) && capacity > 0 && NotFree(sp, base, capacity)
    ensures Mirror(AddFree(sp, base, capacity).start, AddFree(sp, base, capacity).end)
  {
    hide AddFree, FreeOk, NotFree;
    AddFreeShape(sp, base, capacity);
    var start, end := MergedStart(sp, base, capacity), MergedEnd(sp, base, capacity);
    forall a, n | Has(start, a, n)
      ensures Has(end, a + n, n)
    {
      MirrorForward(sp, base, capacity, a, n);
    }
    forall e, n | Has(end, e, n)
      ensures Has(start, e - n, n)
    {
      MirrorBackward(sp, base, capacity, e, n);
    }
  }

  function MergedStart(sp: Space, base: int, capacity: int): Chunks {
    var lo, hi := MergedLow(sp, base), MergedHigh(sp, base, capacity);
    (sp.start - {base + capacity})[lo := hi - lo]
  }

  function MergedEnd(sp: Space, base: int, capacity: int): Chunks {
    var lo, hi := MergedLow(sp, base), MergedHigh(sp, base, capacity);
    (sp.end - {base, base + capacity})[hi := hi - lo]
  }

  lemma MirrorForward(sp: Space, base: int, capacity: int, a: int, n: int)
    requires FreeOk(sp) && capacity > 0 && NotFree(sp, base, capacity) && Has(MergedStart(sp, base, capacity), a, n)
    ensures Has(MergedEnd(sp, base, capacity), a + n, n)
  {
    hide NotFree, Covers;
    var lo, hi := MergedLow(sp, base), MergedHigh(sp, base, capacity);
    PreviousChunk(sp, base, capacity);
    NextChunk(sp, base, capacity);
    if a != lo {
      assert Has(sp.start, a, n) && Has(sp.end, a + n, n);
      OtherChunkClear(sp, base, capacity, a);
    }
  }

  lemma MirrorBackward(sp: Space, base: int, capacity: int, e: int, n: int)
    requires FreeOk(sp) && capacity > 0 && NotFree(sp, base, capacity) && Has(MergedEnd(sp, base, capacity), e, n)
    ensures Has(MergedStart(sp, base, capacity), e - n, n)
  {
    hide NotFree, Covers;
    var lo, hi := MergedLow(sp, base), MergedHigh(sp, base, capacity);
    PreviousChunk(sp, base, capacity);
    if e != hi {
      assert Has(sp.end, e, n) && Has(sp.start, e - n, n);
    }
  }

  lemma NextChunk(sp: Space, base: int, capacity: int)
    requires Positive(sp.start) && capacity > 0
    ensures base + capacity <= MergedHigh(sp, base, capacity)
  {
  }

  /** The free bytes after add_free_chunk: those before and the chunk that was added. */
  lemma AddFreeCovers(sp: Space, base: int, capacity: int, x: int)
    requires FreeOk(sp) && capacity > 0 && NotFree(sp, base, capacity)
    ensures Covers(AddFree(sp, base, capacity).start, x) <==> Covers(sp.start, x) || base <= x < base + capacity
  {
    var lo, hi, t := MergedLow(sp, base), MergedHigh(sp, base, capacity), AddFree(sp, base, capacity);
    AddFreeShape(sp, base, capacity);
    PreviousChunk(sp, base, capacity);
    if lo <= x < hi {
      assert Has(t.start, lo, hi - lo) && Covers(t.start, x);
      if x < base {
        assert lo in sp.start && Covers(sp.start, x);
      } else if base + capacity <= x {
        assert base + capacity in sp.start && Covers(sp.start, x);
      }
    } else {
      if a :| a in sp.start && a <= x < a + sp.start[a] {
        assert a != lo && a != base + capacity;
        assert Has(t.start, a, sp.start[a]) && Covers(t.start, x);
      }
      if a :| a in t.start && a <= x < a + t.start[a] {
        assert Has(sp.start, a, t.start[a]) && Covers(sp.start, x);
      }
    }
  }

  lemma AddFreeKeepsFree(sp: Space, base: int, capacity: int)
    requires FreeOk(sp) && capacity > 0 && NotFree(sp, base, capacity) && base % ALIGNMENT == 0
    ensures FreeOk(AddFree(sp, base, capacity))
    ensures forall x :: Covers(AddFree(sp, base, capacity).start, x) <==>
                        Covers(sp.start, x) || base <= x < base + capacity
  {
    var lo, hi, t := MergedLow(sp, base), MergedHigh(sp, base, capacity), AddFree(sp, base, capacity);
    AddFreeShape(sp, base, capacity);
    AddFreeMirror(sp, base, capacity);
    PreviousChunk(sp, base, capacity);
    forall a | a in t.start && a != lo
      ensures a in sp.start && t.start[a] == sp.start[a]
      ensures a + t.start[a] < lo || hi < a
    {
      OtherChunkClear(sp, base, capacity, a);
    }
    forall x
      ensures Covers(t.start, x) <==> Covers(sp.start, x) || base <= x < base + capacity
    {
      AddFreeCovers(sp, base, capacity, x);
    }
  }

  // ---------------------------------------------------------------------------------------------
  // Every operation keeps the invariant

  /** The managed bytes of [base, base + capacity) are accounted for neither as free nor as in use. */
  ghost predicate Gap(sp: Space, managed: set<int>, base: int, capacity: int) {
    && FreeOk(sp) && InuseOk(sp)
    && capacity > 0 && base % ALIGNMENT == 0
    && (forall x :: base <= x < base + capacity ==> x in managed && !Covers(sp.inuse, x))
    && (forall x :: Covers(sp.inuse, x) ==> x in managed)
    && (forall x :: Covers(sp.start, x) <==>
          x in managed && !Covers(sp.inuse, x) && !(base <= x < base + capacity))
    && sp.total == |managed|
  }

  lemma FillGap(sp: Space, managed: set<int>, base: int, capacity: int)
    requires Gap(sp, managed, base, capacity)
    ensures Inv(AddFree(sp, base, capacity), managed)
  {
    AddFreeKeepsFree(sp, base, capacity);
  }

  lemma FreshInv(base: int, capacity: int)
    requires capacity >= AlignOffset(base)
    ensures Inv(Fresh(base, capacity), Interval(base + AlignOffset(base), capacity - AlignOffset(base)))
  {
    var d := AlignOffset(base);
    var sp, m := Fresh(base, capacity), Interval(base + d, capacity - d);
    IntervalSize(base + d, capacity - d);
    forall x
      ensures Covers(sp.start, x) <==> x in m
    {
      if base + d <= x < base + capacity {
        assert base + d in sp.start && In(base + d, capacity - d, x);
      }
    }
  }

  /**
   A new space manages the aligned part of its range exactly when its capacity covers the offset; one
   whose size wrapped keeps the invariant for no set of bytes.
   */
  lemma NewSpaceIff(base: int, capacity: int, managed: set<int>)
    requires 0 <= capacity < SIZE_RANGE
    ensures var d := AlignOffset(base);
      Inv(NewSpace(base, capacity), managed) <==> capacity >= d && managed == Interval(base + d, capacity - d)
  {
    var d, sp := AlignOffset(base), NewSpace(base, capacity);
    if capacity >= d {
      FreshInv(base, capacity);
      if Inv(sp, managed) {
        forall x
          ensures x in managed <==> x in Interval(base + d, capacity - d)
        {
          assert !Covers(sp.inuse, x);
          assert x in managed <==> Covers(sp.start, x);
        }
      }
    } else {
      assert Has(sp.start, base + d, sp.total) && !Has(sp.end, base + d + sp.total, sp.total);
    }
  }

  /** In 64-bit arithmetic a new space is one free chunk of the capacity less the offset, or none. */
  lemma NewSpaceIsModular(base: int, capacity: int)
    requires 0 <= capacity < SIZE_RANGE
    ensures var sp, d := NewSpace(base, capacity), AlignOffset(base);
      && sp.total == (capacity - d) % SIZE_RANGE && sp.inuse == map[]
      && |sp.start| == |sp.end| == (if sp.total == 0 then 0 else 1)
      && (forall a :: a in sp.start ==> a == base + d && sp.start[a] == sp.total)
      && (forall e :: e in sp.end ==> sp.end[e] == sp.total && base + d + sp.total in {e, e + SIZE_RANGE})
  {
    hide AlignOffset;
    var d := AlignOffset(base);
    if capacity < d {
      DivIs(capacity - d, SIZE_RANGE, -1, capacity - d + SIZE_RANGE);
    } else {
      DivIs(capacity - d, SIZE_RANGE, 0, capacity - d);
    }
  }

  lemma AddInterval(managed: set<int>, base: int, capacity: int)
    requires capacity > 0 && managed !! Interval(base, capacity)
    ensures |managed + Interval(base, capacity)| == |managed| + capacity
    ensures forall x :: x in managed + Interval(base, capacity) <==> x in managed || base <= x < base + capacity
    ensures forall x :: base <= x < base + capacity ==> x !in managed
  {
    IntervalSize(base, capacity);
    forall x
      ensures x in Interval(base, capacity) <==> base <= x < base + capacity
    {
      assert In(base, capacity, x) <==> base <= x < base + capacity;
    }
  }

  lemma AddNewKeepsInv(sp: Space, managed: set<int>, base: int, capacity: int)
    requires Inv(sp, managed) && capacity > 0 && base % ALIGNMENT == 0
    requires managed !! Interval(base, capacity)
    ensures Inv(AddNew(sp, base, capacity), managed + Interval(base, capacity))
  {
    hide Inv, Gap, Interval, AddFree;
    AddInterval(managed, base, capacity);
    NewIsGap(sp, managed, managed + Interval(base, capacity), base, capacity);
    FillGap(sp.(total := sp.total + capacity), managed + Interval(base, capacity), base, capacity);
  }

  lemma NewIsGap(sp: Space, managed: set<int>, m: set<int>, base: int, capacity: int)
    requires Inv(sp, managed) && capacity > 0 && base % ALIGNMENT == 0
    requires |m| == |managed| + capacity
    requires forall x :: x in m <==> x in managed || base <= x < base + capacity
    requires forall x :: base <= x < base + capacity ==> x !in managed
    ensures Gap(sp.(total := sp.total + capacity), m, base, capacity)
  {
  }

  lemma TakeCovers(sp: Space, a: int, n: int, x: int)
    requires FreeOk(sp) && a in sp.start && 0 < n <= sp.start[a]
    ensures Covers(Take(sp, a, n).start, x) <==> Covers(sp.start, x) && !(a <= x < a + n)
    ensures a !in sp.inuse ==> (Covers(Take(sp, a, n).inuse, x) <==> Covers(sp.inuse, x) || a <= x < a + n)
  {
    var t := Take(sp, a, n);
    assert a in t.inuse && t.inuse[a] == n;
    if b :| b in sp.start && b <= x < b + sp.start[b] {
      if b != a {
        assert b in t.start && t.start[b] == sp.start[b];
      } else if a + n <= x {
        assert a + n in t.start;
      }
    }
    if b :| b in t.start && b <= x < b + t.start[b] {
      assert Covers(sp.start, x) by {
        assert b == a + n ==> a <= x < a + sp.start[a];
      }
    }
    if b :| b in sp.inuse && b <= x < b + sp.inuse[b] {
      assert b != a ==> b in t.inuse && t.inuse[b] == sp.inuse[b];
    }
    if b :| b in t.inuse && b <= x < b + t.inuse[b] {
      assert b != a ==> b in sp.inuse && t.inuse[b] == sp.inuse[b];
    }
  }

  lemma TakeKeepsFree(sp: Space, a: int, n: int)
    requires FreeOk(sp) && a in sp.start && 0 < n <= sp.start[a] && n % ALIGNMENT == 0
    ensures FreeOk(Take(sp, a, n))
  {
    hide Take, Mirror;
    TakeKeepsMirror(sp, a, n);
    TakeKeepsSeparate(sp, a, n);
  }

  lemma TakeKeepsSeparate(sp: Space, a: int, n: int)
    requires Positive(sp.start) && Separate(sp.start) && a in sp.start && 0 < n <= sp.start[a] && n % ALIGNMENT == 0
    requires forall b :: b in sp.start ==> b % ALIGNMENT == 0
    ensures var start := Take(sp, a, n).start;
      Positive(start) && Separate(start) && forall b :: b in start ==> b % ALIGNMENT == 0
  {
    CutChunk(sp, a, n);
    UnitSum(a, n);
  }

  lemma UnitSum(a: int, n: int)
    requires a % ALIGNMENT == 0 && n % ALIGNMENT == 0
    ensures (a + n) % ALIGNMENT == 0
  {
  }

  /** Only the chunk that is cut starts in, or ends with, the chunk at a. */
  lemma CutChunk(sp: Space, a: int, n: int)
    requires Positive(sp.start) && Separate(sp.start) && a in sp.start && 0 < n <= sp.start[a]
    ensures forall b :: b in sp.start && b != a ==> b + sp.start[b] < a || a + sp.start[a] < b
  {
  }

  lemma TakeKeepsMirror(sp: Space, a: int, n: int)
    requires FreeOk(sp) && a in sp.start && 0 < n <= sp.start[a]
    ensures Mirror(Take(sp, a, n).start, Take(sp, a, n).end)
  {
    var t, size := Take(sp, a, n), sp.start[a];
    CutChunk(sp, a, n);
    assert Has(sp.start, a, size);
    forall b, k | Has(t.start, b, k)
      ensures Has(t.end, b + k, k)
    {
      if b != a + n || n == size {
        assert Has(sp.start, b, k) && Has(sp.end, b + k, k);
      }
    }
    forall e, k | Has(t.end, e, k)
      ensures Has(t.start, e - k, k)
    {
      if e != a + size {
        assert Has(sp.end, e, k) && Has(sp.start, e - k, k);
      }
    }
  }

  lemma TakeKeepsInv(sp: Space, managed: set<int>, a: int, n: int)
    requires Inv(sp, managed) && a in sp.start && 0 < n <= sp.start[a] && n % ALIGNMENT == 0
    ensures Inv(Take(sp, a, n), managed)
    ensures a !in sp.inuse
  {
    var t := Take(sp, a, n);
    TakeKeepsFree(sp, a, n);
    forall x | a <= x < a + n
      ensures x in managed && !Covers(sp.inuse, x)
    {
      assert Covers(sp.start, x);
    }
    assert a in sp.inuse ==> Covers(sp.inuse, a);
    forall x {:trigger Covers(t.start, x)}
      ensures Covers(t.inuse, x) ==> x in managed
      ensures Covers(t.start, x) <==> x in managed && !Covers(t.inuse, x)
    {
      TakeCovers(sp, a, n, x);
    }
    forall b | b in sp.inuse && b != a
      ensures b + sp.inuse[b] <= a || a + n <= b
    {
      var y := if b < a then a else b;
      assert y < b + sp.inuse[b] && b <= y ==> Covers(sp.inuse, y);
    }
  }

  lemma DeallocateKeepsInv(sp: Space, managed: set<int>, p: int)
    requires Inv(sp, managed) && p in sp.inuse
    ensures Inv(Deallocate(sp, p), managed)
    ensures Deallocate(sp, p).inuse == sp.inuse - {p}
  {
    var n, t := sp.inuse[p], sp.(inuse := sp.inuse - {p});
    forall x
      ensures Covers(t.inuse, x) <==> Covers(sp.inuse, x) && !(p <= x < p + n)
    {
      CoversWithout(sp.inuse, p, x);
    }
    assert Gap(t, managed, p, n);
    FillGap(t, managed, p, n);
  }

  lemma CoversWithout(m: Chunks, a: int, x: int)
    requires Disjoint(m) && Positive(m) && a in m
    ensures Covers(m - {a}, x) <==> Covers(m, x) && !(a <= x < a + m[a])
    ensures a <= x < a + m[a] ==> Covers(m, x)
  {
    if b :| b in m && b <= x < b + m[b] {
      assert b != a ==> b in m - {a} && (m - {a})[b] == m[b];
    }
    if b :| b in m - {a} && b <= x < b + (m - {a})[b] {
      assert b in m && m[b] == (m - {a})[b];
    }
  }

  lemma CoversWith(m: Chunks, a: int, n: int, x: int)
    requires a !in m
    ensures Covers(m[a := n], x) <==> Covers(m, x) || a <= x < a + n
  {
    var t := m[a := n];
    assert a in t && t[a] == n;
    if b :| b in m && b <= x < b + m[b] {
      assert b in t && t[b] == m[b];
    }
    if b :| b in t && b <= x < b + t[b] {
      assert b != a ==> b in m && t[b] == m[b];
    }
  }

  /** An in-use chunk gives way to a part [q, q + k) of itself. */
  lemma ShrinkInuse(sp: Space, p: int, q: int, k: int)
    requires InuseOk(sp) && p in sp.inuse && k > 0 && p <= q && q + k <= p + sp.inuse[p]
    requires q % ALIGNMENT == 0 && k % ALIGNMENT == 0
    ensures InuseOk(sp.(inuse := (sp.inuse - {p})[q := k]))
    ensures q != p ==> q !in sp.inuse
    ensures forall x :: Covers((sp.inuse - {p})[q := k], x) <==>
                        (Covers(sp.inuse, x) && !(p <= x < p + sp.inuse[p])) || q <= x < q + k
  {
    forall x
      ensures Covers((sp.inuse - {p})[q := k], x) <==>
              (Covers(sp.inuse, x) && !(p <= x < p + sp.inuse[p])) || q <= x < q + k
    {
      CoversWithout(sp.inuse, p, x);
      CoversWith(sp.inuse - {p}, q, k, x);
    }
  }

  /** Giving back a part of an in-use chunk at its front or at its back. */
  lemma ReleasePart(sp: Space, managed: set<int>, p: int, q: int, k: int, base: int, capacity: int)
    requires Inv(sp, managed) && p in sp.inuse && k > 0 && p <= q && q + k <= p + sp.inuse[p]
    requires q % ALIGNMENT == 0 && k % ALIGNMENT == 0 && capacity > 0
    requires (base == p && base + capacity == q && q + k == p + sp.inuse[p])
          || (base == q + k && q == p && base + capacity == p + sp.inuse[p])
    ensures Inv(AddFree(sp.(inuse := (sp.inuse - {p})[q := k]), base, capacity), managed)
    ensures base !in (sp.inuse - {p})[q := k]
  {
    var n, t := sp.inuse[p], sp.(inuse := (sp.inuse - {p})[q := k]);
    ShrinkInuse(sp, p, q, k);
    forall x | p <= x < p + n
      ensures x in managed && Covers(sp.inuse, x)
    {
      CoversWithout(sp.inuse, p, x);
    }
    assert Gap(t, managed, base, capacity);
    FillGap(t, managed, base, capacity);
  }

  // ---------------------------------------------------------------------------------------------
  // allocate

  /** n contiguous bytes from a on are managed and not in use. */
  ghost predicate FreeRun(sp: Space, managed: set<int>, a: int, n: int) {
    forall x :: a <= x < a + n ==> x in managed && !Covers(sp.inuse, x)
  }

  ghost predicate SomeFreeRun(sp: Space, managed: set<int>, n: int) {
    exists a :: FreeRun(sp, managed, a, n)
  }

  /**
   Allocate is complete and first-fit over the whole managed space: it fails exactly when no run of
   enough free bytes exists anywhere, and otherwise returns the lowest address where one starts.
   */
  lemma AllocateComplete(sp: Space, managed: set<int>, bytes: int)
    requires Inv(sp, managed) && bytes > 0
    ensures var (t, r) := Allocate(sp, bytes); var n := AlignRequest(bytes);
      && (r.At? <==> SomeFreeRun(sp, managed, n))
      && (r.Null? ==> t == sp)
      && (r.At? ==> FreeRun(sp, managed, r.p, n) && r.p % ALIGNMENT == 0)
      && (r.At? ==> forall a :: FreeRun(sp, managed, a, n) ==> r.p <= a)
  {
    var n := AlignRequest(bytes);
    var r := FirstFit(sp.start, n);
    forall a | FreeRun(sp, managed, a, n)
      ensures r.At? && r.p <= a
    {
      var c := RunInOneChunk(sp.start, a, n);
    }
    if r.At? {
      forall x | r.p <= x < r.p + n
        ensures x in managed && !Covers(sp.inuse, x)
      {
        assert Covers(sp.start, x);
      }
      assert FreeRun(sp, managed, r.p, n);
    }
  }

  lemma AllocateKeepsInv(sp: Space, managed: set<int>, bytes: int)
    requires Inv(sp, managed) && bytes >= 0
    ensures var (t, r) := Allocate(sp, bytes);
      && Inv(t, managed)
      && (r.Null? ==> t == sp)
      && (r.At? ==> r.p !in sp.inuse && t.inuse == sp.inuse[r.p := AlignRequest(bytes)])
  {
    if bytes > 0 {
      var r := FirstFit(sp.start, AlignRequest(bytes));
      if r.At? {
        TakeKeepsInv(sp, managed, r.p, AlignRequest(bytes));
      }
    }
  }

  /** Freeing a block that was just allocated restores the state, both free maps included. */
  lemma FreeUndoesAllocate(sp: Space, managed: set<int>, bytes: int)
    requires Inv(sp, managed) && bytes >= 0
    ensures var (t, r) := Allocate(sp, bytes); r.At? ==> Deallocate(t, r.p) == sp
  {
    var (t, r) := Allocate(sp, bytes);
    AllocateKeepsInv(sp, managed, bytes);
    if r.At? {
      DeallocateKeepsInv(t, managed, r.p);
      assert t.inuse - {r.p} == sp.inuse;
      Canonical(Deallocate(t, r.p), sp, managed);
    }
  }

  // ---------------------------------------------------------------------------------------------
  // Freeing everything

  ghost predicate FreeOrder(inuse: Chunks, order: seq<int>) {
    && (forall p :: p in inuse <==> p in order)
    && (forall i, j :: 0 <= i < j < |order| ==> order[i] != order[j])
  }

  ghost function FreeAll(sp: Space, order: seq<int>): Space
    requires FreeOrder(sp.inuse, order)
    decreases |order|
  {
    if order == [] then sp
    else
      assert order[0] in order;
      var t := Deallocate(sp, order[0]);
      assert t.inuse == sp.inuse - {order[0]};
      assert FreeOrder(t.inuse, order[1..]) by {
        assert order == [order[0]] + order[1..];
      }
      FreeAll(t, order[1..])
  }

  /** Freeing all blocks, in any order, gives the state of a new heap over the same bytes. */
  lemma {:induction false} FreeAllRestores(sp: Space, managed: set<int>, order: seq<int>, blank: Space)
    requires Inv(sp, managed) && FreeOrder(sp.inuse, order)
    requires Inv(blank, managed) && blank.inuse == map[]
    ensures FreeAll(sp, order) == blank
    decreases |order|
  {
    if order == [] {
      assert forall p :: p in sp.inuse <==> p in order;
      assert sp.inuse == map[];
      Canonical(sp, blank, managed);
    } else {
      assert order[0] in order;
      DeallocateKeepsInv(sp, managed, order[0]);
      assert order == [order[0]] + order[1..];
      FreeAllRestores(Deallocate(sp, order[0]), managed, order[1..], blank);
    }
  }
}
