/**
 Aligned allocation and reallocation, whole runs of an mspace, and the symmetry of the runs of two.
 */
module HeapRuns {
  import opened Intervals
  import opened ChunkMaps
  import opened Arithmetic
  import opened HeapSpace

  // ---------------------------------------------------------------------------------------------
  // allocate_aligned

  ghost predicate PowerOfTwo(n: int) {
    n == 1 || (n > 1 && n % 2 == 0 && PowerOfTwo(n / 2))
  }

  /** Of two powers of two, one divides the other. */
  lemma {:induction false} PowersDivide(n: int, m: int) returns (k: int)
    requires PowerOfTwo(n) && PowerOfTwo(m)
    ensures k > 0 && (n == m * k || m == n * k)
  {
    if n == 1 {
      k := m;
    } else if m == 1 {
      k := n;
    } else {
      k := PowersDivide(n / 2, m / 2);
    }
  }

  lemma RoundUpFacts(p: int, alignment: int)
    requires alignment > 0
    ensures p <= RoundUp(p, alignment) < p + alignment
    ensures RoundUp(p, alignment) % alignment == 0
  {
    var a, j := alignment, (p + (alignment - 1)) / alignment;
    assert p + (a - 1) == a * j + (p + (a - 1)) % a;
    DivIs(a * j, a, j, 0);
  }

  lemma RoundUpCoarse(p: int, alignment: int, k: int)
    requires alignment > 0 && alignment == ALIGNMENT * k
    ensures RoundUp(p, alignment) % ALIGNMENT == 0
  {
    var j := (p + (alignment - 1)) / alignment;
    assert RoundUp(p, alignment) == ALIGNMENT * (k * j);
  }

  lemma RoundUpFine(p: int, alignment: int, k: int)
    requires alignment > 0 && ALIGNMENT == alignment * k && p % ALIGNMENT == 0
    ensures RoundUp(p, alignment) == p
  {
    var i := p / ALIGNMENT;
    assert p == alignment * k * i == alignment * (k * i);
    DivIs(p + (alignment - 1), alignment, k * i, alignment - 1);
  }

  /** a is the lowest address from which n bytes are free. */
  ghost predicate LowestRun(sp: Space, managed: set<int>, a: int, n: int) {
    FreeRun(sp, managed, a, n) && forall b :: FreeRun(sp, managed, b, n) ==> a <= b
  }

  /** From an aligned address, rounding up skips whole allocation units. */
  lemma RoundUpAligned(p: int, alignment: int)
    requires PowerOfTwo(alignment) && p % ALIGNMENT == 0
    ensures RoundUp(p, alignment) % ALIGNMENT == 0
  {
    assert PowerOfTwo(ALIGNMENT) by {
      assert PowerOfTwo(2) && PowerOfTwo(8) && PowerOfTwo(32) && PowerOfTwo(128);
    }
    var k := PowersDivide(alignment, ALIGNMENT);
    if alignment == ALIGNMENT * k {
      RoundUpCoarse(p, alignment, k);
    } else {
      RoundUpFine(p, alignment, k);
    }
  }

  lemma TrimFrontKeepsInv(sp: Space, managed: set<int>, p: int, q: int)
    requires Inv(sp, managed) && p in sp.inuse && p <= q < p + sp.inuse[p] && q % ALIGNMENT == 0
    ensures Inv(TrimFront(sp, p, q), managed)
    ensures TrimFront(sp, p, q).inuse == (sp.inuse - {p})[q := sp.inuse[p] - (q - p)]
    ensures q != p ==> q !in sp.inuse
  {
    hide FreeOk, Tiles, AddFree, Covers, Disjoint, Positive;
    var k := sp.inuse[p] - (q - p);
    if q == p {
      assert (sp.inuse - {p})[p := sp.inuse[p]] == sp.inuse;
    } else {
      ShrinkInuse(sp, p, q, k);
      ReleasePart(sp, managed, p, q, k, p, q - p);
      assert sp.inuse[q := k] - {p} == (sp.inuse - {p})[q := k];
      AddFreeKeepsInuse(sp.(inuse := (sp.inuse - {p})[q := k]), p, q - p);
    }
  }

  lemma AddFreeKeepsInuse(sp: Space, base: int, capacity: int)
    ensures AddFree(sp, base, capacity).inuse == sp.inuse && AddFree(sp, base, capacity).total == sp.total
  {
  }

  /**
   The block returned is the first one aligned as asked in the lowest run of the padded size, and holds
   more than the bytes asked for; what was skipped to get there is free again.
   */
  lemma AllocateAlignedKeepsInv(sp: Space, managed: set<int>, alignment: int, bytes: int)
    requires Inv(sp, managed) && PowerOfTwo(alignment) && bytes >= 0
    ensures var (t, r) := AllocateAligned(sp, alignment, bytes); var n := AlignRequest(bytes + alignment);
      && Inv(t, managed)
      && (r.At? <==> SomeFreeRun(sp, managed, n))
      && (r.Null? ==> t == sp)
      && (r.At? ==> r.p % alignment == 0 && r.p !in sp.inuse && r.p in t.inuse && t.inuse[r.p] > bytes)
      && (r.At? ==> t.inuse == sp.inuse[r.p := t.inuse[r.p]])
      && (r.At? ==> exists a :: LowestRun(sp, managed, a, n) && a <= r.p < a + alignment)
  {
    hide Inv, SomeFreeRun, RoundUp, AlignRequest, Allocate, TrimFront, FreeRun;
    var (u, r) := Allocate(sp, bytes + alignment);
    AllocateKeepsInv(sp, managed, bytes + alignment);
    AllocateComplete(sp, managed, bytes + alignment);
    if r.At? {
      var q := RoundUp(r.p, alignment);
      RoundUpFacts(r.p, alignment);
      RoundUpAligned(r.p, alignment);
      TrimFrontKeepsInv(u, managed, r.p, q);
      assert u.inuse - {r.p} == sp.inuse;
      assert LowestRun(sp, managed, r.p, AlignRequest(bytes + alignment));
    }
  }

  /**
   Without the assertion on the alignment, the block returned need not start at an allocation unit, and
   the invariant is kept exactly when it does.
   */
  lemma AnyAlignmentKeepsInvIff(sp: Space, managed: set<int>, alignment: int, bytes: int)
    requires Inv(sp, managed) && alignment > 0 && bytes >= 0
    ensures var (t, r) := AllocateAligned(sp, alignment, bytes);
      Inv(t, managed) <==> r.Null? || r.p % ALIGNMENT == 0
  {
    hide FreeOk, Tiles, SomeFreeRun, RoundUp, AlignRequest, Allocate, AddFree;
    var (u, r) := Allocate(sp, bytes + alignment);
    AllocateKeepsInv(sp, managed, bytes + alignment);
    if r.At? {
      var q := RoundUp(r.p, alignment);
      RoundUpFacts(r.p, alignment);
      if q % ALIGNMENT == 0 {
        TrimFrontKeepsInv(u, managed, r.p, q);
      } else {
        AddFreeKeepsInuse(u.(inuse := u.inuse[q := u.inuse[r.p] - (q - r.p)] - {r.p}), r.p, q - r.p);
        assert q in TrimFront(u, r.p, q).inuse;
      }
    }
  }

  /** The alignments that are right from every allocation unit. */
  lemma AlignmentsIff(alignment: int)
    requires alignment > 0
    ensures (forall p :: p % ALIGNMENT == 0 ==> RoundUp(p, alignment) % ALIGNMENT == 0) <==>
      alignment % ALIGNMENT == 0 || ALIGNMENT % alignment == 0
  {
    if alignment % ALIGNMENT == 0 {
      forall p | p % ALIGNMENT == 0
        ensures RoundUp(p, alignment) % ALIGNMENT == 0
      {
        RoundUpCoarse(p, alignment, alignment / ALIGNMENT);
      }
    } else if ALIGNMENT % alignment == 0 {
      forall p | p % ALIGNMENT == 0
        ensures RoundUp(p, alignment) % ALIGNMENT == 0
      {
        RoundUpFine(p, alignment, ALIGNMENT / alignment);
      }
    } else {
      RoundUpFacts(ALIGNMENT, alignment);
      if alignment > ALIGNMENT {
        DivIs(ALIGNMENT + (alignment - 1), alignment, 1, ALIGNMENT - 1);
      }
      assert RoundUp(ALIGNMENT, alignment) % ALIGNMENT != 0;
    }
  }

  // ---------------------------------------------------------------------------------------------
  // reallocate

  /** `Exit` is the exit(-1) of add_free_chunk on a chunk that is in use. */
  datatype Outcome = Exit | Return(ptr: Ptr)

  /** A block grows where it is when the free chunk behind it is large enough. */
  predicate GrowsInPlace(sp: Space, p: int, size: int)
    requires p in sp.inuse
  {
    var n, c := AlignRequest(size), p + sp.inuse[p];
    n > sp.inuse[p] && c in sp.start && sp.inuse[p] + sp.start[c] >= n
  }

  /** That is so exactly when it has to grow and the bytes it would grow by are free. */
  lemma GrowsInPlaceIff(sp: Space, managed: set<int>, p: int, size: int)
    requires Inv(sp, managed) && p in sp.inuse && size >= 0
    ensures var n, cur := AlignRequest(size), sp.inuse[p];
      GrowsInPlace(sp, p, size) <==> n > cur && FreeRun(sp, managed, p + cur, n - cur)
  {
    var n, cur := AlignRequest(size), sp.inuse[p];
    var c := p + cur;
    if n > cur && FreeRun(sp, managed, c, n - cur) {
      var b := RunInOneChunk(sp.start, c, n - cur);
      assert Covers(sp.inuse, c - 1);
      assert !Covers(sp.start, c - 1);
      assert b == c;
    }
    if GrowsInPlace(sp, p, size) {
      forall x | c <= x < p + n
        ensures x in managed && !Covers(sp.inuse, x)
      {
        assert Covers(sp.start, x);
      }
    }
  }

  /** The block at p takes n bytes, and all of the free chunk behind it is taken off the free maps. */
  function Absorb(sp: Space, p: int, n: int): Space
    requires p in sp.inuse && p + sp.inuse[p] in sp.start
  {
    var c := p + sp.inuse[p];
    sp.(inuse := sp.inuse[p := n], start := sp.start - {c}, end := sp.end - {c + sp.start[c]})
  }

  function AddFreeOrExit(sp: Space, base: int, capacity: int, p: int): (Space, Outcome) {
    if base in sp.inuse then (sp, Exit) else (AddFree(sp, base, capacity), Return(At(p)))
  }

  ghost function Reallocate(sp: Space, p: int, size: int): (Space, Outcome)
    requires p in sp.inuse
  {
    var n, cur := AlignRequest(size), sp.inuse[p];
    if n < cur then
      AddFreeOrExit(sp.(inuse := sp.inuse[p := n]), p + n, cur - n, p)
    else if n == cur then
      (sp, Return(At(p)))
    else if GrowsInPlace(sp, p, size) then
      var t := Absorb(sp, p, n);
      if cur + sp.start[p + cur] > n then AddFreeOrExit(t, p + n, n - cur, p) else (t, Return(At(p)))
    else
      var (t, r) := Allocate(sp, n);
      if r.Null? then (t, Return(Null))
      else (AddFree(t.(inuse := t.inuse - {p}), p, cur), Return(r))
  }

  /** The source looks the block up by subscript, which makes an empty one of a pointer not in use. */
  ghost function ReallocateAny(sp: Space, p: int, size: int): (Space, Outcome) {
    Reallocate(if p in sp.inuse then sp else sp.(inuse := sp.inuse[p := 0]), p, size)
  }

  /** What growing in place returns to the free maps is what is left of the chunk behind the block. */
  predicate LeftoverIsRight(sp: Space, p: int, size: int)
    requires p in sp.inuse && GrowsInPlace(sp, p, size)
  {
    var n, cur := AlignRequest(size), sp.inuse[p];
    var c := sp.start[p + cur];
    n == cur + c || n - cur == cur + c - n
  }

  lemma AbsorbFacts(sp: Space, managed: set<int>, p: int, n: int)
    requires Inv(sp, managed) && p in sp.inuse && p + sp.inuse[p] in sp.start
    requires sp.inuse[p] < n <= sp.inuse[p] + sp.start[p + sp.inuse[p]] && n % ALIGNMENT == 0
    ensures var t, left := Absorb(sp, p, n), sp.inuse[p] + sp.start[p + sp.inuse[p]] - n;
      if left > 0 then Gap(t, managed, p + n, left) else Inv(t, managed)
  {
    hide Gap;
    var t, c := Absorb(sp, p, n), p + sp.inuse[p];
    AbsorbFreeOk(sp, p, n);
    forall x | c <= x < c + sp.start[c]
      ensures Covers(sp.start, x)
    {
      CoversWithout(sp.start, c, x);
    }
    AbsorbInuseOk(sp, managed, p, n);
    forall x
      ensures Covers(t.start, x) <==> Covers(sp.start, x) && !(c <= x < c + sp.start[c])
      ensures Covers(t.inuse, x) <==> Covers(sp.inuse, x) || c <= x < p + n
    {
      AbsorbCovers(sp, p, n, x);
    }
    AbsorbTiles(sp, t, managed, c, p + n, c + sp.start[c]);
  }

  lemma AbsorbFreeOk(sp: Space, p: int, n: int)
    requires FreeOk(sp) && p in sp.inuse && p + sp.inuse[p] in sp.start
    ensures FreeOk(Absorb(sp, p, n))
  {
    MirrorWithout(sp.start, sp.end, p + sp.inuse[p]);
  }

  lemma AbsorbInuseOk(sp: Space, managed: set<int>, p: int, n: int)
    requires InuseOk(sp) && p in sp.inuse && p + sp.inuse[p] in sp.start && n > 0 && n % ALIGNMENT == 0
    requires forall x :: p + sp.inuse[p] <= x < p + n ==> !Covers(sp.inuse, x)
    ensures InuseOk(Absorb(sp, p, n))
  {
    forall b | b in sp.inuse && b != p
      ensures b + sp.inuse[b] <= p || p + n <= b
    {
      assert Covers(sp.inuse, b);
    }
  }

  /** Of the free bytes from c to z, those before m are now in use and the rest are a gap. */
  lemma AbsorbTiles(s: Space, t: Space, managed: set<int>, c: int, m: int, z: int)
    requires Tiles(s, managed) && FreeOk(t) && InuseOk(t) && t.total == s.total && c < m <= z && m % ALIGNMENT == 0
    requires forall x :: c <= x < z ==> Covers(s.start, x)
    requires forall x :: Covers(t.start, x) <==> Covers(s.start, x) && !(c <= x < z)
    requires forall x :: Covers(t.inuse, x) <==> Covers(s.inuse, x) || c <= x < m
    ensures if m < z then Gap(t, managed, m, z - m) else Inv(t, managed)
  {
    hide Covers, FreeOk, InuseOk;
  }

  lemma AbsorbCovers(sp: Space, p: int, n: int, x: int)
    requires p in sp.inuse && p + sp.inuse[p] in sp.start && n > sp.inuse[p]
    requires Positive(sp.start) && Positive(sp.inuse) && Disjoint(sp.start) && Disjoint(sp.inuse)
    ensures var t, c := Absorb(sp, p, n), p + sp.inuse[p];
      && (Covers(t.start, x) <==> Covers(sp.start, x) && !(c <= x < c + sp.start[c]))
      && (Covers(t.inuse, x) <==> Covers(sp.inuse, x) || c <= x < p + n)
  {
    hide Covers;
    CoversWithout(sp.start, p + sp.inuse[p], x);
    CoversWithout(sp.inuse, p, x);
    CoversWith(sp.inuse - {p}, p, n, x);
    assert (sp.inuse - {p})[p := n] == sp.inuse[p := n];
  }

  lemma AddFreeSum(sp: Space, base: int, capacity: int)
    requires base !in sp.start && base !in sp.end && base + capacity != base
    ensures Sum(AddFree(sp, base, capacity).start) == Sum(sp.start) + capacity
  {
    var e := base + capacity;
    if e in sp.start {
      SumWithout(sp.start, e);
      SumWith(sp.start - {e}, base, capacity + sp.start[e]);
    } else {
      SumWith(sp.start, base, capacity);
    }
  }

  /** The bytes behind the grown block belong to no other free chunk. */
  lemma AbsorbedInterior(sp: Space, managed: set<int>, p: int, n: int)
    requires Inv(sp, managed) && p in sp.inuse && p + sp.inuse[p] in sp.start
    requires sp.inuse[p] < n < sp.inuse[p] + sp.start[p + sp.inuse[p]]
    ensures p + n !in Absorb(sp, p, n).inuse && p + n !in sp.start && p + n !in sp.end
  {
    var c, b := p + sp.inuse[p], p + n;
    assert Covers(sp.start, b);
    assert b in sp.inuse ==> Covers(sp.inuse, b);
    if b in sp.end {
      EndIsChunk(sp.start, sp.end, b);
    }
  }

  /** Growing in place accounts for every byte exactly when the leftover is right. */
  lemma GrowInPlaceSum(sp: Space, p: int, size: int)
    requires p in sp.inuse && GrowsInPlace(sp, p, size)
    requires sp.total == Sum(sp.start) + Sum(sp.inuse)
    requires var n := AlignRequest(size);
      sp.inuse[p] + sp.start[p + sp.inuse[p]] > n ==>
        p + n !in Absorb(sp, p, n).inuse && p + n !in sp.start && p + n !in sp.end
    ensures var t := Reallocate(sp, p, size).0;
      t.total == Sum(t.start) + Sum(t.inuse) <==> LeftoverIsRight(sp, p, size)
  {
    var n, cur := AlignRequest(size), sp.inuse[p];
    var t, c := Absorb(sp, p, n), p + cur;
    SumWithout(sp.start, c);
    SumWith(sp.inuse, p, n);
    if cur + sp.start[c] > n {
      AddFreeSum(t, p + n, n - cur);
    }
  }

  /**
   Reallocate keeps the allocator's invariant exactly when the block does not grow in place by the
   wrong leftover; to size zero it ends the process, and otherwise it returns a block of at least the
   size asked for, or null when the block has to move and no run is large enough.
   */
  lemma ReallocateKeepsInvIff(sp: Space, managed: set<int>, p: int, size: int)
    requires Inv(sp, managed) && p in sp.inuse && size >= 0
    ensures var (t, o) := Reallocate(sp, p, size);
      && (o.Exit? <==> size == 0)
      && (size > 0 ==> (Inv(t, managed) <==> (GrowsInPlace(sp, p, size) ==> LeftoverIsRight(sp, p, size))))
      && (o.Return? && o.ptr.At? ==> o.ptr.p in t.inuse && t.inuse[o.ptr.p] >= size)
      && (o.Return? && o.ptr.Null? ==> t == sp && !SomeFreeRun(sp, managed, AlignRequest(size)))
  {
    hide FreeOk, Tiles, SomeFreeRun;
    var n, cur := AlignRequest(size), sp.inuse[p];
    if n < cur {
      if n > 0 {
        ReleasePart(sp, managed, p, p, n, p + n, cur - n);
        assert (sp.inuse - {p})[p := n] == sp.inuse[p := n];
      }
    } else if GrowsInPlace(sp, p, size) {
      GrowInPlaceKeepsInvIff(sp, managed, p, size);
    } else if n > cur {
      MoveKeepsInv(sp, managed, p, size);
    }
  }

  /**
   Reallocation changes one block only: it stays where it is unless it has to grow and the bytes behind
   it are not free, and otherwise goes to the lowest run of free bytes.
   */
  lemma ReallocateBlocks(sp: Space, managed: set<int>, p: int, size: int)
    requires Inv(sp, managed) && p in sp.inuse && size > 0
    ensures var (t, o) := Reallocate(sp, p, size); var n := AlignRequest(size);
      && o.Return?
      && (o.ptr.Null? <==> n > sp.inuse[p] && !FreeRun(sp, managed, p + sp.inuse[p], n - sp.inuse[p])
                           && !SomeFreeRun(sp, managed, n))
      && (o.ptr.At? ==>
            && t.inuse == (sp.inuse - {p})[o.ptr.p := n]
            && (o.ptr.p == p || o.ptr.p !in sp.inuse)
            && (o.ptr.p == p <==>
                  n <= sp.inuse[p] || FreeRun(sp, managed, p + sp.inuse[p], n - sp.inuse[p]))
            && (o.ptr.p != p ==> LowestRun(sp, managed, o.ptr.p, n)))
  {
    hide Inv, SomeFreeRun, FreeRun;
    GrowsInPlaceIff(sp, managed, p, size);
    ReallocateKeepsInvIff(sp, managed, p, size);
    var n, cur := AlignRequest(size), sp.inuse[p];
    assert (sp.inuse - {p})[p := n] == sp.inuse[p := n];
    if n > cur && !GrowsInPlace(sp, p, size) {
      AllocateKeepsInv(sp, managed, n);
      AllocateComplete(sp, managed, n);
      var r := Allocate(sp, n).1;
      if r.At? {
        assert AlignRequest(n) == n;
        assert LowestRun(sp, managed, r.p, n);
        assert sp.inuse[r.p := n] - {p} == (sp.inuse - {p})[r.p := n];
      }
    } else if n == cur {
      assert sp.inuse[p := n] == sp.inuse;
    }
  }

  lemma GrowInPlaceKeepsInvIff(sp: Space, managed: set<int>, p: int, size: int)
    requires Inv(sp, managed) && p in sp.inuse && size >= 0 && GrowsInPlace(sp, p, size)
    ensures var (t, o) := Reallocate(sp, p, size);
      && o == Return(At(p)) && p in t.inuse && t.inuse[p] == AlignRequest(size)
      && (Inv(t, managed) <==> LeftoverIsRight(sp, p, size))
  {
    hide Inv, Gap;
    var n, cur := AlignRequest(size), sp.inuse[p];
    var t := Absorb(sp, p, n);
    var left := cur + sp.start[p + cur] - n;
    AbsorbFacts(sp, managed, p, n);
    Conservation(sp, managed);
    if left > 0 {
      AbsorbedInterior(sp, managed, p, n);
      if n - cur == left {
        FillGap(t, managed, p + n, left);
      }
    }
    GrowInPlaceSum(sp, p, size);
    var r := Reallocate(sp, p, size).0;
    if Inv(r, managed) {
      Conservation(r, managed);
    }
  }

  lemma MoveKeepsInv(sp: Space, managed: set<int>, p: int, size: int)
    requires Inv(sp, managed) && p in sp.inuse && size > 0
    requires AlignRequest(size) > sp.inuse[p] && !GrowsInPlace(sp, p, size)
    ensures var (t, o) := Reallocate(sp, p, size);
      && Inv(t, managed) && o.Return?
      && (o.ptr.At? ==> o.ptr.p in t.inuse && t.inuse[o.ptr.p] == AlignRequest(size))
      && (o.ptr.Null? ==> t == sp && !SomeFreeRun(sp, managed, AlignRequest(size)))
  {
    hide Inv, SomeFreeRun;
    var n := AlignRequest(size);
    assert AlignRequest(n) == n;
    AllocateKeepsInv(sp, managed, n);
    AllocateComplete(sp, managed, n);
    var (t, r) := Allocate(sp, n);
    if r.At? {
      DeallocateKeepsInv(t, managed, p);
    }
  }

  lemma FirstBlock(base: int)
    requires base % ALIGNMENT == 0
    ensures Allocate(Fresh(base, 2048), 512) ==
      (Space(map[base + 512 := 1536], map[base + 2048 := 1536], map[base := 512], 2048), At(base))
  {
    var h := Fresh(base, 2048);
    assert h.start == map[base := 2048] && h.end == map[base + 2048 := 2048];
    assert h.start[base] >= 512;
    assert FirstFit(h.start, 512) == At(base);
    assert AlignRequest(512) == 512;
    assert Take(h, base, 512) ==
      Space(map[base + 512 := 1536], map[base + 2048 := 1536], map[base := 512], 2048)
    by {
      assert h.start[base + 512 := 1536] - {base} == map[base + 512 := 1536];
      assert h.end[base + 2048 := 1536] == map[base + 2048 := 1536];
      assert h.inuse[base := 512] == map[base := 512];
    }
  }

  /** Growing a 512-byte block to 1024 in front of 1536 free bytes loses 512 of them. */
  lemma ReallocateLosesBytes()
    ensures var sp := Allocate(Fresh(0, 2048), 512).0;
      && Inv(sp, Interval(0, 2048)) && sp.inuse == map[0 := 512]
      && !Inv(Reallocate(sp, 0, 1024).0, Interval(0, 2048))
  {
    hide Inv, Reallocate, SomeFreeRun, Interval;
    FreshInv(0, 2048);
    AllocateKeepsInv(Fresh(0, 2048), Interval(0, 2048), 512);
    var sp := Allocate(Fresh(0, 2048), 512).0;
    FirstBlock(0);
    ReallocateKeepsInvIff(sp, Interval(0, 2048), 0, 1024);
  }

  // ---------------------------------------------------------------------------------------------
  // reallocate with a pointer that is not in use

  /** The pointer happens to be where a free chunk begins or ends, and nothing is lost by using it. */
  ghost predicate UnusedIsHarmless(sp: Space, p: int, size: int) {
    var n := AlignRequest(size);
    && size > 0
    && if p in sp.start && sp.start[p] >= n then
         sp.start[p] == n || sp.start[p] == 2 * n
       else
         var (t, r) := Allocate(sp, n);
         r.At? && (p in t.start || p in t.end)
  }

  /** At the start of a free chunk that is large enough, the block grows out of nothing. */
  lemma UnusedGrowsIff(sp: Space, managed: set<int>, p: int, size: int)
    requires Inv(sp, managed) && p !in sp.inuse && size > 0
    requires p in sp.start && sp.start[p] >= AlignRequest(size)
    ensures var (t, o) := ReallocateAny(sp, p, size); var n := AlignRequest(size);
      o == Return(At(p)) && (Inv(t, managed) <==> sp.start[p] == n || sp.start[p] == 2 * n)
  {
    hide Inv, AddFree;
    var n, c := AlignRequest(size), sp.start[p];
    var zero := sp.(inuse := sp.inuse[p := 0]);
    Conservation(sp, managed);
    SumWith(sp.inuse, p, 0);
    if c > n {
      UnusedInterior(sp, managed, p, n);
    }
    GrowInPlaceSum(zero, p, size);
    var t := Reallocate(zero, p, size).0;
    if c == n || c == 2 * n {
      TakeKeepsInv(sp, managed, p, n);
      assert zero.inuse[p := n] == sp.inuse[p := n];
      UnusedIsTaken(sp, p, n);
    } else if Inv(t, managed) {
      Conservation(t, managed);
    }
  }

  lemma UnusedInterior(sp: Space, managed: set<int>, p: int, n: int)
    requires Inv(sp, managed) && p in sp.start && 0 < n < sp.start[p]
    ensures p + n !in sp.inuse && p + n !in sp.start && p + n !in sp.end && p + sp.start[p] !in sp.start
  {
    assert Covers(sp.start, p + n);
    assert p + n in sp.inuse ==> Covers(sp.inuse, p + n);
    if p + n in sp.end {
      EndIsChunk(sp.start, sp.end, p + n);
    }
  }

  lemma UnusedIsTaken(sp: Space, p: int, n: int)
    requires p in sp.start && (sp.start[p] == n || sp.start[p] == 2 * n) && n > 0
    requires sp.start[p] > n ==> p + n !in sp.start && p + n !in sp.end && p + sp.start[p] !in sp.start
    ensures var t := sp.(inuse := sp.inuse[p := n], start := sp.start - {p}, end := sp.end - {p + sp.start[p]});
      Take(sp, p, n) == if sp.start[p] > n then AddFree(t, p + n, n) else t
  {
    if sp.start[p] > n {
      assert sp.start[p + n := n] - {p} == (sp.start - {p})[p + n := n];
      assert sp.end[p + 2 * n := n] == (sp.end - {p + 2 * n})[p + 2 * n := n];
    }
  }

  /** Freeing no bytes is harmless where a free chunk begins or ends and makes an empty chunk elsewhere. */
  lemma FreeNothingIff(sp: Space, managed: set<int>, p: int)
    requires Inv(sp, managed)
    ensures Inv(AddFree(sp, p, 0), managed) <==> p in sp.start || p in sp.end
  {
    hide Tiles, InuseOk;
    if p in sp.end {
      EndIsChunk(sp.start, sp.end, p);
      var b, c := p - sp.end[p], sp.end[p];
      assert sp.start[b := c] == sp.start && (sp.end - {p})[p := c] == sp.end && sp.end[p := c] == sp.end;
      assert AddFree(sp, p, 0) == sp;
    } else if p in sp.start {
      var c := sp.start[p];
      assert Has(sp.start, p, c);
      assert (sp.start - {p})[p := c] == sp.start && sp.end - {p} == sp.end && sp.end[p + c := c] == sp.end;
      assert AddFree(sp, p, 0) == sp;
    } else {
      assert AddFree(sp, p, 0).start[p] == 0;
    }
  }

  lemma UnusedMovesIff(sp: Space, managed: set<int>, p: int, size: int)
    requires Inv(sp, managed) && p !in sp.inuse && size > 0
    requires !(p in sp.start && sp.start[p] >= AlignRequest(size))
    ensures var (t, o) := ReallocateAny(sp, p, size); var (a, r) := Allocate(sp, AlignRequest(size));
      o == Return(r) && (Inv(t, managed) <==> r.At? && (p in a.start || p in a.end))
  {
    hide FreeOk, Tiles, AddFree;
    var n := AlignRequest(size);
    assert AlignRequest(n) == n;
    var zero := sp.(inuse := sp.inuse[p := 0]);
    AllocateKeepsInv(sp, managed, n);
    var (a, r) := Allocate(sp, n);
    if r.At? {
      assert zero.inuse[r.p := n] - {p} == sp.inuse[r.p := n];
      FreeNothingIff(a, managed, p);
    } else {
      assert ReallocateAny(sp, p, size).0 == zero && p in zero.inuse;
    }
  }

  /**
   Reallocating a pointer that is not in use never ends the process, and keeps the allocator's
   invariant only by luck: exactly when the pointer is harmless.
   */
  lemma ReallocateUnusedIff(sp: Space, managed: set<int>, p: int, size: int)
    requires Inv(sp, managed) && p !in sp.inuse && size >= 0
    ensures var (t, o) := ReallocateAny(sp, p, size);
      o.Return? && (Inv(t, managed) <==> UnusedIsHarmless(sp, p, size))
  {
    hide FreeOk, Tiles, Disjoint;
    if size == 0 {
      assert ReallocateAny(sp, p, size).0.inuse[p] == 0;
    } else if p in sp.start && sp.start[p] >= AlignRequest(size) {
      UnusedGrowsIff(sp, managed, p, size);
    } else {
      UnusedMovesIff(sp, managed, p, size);
    }
  }

  /** The null pointer, where C's realloc allocates: here it leaves an empty free chunk at address 0. */
  lemma ReallocateNullBreaksInv()
    ensures var sp := Fresh(512, 2048);
      && Inv(sp, Interval(512, 2048))
      && !Inv(ReallocateAny(sp, 0, 512).0, Interval(512, 2048))
  {
    hide Inv, ReallocateAny, Allocate, Interval;
    var sp := Fresh(512, 2048);
    FreshInv(512, 2048);
    FirstBlock(512);
    ReallocateUnusedIff(sp, Interval(512, 2048), 0, 512);
  }

  // ---------------------------------------------------------------------------------------------
  // Whole runs

  datatype Call =
    | Malloc(bytes: int)
    | Memalign(alignment: int, bytes: int)
    | Free(p: int)
    | Realloc(p: int, size: int)
    | Grow(base: int, capacity: int)

  /** What a caller owes: pointers that are in use, valid alignments, new memory beside the old. */
  ghost predicate Legal(sp: Space, managed: set<int>, call: Call) {
    match call
    case Malloc(bytes) => bytes >= 0
    case Memalign(alignment, bytes) => bytes >= 0 && alignment % 8 == 0 && PowerOfTwo(alignment)
    case Free(p) => p in sp.inuse
    case Realloc(p, size) =>
      p in sp.inuse && size > 0 && (GrowsInPlace(sp, p, size) ==> LeftoverIsRight(sp, p, size))
    case Grow(base, capacity) =>
      capacity > 0 && base % ALIGNMENT == 0 && managed !! Interval(base, capacity)
  }

  ghost function Do(sp: Space, call: Call): (Space, Ptr) {
    match call
    case Malloc(bytes) => Allocate(sp, bytes)
    case Memalign(alignment, bytes) => if alignment > 0 then AllocateAligned(sp, alignment, bytes) else (sp, Null)
    case Free(p) => (if p in sp.inuse then Deallocate(sp, p) else sp, Null)
    case Realloc(p, size) =>
      if p in sp.inuse then
        var (t, o) := Reallocate(sp, p, size);
        (t, if o.Exit? then Null else o.ptr)
      else (sp, Null)
    case Grow(base, capacity) => (AddNew(sp, base, capacity), Null)
  }

  ghost function ManagedAfter(managed: set<int>, call: Call): set<int> {
    if call.Grow? then managed + Interval(call.base, call.capacity) else managed
  }

  ghost predicate LegalRun(sp: Space, managed: set<int>, calls: seq<Call>)
    decreases |calls|
  {
    calls != [] ==>
      && Legal(sp, managed, calls[0])
      && LegalRun(Do(sp, calls[0]).0, ManagedAfter(managed, calls[0]), calls[1..])
  }

  ghost function SpaceAfter(sp: Space, calls: seq<Call>): Space
    decreases |calls|
  {
    if calls == [] then sp else SpaceAfter(Do(sp, calls[0]).0, calls[1..])
  }

  ghost function ManagedAfterAll(managed: set<int>, calls: seq<Call>): set<int>
    decreases |calls|
  {
    if calls == [] then managed else ManagedAfterAll(ManagedAfter(managed, calls[0]), calls[1..])
  }

  lemma CallKeepsInv(sp: Space, managed: set<int>, call: Call)
    requires Inv(sp, managed) && Legal(sp, managed, call)
    ensures Inv(Do(sp, call).0, ManagedAfter(managed, call))
  {
    match call
    case Malloc(bytes) => AllocateKeepsInv(sp, managed, bytes);
    case Memalign(alignment, bytes) => AllocateAlignedKeepsInv(sp, managed, alignment, bytes);
    case Free(p) => DeallocateKeepsInv(sp, managed, p);
    case Realloc(p, size) => ReallocateKeepsInvIff(sp, managed, p, size);
    case Grow(base, capacity) => AddNewKeepsInv(sp, managed, base, capacity);
  }

  /** Every run of legal calls keeps the invariant. */
  lemma {:induction false} RunKeepsInv(sp: Space, managed: set<int>, calls: seq<Call>)
    requires Inv(sp, managed) && LegalRun(sp, managed, calls)
    ensures Inv(SpaceAfter(sp, calls), ManagedAfterAll(managed, calls))
    decreases |calls|
  {
    if calls != [] {
      CallKeepsInv(sp, managed, calls[0]);
      RunKeepsInv(Do(sp, calls[0]).0, ManagedAfter(managed, calls[0]), calls[1..]);
    }
  }

  /**
   From construction on: whatever legal calls are made, the two free maps mirror each other and are
   the maximal runs of free bytes, live blocks are disjoint, and all sizes add up to total_size.
   */
  lemma HeapInvariant(base: int, capacity: int, calls: seq<Call>)
    requires capacity >= AlignOffset(base)
    requires LegalRun(Fresh(base, capacity),
                      Interval(base + AlignOffset(base), capacity - AlignOffset(base)), calls)
    ensures var sp := SpaceAfter(Fresh(base, capacity), calls);
      && FreeOk(sp) && InuseOk(sp)
      && Sum(sp.start) == Sum(sp.end) && Sum(sp.start) + Sum(sp.inuse) == sp.total
      && Tiles(sp, ManagedAfterAll(Interval(base + AlignOffset(base), capacity - AlignOffset(base)), calls))
  {
    var managed := Interval(base + AlignOffset(base), capacity - AlignOffset(base));
    FreshInv(base, capacity);
    RunKeepsInv(Fresh(base, capacity), managed, calls);
    Conservation(SpaceAfter(Fresh(base, capacity), calls), ManagedAfterAll(managed, calls));
  }

  // ---------------------------------------------------------------------------------------------
  // Symmetry: the same calls on heaps at different addresses return the same offsets

  ghost predicate SpaceShifted(s: Space, t: Space, d: int) {
    && Shifted(s.start, t.start, d)
    && Shifted(s.end, t.end, d)
    && Shifted(s.inuse, t.inuse, d)
    && s.total == t.total
  }

  function ShiftPtr(r: Ptr, d: int): Ptr {
    if r.Null? then Null else At(r.p + d)
  }

  /** The same call with addresses d bytes further up. */
  function ShiftCall(call: Call, d: int): Call {
    match call
    case Free(p) => Free(p + d)
    case Realloc(p, size) => Realloc(p + d, size)
    case Grow(base, capacity) => Grow(base + d, capacity)
    case _ => call
  }

  lemma ShiftAt(m: Chunks, n: Chunks, d: int, a: int)
    requires Shifted(m, n, d)
    ensures a in m <==> a + d in n
    ensures a in m ==> n[a + d] == m[a]
  {
    assert a in m ==> Has(m, a, m[a]);
    assert a + d in n ==> Has(n, a + d, n[a + d]) && Has(m, (a + d) - d, n[a + d]);
  }

  lemma ShiftWith(m: Chunks, n: Chunks, d: int, a: int, k: int)
    requires Shifted(m, n, d)
    ensures Shifted(m[a := k], n[a + d := k], d)
  {
    var m', n' := m[a := k], n[a + d := k];
    forall b, j | Has(m', b, j)
      ensures Has(n', b + d, j)
    {
      assert b != a ==> Has(m, b, j);
    }
    forall b, j | Has(n', b, j)
      ensures Has(m', b - d, j)
    {
      assert b != a + d ==> Has(n, b, j);
    }
  }

  lemma ShiftWithout(m: Chunks, n: Chunks, d: int, a: int)
    requires Shifted(m, n, d)
    ensures Shifted(m - {a}, n - {a + d}, d)
  {
    var m', n' := m - {a}, n - {a + d};
    forall b, j | Has(m', b, j)
      ensures Has(n', b + d, j)
    {
      assert Has(m, b, j);
    }
    forall b, j | Has(n', b, j)
      ensures Has(m', b - d, j)
    {
      assert Has(n, b, j);
    }
  }

  lemma MergeNextShifted(s: Space, t: Space, d: int, b: int, c: int)
    requires SpaceShifted(s, t, d)
    ensures SpaceShifted(MergeNext(s, b, c), MergeNext(t, b + d, c), d)
  {
    var e := b + c;
    ShiftAt(s.start, t.start, d, e);
    if e in s.start {
      var n := s.start[e];
      ShiftWithout(s.start, t.start, d, e);
      ShiftWith(s.start - {e}, t.start - {e + d}, d, b, c + n);
      ShiftWithout(s.end, t.end, d, e);
      ShiftWith(s.end - {e}, t.end - {e + d}, d, e + n, c + n);
    } else {
      ShiftWith(s.start, t.start, d, b, c);
      ShiftWith(s.end, t.end, d, e, c);
    }
  }

  lemma MergePreviousShifted(s: Space, t: Space, d: int, base: int, b: int, e: int, c: int)
    requires SpaceShifted(s, t, d)
    ensures SpaceShifted(s.(start := s.start[b := c], end := (s.end - {base})[e := c]),
                         t.(start := t.start[b + d := c], end := (t.end - {base + d})[e + d := c]), d)
  {
    ShiftWith(s.start, t.start, d, b, c);
    ShiftWithout(s.end, t.end, d, base);
    ShiftWith(s.end - {base}, t.end - {base + d}, d, e, c);
  }

  lemma AddFreeShifted(s: Space, t: Space, d: int, base: int, capacity: int)
    requires SpaceShifted(s, t, d)
    ensures SpaceShifted(AddFree(s, base, capacity), AddFree(t, base + d, capacity), d)
  {
    hide Shifted;
    ShiftAt(s.end, t.end, d, base);
    if base in s.end {
      var b, c, e := base - s.end[base], capacity + s.end[base], base + capacity;
      MergePreviousShifted(s, t, d, base, b, e, c);
      MergeNextShifted(s.(start := s.start[b := c], end := (s.end - {base})[e := c]),
                       t.(start := t.start[b + d := c], end := (t.end - {base + d})[e + d := c]), d, b, c);
    } else {
      MergeNextShifted(s, t, d, base, capacity);
    }
  }

  lemma DeallocateShifted(s: Space, t: Space, d: int, p: int)
    requires SpaceShifted(s, t, d) && p in s.inuse && p + d in t.inuse
    ensures SpaceShifted(Deallocate(s, p), Deallocate(t, p + d), d)
  {
    ShiftAt(s.inuse, t.inuse, d, p);
    ShiftWithout(s.inuse, t.inuse, d, p);
    AddFreeShifted(s.(inuse := s.inuse - {p}), t.(inuse := t.inuse - {p + d}), d, p, s.inuse[p]);
  }

  lemma FirstFitShifted(m: Chunks, n: Chunks, d: int, k: int)
    requires Shifted(m, n, d)
    ensures FirstFit(n, k) == ShiftPtr(FirstFit(m, k), d)
  {
    var r, q := FirstFit(m, k), FirstFit(n, k);
    if r.At? {
      ShiftAt(m, n, d, r.p);
    }
    if q.At? {
      ShiftAt(m, n, d, q.p - d);
    }
  }

  lemma AllocateShifted(s: Space, t: Space, d: int, bytes: int)
    requires SpaceShifted(s, t, d)
    ensures SpaceShifted(Allocate(s, bytes).0, Allocate(t, bytes).0, d)
    ensures Allocate(t, bytes).1 == ShiftPtr(Allocate(s, bytes).1, d)
  {
    var n := AlignRequest(bytes);
    var r := FirstFit(s.start, n);
    FirstFitShifted(s.start, t.start, d, n);
    if bytes != 0 && r.At? {
      var a := r.p;
      ShiftAt(s.start, t.start, d, a);
      var size := s.start[a];
      ShiftWith(s.start, t.start, d, a + n, size - n);
      ShiftWithout(s.start[a + n := size - n], t.start[a + n + d := size - n], d, a);
      ShiftWith(s.end, t.end, d, a + size, size - n);
      ShiftWithout(s.start, t.start, d, a);
      ShiftWithout(s.end, t.end, d, a + size);
      ShiftWith(s.inuse, t.inuse, d, a, n);
    }
  }

  lemma RoundUpShifted(p: int, alignment: int, d: int)
    requires alignment > 0 && d % alignment == 0
    ensures RoundUp(p + d, alignment) == RoundUp(p, alignment) + d
  {
    var a, x, k := alignment, p + (alignment - 1), d / alignment;
    assert d == a * k;
    assert x + d == a * (x / a + k) + x % a;
    DivIs(x + d, a, x / a + k, x % a);
  }

  lemma TrimFrontShifted(s: Space, t: Space, d: int, p: int, q: int)
    requires SpaceShifted(s, t, d) && p in s.inuse && p + d in t.inuse
    ensures SpaceShifted(TrimFront(s, p, q), TrimFront(t, p + d, q + d), d)
  {
    hide Shifted;
    ShiftAt(s.inuse, t.inuse, d, p);
    if q != p {
      var k := s.inuse[p] - (q - p);
      ShiftWith(s.inuse, t.inuse, d, q, k);
      ShiftWithout(s.inuse[q := k], t.inuse[q + d := k], d, p);
      AddFreeShifted(s.(inuse := s.inuse[q := k] - {p}), t.(inuse := t.inuse[q + d := k] - {p + d}), d, p, q - p);
    }
  }

  lemma AllocateAlignedShifted(s: Space, t: Space, d: int, alignment: int, bytes: int)
    requires SpaceShifted(s, t, d) && alignment > 0 && d % alignment == 0
    ensures SpaceShifted(AllocateAligned(s, alignment, bytes).0, AllocateAligned(t, alignment, bytes).0, d)
    ensures AllocateAligned(t, alignment, bytes).1 == ShiftPtr(AllocateAligned(s, alignment, bytes).1, d)
  {
    hide Shifted, AddFree, Allocate;
    var (u, r) := Allocate(s, bytes + alignment);
    AllocateShifted(s, t, d, bytes + alignment);
    if r.At? {
      RoundUpShifted(r.p, alignment, d);
      TrimFrontShifted(u, Allocate(t, bytes + alignment).0, d, r.p, RoundUp(r.p, alignment));
    }
  }

  lemma AddFreeOrExitShifted(s: Space, t: Space, d: int, base: int, capacity: int, p: int)
    requires SpaceShifted(s, t, d)
    ensures var (s', o) := AddFreeOrExit(s, base, capacity, p);
      var (t', q) := AddFreeOrExit(t, base + d, capacity, p + d);
      SpaceShifted(s', t', d) && q == (if o.Exit? then Exit else Return(ShiftPtr(o.ptr, d)))
  {
    ShiftAt(s.inuse, t.inuse, d, base);
    AddFreeShifted(s, t, d, base, capacity);
  }

  lemma AbsorbShifted(s: Space, t: Space, d: int, p: int, n: int)
    requires SpaceShifted(s, t, d) && p in s.inuse && p + s.inuse[p] in s.start
    ensures p + d in t.inuse && p + d + t.inuse[p + d] in t.start
    ensures SpaceShifted(Absorb(s, p, n), Absorb(t, p + d, n), d)
  {
    ShiftAt(s.inuse, t.inuse, d, p);
    var c := p + s.inuse[p];
    ShiftAt(s.start, t.start, d, c);
    ShiftWith(s.inuse, t.inuse, d, p, n);
    ShiftWithout(s.start, t.start, d, c);
    ShiftWithout(s.end, t.end, d, c + s.start[c]);
  }

  ghost predicate OutcomeShifted(x: (Space, Outcome), y: (Space, Outcome), d: int) {
    && SpaceShifted(x.0, y.0, d)
    && y.1 == if x.1.Exit? then Exit else Return(ShiftPtr(x.1.ptr, d))
  }

  lemma ShrinkShifted(s: Space, t: Space, d: int, p: int, n: int, capacity: int)
    requires SpaceShifted(s, t, d)
    ensures OutcomeShifted(AddFreeOrExit(s.(inuse := s.inuse[p := n]), p + n, capacity, p),
                           AddFreeOrExit(t.(inuse := t.inuse[p + d := n]), p + d + n, capacity, p + d), d)
  {
    hide Shifted;
    ShiftWith(s.inuse, t.inuse, d, p, n);
    var s', t' := s.(inuse := s.inuse[p := n]), t.(inuse := t.inuse[p + d := n]);
    AddFreeOrExitShifted(s', t', d, p + n, capacity, p);
  }

  lemma MoveShifted(s: Space, t: Space, d: int, p: int, n: int, cur: int)
    requires SpaceShifted(s, t, d)
    ensures Allocate(t, n).1 == ShiftPtr(Allocate(s, n).1, d)
    ensures SpaceShifted(Allocate(s, n).0, Allocate(t, n).0, d)
    ensures var s', t' := Allocate(s, n).0, Allocate(t, n).0;
      SpaceShifted(AddFree(s'.(inuse := s'.inuse - {p}), p, cur),
                   AddFree(t'.(inuse := t'.inuse - {p + d}), p + d, cur), d)
  {
    hide Shifted;
    AllocateShifted(s, t, d, n);
    var s', t' := Allocate(s, n).0, Allocate(t, n).0;
    ShiftWithout(s'.inuse, t'.inuse, d, p);
    AddFreeShifted(s'.(inuse := s'.inuse - {p}), t'.(inuse := t'.inuse - {p + d}), d, p, cur);
  }

  lemma ReallocateShifted(s: Space, t: Space, d: int, p: int, size: int)
    requires SpaceShifted(s, t, d) && p in s.inuse && p + d in t.inuse
    ensures OutcomeShifted(Reallocate(s, p, size), Reallocate(t, p + d, size), d)
  {
    hide Shifted, AddFree, Allocate, Absorb;
    var n, cur := AlignRequest(size), s.inuse[p];
    ShiftAt(s.inuse, t.inuse, d, p);
    ShiftAt(s.start, t.start, d, p + cur);
    if n < cur {
      ShrinkShifted(s, t, d, p, n, cur - n);
    } else if GrowsInPlace(s, p, size) {
      AbsorbShifted(s, t, d, p, n);
      AddFreeOrExitShifted(Absorb(s, p, n), Absorb(t, p + d, n), d, p + n, n - cur, p);
    } else if n > cur {
      MoveShifted(s, t, d, p, n, cur);
    }
  }

  lemma DoShifted(s: Space, t: Space, d: int, call: Call)
    requires SpaceShifted(s, t, d)
    requires call.Memalign? && call.alignment > 0 ==> d % call.alignment == 0
    ensures SpaceShifted(Do(s, call).0, Do(t, ShiftCall(call, d)).0, d)
    ensures Do(t, ShiftCall(call, d)).1 == ShiftPtr(Do(s, call).1, d)
  {
    hide Shifted, Allocate, AllocateAligned, AddFree, Deallocate, Reallocate;
    if call.Free? || call.Realloc? {
      ShiftAt(s.inuse, t.inuse, d, call.p);
    }
    match call
    case Malloc(bytes) => AllocateShifted(s, t, d, bytes);
    case Memalign(alignment, bytes) =>
      if alignment > 0 {
        AllocateAlignedShifted(s, t, d, alignment, bytes);
      }
    case Free(p) =>
      if p in s.inuse {
        DeallocateShifted(s, t, d, p);
      }
    case Realloc(p, size) =>
      if p in s.inuse {
        ReallocateShifted(s, t, d, p, size);
      }
    case Grow(base, capacity) =>
      AddFreeShifted(s.(total := s.total + capacity), t.(total := t.total + capacity), d, base, capacity);
  }

  ghost function Results(sp: Space, calls: seq<Call>): seq<Ptr>
    decreases |calls|
  {
    if calls == [] then [] else [Do(sp, calls[0]).1] + Results(Do(sp, calls[0]).0, calls[1..])
  }

  function ShiftCalls(calls: seq<Call>, d: int): seq<Call> {
    if calls == [] then [] else [ShiftCall(calls[0], d)] + ShiftCalls(calls[1..], d)
  }

  function ShiftPtrs(rs: seq<Ptr>, d: int): seq<Ptr> {
    if rs == [] then [] else [ShiftPtr(rs[0], d)] + ShiftPtrs(rs[1..], d)
  }

  lemma {:induction false} RunsShifted(s: Space, t: Space, d: int, calls: seq<Call>)
    requires SpaceShifted(s, t, d)
    requires forall k :: 0 <= k < |calls| && calls[k].Memalign? && calls[k].alignment > 0 ==>
      d % calls[k].alignment == 0
    ensures Results(t, ShiftCalls(calls, d)) == ShiftPtrs(Results(s, calls), d)
    ensures SpaceShifted(SpaceAfter(s, calls), SpaceAfter(t, ShiftCalls(calls, d)), d)
    decreases |calls|
  {
    hide SpaceShifted, Do;
    if calls != [] {
      DoShifted(s, t, d, calls[0]);
      RunsShifted(Do(s, calls[0]).0, Do(t, ShiftCall(calls[0], d)).0, d, calls[1..]);
    }
  }

  lemma FreshShifted(base: int, base': int, capacity: int)
    requires (base' - base) % ALIGNMENT == 0
    ensures SpaceShifted(Fresh(base, capacity), Fresh(base', capacity), base' - base)
  {
    hide Shifted;
    var d, o := base' - base, AlignOffset(base);
    assert AlignOffset(base') == o;
    var e: Chunks := map[];
    EmptyShifted(d);
    ShiftWith(e, e, d, base + o, capacity - o);
    ShiftWith(e, e, d, base + capacity, capacity - o);
  }

  lemma EmptyShifted(d: int)
    ensures Shifted(map[], map[], d)
  {
  }

  /**
   Symmetric allocation: two heaps of equal capacity whose bases differ by a multiple of the
   allocation unit and of every alignment asked for return, for the same calls, pointers at equal
   distances from their bases.
   */
  lemma SymmetricAllocation(base: int, base': int, capacity: int, calls: seq<Call>)
    requires (base' - base) % ALIGNMENT == 0
    requires forall k :: 0 <= k < |calls| && calls[k].Memalign? && calls[k].alignment > 0 ==>
      (base' - base) % calls[k].alignment == 0
    ensures Results(Fresh(base', capacity), ShiftCalls(calls, base' - base))
         == ShiftPtrs(Results(Fresh(base, capacity), calls), base' - base)
    ensures Shifted(SpaceAfter(Fresh(base, capacity), calls).inuse,
                    SpaceAfter(Fresh(base', capacity), ShiftCalls(calls, base' - base)).inuse, base' - base)
  {
    hide Shifted, Fresh, Results, SpaceAfter;
    var d := base' - base;
    FreshShifted(base, base', capacity);
    RunsShifted(Fresh(base, capacity), Fresh(base', capacity), d, calls);
  }
}
