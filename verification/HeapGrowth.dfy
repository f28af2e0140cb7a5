/**
 The dynamic symmetric heap as a value: physical memory is added in granules when a request does
 not fit, registered with the transports, and the request is tried again.
 */
module HeapGrowth {
  import opened Arithmetic
  import opened Intervals
  import opened ChunkMaps
  import opened HeapSpace
  import HeapRuns
  import opened GranuleIndex

  datatype Config = Config(granularity: int, heapSize: int)

  datatype Heap = Heap(base: int, physical: int, space: Space, index: seq<Entry>, handles: seq<Chunk>)

  datatype Request =
    | Malloc(size: int)
    | Calloc(count: int, size: int)
    | Align(alignment: int, size: int)

  datatype Served = Served(heap: Heap, ptr: Ptr, down: bool)

  predicate ConfigOk(c: Config) {
    Granularity(c.granularity) && c.granularity % ALIGNMENT == 0
  }

  ghost predicate Legal(req: Request) {
    && req.size >= 0
    && (req.Calloc? ==> req.count >= 0)
    && (req.Align? ==> req.alignment % 8 == 0 && HeapRuns.PowerOfTwo(req.alignment))
  }

  /** The bytes a request asks of the allocator, and of growth. */
  function Wanted(req: Request): int {
    match req
    case Malloc(size) => size
    case Calloc(count, size) => count * size
    case Align(alignment, size) => size + alignment
  }

  ghost function Attempt(sp: Space, req: Request): (Space, Ptr)
    requires Legal(req)
  {
    match req
    case Malloc(size) => Allocate(sp, size)
    case Calloc(count, size) => Allocate(sp, count * size)
    case Align(alignment, size) => AllocateAligned(sp, alignment, size)
  }

  lemma FailureChangesNothing(sp: Space, req: Request)
    requires Legal(req)
    ensures Attempt(sp, req).1.Null? ==> Attempt(sp, req).0 == sp
  {
  }

  function Growth(c: Config, n: int): int
    requires ConfigOk(c)
  {
    (n + c.granularity - 1) / c.granularity * c.granularity
  }

  /** m is the least multiple of g that is not below n. */
  predicate LeastMultiple(g: int, n: int, m: int)
    requires g > 0
  {
    m % g == 0 && n <= m < n + g
  }

  predicate Fits(h: Heap, c: Config, mapped: int, n: int) {
    h.physical + mapped + n < c.heapSize
  }

  /** The heap with n more bytes of physical memory. */
  ghost function Grown(h: Heap, c: Config, n: int): Heap
    requires ConfigOk(c) && n > 0 && n % c.granularity == 0
  {
    var m := MaxRegistration(c.granularity);
    var added := Registrations(m, h.base + h.physical, n);
    RegistrationsTile(c.granularity, m, h.base + h.physical, n);
    Heap(h.base, h.physical + n, AddNew(h.space, h.base + h.physical, n),
         h.index + TableOf(c.granularity, |h.handles|, added), h.handles + added)
  }

  lemma GrowthFacts(c: Config, n: int)
    requires ConfigOk(c) && n >= 0
    ensures LeastMultiple(c.granularity, n, Growth(c, n)) && Growth(c, n) % ALIGNMENT == 0
    ensures Growth(c, n) == 0 <==> n == 0
    ensures n > 0 ==> AlignRequest(n) <= Growth(c, n)
  {
    var g := c.granularity;
    var q := (n + g - 1) / g;
    RoundedToMultiple(g, n, q);
    GranulesAreUnits(c, g * q);
    AlignedBound(n, g * q);
  }

  lemma RoundedToMultiple(g: int, n: int, q: int)
    requires g > 0 && n >= 0 && q == (n + g - 1) / g
    ensures LeastMultiple(g, n, g * q) && q * g == g * q
    ensures g * q == 0 <==> n == 0
  {
    assert n + g - 1 == g * q + (n + g - 1) % g;
    DivIs(g * q, g, q, 0);
    if n == 0 {
      DivIs(g - 1, g, 0, g - 1);
    }
  }

  /** There is only one. */
  lemma LeastMultipleUnique(g: int, n: int, a: int, b: int)
    requires g > 0 && LeastMultiple(g, n, a) && LeastMultiple(g, n, b)
    ensures a == b
  {
    var i, j := a / g, b / g;
    assert a == g * i && b == g * j;
    MulLess(g, i, j);
    MulLess(g, j, i);
  }

  lemma GranulesAreUnits(c: Config, n: int)
    requires ConfigOk(c) && n % c.granularity == 0
    ensures n % ALIGNMENT == 0
  {
    var g := c.granularity;
    var k, q := g / ALIGNMENT, n / g;
    assert n == g * q == ALIGNMENT * (k * q);
    DivIs(n, ALIGNMENT, k * q, 0);
  }

  lemma AlignedBound(n: int, m: int)
    requires n <= m && m % ALIGNMENT == 0
    ensures AlignRequest(n) <= m
  {
  }

  /** What serving a request does: try, grow if that failed, and try again. */
  ghost function Serve(h: Heap, c: Config, req: Request, mapped: int): Served
    requires ConfigOk(c) && Legal(req)
  {
    var (t, r) := Attempt(h.space, req);
    var h1 := h.(space := t);
    if !(req.size > 0 && r.Null?) then Served(h1, r, false)
    else
      var n := Growth(c, Wanted(req));
      WantedIsNat(req);
      GrowthFacts(c, Wanted(req));
      if !Fits(h1, c, mapped, n) || n == 0 then Served(h1, Null, true)
      else
        var h2 := Grown(h1, c, n);
        var (t', r') := Attempt(h2.space, req);
        Served(h2.(space := t'), r', false)
  }

  lemma WantedIsNat(req: Request)
    requires Legal(req)
    ensures Wanted(req) >= 0
  {
  }

  // ---------------------------------------------------------------------------------------------
  // The invariant of the heap

  ghost function Managed(h: Heap): set<int> {
    Interval(h.base, h.physical)
  }

  ghost predicate HeapOk(h: Heap, c: Config)
    requires ConfigOk(c)
  {
    && h.base % ALIGNMENT == 0
    && h.physical >= 0
    && h.physical % c.granularity == 0
    && Inv(h.space, Managed(h))
    && IndexOk(h, c)
  }

  /** The registered chunks tile the physical memory and the table is theirs. */
  ghost predicate IndexOk(h: Heap, c: Config)
    requires ConfigOk(c)
  {
    && Tile(c.granularity, h.handles, h.base, h.base + h.physical)
    && Sizes(h.handles)
    && h.index == TableOf(c.granularity, 0, h.handles)
  }

  /**
   The table has one entry for each granule of physical memory, and the entry found from the offset
   names the one registered chunk that contains the byte at that offset.
   */
  lemma IndexNamesChunk(h: Heap, c: Config, offset: int)
    requires ConfigOk(c) && IndexOk(h, c) && 0 <= offset < h.physical
    ensures |h.index| * c.granularity == h.physical
    ensures var i := offset / c.granularity; 0 <= i < |h.index| && Names(h.index[i], 0, h.handles, h.base + offset)
    ensures forall k :: 0 <= k < |h.handles| && h.handles[k].Contains(h.base + offset) ==>
      k == h.index[offset / c.granularity].handle
  {
    hide Tile, TableOf;
    var g, x := c.granularity, h.base + offset;
    TableLength(g, 0, h.handles, h.base, h.base + h.physical);
    TableNames(g, 0, h.handles, h.base, h.base + h.physical, x);
    var e := h.index[offset / g];
    forall k | 0 <= k < |h.handles| && h.handles[k].Contains(x)
      ensures k == e.handle
    {
      TileUnique(g, h.handles, h.base, h.base + h.physical, x,
                 if k < e.handle then k else e.handle, if k < e.handle then e.handle else k);
    }
  }

  /** The index has an entry for an offset exactly when the offset has physical memory. */
  lemma IndexBounds(h: Heap, c: Config, offset: int)
    requires ConfigOk(c) && IndexOk(h, c) && offset >= 0
    ensures 0 <= offset / c.granularity
    ensures offset / c.granularity < |h.index| <==> offset < h.physical
  {
    hide Tile, TableOf;
    TableLength(c.granularity, 0, h.handles, h.base, h.base + h.physical);
    BoundsOf(c.granularity, offset, h.base + h.physical - h.base);
  }

  lemma BoundsOf(g: int, offset: int, n: int)
    requires g > 0 && offset >= 0 && n % g == 0
    ensures 0 <= offset / g && (offset / g < n / g <==> offset < n)
  {
    DivShift(g, offset, n);
  }

  lemma GrownIndexOk(h: Heap, c: Config, n: int)
    requires ConfigOk(c) && IndexOk(h, c) && n > 0 && n % c.granularity == 0
    ensures IndexOk(Grown(h, c, n), c)
  {
    var g, from := c.granularity, h.base + h.physical;
    var m := MaxRegistration(g);
    var added := Registrations(m, from, n);
    RegistrationsTile(g, m, from, n);
    TileAppend(g, h.handles, added, h.base, from, from + n);
    TableAppend(g, 0, h.handles, added);
  }

  lemma GrownOk(h: Heap, c: Config, n: int)
    requires ConfigOk(c) && HeapOk(h, c) && n > 0 && n % c.granularity == 0
    ensures HeapOk(Grown(h, c, n), c)
  {
    hide Inv;
    GrownIndexOk(h, c, n);
    NextBaseAligned(h, c);
    GrowSpace(h.space, h.base, h.physical, n);
    Multiples(c.granularity, h.physical, n);
  }

  lemma GrowSpace(sp: Space, base: int, physical: int, n: int)
    requires Inv(sp, Interval(base, physical)) && physical >= 0 && n > 0 && (base + physical) % ALIGNMENT == 0
    ensures Inv(AddNew(sp, base + physical, n), Interval(base, physical + n))
  {
    hide Inv, AddNew, Interval;
    IntervalJoin(base, physical, n);
    AddNewKeepsInv(sp, Interval(base, physical), base + physical, n);
  }

  lemma NextBaseAligned(h: Heap, c: Config)
    requires ConfigOk(c) && h.base % ALIGNMENT == 0 && h.physical % c.granularity == 0
    ensures (h.base + h.physical) % ALIGNMENT == 0
  {
    GranulesAreUnits(c, h.physical);
    UnitSum(h.base, h.physical);
  }

  // ---------------------------------------------------------------------------------------------
  // What a request gets

  /** Some run of free bytes is long enough for the request. */
  ghost predicate Room(h: Heap, req: Request) {
    SomeFreeRun(h.space, Managed(h), AlignRequest(Wanted(req)))
  }

  /** A block for the request at p: aligned as asked, as long as asked, and new. */
  ghost predicate Granted(before: Space, after: Space, req: Request, p: int)
    requires Legal(req)
  {
    && p !in before.inuse && p in after.inuse
    && after.inuse == before.inuse[p := after.inuse[p]]
    && after.inuse[p] >= (if req.Calloc? then req.count * req.size else req.size)
    && p % ALIGNMENT == 0
    && (req.Align? ==> p % req.alignment == 0)
  }

  lemma AttemptOutcome(h: Heap, c: Config, req: Request)
    requires ConfigOk(c) && HeapOk(h, c) && Legal(req)
    ensures var (t, r) := Attempt(h.space, req);
      && HeapOk(h.(space := t), c)
      && (r.At? <==> Wanted(req) > 0 && Room(h, req))
      && (r.Null? ==> t == h.space)
      && (r.At? ==> Granted(h.space, t, req, r.p))
  {
    hide Inv, Tile, TableOf, SomeFreeRun, Allocate, AllocateAligned, Interval;
    var m := Managed(h);
    WantedIsNat(req);
    match req {
      case Malloc(size) =>
        PlainOutcome(h.space, m, size);
      case Calloc(count, size) =>
        PlainOutcome(h.space, m, count * size);
      case Align(alignment, size) =>
        HeapRuns.AllocateAlignedKeepsInv(h.space, m, alignment, size);
        var (t, r) := AllocateAligned(h.space, alignment, size);
        if r.At? {
          BlockAligned(t, m, r.p);
        }
    }
  }

  lemma BlockAligned(sp: Space, m: set<int>, p: int)
    requires Inv(sp, m) && p in sp.inuse
    ensures p % ALIGNMENT == 0
  {
  }

  lemma PlainOutcome(sp: Space, m: set<int>, bytes: int)
    requires Inv(sp, m) && bytes >= 0
    ensures var (t, r) := Allocate(sp, bytes);
      && Inv(t, m)
      && (r.At? <==> bytes > 0 && SomeFreeRun(sp, m, AlignRequest(bytes)))
      && (r.Null? ==> t == sp)
      && (r.At? ==> r.p !in sp.inuse && t.inuse == sp.inuse[r.p := AlignRequest(bytes)] && r.p % ALIGNMENT == 0)
  {
    AllocateKeepsInv(sp, m, bytes);
    if bytes > 0 {
      AllocateComplete(sp, m, bytes);
    }
  }

  /** New memory has room for what it was added for. */
  lemma GrownHasRoom(h: Heap, c: Config, req: Request)
    requires ConfigOk(c) && HeapOk(h, c) && Legal(req) && Wanted(req) > 0
    requires Growth(c, Wanted(req)) > 0 && Growth(c, Wanted(req)) % c.granularity == 0
    ensures Room(Grown(h, c, Growth(c, Wanted(req))), req)
  {
    var n := Growth(c, Wanted(req));
    var k, a := Grown(h, c, n), h.base + h.physical;
    GrowthFacts(c, Wanted(req));
    IntervalJoin(h.base, h.physical, n);
    forall x | a <= x < a + AlignRequest(Wanted(req))
      ensures x in Managed(k) && !Covers(k.space.inuse, x)
    {
      assert In(a, n, x);
      assert x !in Managed(h);
    }
    assert FreeRun(k.space, Managed(k), a, AlignRequest(Wanted(req)));
  }

  /**
   Every request is answered exactly: with a block when a run of free bytes is long enough or the heap
   can still grow by `need`, the least number of granules that holds the request, and with null
   otherwise.  In particular the second attempt after a growth always succeeds.
   */
  lemma ServeOutcome(h: Heap, c: Config, req: Request, mapped: int, need: int)
    requires ConfigOk(c) && HeapOk(h, c) && Legal(req) && LeastMultiple(c.granularity, Wanted(req), need)
    ensures var s := Serve(h, c, req, mapped); var want := Wanted(req);
      && HeapOk(s.heap, c)
      && (s.ptr.At? <==>
            want > 0 && (Room(h, req) || (req.size > 0 && h.physical + mapped + need < c.heapSize)))
      && (s.ptr.At? ==> Granted(h.space, s.heap.space, req, s.ptr.p))
      && (s.ptr.Null? ==> s.heap == h)
      && (s.down <==> s.ptr.Null? && req.size > 0)
      && s.heap.physical == h.physical + (if s.ptr.At? && !Room(h, req) then need else 0)
  {
    hide Inv, Tile, TableOf, Room;
    WantedIsNat(req);
    GrowthFacts(c, Wanted(req));
    LeastMultipleUnique(c.granularity, Wanted(req), Growth(c, Wanted(req)), need);
    AttemptOutcome(h, c, req);
    var (t, r) := Attempt(h.space, req);
    if req.size > 0 && r.Null? {
      assert h.(space := t) == h;
      if Fits(h, c, mapped, need) && need > 0 {
        GrownOk(h, c, need);
        GrownHasRoom(h, c, req);
        AttemptOutcome(Grown(h, c, need), c, req);
        assert Grown(h, c, need).space.inuse == h.space.inuse;
      }
    }
  }

  /** The least number of granules exists, so the outcome of every request is as said. */
  lemma ServeKeepsOk(h: Heap, c: Config, req: Request, mapped: int)
    requires ConfigOk(c) && HeapOk(h, c) && Legal(req)
    ensures var s := Serve(h, c, req, mapped);
      && HeapOk(s.heap, c)
      && (s.ptr.At? ==> Granted(h.space, s.heap.space, req, s.ptr.p))
      && (s.ptr.At? || s.heap.physical == h.physical)
      && (s.heap.physical == h.physical || s.heap.physical + mapped < c.heapSize)
  {
    hide HeapOk, Serve, Granted, Room;
    WantedIsNat(req);
    GrowthFacts(c, Wanted(req));
    ServeOutcome(h, c, req, mapped, Growth(c, Wanted(req)));
  }
}
