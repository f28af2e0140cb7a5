/**
 Whole runs of the dynamic heap, and two heaps that serve the same requests at different addresses:
 they stay images of each other, so an offset names the same object on every PE.
 */
module HeapSymmetry {
  import opened Arithmetic
  import opened Intervals
  import opened ChunkMaps
  import opened HeapSpace
  import HeapRuns
  import opened GranuleIndex
  import opened HeapGrowth

  /** `mapped` is the part of the heap taken by user buffers at the time of the call. */
  datatype Event =
    | Allocation(req: Request, mapped: int)
    | Release(offset: int)

  function NewHeap(base: int): Heap {
    Heap(base, 0, Fresh(base, 0), [], [])
  }

  lemma NewHeapOk(base: int, c: Config)
    requires ConfigOk(c) && base % ALIGNMENT == 0
    ensures HeapOk(NewHeap(base), c) && NewHeap(base).base == base && NewHeap(base).physical == 0
  {
    FreshInv(base, 0);
    DivIs(0, c.granularity, 0, 0);
  }

  ghost predicate LegalEvent(h: Heap, e: Event) {
    match e
    case Allocation(req, mapped) => Legal(req) && mapped >= 0
    case Release(offset) => h.base + offset in h.space.inuse
  }

  /** The heap after an event and the pointer returned; `down` when the heap was torn down. */
  ghost function After(h: Heap, c: Config, e: Event): Served
    requires ConfigOk(c)
  {
    if !LegalEvent(h, e) then Served(h, Null, false)
    else match e
      case Allocation(req, mapped) => Serve(h, c, req, mapped)
      case Release(offset) => Served(h.(space := Deallocate(h.space, h.base + offset)), Null, false)
  }

  lemma EventKeepsOk(h: Heap, c: Config, e: Event)
    requires ConfigOk(c) && HeapOk(h, c) && LegalEvent(h, e)
    ensures HeapOk(After(h, c, e).heap, c)
  {
    hide Inv, Tile, TableOf;
    match e {
      case Allocation(req, mapped) =>
        ServeKeepsOk(h, c, req, mapped);
      case Release(offset) =>
        DeallocateKeepsInv(h.space, Managed(h), h.base + offset);
    }
  }

  /** The heap of a PE after k events. */
  ghost function HeapAt(c: Config, base: int, events: seq<Event>, k: int): Heap
    requires ConfigOk(c) && 0 <= k <= |events|
    decreases k
  {
    if k == 0 then NewHeap(base) else After(HeapAt(c, base, events, k - 1), c, events[k - 1]).heap
  }

  ghost predicate EventOk(c: Config, base: int, events: seq<Event>, k: int)
    requires ConfigOk(c) && 0 <= k < |events|
  {
    var h := HeapAt(c, base, events, k);
    LegalEvent(h, events[k]) && (k + 1 < |events| ==> !After(h, c, events[k]).down)
  }

  /** A run: every event is legal, and only the last may tear the heap down. */
  ghost predicate LegalRun(c: Config, base: int, events: seq<Event>)
    requires ConfigOk(c)
  {
    forall k :: 0 <= k < |events| ==> EventOk(c, base, events, k)
  }

  lemma EventWithinHeap(h: Heap, c: Config, e: Event)
    requires ConfigOk(c) && LegalEvent(h, e) && h.physical <= c.heapSize
    ensures After(h, c, e).heap.base == h.base && After(h, c, e).heap.physical <= c.heapSize
  {
  }

  /**
   In every heap reached from a new one, free and in-use chunks tile the physical memory exactly
   and the index names, for each offset, the registered chunk that contains it.
   */
  lemma {:induction false} RunKeepsOk(c: Config, base: int, events: seq<Event>, k: nat)
    requires ConfigOk(c) && base % ALIGNMENT == 0 && LegalRun(c, base, events) && k <= |events| && c.heapSize >= 0
    ensures var h := HeapAt(c, base, events, k); HeapOk(h, c) && h.base == base && h.physical <= c.heapSize
  {
    hide HeapOk, After, NewHeap, LegalEvent;
    if k == 0 {
      NewHeapOk(base, c);
    } else {
      RunKeepsOk(c, base, events, k - 1);
      var h, e := HeapAt(c, base, events, k - 1), events[k - 1];
      assert EventOk(c, base, events, k - 1);
      EventKeepsOk(h, c, e);
      EventWithinHeap(h, c, e);
    }
  }

  /** No byte of physical memory is lost: free and in-use sizes add up to it. */
  lemma HeapConserved(h: Heap, c: Config)
    requires ConfigOk(c) && HeapOk(h, c)
    ensures Sum(h.space.start) + Sum(h.space.inuse) == h.physical == h.space.total
  {
    Conservation(h.space, Managed(h));
    IntervalSize(h.base, h.physical);
  }

  lemma BlockWithinHeap(h: Heap, c: Config, p: int)
    requires ConfigOk(c) && HeapOk(h, c) && p in h.space.inuse
    ensures h.base <= p && p + h.space.inuse[p] <= h.base + h.physical
  {
    var last := p + h.space.inuse[p] - 1;
    assert Covers(h.space.inuse, p) && Covers(h.space.inuse, last);
    assert p in Managed(h) && last in Managed(h);
  }

  // ---------------------------------------------------------------------------------------------
  // Two heaps

  ghost predicate ChunksShifted(a: seq<Chunk>, b: seq<Chunk>, d: int) {
    |a| == |b| && forall k :: 0 <= k < |a| ==> b[k] == Chunk(a[k].addr + d, a[k].size)
  }

  ghost predicate TableShifted(a: seq<Entry>, b: seq<Entry>, d: int) {
    |a| == |b| && forall k :: 0 <= k < |a| ==> b[k] == Entry(a[k].handle, a[k].addr + d, a[k].size)
  }

  /** The same heap d bytes further up. */
  ghost predicate HeapShifted(h: Heap, h': Heap, d: int) {
    && h'.base == h.base + d
    && h'.physical == h.physical
    && HeapRuns.SpaceShifted(h.space, h'.space, d)
    && TableShifted(h.index, h'.index, d)
    && ChunksShifted(h.handles, h'.handles, d)
  }

  lemma {:induction false} RegistrationsShifted(m: int, buf: int, size: int, d: int)
    requires m > 0
    ensures ChunksShifted(Registrations(m, buf, size), Registrations(m, buf + d, size), d)
    decreases size
  {
    if size > m {
      RegistrationsShifted(m, buf + m, size - m, d);
      assert buf + d + m == buf + m + d;
    }
  }

  lemma {:induction false} TablesShifted(g: int, first: int, a: seq<Chunk>, b: seq<Chunk>, d: int)
    requires g > 0 && Sizes(a) && Sizes(b) && ChunksShifted(a, b, d)
    ensures TableShifted(TableOf(g, first, a), TableOf(g, first, b), d)
    decreases |a|
  {
    if a != [] {
      assert b[0] == Chunk(a[0].addr + d, a[0].size);
      TablesShifted(g, first + 1, a[1..], b[1..], d);
    }
  }

  lemma GrownShifted(h: Heap, h': Heap, c: Config, d: int, n: int)
    requires ConfigOk(c) && n > 0 && n % c.granularity == 0 && HeapShifted(h, h', d)
    ensures HeapShifted(Grown(h, c, n), Grown(h', c, n), d)
  {
    hide Shifted, Tile, TableOf, Registrations, AddNew, MaxRegistration, TableShifted, ChunksShifted;
    var g, a := c.granularity, h.base + h.physical;
    var m := MaxRegistration(g);
    var added, added' := Registrations(m, a, n), Registrations(m, a + d, n);
    RegistrationsTile(g, m, a, n);
    RegistrationsTile(g, m, a + d, n);
    RegistrationsShifted(m, a, n, d);
    TablesShifted(g, |h.handles|, added, added', d);
    ChunksJoined(h.handles, h'.handles, added, added', d);
    TablesJoined(h.index, h'.index, TableOf(g, |h.handles|, added), TableOf(g, |h.handles|, added'), d);
    AddNewShifted(h.space, h'.space, d, a, n);
    assert |h'.handles| == |h.handles| by {
      SameCount(h.handles, h'.handles, d);
    }
  }

  lemma SameCount(a: seq<Chunk>, b: seq<Chunk>, d: int)
    requires ChunksShifted(a, b, d)
    ensures |a| == |b|
  {
  }

  lemma ChunksJoined(a: seq<Chunk>, a': seq<Chunk>, b: seq<Chunk>, b': seq<Chunk>, d: int)
    requires ChunksShifted(a, a', d) && ChunksShifted(b, b', d)
    ensures ChunksShifted(a + b, a' + b', d)
  {
  }

  lemma TablesJoined(a: seq<Entry>, a': seq<Entry>, b: seq<Entry>, b': seq<Entry>, d: int)
    requires TableShifted(a, a', d) && TableShifted(b, b', d)
    ensures TableShifted(a + b, a' + b', d)
  {
  }

  lemma AddNewShifted(s: Space, t: Space, d: int, a: int, n: int)
    requires HeapRuns.SpaceShifted(s, t, d)
    ensures HeapRuns.SpaceShifted(AddNew(s, a, n), AddNew(t, a + d, n), d)
  {
    hide Shifted, AddFree;
    HeapRuns.AddFreeShifted(s.(total := s.total + n), t.(total := t.total + n), d, a, n);
  }

  lemma AttemptShifted(s: Space, t: Space, d: int, req: Request)
    requires HeapRuns.SpaceShifted(s, t, d) && Legal(req) && (req.Align? ==> d % req.alignment == 0)
    ensures HeapRuns.SpaceShifted(Attempt(s, req).0, Attempt(t, req).0, d)
    ensures Attempt(t, req).1 == HeapRuns.ShiftPtr(Attempt(s, req).1, d)
  {
    match req {
      case Malloc(size) => HeapRuns.AllocateShifted(s, t, d, size);
      case Calloc(count, size) => HeapRuns.AllocateShifted(s, t, d, count * size);
      case Align(alignment, size) => HeapRuns.AllocateAlignedShifted(s, t, d, alignment, size);
    }
  }

  ghost predicate SameServed(s: Served, s': Served, d: int) {
    HeapShifted(s.heap, s'.heap, d) && s'.ptr == HeapRuns.ShiftPtr(s.ptr, d) && s'.down == s.down
  }

  lemma ServeShifted(h: Heap, h': Heap, c: Config, d: int, req: Request, mapped: int)
    requires ConfigOk(c) && HeapShifted(h, h', d) && Legal(req) && (req.Align? ==> d % req.alignment == 0)
    ensures SameServed(Serve(h, c, req, mapped), Serve(h', c, req, mapped), d)
  {
    hide HeapRuns.SpaceShifted, TableShifted, ChunksShifted, Attempt, Grown;
    AttemptShifted(h.space, h'.space, d, req);
    var (t, r) := Attempt(h.space, req);
    var (t', r') := Attempt(h'.space, req);
    if req.size > 0 && r.Null? {
      WantedIsNat(req);
      GrowthFacts(c, Wanted(req));
      var n := Growth(c, Wanted(req));
      if Fits(h, c, mapped, n) && n > 0 {
        var k, k' := Grown(h.(space := t), c, n), Grown(h'.(space := t'), c, n);
        GrownShifted(h.(space := t), h'.(space := t'), c, d, n);
        AttemptShifted(k.space, k'.space, d, req);
      }
    }
  }

  lemma EventShifted(h: Heap, h': Heap, c: Config, d: int, e: Event)
    requires ConfigOk(c) && HeapShifted(h, h', d) && LegalEvent(h, e)
    requires e.Allocation? && e.req.Align? && e.req.alignment > 0 ==> d % e.req.alignment == 0
    ensures LegalEvent(h', e) && SameServed(After(h, c, e), After(h', c, e), d)
  {
    match e {
      case Allocation(req, mapped) =>
        ServeShifted(h, h', c, d, req, mapped);
      case Release(offset) =>
        HeapRuns.ShiftAt(h.space.inuse, h'.space.inuse, d, h.base + offset);
        HeapRuns.DeallocateShifted(h.space, h'.space, d, h.base + offset);
    }
  }

  /** d is a multiple of every alignment that is asked for. */
  ghost predicate Compatible(events: seq<Event>, d: int) {
    forall k :: 0 <= k < |events| && events[k].Allocation? && events[k].req.Align? && events[k].req.alignment > 0 ==>
      d % events[k].req.alignment == 0
  }

  /** Two PEs whose bases differ by a multiple of the unit and of every alignment asked for. */
  ghost predicate Twins(c: Config, base: int, d: int, events: seq<Event>) {
    && ConfigOk(c) && base % ALIGNMENT == 0 && d % ALIGNMENT == 0
    && LegalRun(c, base, events) && Compatible(events, d)
  }

  lemma NewHeapsShifted(base: int, d: int)
    requires base % ALIGNMENT == 0 && d % ALIGNMENT == 0
    ensures HeapShifted(NewHeap(base), NewHeap(base + d), d)
  {
    assert AlignOffset(base) == 0 && AlignOffset(base + d) == 0;
  }

  /**
   From a legal run of one PE: its twin, given the same events, has a heap that stays an image of the
   first, meets only legal events, and answers, grows and goes down exactly as the first does.
   */
  lemma {:induction false} RunsStayShifted(c: Config, base: int, d: int, events: seq<Event>, k: nat)
    requires Twins(c, base, d, events) && k <= |events|
    ensures HeapShifted(HeapAt(c, base, events, k), HeapAt(c, base + d, events, k), d)
    ensures k < |events| ==>
      && LegalEvent(HeapAt(c, base + d, events, k), events[k])
      && SameServed(After(HeapAt(c, base, events, k), c, events[k]),
                    After(HeapAt(c, base + d, events, k), c, events[k]), d)
  {
    hide HeapShifted, After, NewHeap, LegalEvent;
    if k == 0 {
      NewHeapsShifted(base, d);
    } else {
      RunsStayShifted(c, base, d, events, k - 1);
    }
    if k < |events| {
      assert EventOk(c, base, events, k);
      AlignsWith(events, k, d);
      EventShifted(HeapAt(c, base, events, k), HeapAt(c, base + d, events, k), c, d, events[k]);
    }
  }

  lemma AlignsWith(events: seq<Event>, k: nat, d: int)
    requires Compatible(events, d) && k < |events|
    ensures events[k].Allocation? && events[k].req.Align? && events[k].req.alignment > 0 ==>
      d % events[k].req.alignment == 0
  {
  }

  /** What is a run on one PE is a run on its twin. */
  lemma TwinRunIsLegal(c: Config, base: int, d: int, events: seq<Event>)
    requires Twins(c, base, d, events)
    ensures LegalRun(c, base + d, events)
  {
    hide HeapShifted, After, LegalEvent;
    var base' := base + d;
    forall k | 0 <= k < |events|
      ensures EventOk(c, base', events, k)
    {
      RunsStayShifted(c, base, d, events, k);
      assert EventOk(c, base, events, k);
    }
  }

  /** What a transport is told about an offset: the number of the handle and the offset in its chunk. */
  function Located(h: Heap, c: Config, offset: int): (int, int)
    requires c.granularity > 0 && 0 <= offset / c.granularity < |h.index|
  {
    var e := h.index[offset / c.granularity];
    (e.handle, h.base + offset - e.addr)
  }

  /** It is the one handle whose chunk contains the offset, and the place of the offset in it. */
  lemma LocatedIs(h: Heap, c: Config, offset: int)
    requires ConfigOk(c) && IndexOk(h, c) && 0 <= offset < h.physical
    ensures 0 <= offset / c.granularity < |h.index|
    ensures var (k, at) := Located(h, c, offset);
      && 0 <= k < |h.handles| && h.handles[k].Contains(h.base + offset)
      && at == h.base + offset - h.handles[k].addr
      && forall j :: 0 <= j < |h.handles| && h.handles[j].Contains(h.base + offset) ==> j == k
  {
    hide IndexOk;
    IndexNamesChunk(h, c, offset);
  }

  lemma LocatedShifted(h: Heap, h': Heap, c: Config, d: int, offset: int)
    requires HeapShifted(h, h', d) && c.granularity > 0 && 0 <= offset / c.granularity < |h.index|
    ensures |h'.index| == |h.index| && Located(h', c, offset) == Located(h, c, offset)
  {
    hide HeapRuns.SpaceShifted, ChunksShifted;
  }

  /**
   Every PE finds an offset under the same handle number, at the same place in its chunk, and that is
   the chunk that contains it.
   */
  lemma LocatedAlike(c: Config, base: int, d: int, events: seq<Event>, k: nat, offset: int)
    requires Twins(c, base, d, events) && k <= |events| && c.heapSize >= 0
    requires 0 <= offset < HeapAt(c, base, events, k).physical
    ensures var h, h' := HeapAt(c, base, events, k), HeapAt(c, base + d, events, k);
      && 0 <= offset / c.granularity < |h.index| == |h'.index|
      && Located(h, c, offset) == Located(h', c, offset)
      && 0 <= Located(h, c, offset).0 < |h.handles|
      && h.handles[Located(h, c, offset).0].Contains(base + offset)
      && Located(h, c, offset).1 == base + offset - h.handles[Located(h, c, offset).0].addr
  {
    hide HeapAt, HeapShifted, Located, LegalRun, IndexOk, Inv;
    var h := HeapAt(c, base, events, k);
    RunKeepsOk(c, base, events, k);
    RunsStayShifted(c, base, d, events, k);
    LocatedIs(h, c, offset);
    LocatedShifted(h, HeapAt(c, base + d, events, k), c, d, offset);
  }

  // ---------------------------------------------------------------------------------------------
  // nvshmemi_ptr

  /** The address here of the object that ptr names, on PE pe; null when pe has no mapping here. */
  function PeerPtr(ptr: int, pe: int, heapBase: int, heapSize: int, peerBase: seq<Ptr>): Ptr {
    if 0 <= pe < |peerBase| && ptr >= heapBase && ptr - heapBase < heapSize then
      if peerBase[pe].Null? then Null else At(peerBase[pe].p + (ptr - heapBase))
    else
      Null
  }

  /**
   There is an address exactly for a pointer into this heap and a PE that exists and is mapped here,
   and it lies in the mapping of that PE as far from its start as the pointer from the start of the heap.
   */
  lemma PeerPtrIff(ptr: int, pe: int, heapBase: int, heapSize: int, peerBase: seq<Ptr>)
    ensures var r := PeerPtr(ptr, pe, heapBase, heapSize, peerBase);
      && (r.At? <==> 0 <= pe < |peerBase| && peerBase[pe].At? && heapBase <= ptr < heapBase + heapSize)
      && (r.At? ==> r.p - peerBase[pe].p == ptr - heapBase && peerBase[pe].p <= r.p < peerBase[pe].p + heapSize)
  {
  }

  /**
   Every byte of every live block, in every run: the peer has a block of the same size at the same
   offset; the address computed for the peer is null exactly when the peer is not mapped here, and
   otherwise it is where the mapping has that byte of the peer's block.
   */
  lemma PeerPtrOfBlock(c: Config, base: int, d: int, events: seq<Event>, k: nat,
                       p: int, ptr: int, pe: nat, peerBase: seq<Ptr>)
    requires Twins(c, base, d, events) && k <= |events| && c.heapSize >= 0 && pe < |peerBase|
    requires var inuse := HeapAt(c, base, events, k).space.inuse; p in inuse && p <= ptr < p + inuse[p]
    ensures var inuse, inuse' := HeapAt(c, base, events, k).space.inuse, HeapAt(c, base + d, events, k).space.inuse;
      var r, offset := PeerPtr(ptr, pe, base, c.heapSize, peerBase), p + d - (base + d);
      && p + d in inuse' && inuse'[p + d] == inuse[p]
      && (r.Null? <==> peerBase[pe].Null?)
      && (r.At? ==> r.p == peerBase[pe].p + offset + (ptr - p))
      && (r.At? ==> 0 <= offset && offset + inuse[p] <= c.heapSize)
  {
    hide HeapAt, HeapOk, LegalRun, Compatible, TableShifted, ChunksShifted, Shifted;
    var h, h' := HeapAt(c, base, events, k), HeapAt(c, base + d, events, k);
    RunsStayShifted(c, base, d, events, k);
    RunKeepsOk(c, base, events, k);
    BlockWithinHeap(h, c, p);
    HeapRuns.ShiftAt(h.space.inuse, h'.space.inuse, d, p);
    PeerPtrIff(ptr, pe, base, c.heapSize, peerBase);
  }

  /**
   The block one PE got for a request and the block its peer got for the same request lie at one
   offset: the address computed for the peer is null exactly when the peer is not mapped here, and
   otherwise that of the peer's own block, whatever the address at which its heap is mapped.
   */
  lemma PeerPtrNamesSameBlock(
      c: Config, base: int, d: int, events: seq<Event>, k: nat, pe: nat, peerBase: seq<Ptr>)
    requires Twins(c, base, d, events) && k < |events| && c.heapSize >= 0 && pe < |peerBase|
    requires After(HeapAt(c, base, events, k), c, events[k]).ptr.At?
    ensures var r, r' := After(HeapAt(c, base, events, k), c, events[k]).ptr,
                         After(HeapAt(c, base + d, events, k), c, events[k]).ptr;
      && r'.At?
      && PeerPtr(r.p, pe, base, c.heapSize, peerBase) ==
         if peerBase[pe].Null? then Null else At(peerBase[pe].p + (r'.p - (base + d)))
  {
    hide HeapOk, After, HeapShifted, LegalEvent, LegalRun, Compatible;
    RunsStayShifted(c, base, d, events, k);
    var h, e := HeapAt(c, base, events, k), events[k];
    EventIsLegal(c, base, events, k);
    RunKeepsOk(c, base, events, k);
    RunKeepsOk(c, base, events, k + 1);
    BlockIsNew(h, c, e);
    BlockWithinHeap(After(h, c, e).heap, c, After(h, c, e).ptr.p);
  }

  lemma EventIsLegal(c: Config, base: int, events: seq<Event>, k: nat)
    requires ConfigOk(c) && LegalRun(c, base, events) && k < |events|
    ensures LegalEvent(HeapAt(c, base, events, k), events[k])
  {
    hide HeapAt;
    assert EventOk(c, base, events, k);
  }

  lemma BlockIsNew(h: Heap, c: Config, e: Event)
    requires ConfigOk(c) && HeapOk(h, c) && LegalEvent(h, e) && After(h, c, e).ptr.At?
    ensures var s := After(h, c, e); s.ptr.p in s.heap.space.inuse
    ensures var s := After(h, c, e); s.heap.space.inuse[s.ptr.p] > 0
  {
    hide HeapOk, Serve;
    ServeKeepsOk(h, c, e.req, e.mapped);
    var s := After(h, c, e);
    BlockIsPositive(s.heap, c, s.ptr.p);
  }

  lemma BlockIsPositive(h: Heap, c: Config, p: int)
    requires ConfigOk(c) && HeapOk(h, c) && p in h.space.inuse
    ensures h.space.inuse[p] > 0
  {
  }
}
