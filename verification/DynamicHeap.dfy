/**
 The dynamic symmetric heap object: its methods grow the physical memory, register it with the
 transports and extend the index, in place.
 */
module DynamicHeap {
  import opened HeapSpace
  import opened Mspace
  import opened GranuleIndex
  import opened HeapGrowth
  import opened HeapSymmetry

  datatype Status = Success | InvalidValue | Internal

  /**
   The outcome of looking an address up: `Mapped` leaves it to the tables of the mapped user buffers,
   and `PastIndex` stands for a read beyond the end of the granule index.
   */
  datatype Found = NotInHeap | Mapped | PastIndex | Handle(handle: int, len: int)

  class SymmetricHeap {
    const heapBase: int
    const heapSize: int
    const memGranularity: int
    const heapMspace: MSpace
    var physicalInternalHeapSize: int
    var idxInHandles: seq<Entry>
    var remoteHandles: seq<Chunk>

    ghost function Model(): Heap
      reads this, heapMspace
    {
      Heap(heapBase, physicalInternalHeapSize, heapMspace.Model(), idxInHandles, remoteHandles)
    }

    function Parameters(): Config {
      Config(memGranularity, heapSize)
    }

    ghost predicate Valid()
      reads this, heapMspace
    {
      ConfigOk(Parameters()) && HeapOk(Model(), Parameters())
    }

    /** No block in use starts at the end of the physical memory. */
    ghost predicate EndUnused()
      reads this, heapMspace
    {
      heapBase + physicalInternalHeapSize !in heapMspace.inuseChunks
    }

    /** The address has physical memory of the heap's own, below the `mapped` bytes of user buffers. */
    predicate InMemory(addr: int, mapped: int)
      reads this`physicalInternalHeapSize
    {
      heapBase <= addr < heapBase + heapSize - mapped && addr < heapBase + physicalInternalHeapSize
    }

    constructor (base: int, c: Config)
      requires ConfigOk(c) && base % ALIGNMENT == 0
      ensures Valid() && Model() == NewHeap(base) && Parameters() == c && fresh(heapMspace)
    {
      heapBase, heapSize, memGranularity := base, c.heapSize, c.granularity;
      heapMspace := new MSpace(base, 0);
      physicalInternalHeapSize, idxInHandles, remoteHandles := 0, [], [];
      new;
      NewHeapOk(base, c);
    }

    /** One entry for each granule of the chunk registered last. */
    method UpdateHeapHandleCache(buf: int, size: int)
      requires memGranularity > 0 && size >= 0
      modifies this`idxInHandles
      ensures idxInHandles == old(idxInHandles) + EntriesOf(memGranularity, |remoteHandles| - 1, Chunk(buf, size))
    {
      var n := size / memGranularity;
      ghost var e := Entry(|remoteHandles| - 1, buf, size);
      for idx := 0 to n
        invariant idxInHandles == old(idxInHandles) + seq(idx, _ => e)
      {
        idxInHandles := idxInHandles + [Entry(|remoteHandles| - 1, buf, size)];
      }
    }

    method RegisterHeapChunkBySize(buf: int, size: int)
      requires memGranularity > 0 && size >= 0
      modifies this`idxInHandles, this`remoteHandles
      ensures remoteHandles == old(remoteHandles) + [Chunk(buf, size)]
      ensures idxInHandles == old(idxInHandles) + EntriesOf(memGranularity, |old(remoteHandles)|, Chunk(buf, size))
    {
      remoteHandles := remoteHandles + [Chunk(buf, size)];
      UpdateHeapHandleCache(buf, size);
    }

    /** Registers new memory in pieces of at most `adjusted` bytes. */
    method RegisterPieces(adjusted: int, buf: int, size: int)
      requires memGranularity > 0 && adjusted > 0 && size > 0
      modifies this`idxInHandles, this`remoteHandles, this`physicalInternalHeapSize
      ensures physicalInternalHeapSize == old(physicalInternalHeapSize) + size
      ensures remoteHandles == old(remoteHandles) + Registrations(adjusted, buf, size)
      ensures Sizes(Registrations(adjusted, buf, size))
      ensures idxInHandles ==
        old(idxInHandles) + TableOf(memGranularity, |old(remoteHandles)|, Registrations(adjusted, buf, size))
    {
      hide *;
      var bufStart, remaining, more := buf, size, true;
      ghost var g, table, handles := memGranularity, idxInHandles, remoteHandles;
      ghost var done, rest: seq<Chunk> := [], Registrations(adjusted, buf, size);
      ghost var all := rest;
      RegisteredNone(g, all, handles, table);
      while more
        invariant remaining >= 0 && (more <==> remaining > 0)
        invariant physicalInternalHeapSize == old(physicalInternalHeapSize) + (size - remaining)
        invariant rest == if more then Registrations(adjusted, bufStart, remaining) else []
        invariant Registered(g, all, handles, table, done, rest, remoteHandles, idxInHandles)
        decreases remaining
      {
        var registration := if remaining > adjusted then adjusted else remaining;
        RegistrationsHead(adjusted, bufStart, remaining);
        RegisteredOne(g, all, handles, table, done, rest, remoteHandles, idxInHandles);
        RegisterHeapChunkBySize(bufStart, registration);
        done, rest := done + [rest[0]], rest[1..];
        physicalInternalHeapSize := physicalInternalHeapSize + registration;
        remaining := remaining - registration;
        bufStart := bufStart + registration;
        more := remaining > 0;
      }
      RegisteredAll(g, all, handles, table, done, remoteHandles, idxInHandles);
    }

    /** New memory goes to the allocator first and then to the transports. */
    method RegisterHeapMemory(buf: int, size: int) returns (status: Status)
      requires ConfigOk(Parameters()) && EndUnused()
      requires buf == heapBase + physicalInternalHeapSize && size >= 0 && size % memGranularity == 0
      modifies this, heapMspace
      ensures status == InvalidValue <==> size == 0
      ensures status != InvalidValue ==> status == Success && Model() == Grown(old(Model()), Parameters(), size)
      ensures status == InvalidValue ==> Model() == old(Model())
    {
      if size == 0 {
        return InvalidValue;
      }
      var exited := heapMspace.AddNewChunk(heapBase + physicalInternalHeapSize, size);
      RegisterPieces(MaxRegistration(memGranularity), buf, size);
      return Success;
    }

    method AllocatePhysicalMemoryToHeap(bytes: int, mapped: int) returns (status: Status)
      requires ConfigOk(Parameters()) && EndUnused() && bytes >= 0
      modifies this, heapMspace
      ensures forall n :: LeastMultiple(memGranularity, bytes, n) ==>
        && (status == Success <==> n > 0 && old(physicalInternalHeapSize) + mapped + n < heapSize)
        && (status == Success ==> Model() == Grown(old(Model()), Parameters(), n))
      ensures status != Success ==> Model() == old(Model())
    {
      var size := (bytes + memGranularity - 1) / memGranularity * memGranularity;
      GrowthFacts(Parameters(), bytes);
      forall n | LeastMultiple(memGranularity, bytes, n)
        ensures n == size
      {
        LeastMultipleUnique(memGranularity, bytes, n, size);
      }
      if physicalInternalHeapSize + mapped + size >= heapSize {
        return Internal;
      }
      status := RegisterHeapMemory(heapBase + physicalInternalHeapSize, size);
    }

    method AllocateVirtualMemoryFromMspace(req: Request) returns (ptr: Ptr)
      requires Legal(req)
      modifies heapMspace
      ensures (heapMspace.Model(), ptr) == Attempt(old(heapMspace.Model()), req)
    {
      match req {
        case Malloc(size) => ptr := heapMspace.Allocate(size);
        case Calloc(count, size) => ptr := heapMspace.AllocateZeroed(count, size);
        case Align(alignment, size) =>
          var trapped;
          ptr, trapped := heapMspace.AllocateAligned(alignment, size);
      }
    }

    method TryGrowAndRetry(req: Request, mapped: int) returns (ptr: Ptr, down: bool)
      requires ConfigOk(Parameters()) && EndUnused() && Legal(req)
      modifies this, heapMspace
      ensures Served(Model(), ptr, down) == Serve(old(Model()), Parameters(), req, mapped)
    {
      hide Growth, Attempt, Grown, LeastMultiple;
      ptr := AllocateVirtualMemoryFromMspace(req);
      down := false;
      if req.size > 0 && ptr.Null? {
        FailureChangesNothing(old(heapMspace.Model()), req);
        WantedIsNat(req);
        GrowthFacts(Parameters(), Wanted(req));
        assert Model() == old(Model());
        var status := AllocatePhysicalMemoryToHeap(
          if req.Calloc? then req.count * req.size else if req.Align? then req.size + req.alignment else req.size,
          mapped);
        if status != Success {
          return Null, true;
        }
        ptr := AllocateVirtualMemoryFromMspace(req);
      }
    }

    /** `down` when growth failed, after which the source tears the heap down. */
    method AllocateSymmetricMemory(req: Request, mapped: int) returns (ptr: Ptr, down: bool)
      requires Valid() && Legal(req)
      modifies this, heapMspace
      ensures Served(Model(), ptr, down) == Serve(old(Model()), Parameters(), req, mapped)
      ensures Valid()
    {
      ServeKeepsOk(Model(), Parameters(), req, mapped);
      BeyondHeapUnused(Model(), Parameters());
      ptr, down := TryGrowAndRetry(req, mapped);
    }

    /** `exited` stands for the exit(-1) on a pointer that is not in use. */
    method HeapDeallocate(ptr: int) returns (exited: bool)
      requires Valid()
      modifies heapMspace
      ensures exited <==> ptr !in old(heapMspace.inuseChunks)
      ensures Model() ==
        if exited then old(Model()) else After(old(Model()), Parameters(), Release(ptr - heapBase)).heap
      ensures Valid()
    {
      hide HeapOk;
      ghost var h := Model();
      exited := heapMspace.Deallocate(ptr);
      if !exited {
        EventKeepsOk(h, Parameters(), Release(ptr - heapBase));
      }
    }

    /** `mapped` is the size of the part at the end of the reserved range that user buffers take. */
    method GetTransportMemHandle(addr: int, mapped: int) returns (r: Found)
      requires Valid() && 0 <= mapped <= heapSize
      ensures r.NotInHeap? <==> !(heapBase <= addr <= heapBase + heapSize)
      ensures r.Mapped? <==> heapBase + heapSize - mapped <= addr <= heapBase + heapSize
      ensures r.PastIndex? <==>
        heapBase <= addr < heapBase + heapSize - mapped && heapBase + physicalInternalHeapSize <= addr
      ensures r.Handle? <==> InMemory(addr, mapped)
      ensures r.Handle? ==> 0 <= r.handle < |remoteHandles| && remoteHandles[r.handle].Contains(addr)
      ensures r.Handle? ==> r.len == remoteHandles[r.handle].addr + remoteHandles[r.handle].size - addr
    {
      if addr < heapBase || addr > heapBase + heapSize {
        return NotInHeap;
      }
      var offset := addr - heapBase;
      if addr >= heapBase + (heapSize - mapped) {
        return Mapped;
      }
      IndexBounds(Model(), Parameters(), offset);
      if offset / memGranularity >= |idxInHandles| {
        return PastIndex;
      }
      IndexNamesChunk(Model(), Parameters(), offset);
      var e := idxInHandles[offset / memGranularity];
      return Handle(e.handle, e.size - (addr - e.addr));
    }
  }

  /** An offset that the lookup takes to the granule index although the index has no entry for it. */
  ghost predicate ReadsPastIndex(h: Heap, c: Config, mapped: int, offset: int)
    requires ConfigOk(c)
  {
    0 <= offset < c.heapSize - mapped && offset / c.granularity >= |h.index|
  }

  /**
   Some address passes the bound check and is past the index iff the heap's own memory and the mapped
   buffers leave a gap; the first byte after the heap's own memory is one.
   */
  lemma PastIndexIff(h: Heap, c: Config, mapped: int)
    requires ConfigOk(c) && HeapOk(h, c) && 0 <= mapped <= c.heapSize
    ensures (exists offset :: ReadsPastIndex(h, c, mapped, offset)) <==> h.physical + mapped < c.heapSize
    ensures h.physical + mapped < c.heapSize ==> ReadsPastIndex(h, c, mapped, h.physical)
  {
    hide Inv, IndexOk;
    if h.physical + mapped < c.heapSize {
      IndexBounds(h, c, h.physical);
      assert ReadsPastIndex(h, c, mapped, h.physical);
    }
    forall offset | ReadsPastIndex(h, c, mapped, offset)
      ensures h.physical <= offset < c.heapSize - mapped
    {
      IndexBounds(h, c, offset);
    }
  }

  /** The check before a growth never lets that gap close. */
  lemma GrowthKeepsGap(h: Heap, c: Config, req: Request, mapped: int)
    requires ConfigOk(c) && HeapOk(h, c) && Legal(req) && 0 <= mapped && h.physical + mapped < c.heapSize
    ensures var t := Serve(h, c, req, mapped).heap; t.physical + mapped < c.heapSize
  {
    ServeKeepsOk(h, c, req, mapped);
  }

  /** Of the chunks `all`, `done` are registered and `rest` are still to be. */
  ghost predicate Registered(
      g: int, all: seq<Chunk>, handles: seq<Chunk>, table: seq<Entry>, done: seq<Chunk>, rest: seq<Chunk>,
      newHandles: seq<Chunk>, newTable: seq<Entry>)
    requires g > 0
  {
    && all == done + rest && Sizes(done)
    && newHandles == handles + done
    && newTable == table + TableOf(g, |handles|, done)
  }

  lemma RegisteredNone(g: int, all: seq<Chunk>, handles: seq<Chunk>, table: seq<Entry>)
    requires g > 0
    ensures Registered(g, all, handles, table, [], all, handles, table)
  {
  }

  lemma RegisteredOne(
      g: int, all: seq<Chunk>, handles: seq<Chunk>, table: seq<Entry>, done: seq<Chunk>, rest: seq<Chunk>,
      newHandles: seq<Chunk>, newTable: seq<Entry>)
    requires g > 0 && Registered(g, all, handles, table, done, rest, newHandles, newTable)
    requires rest != [] && rest[0].size >= 0
    ensures Registered(g, all, handles, table, done + [rest[0]], rest[1..], newHandles + [rest[0]],
                       newTable + EntriesOf(g, |newHandles|, rest[0]))
  {
    hide TableOf;
    var c := rest[0];
    assert done + rest == done + [c] + rest[1..];
    TableStep(g, |handles|, table, done, c);
  }

  lemma RegisteredAll(
      g: int, all: seq<Chunk>, handles: seq<Chunk>, table: seq<Entry>, done: seq<Chunk>,
      newHandles: seq<Chunk>, newTable: seq<Entry>)
    requires g > 0 && Registered(g, all, handles, table, done, [], newHandles, newTable)
    ensures Sizes(all) && newHandles == handles + all && newTable == table + TableOf(g, |handles|, all)
  {
    hide TableOf;
    assert all == done;
  }

  lemma RegistrationsHead(m: int, buf: int, size: int)
    requires m > 0 && size > 0
    ensures var r := Registrations(m, buf, size);
      && r != [] && r[0] == Chunk(buf, if size > m then m else size) && r[0].size > 0
      && r[1..] == if size > m then Registrations(m, buf + m, size - m) else []
  {
  }

  lemma TableStep(g: int, first: int, table: seq<Entry>, done: seq<Chunk>, c: Chunk)
    requires g > 0 && Sizes(done) && c.size >= 0
    ensures Sizes(done + [c])
    ensures table + TableOf(g, first, done + [c]) == table + TableOf(g, first, done) + EntriesOf(g, first + |done|, c)
  {
    TableAppend(g, first, done, [c]);
    assert TableOf(g, first + |done| + 1, [c][1..]) == [];
    Assoc(table, TableOf(g, first, done), EntriesOf(g, first + |done|, c));
  }

  /** No block in use starts at the end of the physical memory. */
  lemma BeyondHeapUnused(h: Heap, c: Config)
    requires ConfigOk(c) && HeapOk(h, c)
    ensures h.base + h.physical !in h.space.inuse
  {
    if h.base + h.physical in h.space.inuse {
      BlockWithinHeap(h, c, h.base + h.physical);
    }
  }
}
