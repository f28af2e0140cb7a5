/**
 Splitting a transfer: a put or get of any size is issued in pieces, each of which lies within one
 registered handle on the local side and one on the remote side.
 */
module Transfer {
  import opened BufferCache
  import opened GranuleIndex
  import HeapGrowth
  import DynamicHeap

  /** size bytes between the local address and the symmetric address raddr. */
  datatype Piece = Piece(laddr: int, raddr: int, size: int)

  /** Some registered chunk of the heap contains [a, a + n). */
  ghost predicate InChunk(chunks: seq<Chunk>, a: int, n: int) {
    exists k :: 0 <= k < |chunks| && chunks[k].addr <= a && a + n <= chunks[k].addr + chunks[k].size
  }

  /** Some registered buffer handle contains [a, a + n). */
  ghost predicate InHandle(entries: seq<Handle>, a: int, n: int) {
    exists k :: 0 <= k < |entries| && entries[k].ptr <= a && a + n <= entries[k].ptr + entries[k].length
  }

  /** The registered chunk that contains a ends at e. */
  ghost predicate ChunkEnds(chunks: seq<Chunk>, a: int, e: int) {
    exists k :: 0 <= k < |chunks| && chunks[k].Contains(a) && chunks[k].addr + chunks[k].size == e
  }

  /** A registered buffer handle that contains a ends at e. */
  ghost predicate HandleEnds(entries: seq<Handle>, a: int, e: int) {
    exists k :: 0 <= k < |entries| && BufferCache.Contains(entries[k], a) && entries[k].ptr + entries[k].length == e
  }

  /** The pieces are the transfer, in order, without gap or overlap. */
  ghost predicate Tiled(pieces: seq<Piece>, laddr: int, raddr: int, size: int)
    decreases |pieces|
  {
    if pieces == [] then size == 0
    else
      var q := pieces[|pieces| - 1];
      && 0 < q.size <= size
      && q.laddr == laddr + size - q.size
      && q.raddr == raddr + size - q.size
      && Tiled(pieces[..|pieces| - 1], laddr, raddr, size - q.size)
  }

  lemma TiledAppend(pieces: seq<Piece>, laddr: int, raddr: int, size: int, n: int)
    requires Tiled(pieces, laddr, raddr, size) && n > 0 && size >= 0
    ensures Tiled(pieces + [Piece(laddr + size, raddr + size, n)], laddr, raddr, size + n)
  {
    var q := pieces + [Piece(laddr + size, raddr + size, n)];
    assert q[..|q| - 1] == pieces;
  }

  /** Every byte of a tiled transfer is moved by a piece, to its own place. */
  lemma {:induction false} TiledMovesAll(pieces: seq<Piece>, laddr: int, raddr: int, size: int, x: int)
    requires Tiled(pieces, laddr, raddr, size) && 0 <= x < size
    ensures exists k :: 0 <= k < |pieces| && Moves(pieces[k], laddr + x, raddr + x)
    decreases |pieces|
  {
    var last := |pieces| - 1;
    if x >= size - pieces[last].size {
      assert Moves(pieces[last], laddr + x, raddr + x);
    } else {
      TiledMovesAll(pieces[..last], laddr, raddr, size - pieces[last].size, x);
      var k :| 0 <= k < last && Moves(pieces[..last][k], laddr + x, raddr + x);
      assert pieces[..last][k] == pieces[k];
    }
  }

  predicate Moves(q: Piece, l: int, r: int) {
    q.laddr <= l < q.laddr + q.size && l - q.laddr == r - q.raddr
  }

  /** A byte that a local lookup finds: in the heap's memory, or outside the heap's range and registered. */
  ghost predicate LocalByte(heap: DynamicHeap.SymmetricHeap, cache: Cache, mapped: int, x: int)
    requires cache.arrayUsed <= cache.buffers.Length
    reads heap, cache, cache.buffers
  {
    if heap.heapBase <= x <= heap.heapBase + heap.heapSize then heap.InMemory(x, mapped)
    else exists h :: h in cache.Entries() && BufferCache.Contains(h, x)
  }

  ghost predicate InLocal(heap: DynamicHeap.SymmetricHeap, cache: Cache, a: int, n: int)
    requires cache.arrayUsed <= cache.buffers.Length
    reads heap, cache, cache.buffers
  {
    InChunk(heap.remoteHandles, a, n) || InHandle(cache.Entries(), a, n)
  }

  ghost predicate LocalEnds(heap: DynamicHeap.SymmetricHeap, cache: Cache, a: int, e: int)
    requires cache.arrayUsed <= cache.buffers.Length
    reads heap, cache, cache.buffers
  {
    ChunkEnds(heap.remoteHandles, a, e) || HandleEnds(cache.Entries(), a, e)
  }

  /** How many of the len bytes at addr one local handle covers; none when the lookup fails. */
  method LocalLength(heap: DynamicHeap.SymmetricHeap, cache: Cache, mapped: int, addr: int, len: int, maxOpLen: int)
    returns (n: int)
    requires heap.Valid() && cache.Valid() && 0 <= mapped <= heap.heapSize && len > 0 && maxOpLen > 0
    ensures 0 <= n <= maxOpLen && (n > 0 <==> LocalByte(heap, cache, mapped, addr))
    ensures n > 0 ==> InLocal(heap, cache, addr, n)
    ensures n > 0 ==> n == len || n == maxOpLen || LocalEnds(heap, cache, addr, addr + n)
  {
    hide HeapGrowth.HeapOk;
    var found := heap.GetTransportMemHandle(addr, mapped);
    match found {
      case Mapped =>
        return 0;
      case PastIndex =>
        return 0;
      case NotInHeap =>
        n := CacheLength(cache, addr, len, maxOpLen);
      case Handle(handle, rest) =>
        n := if rest < maxOpLen then rest else maxOpLen;
        assert heap.remoteHandles[handle].Contains(addr);
    }
  }

  method CacheLength(cache: Cache, addr: int, len: int, maxOpLen: int) returns (n: int)
    requires cache.Valid() && len > 0 && maxOpLen > 0
    ensures 0 <= n <= maxOpLen && (n > 0 <==> exists h :: h in cache.Entries() && BufferCache.Contains(h, addr))
    ensures n > 0 ==> InHandle(cache.Entries(), addr, n)
    ensures n > 0 ==> n == len || n == maxOpLen || HandleEnds(cache.Entries(), addr, addr + n)
  {
    var r, clipped := cache.Lookup(addr, len);
    if r.None? {
      return 0;
    }
    n := if clipped < maxOpLen then clipped else maxOpLen;
    ghost var k :| 0 <= k < |cache.Entries()| && cache.Entries()[k] == r.value;
    assert BufferCache.Contains(cache.Entries()[k], addr);
    assert addr + n <= cache.Entries()[k].ptr + cache.Entries()[k].length;
  }

  /** How many bytes at the symmetric address addr one remote handle covers; none when there is none. */
  method RemoteLength(heap: DynamicHeap.SymmetricHeap, mapped: int, addr: int, maxOpLen: int) returns (n: int)
    requires heap.Valid() && 0 <= mapped <= heap.heapSize && maxOpLen > 0
    ensures 0 <= n <= maxOpLen && (n > 0 <==> heap.InMemory(addr, mapped))
    ensures n > 0 ==> InChunk(heap.remoteHandles, addr, n)
    ensures n > 0 ==> n == maxOpLen || ChunkEnds(heap.remoteHandles, addr, addr + n)
  {
    hide HeapGrowth.HeapOk;
    var found := heap.GetTransportMemHandle(addr, mapped);
    if !found.Handle? {
      return 0;
    }
    n := if found.len < maxOpLen then found.len else maxOpLen;
    assert heap.remoteHandles[found.handle].Contains(addr);
  }

  lemma InChunkShorter(chunks: seq<Chunk>, a: int, n: int, m: int)
    requires InChunk(chunks, a, n) && m <= n
    ensures InChunk(chunks, a, m)
  {
    var k :| 0 <= k < |chunks| && chunks[k].addr <= a && a + n <= chunks[k].addr + chunks[k].size;
    assert a + m <= chunks[k].addr + chunks[k].size;
  }

  lemma InHandleShorter(entries: seq<Handle>, a: int, n: int, m: int)
    requires InHandle(entries, a, n) && m <= n
    ensures InHandle(entries, a, m)
  {
    var k :| 0 <= k < |entries| && entries[k].ptr <= a && a + n <= entries[k].ptr + entries[k].length;
    assert a + m <= entries[k].ptr + entries[k].length;
  }

  lemma InLocalShorter(heap: DynamicHeap.SymmetricHeap, cache: Cache, a: int, n: int, m: int)
    requires cache.arrayUsed <= cache.buffers.Length && InLocal(heap, cache, a, n) && m <= n
    ensures InLocal(heap, cache, a, m)
  {
    hide InChunk, InHandle;
    if InChunk(heap.remoteHandles, a, n) {
      InChunkShorter(heap.remoteHandles, a, n, m);
    } else {
      InHandleShorter(cache.Entries(), a, n, m);
    }
  }

  /** A piece as it may be issued: within one local handle, one remote handle and the transport's limit. */
  ghost predicate Sendable(heap: DynamicHeap.SymmetricHeap, cache: Cache, maxOpLen: int, q: Piece)
    requires cache.arrayUsed <= cache.buffers.Length
    reads heap, cache, cache.buffers
  {
    q.size <= maxOpLen && InChunk(heap.remoteHandles, q.raddr, q.size) && InLocal(heap, cache, q.laddr, q.size)
  }

  /** A piece is as long as it can be: it ends where the transfer, a handle or the transport's limit does. */
  ghost predicate CutThere(heap: DynamicHeap.SymmetricHeap, cache: Cache, maxOpLen: int, q: Piece, rend: int)
    requires cache.arrayUsed <= cache.buffers.Length
    reads heap, cache, cache.buffers
  {
    || q.raddr + q.size == rend
    || q.size == maxOpLen
    || ChunkEnds(heap.remoteHandles, q.raddr, q.raddr + q.size)
    || LocalEnds(heap, cache, q.laddr, q.laddr + q.size)
  }

  /**
   Issues the transfer in pieces, each of which may be sent and is as long as it can be.  All of it is issued, unless a lookup
   fails: then `done` bytes were issued and the next one has no handle on one of the two sides.
   */
  method ProcessMultisend(heap: DynamicHeap.SymmetricHeap, cache: Cache, mapped: int, rptr: int, lptr: int, size: nat,
                          maxOpLen: int)
    returns (pieces: seq<Piece>, done: int)
    requires heap.Valid() && cache.Valid() && 0 <= mapped <= heap.heapSize && maxOpLen > 0
    ensures 0 <= done <= size && Tiled(pieces, lptr, rptr, done)
    ensures forall k :: 0 <= k < |pieces| ==> Sendable(heap, cache, maxOpLen, pieces[k])
    ensures forall k :: 0 <= k < |pieces| ==> CutThere(heap, cache, maxOpLen, pieces[k], rptr + size)
    ensures done < size ==> !(heap.InMemory(rptr + done, mapped) && LocalByte(heap, cache, mapped, lptr + done))
  {
    hide Sendable, HeapGrowth.HeapOk, BufferCache.Sorted, BufferCache.Linked, LocalByte, ChunkEnds, LocalEnds;
    var remaining, l, r := size, lptr, rptr;
    pieces, done := [], 0;
    while remaining > 0
      invariant 0 <= remaining <= size && done == size - remaining && l == lptr + done && r == rptr + done
      invariant Tiled(pieces, lptr, rptr, done)
      invariant forall k :: 0 <= k < |pieces| ==> Sendable(heap, cache, maxOpLen, pieces[k])
      invariant forall k :: 0 <= k < |pieces| ==> CutThere(heap, cache, maxOpLen, pieces[k], rptr + size)
    {
      hide Tiled;
      var localLen := LocalLength(heap, cache, mapped, l, remaining, maxOpLen);
      var remoteLen := RemoteLength(heap, mapped, r, maxOpLen);
      if localLen == 0 || remoteLen == 0 {
        return;
      }
      var n := if remoteLen < remaining then remoteLen else remaining;
      n := if localLen < n then localLen else n;
      MaySend(heap, cache, maxOpLen, Piece(l, r, n), localLen, remoteLen);
      TiledAppend(pieces, lptr, rptr, done, n);
      pieces := pieces + [Piece(l, r, n)];
      remaining := remaining - n;
      done := done + n;
      l := l + n;
      r := r + n;
    }
  }

  lemma MaySend(heap: DynamicHeap.SymmetricHeap, cache: Cache, maxOpLen: int, q: Piece, localLen: int, remoteLen: int)
    requires cache.arrayUsed <= cache.buffers.Length && q.size <= localLen <= maxOpLen && q.size <= remoteLen
    requires InLocal(heap, cache, q.laddr, localLen) && InChunk(heap.remoteHandles, q.raddr, remoteLen)
    ensures Sendable(heap, cache, maxOpLen, q)
  {
    hide InChunk, InHandle;
    InLocalShorter(heap, cache, q.laddr, localLen, q.size);
    InChunkShorter(heap.remoteHandles, q.raddr, remoteLen, q.size);
  }
}
