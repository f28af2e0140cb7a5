/**
 The mspace object: three ordered maps that its methods update in place.  Every method is tied to
 the operation on values of the same name, and keeps the invariant proved there.
 */
module Mspace {
  import opened Intervals
  import opened Limits
  import opened ChunkMaps
  import opened HeapSpace
  import opened HeapRuns

  lemma SmallestExists(s: set<int>)
    requires s != {}
    ensures exists a :: a in s && forall b :: b in s ==> a <= b
  {
    SomeMember(s);
    var x :| x in s;
    var a := SmallestBelow(s, x);
  }

  /** The smallest member, found by dropping a member that is not. */
  lemma {:induction false} SmallestBelow(s: set<int>, x: int) returns (a: int)
    requires x in s
    ensures a in s && a <= x && forall b :: b in s ==> a <= b
    decreases |s|
  {
    if y :| y in s && y < x {
      var rest := s - {x};
      a := SmallestBelow(rest, y);
      forall b | b in s
        ensures a <= b
      {
        assert b in rest || b == x;
      }
    } else {
      a := x;
    }
  }

  lemma FirstFitIs(start: Chunks, n: int, a: int)
    requires IsFirstFit(start, n, a)
    ensures FirstFit(start, n) == At(a)
  {
  }

  class MSpace {
    var freeChunksStart: Chunks
    var freeChunksEnd: Chunks
    var inuseChunks: Chunks
    var totalSize: int

    ghost function Model(): Space
      reads this
    {
      Space(freeChunksStart, freeChunksEnd, inuseChunks, totalSize)
    }

    constructor (base: int, capacity: int)
      requires 0 <= capacity < SIZE_RANGE
      ensures Model() == NewSpace(base, capacity)
    {
      var offset := AlignOffset(base);
      var startAddr, size := base + offset, capacity - offset;
      var endAddr := startAddr + size;
      if size < 0 {
        size := size + SIZE_RANGE;
      }
      if size > 0 {
        freeChunksStart := map[startAddr := size];
        freeChunksEnd := map[endAddr := size];
        totalSize := size;
      } else {
        freeChunksStart, freeChunksEnd, totalSize := map[], map[], 0;
      }
      inuseChunks := map[];
    }

    /** `exited` stands for the exit(-1) on a chunk that is in use. */
    method AddFreeChunk(base: int, capacity: int) returns (exited: bool)
      modifies this
      ensures exited <==> base in old(inuseChunks)
      ensures Model() == if exited then old(Model()) else AddFree(old(Model()), base, capacity)
    {
      hide MergeNext;
      if base in inuseChunks {
        return true;
      }
      var merged, b, c := false, base, capacity;
      if b in freeChunksEnd {
        var psize := freeChunksEnd[b];
        freeChunksEnd := freeChunksEnd - {b};
        freeChunksEnd := freeChunksEnd[b + c := c + psize];
        b := b - psize;
        c := c + psize;
        freeChunksStart := freeChunksStart[b := c];
        merged := true;
      }
      MergeWithNext(b, c, merged);
      return false;
    }

    /** The rest of add_free_chunk; `merged` when the chunk is in the maps already. */
    method MergeWithNext(b: int, c: int, merged: bool)
      requires merged ==> Has(freeChunksStart, b, c) && Has(freeChunksEnd, b + c, c)
      modifies this
      ensures Model() == MergeNext(old(Model()), b, c)
    {
      if b + c in freeChunksStart {
        var nsize := freeChunksStart[b + c];
        freeChunksEnd := freeChunksEnd - {b + c};
        freeChunksStart := freeChunksStart - {b + c};
        freeChunksStart := freeChunksStart[b := c + nsize];
        freeChunksEnd := freeChunksEnd[b + c + nsize := c + nsize];
      } else if !merged {
        freeChunksStart := freeChunksStart[b := c];
        freeChunksEnd := freeChunksEnd[b + c := c];
      } else {
        assert freeChunksStart[b := c] == freeChunksStart && freeChunksEnd[b + c := c] == freeChunksEnd;
      }
    }

    method AddNewChunk(base: int, capacity: int) returns (exited: bool)
      modifies this
      ensures exited <==> base in old(inuseChunks)
      ensures !exited ==> Model() == AddNew(old(Model()), base, capacity)
    {
      totalSize := totalSize + capacity;
      exited := AddFreeChunk(base, capacity);
    }

    /** The free chunks are visited in the order of their addresses up to one of at least n bytes. */
    method FindFirstFit(n: int) returns (r: Ptr)
      ensures r == FirstFit(freeChunksStart, n)
    {
      var rest := freeChunksStart.Keys;
      while rest != {}
        invariant rest <= freeChunksStart.Keys
        invariant forall a, b :: a in freeChunksStart && a !in rest && b in rest ==> a < b
        invariant forall a :: a in freeChunksStart && a !in rest ==> freeChunksStart[a] < n
        decreases |rest|
      {
        SmallestExists(rest);
        var a :| a in rest && forall b :: b in rest ==> a <= b;
        if freeChunksStart[a] >= n {
          FirstFitIs(freeChunksStart, n, a);
          return At(a);
        }
        rest := rest - {a};
      }
      return Null;
    }

    method Allocate(bytes: int) returns (r: Ptr)
      modifies this
      ensures (Model(), r) == HeapSpace.Allocate(old(Model()), bytes)
    {
      hide FirstFit;
      if bytes == 0 {
        return Null;
      }
      var n := AlignRequest(bytes);
      r := FindFirstFit(n);
      if r.Null? {
        return;
      }
      var a, size := r.p, freeChunksStart[r.p];
      var rsize := size - n;
      if rsize > 0 {
        freeChunksStart := freeChunksStart[a + n := rsize];
        freeChunksEnd := freeChunksEnd[a + size := rsize];
        freeChunksStart := freeChunksStart - {a};
      } else {
        freeChunksEnd := freeChunksEnd - {a + size};
        freeChunksStart := freeChunksStart - {a};
      }
      inuseChunks := inuseChunks[a := n];
    }

    /** `exited` stands for the exit(-1) on a pointer that is not in use. */
    method Deallocate(mem: int) returns (exited: bool)
      modifies this
      ensures exited <==> mem !in old(inuseChunks)
      ensures Model() == if exited then old(Model()) else HeapSpace.Deallocate(old(Model()), mem)
    {
      if mem !in inuseChunks {
        return true;
      }
      var bytes := inuseChunks[mem];
      inuseChunks := inuseChunks - {mem};
      exited := AddFreeChunk(mem, bytes);
    }

    method AllocateZeroed(count: int, size: int) returns (r: Ptr)
      modifies this
      ensures (Model(), r) == HeapSpace.Allocate(old(Model()), count * size)
    {
      r := Allocate(count * size);
    }

    /** `trapped` stands for the division by zero on alignment 0, which the source's assertion admits. */
    method AllocateAligned(alignment: int, bytes: int) returns (r: Ptr, trapped: bool)
      requires alignment >= 0
      modifies this
      ensures trapped <==> alignment == 0 && HeapSpace.Allocate(old(Model()), bytes).1.At?
      ensures alignment > 0 ==> (Model(), r) == HeapSpace.AllocateAligned(old(Model()), alignment, bytes)
      ensures alignment == 0 ==> Model() == HeapSpace.Allocate(old(Model()), bytes).0 && r == Null
    {
      hide HeapSpace.Allocate, AddFree, RoundUp;
      var ptr := Allocate(bytes + alignment);
      if ptr.Null? {
        return Null, false;
      }
      if alignment == 0 {
        return Null, true;
      }
      var ret := RoundUp(ptr.p, alignment);
      if ret != ptr.p {
        inuseChunks := inuseChunks[ret := inuseChunks[ptr.p] - (ret - ptr.p)];
        inuseChunks := inuseChunks - {ptr.p};
        var exited := AddFreeChunk(ptr.p, ret - ptr.p);
      }
      return At(ret), false;
    }

    method Reallocate(ptr: int, size: int) returns (o: Outcome)
      modifies this
      ensures (Model(), o) == ReallocateAny(old(Model()), ptr, size)
    {
      hide HeapSpace.Allocate, AddFree, AlignRequest;
      if ptr !in inuseChunks {
        inuseChunks := inuseChunks[ptr := 0];
      }
      var n, cur := AlignRequest(size), inuseChunks[ptr];
      var exited := false;
      if n < cur {
        inuseChunks := inuseChunks[ptr := n];
        exited := AddFreeChunk(ptr + n, cur - n);
        return if exited then Exit else Return(At(ptr));
      } else if n > cur {
        if ptr + cur in freeChunksStart {
          var chunk := freeChunksStart[ptr + cur];
          if cur + chunk >= n {
            inuseChunks := inuseChunks[ptr := n];
            freeChunksStart := freeChunksStart - {ptr + cur};
            freeChunksEnd := freeChunksEnd - {ptr + cur + chunk};
            if cur + chunk > n {
              exited := AddFreeChunk(ptr + n, n - cur);
            }
            return if exited then Exit else Return(At(ptr));
          }
        }
        var r := Allocate(n);
        if r.Null? {
          return Return(Null);
        }
        inuseChunks := inuseChunks - {ptr};
        exited := AddFreeChunk(ptr, cur);
        return Return(r);
      } else {
        return Return(At(ptr));
      }
    }
  }
}
