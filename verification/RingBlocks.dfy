/**
 How the thread blocks of the ring all-reduce share the array: every block works on its own slices, and
 takes the others to do the same.
 */
module RingBlocks {
  import opened Arithmetic
  import opened RingAllReduce

  /** The element at i is in the slice of turn c of block b, blocks being `elems` elements apart. */
  predicate InSlice(elems: nat, chunk: nat, b: nat, c: nat, i: nat)
    requires chunk > 0
  {
    c < Iterations(elems, chunk) && b * elems + c * chunk <= i < b * elems + (c + 1) * chunk
  }

  ghost predicate Touches(elems: nat, chunk: nat, b: nat, i: nat)
    requires chunk > 0
  {
    exists c: nat :: InSlice(elems, chunk, b, c, i)
  }

  /** One of the blocks works on the element at i, and no other does. */
  ghost predicate OwnedOnce(elems: nat, blocks: nat, chunk: nat, i: nat)
    requires chunk > 0
  {
    exists b: nat :: b < blocks && Owns(elems, blocks, chunk, b, i)
  }

  ghost predicate Owns(elems: nat, blocks: nat, chunk: nat, b: nat, i: nat)
    requires chunk > 0
  {
    Touches(elems, chunk, b, i) && forall d: nat :: d < blocks && Touches(elems, chunk, d, i) ==> d == b
  }

  lemma SliceInSpan(chunk: nat, turns: nat, c: nat, j: int)
    requires chunk > 0 && c < turns && c * chunk <= j < (c + 1) * chunk
    ensures 0 <= j < turns * chunk
  {
    MulLess(chunk, c, turns);
  }

  lemma SliceOf(chunk: nat, turns: nat, j: nat) returns (c: nat)
    requires chunk > 0 && j < turns * chunk
    ensures c < turns && c * chunk <= j < (c + 1) * chunk
  {
    c := j / chunk;
    assert j == chunk * c + j % chunk;
    MulLess(chunk, c, turns);
  }

  /** The elements a block works on: its own, and those its last chunk reaches beyond them. */
  lemma TouchesIff(elems: nat, chunk: nat, b: nat, i: nat)
    requires chunk > 0
    ensures Touches(elems, chunk, b, i) <==> b * elems <= i < b * elems + Iterations(elems, chunk) * chunk
  {
    hide Iterations;
    var turns, base := Iterations(elems, chunk), b * elems;
    if c: nat :| InSlice(elems, chunk, b, c, i) {
      SliceInSpan(chunk, turns, c, i - base);
    }
    if base <= i < base + turns * chunk {
      var c := SliceOf(chunk, turns, i - base);
      assert InSlice(elems, chunk, b, c, i);
    }
  }

  /** The last chunk ends with the block iff the chunks fill it, and reaches beyond it otherwise. */
  lemma SpanIs(elems: nat, chunk: nat)
    requires chunk > 0
    ensures Iterations(elems, chunk) * chunk >= elems
    ensures Iterations(elems, chunk) * chunk == elems <==> elems % chunk == 0
  {
    IterationsAreNumChunks(elems, chunk);
    assert elems == chunk * (elems / chunk) + elems % chunk;
  }

  /** Where the chunks fill the blocks, the block that works on an element is found by division. */
  lemma OwnerIs(elems: nat, chunk: nat, b: nat, i: nat)
    requires chunk > 0 && elems > 0 && elems % chunk == 0
    ensures Touches(elems, chunk, b, i) <==> b == i / elems
  {
    hide Iterations, Touches;
    TouchesIff(elems, chunk, b, i);
    SpanIs(elems, chunk);
    var q := i / elems;
    assert i == elems * q + i % elems;
    if b * elems <= i < b * elems + elems {
      DivIs(i, elems, b, i - b * elems);
    }
  }

  /** A block whose chunks do not fill it works on the first element of the next block. */
  lemma LastChunkReachesOut(elems: nat, chunk: nat)
    requires chunk > 0 && elems % chunk != 0
    ensures Touches(elems, chunk, 0, elems) && Touches(elems, chunk, 1, elems)
  {
    hide Iterations, Touches;
    SpanIs(elems, chunk);
    TouchesIff(elems, chunk, 0, elems);
    TouchesIff(elems, chunk, 1, elems);
  }

  lemma HasOwner(elems: nat, blocks: nat, chunk: nat, i: nat)
    requires chunk > 0 && elems % chunk == 0 && i < blocks * elems
    ensures OwnedOnce(elems, blocks, chunk, i)
  {
    hide Touches, Iterations;
    var q := i / elems;
    assert i == elems * q + i % elems;
    MulLess(elems, q, blocks);
    forall d: nat | d < blocks
      ensures Touches(elems, chunk, d, i) <==> d == q
    {
      OwnerIs(elems, chunk, d, i);
    }
    assert Owns(elems, blocks, chunk, q, i);
  }

  /** The elements after the last block belong to none. */
  lemma LeftOver(elems: nat, blocks: nat, chunk: nat, i: nat)
    requires chunk > 0 && elems % chunk == 0 && i == blocks * elems
    ensures !OwnedOnce(elems, blocks, chunk, i)
  {
    hide Touches, Iterations;
    forall d: nat | d < blocks
      ensures !Touches(elems, chunk, d, i)
    {
      TouchesIff(elems, chunk, d, i);
      SpanIs(elems, chunk);
      if elems > 0 {
        MulLess(elems, d, blocks);
      }
    }
  }

  /** Every one of n elements belongs to exactly one block. */
  ghost predicate SharedOut(n: nat, elems: nat, blocks: nat, chunk: nat)
    requires chunk > 0
  {
    forall i: nat :: i < n ==> OwnedOnce(elems, blocks, chunk, i)
  }

  lemma OneBlockOwnsAll(elems: nat, chunk: nat)
    requires chunk > 0
    ensures SharedOut(elems, elems, 1, chunk)
  {
    hide Touches, Iterations;
    forall i: nat | i < elems
      ensures OwnedOnce(elems, 1, chunk, i)
    {
      TouchesIff(elems, chunk, 0, i);
      SpanIs(elems, chunk);
      assert Owns(elems, 1, chunk, 0, i);
    }
  }

  lemma SeveralBlocks(n: nat, elems: nat, rest: nat, blocks: nat, chunk: nat)
    requires n == blocks * elems + rest && blocks >= 2 && chunk > 0
    ensures SharedOut(n, elems, blocks, chunk) <==> rest == 0 && elems % chunk == 0
  {
    hide Touches, Iterations, OwnedOnce;
    if elems % chunk != 0 {
      MulLess(elems, 1, blocks);
      LastChunkReachesOut(elems, chunk);
      assert !OwnedOnce(elems, blocks, chunk, elems) by {
        NotBoth(elems, blocks, chunk, elems);
      }
    } else if rest > 0 {
      LeftOver(elems, blocks, chunk, blocks * elems);
    } else {
      forall i: nat | i < n
        ensures OwnedOnce(elems, blocks, chunk, i)
      {
        HasOwner(elems, blocks, chunk, i);
      }
    }
  }

  lemma NotBoth(elems: nat, blocks: nat, chunk: nat, i: nat)
    requires chunk > 0 && blocks >= 2 && Touches(elems, chunk, 0, i) && Touches(elems, chunk, 1, i)
    ensures !OwnedOnce(elems, blocks, chunk, i)
  {
  }

  /**
   The blocks work on every element of the array and never on the same one, iff they divide the array
   exactly and the chunks divide the blocks exactly, or there is only one block.
   */
  lemma SharedOutIff(nreduce: nat, blocks: nat, chunk: nat)
    requires blocks > 0 && chunk > 0
    ensures SharedOut(nreduce, nreduce / blocks, blocks, chunk) <==>
      blocks == 1 || (nreduce % blocks == 0 && (nreduce / blocks) % chunk == 0)
  {
    hide SharedOut;
    if blocks == 1 {
      OneBlockOwnsAll(nreduce, chunk);
    } else {
      SeveralBlocks(nreduce, nreduce / blocks, nreduce % blocks, blocks, chunk);
    }
  }
}
