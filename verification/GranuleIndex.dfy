/**
 The table that leads from an offset in the dynamic symmetric heap to the registered chunk that
 contains it.  The table has one entry for each granule of physical memory.
 */
module GranuleIndex {
  import opened Arithmetic
  import opened Limits

  /** A chunk of the heap registered with the remote transports under one handle. */
  datatype Chunk = Chunk(addr: int, size: int) {
    predicate Contains(x: int) {
      addr <= x < addr + size
    }
  }

  datatype Entry = Entry(handle: int, addr: int, size: int)

  predicate Granularity(g: int) {
    0 < g <= MAX_HANDLE_LENGTH
  }

  /** The longest registration: as many whole granules as one handle can span. */
  function MaxRegistration(g: int): (m: int)
    requires Granularity(g)
    ensures g <= m <= MAX_HANDLE_LENGTH < m + g && m % g == 0
  {
    var q := MAX_HANDLE_LENGTH / g;
    assert g * q <= MAX_HANDLE_LENGTH < g * q + g;
    assert q >= 1 && g * (q - 1) >= 0;
    DivIs(g * q, g, q, 0);
    g * q
  }

  /** The registrations of new memory, of at most m bytes each. */
  function Registrations(m: int, buf: int, size: int): (r: seq<Chunk>)
    requires m > 0
    ensures r != []
    decreases size
  {
    if size <= m then [Chunk(buf, size)]
    else [Chunk(buf, m)] + Registrations(m, buf + m, size - m)
  }

  /** The entries of one registered chunk: one for each granule. */
  function EntriesOf(g: int, handle: int, c: Chunk): (r: seq<Entry>)
    requires g > 0 && c.size >= 0
    ensures |r| == c.size / g
  {
    seq(c.size / g, _ => Entry(handle, c.addr, c.size))
  }

  ghost predicate Sizes(chunks: seq<Chunk>) {
    forall k :: 0 <= k < |chunks| ==> chunks[k].size >= 0
  }

  /** The entries of consecutive handles, the first of which has the given number. */
  ghost function TableOf(g: int, first: int, chunks: seq<Chunk>): seq<Entry>
    requires g > 0 && Sizes(chunks)
    decreases |chunks|
  {
    if chunks == [] then []
    else EntriesOf(g, first, chunks[0]) + TableOf(g, first + 1, chunks[1..])
  }

  /** The chunks follow one another from `from` to `to`, in whole granules. */
  ghost predicate Tile(g: int, chunks: seq<Chunk>, from: int, to: int)
    requires g > 0
    decreases |chunks|
  {
    if chunks == [] then from == to
    else
      && chunks[0].addr == from
      && 0 < chunks[0].size <= MAX_HANDLE_LENGTH
      && chunks[0].size % g == 0
      && Tile(g, chunks[1..], from + chunks[0].size, to)
  }

  // ---------------------------------------------------------------------------------------------

  lemma {:induction false} TileSizes(g: int, chunks: seq<Chunk>, from: int, to: int)
    requires g > 0 && Tile(g, chunks, from, to)
    ensures Sizes(chunks) && from <= to
    ensures forall k :: 0 <= k < |chunks| ==> from <= chunks[k].addr && chunks[k].addr + chunks[k].size <= to
    ensures forall k :: 0 <= k < |chunks| ==> 0 < chunks[k].size <= MAX_HANDLE_LENGTH && chunks[k].size % g == 0
    decreases |chunks|
  {
    if chunks != [] {
      TileSizes(g, chunks[1..], from + chunks[0].size, to);
    }
  }

  lemma {:induction false} TileAppend(g: int, a: seq<Chunk>, b: seq<Chunk>, from: int, mid: int, to: int)
    requires g > 0 && Tile(g, a, from, mid) && Tile(g, b, mid, to)
    ensures Tile(g, a + b, from, to)
    decreases |a|
  {
    if a == [] {
      assert a + b == b;
    } else {
      TileAppend(g, a[1..], b, from + a[0].size, mid, to);
      assert (a + b)[1..] == a[1..] + b;
    }
  }

  /** Splitting new memory gives whole granules, all but the last piece as long as one handle allows. */
  lemma {:induction false} RegistrationsTile(g: int, m: int, buf: int, size: int)
    requires g > 0 && 0 < m <= MAX_HANDLE_LENGTH && m % g == 0 && size > 0 && size % g == 0
    ensures Tile(g, Registrations(m, buf, size), buf, buf + size) && Sizes(Registrations(m, buf, size))
    ensures var r := Registrations(m, buf, size);
      r[|r| - 1].size <= m && forall k :: 0 <= k < |r| - 1 ==> r[k].size == m
    decreases size
  {
    if size > m {
      Multiples(g, size, m);
      RegistrationsTile(g, m, buf + m, size - m);
    } else {
      assert Registrations(m, buf, size)[1..] == [];
    }
  }

  lemma Multiples(g: int, a: int, b: int)
    requires g > 0 && a % g == 0 && b % g == 0
    ensures (a - b) % g == 0 && (a - b) / g == a / g - b / g
    ensures (a + b) % g == 0 && (a + b) / g == a / g + b / g
  {
    var i, j := a / g, b / g;
    assert a == g * i && b == g * j;
    DivIs(a - b, g, i - j, 0);
    DivIs(a + b, g, i + j, 0);
  }

  lemma Assoc(a: seq<Entry>, b: seq<Entry>, c: seq<Entry>)
    ensures a + (b + c) == (a + b) + c
  {
  }

  lemma {:induction false} TableAppend(g: int, first: int, a: seq<Chunk>, b: seq<Chunk>)
    requires g > 0 && Sizes(a) && Sizes(b)
    ensures Sizes(a + b)
    ensures TableOf(g, first, a + b) == TableOf(g, first, a) + TableOf(g, first + |a|, b)
    decreases |a|
  {
    if a == [] {
      assert a + b == b;
    } else {
      TableAppend(g, first + 1, a[1..], b);
      assert (a + b)[1..] == a[1..] + b && (a + b)[0] == a[0];
      Assoc(EntriesOf(g, first, a[0]), TableOf(g, first + 1, a[1..]), TableOf(g, first + |a|, b));
    }
  }

  lemma DivShift(g: int, x: int, size: int)
    requires g > 0 && size % g == 0
    ensures (x - size) / g == x / g - size / g
    ensures x < size <==> x / g < size / g
  {
    var q, k := x / g, size / g;
    assert x == g * q + x % g && size == g * k;
    assert x - size == g * (q - k) + x % g;
    DivIs(x - size, g, q - k, x % g);
    assert q < k ==> g * (k - q) >= g;
    assert q >= k ==> g * (q - k) >= 0;
  }

  /** The entry e belongs to the chunk around x. */
  predicate Names(e: Entry, first: int, chunks: seq<Chunk>, x: int) {
    && first <= e.handle < first + |chunks|
    && chunks[e.handle - first] == Chunk(e.addr, e.size)
    && e.addr <= x < e.addr + e.size
  }

  /** The table has one entry for each granule, and each names the chunk around every byte of it. */
  lemma {:induction false} TableNames(g: int, first: int, chunks: seq<Chunk>, from: int, to: int, x: int)
    requires g > 0 && Tile(g, chunks, from, to) && Sizes(chunks) && from <= x < to
    ensures var t := TableOf(g, first, chunks);
      0 <= (x - from) / g < |t| && Names(t[(x - from) / g], first, chunks, x)
    decreases |chunks|
  {
    var c := chunks[0];
    DivShift(g, x - from, c.size);
    assert (x - from) / g >= 0;
    var head, tail := EntriesOf(g, first, c), TableOf(g, first + 1, chunks[1..]);
    if x - from >= c.size {
      TableNames(g, first + 1, chunks[1..], from + c.size, to, x);
      var i := (x - from) / g;
      assert (head + tail)[i] == tail[i - |head|];
    }
  }

  lemma {:induction false} TableLength(g: int, first: int, chunks: seq<Chunk>, from: int, to: int)
    requires g > 0 && Tile(g, chunks, from, to) && Sizes(chunks)
    ensures (to - from) % g == 0 && |TableOf(g, first, chunks)| == (to - from) / g
    decreases |chunks|
  {
    if chunks == [] {
      DivIs(0, g, 0, 0);
    } else {
      TableLength(g, first + 1, chunks[1..], from + chunks[0].size, to);
      Multiples(g, to - from - chunks[0].size, chunks[0].size);
    }
  }

  /** No other chunk contains x. */
  lemma {:induction false} TileUnique(g: int, chunks: seq<Chunk>, from: int, to: int, x: int, i: nat, j: nat)
    requires g > 0 && Tile(g, chunks, from, to) && i <= j < |chunks|
    requires chunks[i].addr <= x < chunks[i].addr + chunks[i].size
    requires chunks[j].addr <= x < chunks[j].addr + chunks[j].size
    ensures i == j
    decreases |chunks|
  {
    TileSizes(g, chunks[1..], from + chunks[0].size, to);
    if i > 0 {
      TileUnique(g, chunks[1..], from + chunks[0].size, to, x, i - 1, j - 1);
    }
  }
}
