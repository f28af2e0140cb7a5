/**
 The cache of registered local buffers: a growable array of handles sorted by address.  A buffer
 longer than the longest handle takes several consecutive handles, linked to each other.
 */
module BufferCache {
  import opened Limits

  const DEFAULT_SIZE := 64

  datatype Handle = Handle(ptr: int, length: int, linkedWithPrev: bool, linkedWithNext: bool)

  datatype Status = Success | InvalidValue

  datatype Option<T> = None | Some(value: T)

  predicate Contains(h: Handle, addr: int) {
    h.ptr <= addr < h.ptr + h.length
  }

  /** Sorted by address, without overlap. */
  ghost predicate Sorted(s: seq<Handle>) {
    && (forall i :: 0 <= i < |s| ==> s[i].length > 0)
    && (forall i, j :: 0 <= i < j < |s| ==> s[i].ptr + s[i].length <= s[j].ptr)
  }

  /** Linked in both directions or not at all, and only where the handles are contiguous. */
  predicate Joined(a: Handle, b: Handle) {
    a.linkedWithNext == b.linkedWithPrev && (a.linkedWithNext ==> a.ptr + a.length == b.ptr)
  }

  ghost predicate Chain(s: seq<Handle>) {
    forall i, j :: 0 <= i < j < |s| && j == i + 1 ==> Joined(s[i], s[j])
  }

  /** The entries are whole buffers: links run between neighbours and do not dangle. */
  ghost predicate Linked(s: seq<Handle>) {
    Chain(s) && (s != [] ==> !s[0].linkedWithPrev && !s[|s| - 1].linkedWithNext)
  }

  lemma SortedAppend(a: seq<Handle>, b: seq<Handle>)
    ensures Sorted(a + b) <==>
      Sorted(a) && Sorted(b) && (a != [] && b != [] ==> a[|a| - 1].ptr + a[|a| - 1].length <= b[0].ptr)
  {
    var s := a + b;
    if Sorted(s) {
      assert forall i :: 0 <= i < |a| ==> a[i] == s[i];
      assert forall i :: 0 <= i < |b| ==> b[i] == s[|a| + i];
    }
  }

  lemma ChainAppend(a: seq<Handle>, b: seq<Handle>)
    ensures Chain(a + b) <==>
      Chain(a) && Chain(b) && (a != [] && b != [] ==> Joined(a[|a| - 1], b[0]))
  {
    var s := a + b;
    if Chain(s) {
      assert forall i :: 0 <= i < |a| ==> a[i] == s[i];
      assert forall i :: 0 <= i < |b| ==> b[i] == s[|a| + i];
    }
  }

  // ---------------------------------------------------------------------------------------------
  // What registration does to the sequence of entries

  function NumHandles(length: int): int {
    (length + MAX_HANDLE_LENGTH - 1) / MAX_HANDLE_LENGTH
  }

  /** The handles of a buffer. */
  function Pieces(addr: int, length: int, first: bool): seq<Handle>
    decreases length
  {
    if length <= 0 then []
    else if length <= MAX_HANDLE_LENGTH then [Handle(addr, length, !first, false)]
    else
      [Handle(addr, MAX_HANDLE_LENGTH, !first, true)]
      + Pieces(addr + MAX_HANDLE_LENGTH, length - MAX_HANDLE_LENGTH, false)
  }

  /** Where the scan for a place for addr stops: at the first entry that does not lie wholly below. */
  function ScanIndex(s: seq<Handle>, addr: int): (i: nat)
    ensures i <= |s|
    ensures forall k :: 0 <= k < i ==> s[k].ptr + s[k].length <= addr && s[k].ptr < addr
    ensures i < |s| ==> addr <= s[i].ptr || addr < s[i].ptr + s[i].length
    decreases |s|
  {
    if s == [] || addr <= s[0].ptr || addr < s[0].ptr + s[0].length then 0
    else 1 + ScanIndex(s[1..], addr)
  }

  /** The entries after registering [addr, addr + length), or None when it is refused. */
  function Registered(s: seq<Handle>, addr: int, length: int): Option<seq<Handle>> {
    var i := ScanIndex(s, addr);
    if length == 0 || (i < |s| && s[i].ptr <= addr) then None
    else Some(s[..i] + Pieces(addr, length, true) + s[i..])
  }

  /** The number of handles from i to the end of their buffer. */
  ghost function GroupLength(s: seq<Handle>, i: nat): (n: nat)
    requires Linked(s) && i < |s|
    ensures 1 <= n <= |s| - i
    ensures !s[i + n - 1].linkedWithNext
    ensures forall k :: i <= k < i + n - 1 ==> s[k].linkedWithNext
    decreases |s| - i
  {
    if s[i].linkedWithNext then 1 + GroupLength(s, i + 1) else 1
  }

  ghost predicate IsEntry(s: seq<Handle>, addr: int, i: nat) {
    i < |s| && s[i].ptr == addr
  }

  /** The entries after unregistering the handles from entry i to the end of its buffer. */
  ghost function Without(s: seq<Handle>, i: nat): seq<Handle>
    requires Linked(s) && i < |s|
  {
    s[..i] + s[i + GroupLength(s, i)..]
  }

  // ---------------------------------------------------------------------------------------------

  lemma {:induction false} PiecesFacts(addr: int, length: int, first: bool)
    requires length >= 0
    ensures var p := Pieces(addr, length, first);
      && |p| == NumHandles(length)
      && (forall k :: 0 <= k < |p| ==> p[k].length <= MAX_HANDLE_LENGTH)
      && (forall k :: 0 <= k < |p| - 1 ==> p[k].length == MAX_HANDLE_LENGTH && p[k].linkedWithNext)
      && Sorted(p) && Chain(p)
      && (p != [] ==> p[0].ptr == addr && p[0].linkedWithPrev == !first)
      && (p != [] ==> p[|p| - 1].ptr + p[|p| - 1].length == addr + length && !p[|p| - 1].linkedWithNext)
    decreases length
  {
    hide Sorted, Chain, NumHandles;
    PiecesCount(addr, length, first);
    if length > MAX_HANDLE_LENGTH {
      var h := Handle(addr, MAX_HANDLE_LENGTH, !first, true);
      var rest := Pieces(addr + MAX_HANDLE_LENGTH, length - MAX_HANDLE_LENGTH, false);
      PiecesFacts(addr + MAX_HANDLE_LENGTH, length - MAX_HANDLE_LENGTH, false);
      OneHandle(h);
      SortedAppend([h], rest);
      ChainAppend([h], rest);
    } else if length > 0 {
      OneHandle(Handle(addr, length, !first, false));
    } else {
      NoHandles();
    }
  }

  lemma {:induction false} PiecesCount(addr: int, length: int, first: bool)
    requires length >= 0
    ensures |Pieces(addr, length, first)| == NumHandles(length)
    decreases length
  {
    if length > MAX_HANDLE_LENGTH {
      PiecesCount(addr + MAX_HANDLE_LENGTH, length - MAX_HANDLE_LENGTH, false);
    }
  }

  lemma OneHandle(h: Handle)
    requires h.length > 0
    ensures Sorted([h]) && Chain([h])
  {
  }

  lemma NoHandles()
    ensures Sorted([]) && Chain([])
  {
  }

  ghost predicate Before(a: seq<Handle>, b: seq<Handle>) {
    a != [] && b != [] ==> a[|a| - 1].ptr + a[|a| - 1].length <= b[0].ptr
  }

  lemma SortedAround(a: seq<Handle>, p: seq<Handle>, b: seq<Handle>)
    requires p != []
    ensures Sorted(a + p + b) <==> Sorted(a) && Sorted(p) && Sorted(b) && Before(a, p) && Before(p, b)
    ensures Sorted(a + p + b) ==> Sorted(a + b)
  {
    SortedAppend(a, p);
    SortedAppend(a + p, b);
    SortedAppend(a, b);
  }

  /** Whole buffers between whole buffers. */
  lemma LinkedAround(a: seq<Handle>, p: seq<Handle>, b: seq<Handle>)
    requires p != [] && Chain(p) && !p[|p| - 1].linkedWithNext
    requires a != [] && b != [] ==> !a[|a| - 1].linkedWithNext || p[0].linkedWithPrev
    ensures Linked(a + b) && !p[0].linkedWithPrev ==> Linked(a + p + b)
    ensures Linked(a + p + b) ==> (Linked(a + b) <==> !p[0].linkedWithPrev)
  {
    ChainAppend(a, p);
    ChainAppend(a + p, b);
    ChainAppend(a, b);
    var t, u := a + p + b, a + b;
    assert a != [] ==> t[0] == a[0] == u[0];
    assert a == [] ==> t[0] == p[0];
    assert b != [] ==> t[|t| - 1] == b[|b| - 1] == u[|u| - 1];
    assert b == [] ==> t[|t| - 1] == p[|p| - 1];
    assert b == [] && a != [] ==> u[|u| - 1] == a[|a| - 1];
    assert a == [] && b != [] ==> u[0] == b[0];
  }

  /** The new buffer ends at or before the next registered one. */
  ghost predicate EndsBeforeNext(s: seq<Handle>, addr: int, length: int) {
    var i := ScanIndex(s, addr);
    i < |s| ==> addr + length <= s[i].ptr
  }

  lemma InsertBuffer(s: seq<Handle>, a: seq<Handle>, b: seq<Handle>, addr: int, length: int)
    requires s == a + b && Sorted(s) && Linked(s) && length > 0
    requires a != [] ==> a[|a| - 1].ptr + a[|a| - 1].length <= addr
    requires a != [] && b != [] ==> addr < b[0].ptr
    ensures var t := a + Pieces(addr, length, true) + b;
      Linked(t) && (Sorted(t) <==> (b != [] ==> addr + length <= b[0].ptr))
  {
    var p := Pieces(addr, length, true);
    PiecesFacts(addr, length, true);
    SortedAppend(a, b);
    SortedAround(a, p, b);
    ChainAppend(a, b);
    LinkedAround(a, p, b);
  }

  lemma SplitAt(s: seq<Handle>, i: nat)
    requires i <= |s|
    ensures s[..i] + s[i..] == s
    ensures i > 0 ==> s[..i][i - 1] == s[i - 1]
    ensures i < |s| ==> s[i..][0] == s[i]
  {
  }

  lemma InsertAt(s: seq<Handle>, i: nat, addr: int, length: int)
    requires Sorted(s) && Linked(s) && length > 0 && i <= |s|
    requires i > 0 ==> s[i - 1].ptr + s[i - 1].length <= addr
    requires i < |s| ==> addr < s[i].ptr
    ensures var t := s[..i] + Pieces(addr, length, true) + s[i..];
      Linked(t) && (Sorted(t) <==> (i < |s| ==> addr + length <= s[i].ptr))
  {
    hide Sorted;
    SplitAt(s, i);
    InsertBuffer(s, s[..i], s[i..], addr, length);
  }

  /**
   Registering keeps the entries sorted and disjoint exactly when the new buffer ends at or before
   the next registered one, which the code does not check.  Links are right either way.
   */
  lemma RegisterKeepsSortedIff(s: seq<Handle>, addr: int, length: int)
    requires Sorted(s) && Linked(s) && length >= 0
    ensures var r := Registered(s, addr, length);
      r.Some? ==> Linked(r.value) && (Sorted(r.value) <==> EndsBeforeNext(s, addr, length))
  {
    if Registered(s, addr, length).Some? {
      InsertAt(s, ScanIndex(s, addr), addr, length);
    }
  }

  /** A buffer of 10 bytes at 0 is accepted in front of one that starts at 5. */
  lemma RegisterAcceptsOverlap()
    ensures var s := [Handle(5, 10, false, false)];
      Sorted(s) && Linked(s) && Registered(s, 0, 10).Some? && !Sorted(Registered(s, 0, 10).value)
  {
    RegisterKeepsSortedIff([Handle(5, 10, false, false)], 0, 10);
  }

  /**
   Unregistering keeps the entries sorted; it leaves whole buffers exactly when it starts at the
   first handle of one.  Starting inside a buffer strands the handles before it.
   */
  lemma UnregisterKeepsLinkedIff(s: seq<Handle>, i: nat)
    requires Sorted(s) && Linked(s) && i < |s|
    ensures Sorted(Without(s, i))
    ensures Linked(Without(s, i)) <==> !s[i].linkedWithPrev
  {
    hide Sorted;
    var n := GroupLength(s, i);
    ThreeParts(s, i, n);
    var a, g, b := s[..i], s[i..i + n], s[i + n..];
    SortedAround(a, g, b);
    GroupChain(s, i, n);
    LinkedAround(a, g, b);
  }

  lemma ThreeParts(s: seq<Handle>, i: nat, n: nat)
    requires i + n <= |s|
    ensures s == s[..i] + s[i..i + n] + s[i + n..]
  {
  }

  /** A group is a chain, and begins with a link back exactly if the entry before it has a link onwards. */
  lemma GroupChain(s: seq<Handle>, i: nat, n: nat)
    requires Chain(s) && 0 < n && i + n <= |s|
    ensures Chain(s[i..i + n])
    ensures i > 0 ==> s[..i][i - 1].linkedWithNext == s[i..i + n][0].linkedWithPrev
  {
    assert i > 0 ==> Joined(s[i - 1], s[i]);
  }

  /** A group ends at its first handle without a link onwards. */
  lemma GroupIs(s: seq<Handle>, i: nat, n: nat)
    requires Linked(s) && 1 <= n && i + n <= |s|
    requires !s[i + n - 1].linkedWithNext && forall k :: i <= k < i + n - 1 ==> s[k].linkedWithNext
    ensures GroupLength(s, i) == n
  {
  }

  lemma PiecesAreOneGroup(t: seq<Handle>, i: nat, addr: int, length: int)
    requires Linked(t) && length > 0 && i + |Pieces(addr, length, true)| <= |t|
    requires t[i..i + |Pieces(addr, length, true)|] == Pieces(addr, length, true)
    ensures |Pieces(addr, length, true)| >= 1 && t[i].ptr == addr
    ensures GroupLength(t, i) == |Pieces(addr, length, true)|
  {
    var p := Pieces(addr, length, true);
    PiecesFacts(addr, length, true);
    assert forall k :: 0 <= k < |p| ==> p[k] == t[i + k];
    forall k | i <= k < i + |p| - 1
      ensures t[k].linkedWithNext
    {
      assert p[k - i] == t[i + (k - i)];
    }
    GroupIs(t, i, |p|);
  }

  lemma RemoveInserted(a: seq<Handle>, b: seq<Handle>, addr: int, length: int)
    requires length > 0 && Linked(a + Pieces(addr, length, true) + b)
    ensures var t := a + Pieces(addr, length, true) + b;
      IsEntry(t, addr, |a|) && Without(t, |a|) == a + b
  {
    var p := Pieces(addr, length, true);
    var t := a + p + b;
    assert t[|a|..|a| + |p|] == p;
    PiecesAreOneGroup(t, |a|, addr, length);
    assert t[..|a|] == a && t[|a| + |p|..] == b;
  }

  /** Unregistering a buffer that was just registered restores the entries. */
  lemma UnregisterUndoesRegister(s: seq<Handle>, addr: int, length: int)
    requires Sorted(s) && Linked(s) && length >= 0
    ensures var i, r := ScanIndex(s, addr), Registered(s, addr, length);
      r.Some? ==> IsEntry(r.value, addr, i) && Linked(r.value) && Without(r.value, i) == s
  {
    var i := ScanIndex(s, addr);
    RegisterKeepsSortedIff(s, addr, length);
    if Registered(s, addr, length).Some? {
      RemoveInserted(s[..i], s[i..], addr, length);
      SplitAt(s, i);
    }
  }

  /** Unregistering the second handle of a buffer leaves the first linked to nothing. */
  lemma UnregisterStrandsHandles()
    ensures var s := Pieces(0, MAX_HANDLE_LENGTH + 1, true);
      && Sorted(s) && Linked(s) && IsEntry(s, MAX_HANDLE_LENGTH, 1)
      && Without(s, 1) == [Handle(0, MAX_HANDLE_LENGTH, false, true)] && !Linked(Without(s, 1))
  {
    PiecesFacts(0, MAX_HANDLE_LENGTH + 1, true);
    var s := Pieces(0, MAX_HANDLE_LENGTH + 1, true);
    assert s == [Handle(0, MAX_HANDLE_LENGTH, false, true), Handle(MAX_HANDLE_LENGTH, 1, true, false)];
    UnregisterKeepsLinkedIff(s, 1);
  }

  // ---------------------------------------------------------------------------------------------
  // Which addresses are registered

  ghost predicate Covered(s: seq<Handle>, x: int) {
    exists k :: 0 <= k < |s| && Contains(s[k], x)
  }

  lemma CoveredAppend(a: seq<Handle>, b: seq<Handle>, x: int)
    ensures Covered(a + b, x) <==> Covered(a, x) || Covered(b, x)
  {
    var s := a + b;
    if Covered(a, x) {
      var k :| 0 <= k < |a| && Contains(a[k], x);
      assert Contains(s[k], x);
    }
    if Covered(b, x) {
      var k :| 0 <= k < |b| && Contains(b[k], x);
      assert Contains(s[|a| + k], x);
    }
  }

  lemma CoveredFirst(s: seq<Handle>, x: int)
    requires s != []
    ensures Covered(s, x) <==> Contains(s[0], x) || Covered(s[1..], x)
  {
    assert s == [s[0]] + s[1..];
    CoveredAppend([s[0]], s[1..], x);
  }

  lemma {:induction false} PiecesCover(addr: int, length: int, first: bool, x: int)
    requires length > 0
    ensures Covered(Pieces(addr, length, first), x) <==> addr <= x < addr + length
    decreases length
  {
    CoveredFirst(Pieces(addr, length, first), x);
    if length > MAX_HANDLE_LENGTH {
      PiecesCover(addr + MAX_HANDLE_LENGTH, length - MAX_HANDLE_LENGTH, false, x);
    }
  }

  /** A buffer is accepted exactly when it is not empty and its first byte is not registered. */
  lemma RegisterAcceptsIff(s: seq<Handle>, addr: int, length: int)
    requires Sorted(s) && length >= 0
    ensures Registered(s, addr, length).Some? <==> length > 0 && !Covered(s, addr)
  {
    var i := ScanIndex(s, addr);
    if Covered(s, addr) {
      var k :| 0 <= k < |s| && Contains(s[k], addr);
      assert k == i;
    }
    if i < |s| && s[i].ptr <= addr {
      assert Contains(s[i], addr);
    }
  }

  /** Registering adds the bytes of the buffer and no others. */
  lemma RegisterCovers(s: seq<Handle>, addr: int, length: int, x: int)
    requires length >= 0
    ensures var r := Registered(s, addr, length);
      r.Some? ==> (Covered(r.value, x) <==> Covered(s, x) || addr <= x < addr + length)
  {
    if Registered(s, addr, length).Some? {
      var i, p := ScanIndex(s, addr), Pieces(addr, length, true);
      SplitAt(s, i);
      CoveredAppend(s[..i], s[i..], x);
      CoveredAppend(s[..i], p, x);
      CoveredAppend(s[..i] + p, s[i..], x);
      PiecesCover(addr, length, true, x);
    }
  }

  /** The address just past the buffer that entry i belongs to. */
  ghost function GroupEnd(s: seq<Handle>, i: nat): int
    requires Linked(s) && i < |s|
  {
    var last := s[i + GroupLength(s, i) - 1];
    last.ptr + last.length
  }

  /** The handles from i to the end of their buffer cover one range without a gap. */
  lemma {:induction false} GroupCover(s: seq<Handle>, i: nat, x: int)
    requires Linked(s) && i < |s| && forall k :: 0 <= k < |s| ==> s[k].length > 0
    ensures Covered(s[i..i + GroupLength(s, i)], x) <==> s[i].ptr <= x < GroupEnd(s, i)
    ensures s[i].ptr + s[i].length <= GroupEnd(s, i)
    decreases |s| - i
  {
    var n := GroupLength(s, i);
    CoveredFirst(s[i..i + n], x);
    if s[i].linkedWithNext {
      GroupCover(s, i + 1, x);
      assert Joined(s[i], s[i + 1]);
      assert s[i..i + n][1..] == s[i + 1..i + n];
    }
  }

  lemma CoveredBelow(s: seq<Handle>, m: nat, x: int)
    requires Sorted(s) && m < |s| && Covered(s[..m], x)
    ensures x < s[m].ptr
  {
    var k :| 0 <= k < m && Contains(s[..m][k], x);
    assert s[..m][k] == s[k];
  }

  lemma CoveredAbove(s: seq<Handle>, m: nat, x: int)
    requires Sorted(s) && m < |s| && Covered(s[m + 1..], x)
    ensures x >= s[m].ptr + s[m].length
  {
    var k :| 0 <= k < |s| - (m + 1) && Contains(s[m + 1..][k], x);
    assert s[m + 1..][k] == s[m + 1 + k];
  }

  lemma CoveredParts(s: seq<Handle>, i: nat, n: nat, x: int)
    requires i + n <= |s|
    ensures Covered(s, x) <==> Covered(s[..i] + s[i + n..], x) || Covered(s[i..i + n], x)
    ensures Covered(s[..i] + s[i + n..], x) <==> Covered(s[..i], x) || Covered(s[i + n..], x)
  {
    assert s == s[..i] + s[i..i + n] + s[i + n..];
    CoveredAppend(s[..i], s[i..i + n], x);
    CoveredAppend(s[..i] + s[i..i + n], s[i + n..], x);
    CoveredAppend(s[..i], s[i + n..], x);
  }

  /** Unregistering takes away the bytes from entry i to the end of its buffer and no others. */
  lemma UnregisterUncovers(s: seq<Handle>, i: nat, x: int)
    requires Sorted(s) && Linked(s) && i < |s|
    ensures Covered(Without(s, i), x) <==> Covered(s, x) && !(s[i].ptr <= x < GroupEnd(s, i))
  {
    hide Covered, Chain;
    var n := GroupLength(s, i);
    CoveredParts(s, i, n, x);
    GroupCover(s, i, x);
    if Covered(s[..i], x) {
      CoveredBelow(s, i, x);
    }
    if Covered(s[i + n..], x) {
      CoveredAbove(s, i + n - 1, x);
    }
  }

  /** The entries after the tail moved up by |handle| places and the handles were written. */
  lemma Spliced(all: seq<Handle>, used: nat, i: nat, handle: seq<Handle>)
    requires i <= used && used + |handle| <= |all|
    ensures var n := |handle|;
      var moved := all[..i + n] + all[i..used] + all[used + n..];
      (moved[..i] + handle + moved[i + n..])[..used + n] == all[..used][..i] + handle + all[..used][i..]
  {
  }

  // ---------------------------------------------------------------------------------------------
  // The cache object

  class Cache {
    var buffers: array<Handle>
    var arrayUsed: nat

    /** The strict bound keeps the read one past the last entry in Unregister within the array. */
    ghost predicate Valid()
      reads this, buffers
    {
      arrayUsed < buffers.Length && Sorted(Entries()) && Linked(Entries())
    }

    ghost function Entries(): seq<Handle>
      requires arrayUsed <= buffers.Length
      reads this, buffers
    {
      buffers[..arrayUsed]
    }

    constructor ()
      ensures Valid() && Entries() == [] && buffers.Length == DEFAULT_SIZE && fresh(buffers)
    {
      buffers := new Handle[DEFAULT_SIZE];
      arrayUsed := 0;
    }

    /** Makes room for n more handles with one place to spare. */
    method Reserve(n: nat)
      requires arrayUsed < buffers.Length
      modifies this
      ensures arrayUsed == old(arrayUsed) && arrayUsed + n < buffers.Length
      ensures Entries() == old(Entries())
      ensures buffers == old(buffers) || fresh(buffers)
      ensures var size := old(buffers.Length);
        buffers.Length == if arrayUsed + n < size then size else if n > size then size + n else size * 2
    {
      if arrayUsed + n >= buffers.Length {
        var newSize := if n > buffers.Length then buffers.Length + n else buffers.Length * 2;
        var newBuf := new Handle[newSize];
        Memmove(newBuf, 0, buffers, 0, buffers.Length);
        buffers := newBuf;
        assert Entries() == old(Entries());
      }
    }

    /** Copies n handles, which may overlap the place they are copied to. */
    static method Memmove(dst: array<Handle>, to: nat, src: array<Handle>, from: nat, n: nat)
      requires to + n <= dst.Length && from + n <= src.Length
      modifies dst
      ensures dst[..] == old(dst[..to] + src[from..from + n] + dst[to + n..])
    {
      forall k | to <= k < to + n {
        dst[k] := src[k - to + from];
      }
    }

    /** The handles of the new buffer. */
    static method BuildHandles(addr: int, length: nat) returns (handle: seq<Handle>)
      ensures handle == Pieces(addr, length, true)
    {
      var n := NumHandles(length);
      var remaining, addrCalc := length, addr;
      handle := [];
      for i := 0 to n
        invariant n - i == NumHandles(remaining) && remaining >= 0
        invariant Pieces(addr, length, true) == handle + Pieces(addrCalc, remaining, i == 0)
      {
        var registerLength := if remaining > MAX_HANDLE_LENGTH then MAX_HANDLE_LENGTH else remaining;
        handle := handle + [Handle(addrCalc, registerLength, i != 0, i != n - 1)];
        addrCalc := addrCalc + registerLength;
        remaining := remaining - registerLength;
      }
    }

    /** Finds the place of a new buffer; `ok` is false when its start is taken. */
    method FindPlace(addr: int) returns (ok: bool, i: nat)
      requires arrayUsed <= buffers.Length
      ensures i == ScanIndex(Entries(), addr)
      ensures ok <==> !(i < arrayUsed && buffers[i].ptr <= addr)
    {
      i := 0;
      while i < arrayUsed
        invariant i <= arrayUsed
        invariant ScanIndex(Entries(), addr) == i + ScanIndex(Entries()[i..], addr)
      {
        var tmp := buffers[i];
        assert Entries()[i..][0] == tmp;
        if addr > tmp.ptr {
          if addr < tmp.ptr + tmp.length {
            return false, i;
          }
        } else if addr == tmp.ptr {
          return false, i;
        } else {
          break;
        }
        assert Entries()[i..][1..] == Entries()[i + 1..];
        i := i + 1;
      }
      return true, i;
    }

    method WriteHandles(i: nat, handle: seq<Handle>)
      requires i + |handle| <= buffers.Length
      modifies this`arrayUsed, buffers
      ensures arrayUsed == old(arrayUsed) + |handle|
      ensures buffers[..] == old(buffers[..i]) + handle + old(buffers[i + |handle|..])
    {
      for j := 0 to |handle|
        invariant arrayUsed == old(arrayUsed) + j
        invariant forall k :: i <= k < i + j ==> buffers[k] == handle[k - i]
        invariant forall k :: 0 <= k < i || i + j <= k < buffers.Length ==> buffers[k] == old(buffers[k])
      {
        buffers[i + j] := handle[j];
        arrayUsed := arrayUsed + 1;
      }
    }

    /** Moves the entries from i on and puts the handles in their place. */
    method Insert(i: nat, handle: seq<Handle>)
      requires i <= arrayUsed && arrayUsed + |handle| < buffers.Length
      modifies this`arrayUsed, buffers
      ensures arrayUsed == old(arrayUsed) + |handle|
      ensures Entries() == old(Entries())[..i] + handle + old(Entries())[i..]
    {
      var n := |handle|;
      ghost var all, used := buffers[..], arrayUsed;
      Memmove(buffers, i + n, buffers, i, arrayUsed - i);
      ghost var moved := all[..i + n] + all[i..used] + all[used + n..];
      assert buffers[..] == moved;
      WriteHandles(i, handle);
      assert buffers[..] == moved[..i] + handle + moved[i + n..];
      Spliced(all, used, i, handle);
    }

    /** Grows the array if need be, finds a place for the buffer and puts its handles there. */
    method Place(addr: int, length: nat) returns (status: Status)
      requires arrayUsed < buffers.Length && length > 0
      modifies this, buffers
      ensures arrayUsed < buffers.Length
      ensures status == Success <==> Registered(old(Entries()), addr, length).Some?
      ensures status == Success ==> Some(Entries()) == Registered(old(Entries()), addr, length)
      ensures status != Success ==> Entries() == old(Entries())
    {
      Reserve(NumHandles(length));
      var ok, i := FindPlace(addr);
      if !ok {
        return InvalidValue;
      }
      var handle := BuildHandles(addr, length);
      PiecesFacts(addr, length, true);
      Insert(i, handle);
      return Success;
    }

    method Register(addr: int, length: nat, heapBase: int, heapEnd: int) returns (status: Status)
      requires Valid()
      modifies this, buffers
      ensures arrayUsed < buffers.Length
      ensures status == Success <==> length > 0 && !(heapBase <= addr < heapEnd) && !Covered(old(Entries()), addr)
      ensures status == Success ==> Some(Entries()) == Registered(old(Entries()), addr, length)
      ensures status != Success ==> Entries() == old(Entries())
      ensures status == Success ==> (Valid() <==> EndsBeforeNext(old(Entries()), addr, length))
    {
      if length == 0 || heapBase <= addr < heapEnd {
        return InvalidValue;
      }
      ghost var s := Entries();
      RegisterAcceptsIff(s, addr, length);
      status := Place(addr, length);
      RegisterKeepsSortedIff(s, addr, length);
    }

    /** Removes the entries from i to the end of their buffer. */
    method Remove(i: nat)
      requires Valid() && i < arrayUsed
      modifies this`arrayUsed, buffers
      ensures arrayUsed < buffers.Length && Entries() == Without(old(Entries()), i)
    {
      var n := CountGroup(i);
      Erase(i, n);
    }

    /** Closes the gap left by the n entries from i on. */
    method Erase(i: nat, n: nat)
      requires i + n <= arrayUsed <= buffers.Length
      modifies this`arrayUsed, buffers
      ensures arrayUsed == old(arrayUsed) - n
      ensures Entries() == old(Entries()[..i] + Entries()[i + n..])
    {
      ghost var s := Entries();
      if i + n < arrayUsed {
        Memmove(buffers, i, buffers, i + n, arrayUsed - (i + n));
      }
      arrayUsed := arrayUsed - n;
      assert Entries() == s[..i] + s[i + n..];
    }

    /** Follows the links; its last read may be one past the last entry. */
    method CountGroup(i: nat) returns (n: nat)
      requires Valid() && i < arrayUsed
      ensures n == GroupLength(Entries(), i)
    {
      ghost var s, g := Entries(), GroupLength(Entries(), i);
      var tmp, more := buffers[i], true;
      n := 0;
      while more
        invariant n <= g && (more <==> n < g)
        invariant more ==> tmp == s[i + n]
        decreases g - n
      {
        more := tmp.linkedWithNext;
        n := n + 1;
        tmp := buffers[i + n];
      }
    }

    method Unregister(addr: int) returns (status: Status, ghost at: nat)
      requires Valid()
      modifies this`arrayUsed, buffers
      ensures arrayUsed < buffers.Length
      ensures status == Success <==> exists h :: h in old(Entries()) && h.ptr == addr
      ensures status == Success ==>
        IsEntry(old(Entries()), addr, at) && Entries() == Without(old(Entries()), at)
      ensures status != Success ==> Entries() == old(Entries())
      ensures status == Success ==> (Valid() <==> !old(Entries())[at].linkedWithPrev)
    {
      var i := 0;
      at := 0;
      while i < arrayUsed
        invariant i <= arrayUsed && Entries() == old(Entries()) && arrayUsed < buffers.Length
        invariant forall k :: 0 <= k < i ==> buffers[k].ptr < addr
      {
        var tmp := buffers[i];
        if addr == tmp.ptr {
          assert tmp in Entries();
          at := i;
          UnregisterKeepsLinkedIff(Entries(), i);
          Remove(i);
          return Success, at;
        } else if addr < tmp.ptr {
          break;
        }
        i := i + 1;
      }
      return InvalidValue, at;
    }

    /**
     Bisection: finds the one handle that contains addr, if any, and clips the length to what
     remains of it.
     */
    method Lookup(addr: int, len: int) returns (r: Option<Handle>, len': int)
      requires Valid()
      ensures r.None? <==> forall h :: h in Entries() ==> !Contains(h, addr)
      ensures r.Some? ==> r.value in Entries() && Contains(r.value, addr)
      ensures forall h :: h in Entries() && Contains(h, addr) ==> r == Some(h)
      ensures len' == if r.None? then len else
                      if len < r.value.ptr + r.value.length - addr then len else r.value.ptr + r.value.length - addr
    {
      len' := len;
      if arrayUsed == 0 {
        return None, len;
      }
      var min, max, searching := 0, arrayUsed, true;
      while searching
        invariant 0 <= min && max <= arrayUsed && (searching ==> min <= max)
        invariant forall k :: 0 <= k < arrayUsed && !(searching && min <= k <= max) ==> !Contains(buffers[k], addr)
        decreases searching, max - min
      {
        var mid := (max - min) / 2 + min;
        if mid >= arrayUsed {
          break;
        }
        var tmp := buffers[mid];
        assert Entries()[mid] == tmp && tmp in Entries();
        if addr > tmp.ptr {
          var maxAddr := tmp.ptr + tmp.length;
          if addr < maxAddr {
            return Some(tmp), if len < maxAddr - addr then len else maxAddr - addr;
          }
          min := mid + 1;
        } else if addr == tmp.ptr {
          return Some(tmp), if len < tmp.length then len else tmp.length;
        } else {
          if mid == 0 {
            break;
          }
          max := mid - 1;
        }
        searching := max >= min;
      }
      return None, len;
    }
  }
}
