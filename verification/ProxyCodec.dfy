/**
 The requests a GPU passes to the host proxy: how the device packs them into 8-byte entries and what
 the host reads back.  The low byte of an entry is its flag; a payload is the other seven bytes.
 Fields that do not overlap are joined by addition.
 */
module ProxyCodec {
  import opened Arithmetic

  const QP_DEFAULT := 1
  const OP_PUT := 1
  const OP_P := 2
  const OP_PUT_SIGNAL := 3
  const OP_GET := 4
  const OP_G := 5
  const OP_FENCE := 6
  const OP_AMO := 7
  const QP_OFFSET := 100
  const OP_FENCE_QP := 106
  const OP_QUIET_QP := 108
  const AMO_END_OF_NONFETCH := 11
  const AMO_COMPARE_SWAP := 19

  const B1 := 0x100
  const B2 := 0x1_0000
  const B3 := 0x100_0000
  const B4 := 0x1_0000_0000
  const B5 := 0x100_0000_0000
  const B6 := 0x1_0000_0000_0000
  const B7 := 0x100_0000_0000_0000
  const B8 := 0x1_0000_0000_0000_0000

  /** What device code asks for. */
  datatype Request =
    | Dma(op: int, roffset: int, laddr: int, size: int, pe: int, qp: int)
    | Inline(roffset: int, value: int, size: int, pe: int, qp: int)
    | Amo(amo: int, roffset: int, swapAdd: int, compare: int, counter: int, size: int, pe: int, qp: int)
    | Fence
    | QpFence(pe: int, qps: seq<int>)
    | QpQuiet(pe: int, qps: seq<int>)
    | PutSignal(roffset: int, laddr: int, size: int, pe: int, qp: int, sigOp: int, sigOffset: int, sigVal: int)

  datatype Target = Target(pe: int, qp: int)

  /** What the host hands to a transport. */
  datatype Command =
    | Rma(op: int, roffset: int, laddr: int, size: int, pe: int, qp: int)
    | PutValue(roffset: int, value: int, size: int, pe: int, qp: int)
    | Atomic(amo: int, roffset: int, value: int, compare: int, counter: int, size: int, pe: int, qp: int)
    | FenceAll
    | FenceQps(targets: seq<Target>)
    | QuietQps(targets: seq<Target>)
    | WriteAndSignal(roffset: int, laddr: int, size: int, pe: int, qp: int, sigOp: int, sigOffset: int, sigVal: int)

  predicate Word(x: int) {
    0 <= x < B8
  }

  predicate PeQp(pe: int, qp: int) {
    0 <= pe < 0x8000_0000 && 0 <= qp < B4
  }

  /** The ranges of the C types of the arguments. */
  predicate Legal(r: Request) {
    match r
    case Dma(op, roffset, laddr, size, pe, qp) =>
      op in {OP_PUT, OP_GET, OP_G} && Word(roffset) && Word(laddr) && Word(size) && PeQp(pe, qp)
    case Inline(roffset, value, size, pe, qp) =>
      && Word(roffset) && size in {1, 2, 4, 8} && PeQp(pe, qp)
      && 0 <= value < (if size == 8 then B8 else B4)
    case Amo(amo, roffset, swapAdd, compare, counter, size, pe, qp) =>
      && 0 <= amo < B1 && Word(roffset) && Word(swapAdd) && Word(compare) && Word(counter)
      && size in {4, 8} && PeQp(pe, qp)
    case Fence => true
    case QpFence(pe, qps) => LegalSync(pe, qps)
    case QpQuiet(pe, qps) => LegalSync(pe, qps)
    case PutSignal(roffset, laddr, size, pe, qp, sigOp, sigOffset, sigVal) =>
      && Word(roffset) && Word(laddr) && Word(size) && PeQp(pe, qp)
      && 0 <= sigOp < B1 && Word(sigOffset) && Word(sigVal)
  }

  predicate LegalSync(pe: int, qps: seq<int>) {
    0 <= pe < 0x8000_0000 && |qps| < 0x8000_0000 && forall k :: 0 <= k < |qps| ==> 0 <= qps[k] < B4
  }

  // ---------------------------------------------------------------------------------------------
  // The device

  /** Bitwise or, for the one entry whose fields overlap. */
  function Or(a: nat, b: nat): nat {
    if a == 0 then b
    else if b == 0 then a
    else (if a % 2 == 1 || b % 2 == 1 then 1 else 0) + 2 * Or(a / 2, b / 2)
  }

  function OpFor(op: int, qp: int): int {
    if qp != QP_DEFAULT then op + QP_OFFSET else op
  }

  function BasePayload(op: int, roffset: int): int {
    1 + B1 * op + B2 * (roffset % B5)
  }

  function PeQpPayload(pe: int, qp: int): int {
    B1 * (pe % B2) + B3 * (qp % B4)
  }

  function QpEntry(qp: int): seq<int> {
    if qp != QP_DEFAULT then [B3 * (qp % B4)] else []
  }

  /**
   A fence packs the PE one byte too low, over the operation and the queue pair: its low byte stays
   in the place of the operation, and its other bytes are joined to the fields above by bitwise or.
   */
  function FencePayload(pe: int, qp: int): int
    requires pe >= 0 && qp >= 0
  {
    pe % B1 + B1 * Or(OP_FENCE_QP, pe / B1 % B2) + B3 * Or(qp, pe / B3)
  }

  /** The payloads of a request, in the order of their positions in the channel. */
  function Encode(r: Request): (s: seq<int>)
    requires Legal(r)
    ensures s != []
  {
    match r
    case Dma(op, roffset, laddr, size, pe, qp) =>
      [BasePayload(OpFor(op, qp), roffset), laddr / B1, laddr % B1 + B1 * (size % B6), PeQpPayload(pe, qp)]
    case Inline(roffset, value, size, pe, qp) =>
      [BasePayload(OpFor(OP_P, qp), roffset), B1 * (pe % B2) + B3 * (value % B4), B1 * size + B3 * (value / B4)]
      + QpEntry(qp)
    case Amo(amo, roffset, swapAdd, compare, counter, size, pe, qp) =>
      [BasePayload(OpFor(OP_AMO, qp), roffset), amo + B1 * (pe % B2) + B3 * (swapAdd % B4),
       compare % B1 + B1 * size + B3 * (swapAdd / B4), compare / B1, counter % B7] + QpEntry(qp)
    case Fence =>
      [B1 * OP_FENCE]
    case QpFence(pe, qps) =>
      [B1 * OP_FENCE_QP + B3 * |qps|] + seq(|qps|, k requires 0 <= k < |qps| => FencePayload(pe, qps[k]))
    case QpQuiet(pe, qps) =>
      [B1 * OP_QUIET_QP + B3 * |qps|]
      + seq(|qps|, k requires 0 <= k < |qps| => OP_QUIET_QP + B1 * (pe % B2) + B3 * qps[k])
    case PutSignal(roffset, laddr, size, pe, qp, sigOp, sigOffset, sigVal) =>
      [BasePayload(OpFor(OP_PUT_SIGNAL, qp), roffset), laddr / B1, laddr % B1 + B1 * (size % B6),
       PeQpPayload(pe, qp), sigVal % B1 + B1 * sigOp + B2 * (sigOffset % B5), sigVal / B1]
  }

  // ---------------------------------------------------------------------------------------------
  // The host

  function OpOf(base: int): int {
    base / B1 % B1
  }

  function QpCount(base: int): int {
    base / B3 % B4
  }

  /** The number of entries the handler of a base entry reads; 0 for an operation without a handler. */
  function HostLength(base: int): (n: int)
    ensures n >= 0
  {
    var op := OpOf(base);
    if op in {OP_PUT, OP_GET, OP_G, QP_OFFSET + OP_PUT, QP_OFFSET + OP_GET, QP_OFFSET + OP_G} then 4
    else if op == OP_P then 3
    else if op == QP_OFFSET + OP_P then 4
    else if op == OP_AMO then 5
    else if op == QP_OFFSET + OP_AMO then 6
    else if op == OP_FENCE then 1
    else if op == OP_FENCE_QP || op == OP_QUIET_QP then 1 + QpCount(base)
    else if op == OP_PUT_SIGNAL || op == QP_OFFSET + OP_PUT_SIGNAL then 6
    else 0
  }

  function PeOf(p: int): int {
    p / B1 % B2
  }

  function HighWord(p: int): int {
    p / B3 % B4
  }

  function ROffset(p: int): int {
    p / B2 % B5
  }

  function Targets(s: seq<int>): (t: seq<Target>)
    ensures |t| == |s|
  {
    seq(|s|, k requires 0 <= k < |s| => Target(PeOf(s[k]), HighWord(s[k])))
  }

  /** What the handler of a request makes of its entries. */
  function Decode(s: seq<int>): Command
    requires s != [] && |s| == HostLength(s[0])
  {
    var op := OpOf(s[0]);
    if op == OP_P || op == QP_OFFSET + OP_P then
      var size := PeOf(s[2]);
      PutValue(ROffset(s[0]), HighWord(s[1]) + (if size == 8 then B4 * HighWord(s[2]) else 0), size, PeOf(s[1]),
               if op >= QP_OFFSET then HighWord(s[3]) else QP_DEFAULT)
    else if op == OP_AMO || op == QP_OFFSET + OP_AMO then
      var amo := s[1] % B1;
      Atomic(amo, ROffset(s[0]), HighWord(s[1]) + B4 * HighWord(s[2]),
             if amo == AMO_COMPARE_SWAP then B1 * (s[3] % B7) + s[2] % B1 else 0,
             if amo > AMO_END_OF_NONFETCH then s[4] % B7 else 0,
             PeOf(s[2]), PeOf(s[1]), if op >= QP_OFFSET then HighWord(s[5]) else QP_DEFAULT)
    else if op == OP_FENCE then FenceAll
    else if op == OP_FENCE_QP then FenceQps(Targets(s[1..]))
    else if op == OP_QUIET_QP then QuietQps(Targets(s[1..]))
    else if op == OP_PUT_SIGNAL || op == QP_OFFSET + OP_PUT_SIGNAL then
      WriteAndSignal(ROffset(s[0]), B1 * (s[1] % B7) + s[2] % B1, s[2] / B1 % B6, PeOf(s[3]),
                     if op >= QP_OFFSET then HighWord(s[3]) else QP_DEFAULT,
                     s[4] / B1 % B1, ROffset(s[4]), B1 * (s[5] % B7) + s[4] % B1)
    else
      Rma(if op > QP_OFFSET then op - QP_OFFSET else op, ROffset(s[0]), B1 * (s[1] % B7) + s[2] % B1,
          s[2] / B1 % B6, PeOf(s[3]), if op >= QP_OFFSET then HighWord(s[3]) else QP_DEFAULT)
  }

  // ---------------------------------------------------------------------------------------------
  // Round trips

  function AllOn(pe: int, qps: seq<int>): (t: seq<Target>)
    ensures |t| == |qps| && forall k :: 0 <= k < |qps| ==> t[k] == Target(pe, qps[k])
  {
    seq(|qps|, k requires 0 <= k < |qps| => Target(pe, qps[k]))
  }

  /** What a request means, with nothing lost; operands an atomic does not use are zero. */
  function Meaning(r: Request): Command {
    match r
    case Dma(op, roffset, laddr, size, pe, qp) => Rma(op, roffset, laddr, size, pe, qp)
    case Inline(roffset, value, size, pe, qp) => PutValue(roffset, value, size, pe, qp)
    case Amo(amo, roffset, swapAdd, compare, counter, size, pe, qp) =>
      Atomic(amo, roffset, swapAdd, if amo == AMO_COMPARE_SWAP then compare else 0,
             if amo > AMO_END_OF_NONFETCH then counter else 0, size, pe, qp)
    case Fence => FenceAll
    case QpFence(pe, qps) => FenceQps(AllOn(pe, qps))
    case QpQuiet(pe, qps) => QuietQps(AllOn(pe, qps))
    case PutSignal(roffset, laddr, size, pe, qp, sigOp, sigOffset, sigVal) =>
      WriteAndSignal(roffset, laddr, size, pe, qp, sigOp, sigOffset, sigVal)
  }

  /** The arguments fit the fields of the entries. */
  predicate Fits(r: Request) {
    match r
    case Dma(op, roffset, laddr, size, pe, qp) => roffset < B5 && size < B6 && pe < B2
    case Inline(roffset, value, size, pe, qp) => roffset < B5 && pe < B2
    case Amo(amo, roffset, swapAdd, compare, counter, size, pe, qp) =>
      roffset < B5 && pe < B2 && (amo > AMO_END_OF_NONFETCH ==> counter < B7)
    case Fence => true
    case QpFence(pe, qps) => qps == [] || pe == OP_FENCE_QP
    case QpQuiet(pe, qps) => qps == [] || pe < B2
    case PutSignal(roffset, laddr, size, pe, qp, sigOp, sigOffset, sigVal) =>
      roffset < B5 && size < B6 && pe < B2 && sigOffset < B5
  }

  lemma BaseFields(op: int, roffset: int)
    requires 0 <= op < B1
    ensures var p := BasePayload(op, roffset); OpOf(p) == op && ROffset(p) == roffset % B5
  {
    SignalFields(1, op, roffset);
  }

  lemma PeQpFields(low: int, pe: int, qp: int)
    requires 0 <= low < B1 && 0 <= pe < B2 && 0 <= qp < B4
    ensures var p := low + B1 * pe + B3 * qp; p % B1 == low && PeOf(p) == pe && HighWord(p) == qp
  {
    var p := low + B1 * pe + B3 * qp;
    DivIs(p, B1, pe + B2 * qp, low);
    DivIs(pe + B2 * qp, B2, qp, pe);
    DivIs(p, B3, qp, low + B1 * pe);
    DivIs(qp, B4, 0, qp);
  }

  /** A 64-bit value sent as its low byte and its other seven bytes, or as two halves. */
  lemma SplitFields(x: int)
    requires Word(x)
    ensures B1 * (x / B1 % B7) + x % B1 == x
    ensures 0 <= x / B4 < B4 && x % B4 + B4 * (x / B4) == x
  {
    assert 0 <= x / B1 < B7;
    DivIs(x / B1, B7, 0, x / B1);
  }

  lemma SizeFields(low: int, size: int)
    requires 0 <= low < B1
    ensures var p := low + B1 * (size % B6); p % B1 == low && p / B1 % B6 == size % B6
  {
    var x := size % B6;
    DivIs(low + B1 * x, B1, x, low);
    DivIs(x, B6, 0, x);
  }

  lemma SignalFields(low: int, op: int, offset: int)
    requires 0 <= low < B1 && 0 <= op < B1
    ensures var p := low + B1 * op + B2 * (offset % B5); p % B1 == low && OpOf(p) == op && ROffset(p) == offset % B5
  {
    var x := offset % B5;
    var p := low + B1 * op + B2 * x;
    DivIs(p, B1, op + B1 * x, low);
    DivIs(op + B1 * x, B1, x, op);
    DivIs(p, B2, x, low + B1 * op);
    DivIs(x, B5, 0, x);
  }

  lemma TruncatedIff(x: int, b: int)
    requires 0 <= x && b > 0
    ensures x % b == x <==> x < b
  {
  }

  /** The handler of a request reads exactly the entries the device wrote. */
  lemma LengthsAgree(r: Request)
    requires Legal(r)
    ensures HostLength(Encode(r)[0]) == |Encode(r)|
  {
    hide BasePayload, OpOf, PeOf, QpCount;
    if r.QpFence? || r.QpQuiet? {
      SyncBaseFields(if r.QpFence? then OP_FENCE_QP else OP_QUIET_QP, |r.qps|);
    } else if r.Fence? {
      SyncBaseFields(OP_FENCE, 0);
    } else {
      BaseFields(OpFor(if r.Dma? then r.op else if r.Inline? then OP_P else if r.Amo? then OP_AMO else OP_PUT_SIGNAL, r.qp), r.roffset);
    }
  }

  /** Some request of the device carries this operation. */
  ghost predicate DeviceSends(op: int) {
    exists r :: Legal(r) && OpOf(Encode(r)[0]) == op
  }

  lemma SentOp(r: Request)
    requires Legal(r)
    ensures DeviceSends(OpOf(Encode(r)[0]))
  {
  }

  lemma SendsData(op: int, qp: int)
    requires op in {OP_PUT, OP_P, OP_PUT_SIGNAL, OP_GET, OP_G, OP_AMO} && 0 <= qp < B4
    ensures DeviceSends(OpFor(op, qp))
  {
    hide BasePayload, OpOf, DeviceSends;
    var r := if op == OP_P then Inline(0, 0, 1, 0, qp)
             else if op == OP_AMO then Amo(0, 0, 0, 0, 0, 4, 0, qp)
             else if op == OP_PUT_SIGNAL then PutSignal(0, 0, 0, 0, qp, 0, 0, 0)
             else Dma(op, 0, 0, 0, 0, qp);
    BaseFields(OpFor(op, qp), 0);
    SentOp(r);
  }

  lemma SendsSync(op: int)
    requires op in {OP_FENCE, OP_FENCE_QP, OP_QUIET_QP}
    ensures DeviceSends(op)
  {
    hide OpOf, DeviceSends;
    var r := if op == OP_FENCE then Fence else if op == OP_FENCE_QP then QpFence(0, []) else QpQuiet(0, []);
    SyncBaseFields(op, 0);
    SentOp(r);
  }

  /** The host has a handler for exactly the operations that a device can send. */
  lemma HandlersIff(base: int)
    ensures HostLength(base) > 0 <==> DeviceSends(OpOf(base))
  {
    hide OpOf, DeviceSends, QpCount, Encode, Legal;
    var op := OpOf(base);
    if HostLength(base) > 0 {
      if op in {OP_FENCE, OP_FENCE_QP, OP_QUIET_QP} {
        SendsSync(op);
      } else if op < QP_OFFSET {
        SendsData(op, QP_DEFAULT);
      } else {
        SendsData(op - QP_OFFSET, 0);
      }
    }
    if DeviceSends(op) {
      SendsHandled(base);
    }
  }

  lemma SendsHandled(base: int)
    requires DeviceSends(OpOf(base))
    ensures HostLength(base) > 0
  {
    hide Encode, Legal, OpOf;
    var r :| Legal(r) && OpOf(Encode(r)[0]) == OpOf(base);
    LengthsAgree(r);
    CountIsNat(base);
  }

  lemma CountIsNat(base: int)
    ensures QpCount(base) >= 0
  {
  }

  lemma SyncBaseFields(op: int, count: int)
    requires 0 <= op < B1 && 0 <= count < B4
    ensures OpOf(B1 * op + B3 * count) == op && QpCount(B1 * op + B3 * count) == count
  {
    var p := B1 * op + B3 * count;
    DivIs(p, B1, op + B2 * count, 0);
    DivIs(op + B2 * count, B1, B1 * count, op);
    DivIs(p, B3, count, B1 * op);
    DivIs(count, B4, 0, count);
  }

  lemma DmaRoundTrip(r: Request)
    requires Legal(r) && r.Dma?
    ensures |Encode(r)| == HostLength(Encode(r)[0])
    ensures Decode(Encode(r)) == Meaning(r) <==> Fits(r)
  {
    hide BasePayload, OpOf, PeOf, QpCount, HighWord, ROffset;
    LengthsAgree(r);
    BaseFields(OpFor(r.op, r.qp), r.roffset);
    SplitFields(r.laddr);
    SizeFields(r.laddr % B1, r.size);
    PeQpFields(0, r.pe % B2, r.qp);
    TruncatedIff(r.roffset, B5);
    TruncatedIff(r.size, B6);
    TruncatedIff(r.pe, B2);
  }

  lemma InlineRoundTrip(r: Request)
    requires Legal(r) && r.Inline?
    ensures |Encode(r)| == HostLength(Encode(r)[0])
    ensures Decode(Encode(r)) == Meaning(r) <==> Fits(r)
  {
    hide BasePayload, OpOf, PeOf, QpCount, HighWord, ROffset;
    LengthsAgree(r);
    BaseFields(OpFor(OP_P, r.qp), r.roffset);
    SplitFields(r.value);
    PeQpFields(0, r.pe % B2, r.value % B4);
    PeQpFields(0, r.size, r.value / B4);
    PeQpFields(0, 0, r.qp);
    TruncatedIff(r.roffset, B5);
    TruncatedIff(r.pe, B2);
  }

  lemma AmoRoundTrip(r: Request)
    requires Legal(r) && r.Amo?
    ensures |Encode(r)| == HostLength(Encode(r)[0])
    ensures Decode(Encode(r)) == Meaning(r) <==> Fits(r)
  {
    hide BasePayload, OpOf, PeOf, QpCount, HighWord, ROffset;
    LengthsAgree(r);
    BaseFields(OpFor(OP_AMO, r.qp), r.roffset);
    SplitFields(r.swapAdd);
    SplitFields(r.compare);
    PeQpFields(r.amo, r.pe % B2, r.swapAdd % B4);
    PeQpFields(r.compare % B1, r.size, r.swapAdd / B4);
    PeQpFields(0, 0, r.qp);
    TruncatedIff(r.roffset, B5);
    TruncatedIff(r.pe, B2);
    TruncatedIff(r.counter, B7);
    TruncatedIff(r.counter % B7, B7);
  }

  lemma PutSignalRoundTrip(r: Request)
    requires Legal(r) && r.PutSignal?
    ensures |Encode(r)| == HostLength(Encode(r)[0])
    ensures Decode(Encode(r)) == Meaning(r) <==> Fits(r)
  {
    hide BasePayload, OpOf, PeOf, QpCount, HighWord, ROffset;
    LengthsAgree(r);
    BaseFields(OpFor(OP_PUT_SIGNAL, r.qp), r.roffset);
    SplitFields(r.laddr);
    SizeFields(r.laddr % B1, r.size);
    PeQpFields(0, r.pe % B2, r.qp);
    SignalFields(r.sigVal % B1, r.sigOp, r.sigOffset);
    SplitFields(r.sigVal);
    TruncatedIff(r.roffset, B5);
    TruncatedIff(r.size, B6);
    TruncatedIff(r.pe, B2);
    TruncatedIff(r.sigOffset, B5);
  }

  function Pow2(k: nat): nat {
    if k == 0 then 1 else 2 * Pow2(k - 1)
  }

  lemma Powers()
    ensures Pow2(16) == B2 && Pow2(32) == B4
  {
    assert Pow2(8) == B1;
    Pow2Sum(8, 8);
    Pow2Sum(16, 16);
  }

  lemma {:induction false} Pow2Sum(a: nat, b: nat)
    ensures Pow2(a + b) == Pow2(a) * Pow2(b)
  {
    if a > 0 {
      Pow2Sum(a - 1, b);
    }
  }

  /** Bitwise or of two numbers of k bits has k bits. */
  lemma {:induction false} OrBelow(a: nat, b: nat, k: nat)
    requires a < Pow2(k) && b < Pow2(k)
    ensures Or(a, b) < Pow2(k)
  {
    if a != 0 && b != 0 {
      OrBelow(a / 2, b / 2, k - 1);
    }
  }

  lemma {:induction false} OrAtMostSum(a: nat, b: nat)
    ensures Or(a, b) <= a + b
    decreases a
  {
    if a != 0 && b != 0 {
      OrAtMostSum(a / 2, b / 2);
    }
  }

  /** What the host reads for a fence on a queue pair: right for PE 106 and no other. */
  lemma FencePe(pe: int, qp: int)
    requires PeQp(pe, qp)
    ensures var p := FencePayload(pe, qp);
      && PeOf(p) == Or(OP_FENCE_QP, pe / B1 % B2) && HighWord(p) == Or(qp, pe / B3)
      && (PeOf(p) == pe <==> pe == OP_FENCE_QP)
      && (pe == OP_FENCE_QP ==> HighWord(p) == qp)
  {
    hide Or, PeOf, HighWord;
    var high, over := pe / B1 % B2, pe / B3;
    Powers();
    assert 0 <= over < B1;
    OrBelow(OP_FENCE_QP, high, 16);
    OrBelow(qp, over, 32);
    PeQpFields(pe % B1, Or(OP_FENCE_QP, high), Or(qp, over));
    FencePeField(pe);
    OrZero(qp);
  }

  lemma OrZero(a: nat)
    ensures Or(a, 0) == a
  {
  }

  lemma FencePeField(pe: int)
    requires 0 <= pe < 0x8000_0000 && Or(OP_FENCE_QP, pe / B1 % B2) < B2
    ensures Or(OP_FENCE_QP, pe / B1 % B2) == pe <==> pe == OP_FENCE_QP
  {
    hide Or;
    OrZero(OP_FENCE_QP);
    if B1 <= pe < B2 {
      OrAtMostSum(OP_FENCE_QP, pe / B1);
      assert pe / B1 % B2 == pe / B1;
      assert OP_FENCE_QP + pe / B1 < B1 * (pe / B1) <= pe;
    }
  }

  lemma QpFenceRoundTrip(r: Request)
    requires Legal(r) && r.QpFence?
    ensures |Encode(r)| == HostLength(Encode(r)[0])
    ensures Decode(Encode(r)) == Meaning(r) <==> Fits(r)
  {
    hide PeOf, QpCount, HighWord, Or, FencePayload;
    LengthsAgree(r);
    SyncBaseFields(OP_FENCE_QP, |r.qps|);
    var s := Encode(r);
    forall k | 0 <= k < |r.qps|
      ensures PeOf(s[1..][k]) == r.pe <==> r.pe == OP_FENCE_QP
      ensures r.pe == OP_FENCE_QP ==> HighWord(s[1..][k]) == r.qps[k]
    {
      FencePe(r.pe, r.qps[k]);
      assert s[1..][k] == FencePayload(r.pe, r.qps[k]);
    }
    SameTargets(s[1..], r.pe, r.qps);
    assert r.qps != [] ==> PeOf(s[1..][0]) == PeOf(s[1]);
  }

  /** The targets read are those meant when each entry has the PE and the queue pair. */
  lemma SameTargets(entries: seq<int>, pe: int, qps: seq<int>)
    requires |entries| == |qps|
    ensures Targets(entries) == AllOn(pe, qps) <==>
      forall k :: 0 <= k < |qps| ==> PeOf(entries[k]) == pe && HighWord(entries[k]) == qps[k]
  {
    hide PeOf, HighWord;
    var got, want := Targets(entries), AllOn(pe, qps);
    if got == want {
      forall k | 0 <= k < |qps|
        ensures PeOf(entries[k]) == pe && HighWord(entries[k]) == qps[k]
      {
        assert got[k] == want[k];
      }
    }
  }

  lemma QpQuietRoundTrip(r: Request)
    requires Legal(r) && r.QpQuiet?
    ensures |Encode(r)| == HostLength(Encode(r)[0])
    ensures Decode(Encode(r)) == Meaning(r) <==> Fits(r)
  {
    hide PeOf, QpCount, HighWord;
    LengthsAgree(r);
    SyncBaseFields(OP_QUIET_QP, |r.qps|);
    var s := Encode(r);
    forall k | 0 <= k < |r.qps|
      ensures PeOf(s[1..][k]) == r.pe % B2 && HighWord(s[1..][k]) == r.qps[k]
    {
      PeQpFields(OP_QUIET_QP, r.pe % B2, r.qps[k]);
    }
    TruncatedIff(r.pe, B2);
    SameTargets(s[1..], r.pe, r.qps);
    assert r.qps != [] ==> PeOf(s[1..][0]) == PeOf(s[1]);
  }

  /** The host executes what the device asked for exactly when every argument fits its field. */
  lemma RoundTripIff(r: Request)
    requires Legal(r)
    ensures |Encode(r)| == HostLength(Encode(r)[0])
    ensures Decode(Encode(r)) == Meaning(r) <==> Fits(r)
  {
    hide Decode, Encode, Meaning;
    LengthsAgree(r);
    match r
    case Dma(_, _, _, _, _, _) => DmaRoundTrip(r);
    case Inline(_, _, _, _, _) => InlineRoundTrip(r);
    case Amo(_, _, _, _, _, _, _, _) => AmoRoundTrip(r);
    case Fence => FenceRoundTrip();
    case QpFence(_, _) => QpFenceRoundTrip(r);
    case QpQuiet(_, _) => QpQuietRoundTrip(r);
    case PutSignal(_, _, _, _, _, _, _, _) => PutSignalRoundTrip(r);
  }

  lemma FenceRoundTrip()
    ensures |Encode(Fence)| == HostLength(Encode(Fence)[0])
    ensures Decode(Encode(Fence)) == Meaning(Fence)
  {
    LengthsAgree(Fence);
  }

  /** A fence for PE 3 reaches the transport as a fence for PE 106. */
  lemma QpFenceReachesWrongPe()
    ensures var r := QpFence(3, [2]);
      && Legal(r) && |Encode(r)| == HostLength(Encode(r)[0])
      && Decode(Encode(r)) == FenceQps([Target(106, 2)]) != Meaning(r)
  {
    var r := QpFence(3, [2]);
    LengthsAgree(r);
    assert Or(OP_FENCE_QP, 0) == OP_FENCE_QP && Or(2, 0) == 2;
    PeQpFields(3, 106, 2);
    assert Targets(Encode(r)[1..]) == [Target(106, 2)];
    assert Meaning(r).targets[0] == Target(3, 2);
  }
}
