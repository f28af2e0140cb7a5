/**
 A proxy channel as a step system.  Device threads reserve space for requests, write their entries
 in any order once the flow control lets them, and ask for quiet; the host reads, executes and acks.
 Entries appear atomically and in one order for both sides.
 */
module ProxyChannel {
  import opened Arithmetic
  import opened ProxyCodec
  import opened ProxyHost

  /** `written` holds the positions written so far; requests are in the order of their reservation. */
  datatype Device = Device(issued: seq<Request>, written: set<int>, quietIssue: int)

  datatype State = State(device: Device, host: Host, slots: seq<int>)

  datatype Step =
    | Reserve(r: Request)
    | Write(k: int, i: int)
    | RaiseQuiet(k: int)
    | See
    | Execute
    | QuietCheck
    | QuietTest
    | QuietDrain

  predicate AllLegal(issued: seq<Request>) {
    forall k :: 0 <= k < |issued| ==> Legal(issued[k])
  }

  /** The payloads of the requests, one request after the other. */
  function Stream(issued: seq<Request>): seq<int>
    requires AllLegal(issued)
    decreases |issued|
  {
    if issued == [] then []
    else Stream(issued[..|issued| - 1]) + Encode(issued[|issued| - 1])
  }

  /** The position of request k. */
  function Start(issued: seq<Request>, k: int): int
    requires AllLegal(issued) && 0 <= k <= |issued|
  {
    |Stream(issued[..k])|
  }

  function WordAt(n: int, stream: seq<int>, p: int): int
    requires n > 0 && 0 <= p < |stream|
  {
    B1 * stream[p] + Flag(n, p)
  }

  predicate ConfigOk(cfg: Config) {
    cfg.n > 0
  }

  function Init(cfg: Config): State
    requires ConfigOk(cfg)
  {
    State(Device([], {}, 0), Host(0, 0, 0, 0, Inactive, 0, 0, false, []), seq(cfg.n, _ => 0))
  }

  predicate Shape(cfg: Config, s: State) {
    ConfigOk(cfg) && |s.slots| == cfg.n && AllLegal(s.device.issued)
  }

  predicate Enabled(cfg: Config, s: State, step: Step)
    requires Shape(cfg, s)
  {
    var d, h := s.device, s.host;
    match step
    case Reserve(r) => Legal(r)
    case Write(k, i) =>
      && 0 <= k < |d.issued| && 0 <= i < |Encode(d.issued[k])|
      && Start(d.issued, k) + i !in d.written
      && Start(d.issued, k + 1) <= h.complete + cfg.n
    case RaiseQuiet(k) => 0 <= k <= |d.issued|
    case See =>
      && (h.seen == 0 || h.seen < HostLength(PayloadAt(cfg, s.slots, h.processed)))
      && FlagSet(cfg, s.slots, h.processed + h.seen)
    case Execute => h.seen > 0 && h.seen == HostLength(PayloadAt(cfg, s.slots, h.processed))
    case QuietCheck => h.seen == 0 && h.quiet == Inactive && d.quietIssue > h.lastQuietIssue
    case QuietTest => h.seen == 0 && h.quiet == InProgress && h.processed >= h.lastQuietIssue
    case QuietDrain => h.seen == 0 && h.quiet == Done
  }

  function Apply(cfg: Config, s: State, step: Step): State
    requires Shape(cfg, s) && Enabled(cfg, s, step)
  {
    var d, h := s.device, s.host;
    match step
    case Reserve(r) => s.(device := d.(issued := d.issued + [r]))
    case Write(k, i) =>
      var p := Start(d.issued, k) + i;
      StreamAt(d.issued, k, i);
      s.(device := d.(written := d.written + {p}),
         slots := s.slots[p % cfg.n := WordAt(cfg.n, Stream(d.issued), p)])
    case RaiseQuiet(k) =>
      var q := Start(d.issued, k);
      s.(device := d.(quietIssue := if q > d.quietIssue then q else d.quietIssue))
    case See => s.(host := h.(seen := h.seen + 1))
    case Execute => s.(host := ExecuteNext(cfg, h, s.slots))
    case QuietCheck => s.(host := CheckQuiet(h, d.quietIssue))
    case QuietTest => s.(host := TestQuiet(h))
    case QuietDrain => s.(host := DrainQuiet(cfg, h))
  }

  // ---------------------------------------------------------------------------------------------
  // The layout of requests

  lemma StreamAppend(issued: seq<Request>, r: Request)
    requires AllLegal(issued) && Legal(r)
    ensures AllLegal(issued + [r]) && Stream(issued + [r]) == Stream(issued) + Encode(r)
  {
    assert (issued + [r])[..|issued|] == issued;
  }

  lemma {:induction false} StreamPrefix(issued: seq<Request>, k: nat)
    requires AllLegal(issued) && k <= |issued|
    ensures Start(issued, k) <= |Stream(issued)| && Stream(issued[..k]) == Stream(issued)[..Start(issued, k)]
    decreases |issued|
  {
    if k < |issued| {
      var front := issued[..|issued| - 1];
      StreamPrefix(front, k);
      assert front[..k] == issued[..k];
    } else {
      assert issued[..k] == issued;
    }
  }

  lemma StartNext(issued: seq<Request>, k: nat)
    requires AllLegal(issued) && k < |issued|
    ensures Start(issued, k + 1) == Start(issued, k) + |Encode(issued[k])|
    ensures Stream(issued[..k + 1]) == Stream(issued[..k]) + Encode(issued[k])
  {
    assert issued[..k + 1][..k] == issued[..k];
  }

  /** Entry i of request k is at position Start(k) + i. */
  lemma StreamAt(issued: seq<Request>, k: nat, i: nat)
    requires AllLegal(issued) && k < |issued| && i < |Encode(issued[k])|
    ensures Start(issued, k) + i < Start(issued, k + 1) <= |Stream(issued)|
    ensures Stream(issued)[Start(issued, k) + i] == Encode(issued[k])[i]
  {
    hide Encode, Stream;
    StartNext(issued, k);
    StreamPrefix(issued, k + 1);
    var a, e := Stream(issued[..k]), Encode(issued[k]);
    assert (a + e)[|a| + i] == e[i];
  }

  /** Requests keep their positions when more are reserved. */
  lemma StartStays(issued: seq<Request>, r: Request, k: nat)
    requires AllLegal(issued) && Legal(r) && k <= |issued|
    ensures AllLegal(issued + [r]) && Start(issued + [r], k) == Start(issued, k)
  {
    assert (issued + [r])[..k] == issued[..k];
  }

  // ---------------------------------------------------------------------------------------------
  // What the slots hold

  /** The word in the slot of p: written in this lap, left from the lap before, or zero. */
  function SlotWord(n: int, stream: seq<int>, written: set<int>, p: int): int
    requires n > 0
  {
    if p in written && 0 <= p < |stream| then WordAt(n, stream, p)
    else if 0 <= p - n < |stream| then WordAt(n, stream, p - n)
    else 0
  }

  ghost predicate SlotsOk(n: int, slots: seq<int>, stream: seq<int>, written: set<int>, from: int)
    requires n > 0 && |slots| == n
  {
    forall p :: from <= p < from + n ==> slots[p % n] == SlotWord(n, stream, written, p)
  }

  /** Everything below `from` is written and nothing at or beyond `limit`. */
  ghost predicate WrittenOk(stream: seq<int>, written: set<int>, from: int, limit: int) {
    && (forall p :: 0 <= p < from ==> p in written)
    && (forall p :: p in written ==> 0 <= p < |stream| && p < limit)
  }

  lemma FlagFlips(n: int, p: int)
    requires n > 0
    ensures Flag(n, p) != Flag(n, p - n)
    ensures 0 <= p < n ==> Flag(n, p) == 1
  {
    WindowResidues(p - n, p - n, n);
    if 0 <= p < n {
      DivIs(p, n, 0, p);
    }
  }

  /** In the window of the host, a flag is set exactly when the entry was written in this lap. */
  lemma FlagMeansWritten(n: int, slots: seq<int>, stream: seq<int>, written: set<int>, from: int, limit: int, p: int)
    requires n > 0 && |slots| == n && 0 <= from <= |stream| && limit <= from + n
    requires SlotsOk(n, slots, stream, written, from) && WrittenOk(stream, written, from, limit)
    requires from <= p < from + n
    ensures slots[p % n] % B1 == Flag(n, p) <==> p in written
  {
    hide Flag;
    FlagFlips(n, p);
    WordFlag(n, stream, p);
    WordFlag(n, stream, p - n);
    assert slots[p % n] == SlotWord(n, stream, written, p);
  }

  lemma WordFlag(n: int, stream: seq<int>, p: int)
    requires n > 0
    ensures 0 <= p < |stream| ==> WordAt(n, stream, p) % B1 == Flag(n, p)
  {
  }

  /** Past the window the host waits: the slot still holds the entry one lap earlier. */
  lemma LapAheadNotSet(n: int, slots: seq<int>, stream: seq<int>, written: set<int>, from: int)
    requires n > 0 && |slots| == n && 0 <= from < |stream| && from in written
    requires SlotsOk(n, slots, stream, written, from)
    ensures slots[(from + n) % n] % B1 != Flag(n, from + n)
  {
    hide Flag;
    WindowResidues(from, from, n);
    FlagFlips(n, from + n);
    WordFlag(n, stream, from);
    assert slots[from % n] == SlotWord(n, stream, written, from);
  }

  // ---------------------------------------------------------------------------------------------
  // How steps change the slots

  lemma SlotsAfterReserve(
      n: int, slots: seq<int>, stream: seq<int>, more: seq<int>, written: set<int>, from: int, to: int, limit: int)
    requires n > 0 && |slots| == n && 0 <= from <= to <= |stream|
    requires SlotsOk(n, slots, stream, written, from) && WrittenOk(stream, written, to, limit)
    ensures SlotsOk(n, slots, stream + more, written, from) && WrittenOk(stream + more, written, to, limit)
  {
    forall p | from <= p < from + n
      ensures slots[p % n] == SlotWord(n, stream + more, written, p)
    {
      hide Flag;
      assert slots[p % n] == SlotWord(n, stream, written, p);
    }
  }

  lemma SlotsAfterWrite(n: int, slots: seq<int>, stream: seq<int>, written: set<int>, from: int, limit: int, p: int)
    requires n > 0 && |slots| == n && 0 <= from <= |stream| && limit <= from + n
    requires SlotsOk(n, slots, stream, written, from) && WrittenOk(stream, written, from, limit)
    requires p !in written && 0 <= p < |stream| && p < limit
    ensures SlotsOk(n, slots[p % n := WordAt(n, stream, p)], stream, written + {p}, from)
    ensures WrittenOk(stream, written + {p}, from, limit)
  {
    var slots' := slots[p % n := WordAt(n, stream, p)];
    forall q | from <= q < from + n
      ensures slots'[q % n] == SlotWord(n, stream, written + {p}, q)
    {
      hide Flag;
      SameResidue(n, from, p, q);
      assert slots[q % n] == SlotWord(n, stream, written, q);
    }
  }

  lemma SameResidue(n: int, from: int, p: int, q: int)
    requires n > 0 && from <= p < from + n && from <= q < from + n
    ensures p % n == q % n <==> p == q
  {
    if p <= q {
      WindowResidues(p, q, n);
    } else {
      WindowResidues(q, p, n);
    }
  }

  lemma SlotsAfterAdvance(n: int, slots: seq<int>, stream: seq<int>, written: set<int>, from: int, limit: int, to: int)
    requires n > 0 && |slots| == n && 0 <= from <= to <= from + n && to <= |stream| && limit <= from + n
    requires SlotsOk(n, slots, stream, written, from) && WrittenOk(stream, written, to, limit)
    ensures SlotsOk(n, slots, stream, written, to)
  {
    forall p | to <= p < to + n
      ensures slots[p % n] == SlotWord(n, stream, written, p)
    {
      hide Flag;
      if p < from + n {
        assert slots[p % n] == SlotWord(n, stream, written, p);
      } else {
        WindowResidues(p - n, p - n, n);
        assert slots[(p - n) % n] == SlotWord(n, stream, written, p - n);
      }
    }
  }

  // ---------------------------------------------------------------------------------------------
  // The invariant of the channel

  /** The commands in a log, in order. */
  function Execs(log: seq<Event>): seq<Command>
    decreases |log|
  {
    if log == [] then []
    else
      var e := log[|log| - 1];
      Execs(log[..|log| - 1]) + if e.Executed? then [e.c] else []
  }

  lemma {:induction false} ExecsAppend(a: seq<Event>, b: seq<Event>)
    ensures Execs(a + b) == Execs(a) + Execs(b)
    decreases |b|
  {
    if b == [] {
      assert a + b == a;
    } else {
      ExecsAppend(a, b[..|b| - 1]);
      assert (a + b)[..|a + b| - 1] == a + b[..|b| - 1];
    }
  }

  /** What the host makes of a request. */
  ghost function Decoded(r: Request): Command
    requires Legal(r)
  {
    LengthsAgree(r);
    Decode(Encode(r))
  }

  /** The commands executed are the requests issued, in order, up to some point. */
  ghost predicate InOrder(issued: seq<Request>, cs: seq<Command>)
    requires AllLegal(issued)
  {
    |cs| <= |issued| && forall i :: 0 <= i < |cs| ==> cs[i] == Decoded(issued[i])
  }

  predicate CountersOk(h: Host) {
    h.complete == h.lastSync && 0 <= h.complete <= h.processed < h.complete + THRESHOLD
  }

  /** The host is between requests, or some way into the next one. */
  ghost predicate PositionOk(issued: seq<Request>, h: Host)
    requires AllLegal(issued)
  {
    var k := |Execs(h.log)|;
    && k <= |issued| && h.processed == Start(issued, k)
    && h.seen >= 0
    && (h.seen > 0 ==> k < |issued| && h.seen <= |Encode(issued[k])|)
  }

  ghost predicate ChannelInv(cfg: Config, s: State) {
    && Shape(cfg, s)
    && CountersOk(s.host)
    && PositionOk(s.device.issued, s.host)
    && InOrder(s.device.issued, Execs(s.host.log))
    && SlotsOk(cfg.n, s.slots, Stream(s.device.issued), s.device.written, s.host.processed)
    && WrittenOk(Stream(s.device.issued), s.device.written, s.host.processed + s.host.seen, s.host.complete + cfg.n)
  }

  lemma InitInv(cfg: Config)
    requires ConfigOk(cfg)
    ensures ChannelInv(cfg, Init(cfg))
  {
  }

  /** The position of the host is a position in the stream. */
  lemma PositionInStream(issued: seq<Request>, h: Host)
    requires AllLegal(issued) && PositionOk(issued, h)
    ensures 0 <= h.processed <= h.processed + h.seen <= |Stream(issued)|
  {
    var k := |Execs(h.log)|;
    StreamPrefix(issued, k);
    if h.seen > 0 {
      StreamAt(issued, k, h.seen - 1);
    }
  }

  /** Freshness: no entry is taken for a new one before it was written in this lap. */
  lemma Freshness(cfg: Config, s: State, p: int)
    requires ChannelInv(cfg, s) && s.host.processed <= p < s.host.processed + cfg.n
    ensures FlagSet(cfg, s.slots, p) <==> p in s.device.written
  {
    hide Flag, SlotsOk, WrittenOk, PositionOk, Stream, InOrder;
    var h := s.host;
    PositionInStream(s.device.issued, h);
    WrittenFewer(Stream(s.device.issued), s.device.written, h.processed, h.processed + h.seen, h.complete + cfg.n);
    FlagMeansWritten(cfg.n, s.slots, Stream(s.device.issued), s.device.written, h.processed, h.complete + cfg.n, p);
  }

  /** Flag bytes are 0 or 1, so masking the flag of a base entry, as the poll does, changes nothing. */
  lemma FlagBytes(cfg: Config, s: State, p: int)
    requires ChannelInv(cfg, s) && s.host.processed <= p < s.host.processed + cfg.n
    ensures EntryAt(cfg, s.slots, p) % B1 == EntryAt(cfg, s.slots, p) % B1 % 2
  {
    hide Flag, WrittenOk, PositionOk, SlotsOk, Stream, InOrder;
    FlagByte(cfg.n, s.slots, Stream(s.device.issued), s.device.written, s.host.processed, p);
  }

  lemma FlagByte(n: int, slots: seq<int>, stream: seq<int>, written: set<int>, from: int, p: int)
    requires n > 0 && |slots| == n && SlotsOk(n, slots, stream, written, from) && from <= p < from + n
    ensures slots[p % n] % B1 == 0 || slots[p % n] % B1 == 1
  {
    hide Flag;
    WordFlag(n, stream, p);
    WordFlag(n, stream, p - n);
    assert slots[p % n] == SlotWord(n, stream, written, p);
  }

  lemma WrittenFewer(stream: seq<int>, written: set<int>, from: int, from': int, limit: int)
    requires from <= from' && WrittenOk(stream, written, from', limit)
    ensures WrittenOk(stream, written, from, limit)
  {
  }

  lemma ReserveKeepsInv(cfg: Config, s: State, r: Request)
    requires ChannelInv(cfg, s) && Legal(r)
    ensures ChannelInv(cfg, Apply(cfg, s, Reserve(r)))
  {
    hide SlotsOk, WrittenOk, Stream, Encode;
    var d, h := s.device, s.host;
    var k := |Execs(h.log)|;
    StreamAppend(d.issued, r);
    StartStays(d.issued, r, k);
    PositionInStream(d.issued, h);
    SlotsAfterReserve(cfg.n, s.slots, Stream(d.issued), Encode(r), d.written, h.processed, h.processed + h.seen, h.complete + cfg.n);
    assert k < |d.issued| ==> (d.issued + [r])[k] == d.issued[k];
    InOrderStays(d.issued, r, Execs(h.log));
  }

  lemma InOrderStays(issued: seq<Request>, r: Request, cs: seq<Command>)
    requires AllLegal(issued) && Legal(r) && InOrder(issued, cs) && AllLegal(issued + [r])
    ensures InOrder(issued + [r], cs)
  {
    hide Decoded;
    forall i | 0 <= i < |cs|
      ensures cs[i] == Decoded((issued + [r])[i])
    {
      assert (issued + [r])[i] == issued[i];
    }
  }

  lemma WriteKeepsInv(cfg: Config, s: State, k: int, i: int)
    requires ChannelInv(cfg, s) && Enabled(cfg, s, Write(k, i))
    ensures ChannelInv(cfg, Apply(cfg, s, Write(k, i)))
  {
    hide SlotsOk, Stream, Encode, InOrder, PositionOk;
    var d, h := s.device, s.host;
    var p := Start(d.issued, k) + i;
    StreamAt(d.issued, k, i);
    PositionInStream(d.issued, h);
    SlotsAfterWrite(cfg.n, s.slots, Stream(d.issued), d.written, h.processed, h.complete + cfg.n, p);
  }

  /** The host sees a flag only when the entry is there. */
  lemma SeeKeepsInv(cfg: Config, s: State)
    requires ChannelInv(cfg, s) && Enabled(cfg, s, See)
    ensures ChannelInv(cfg, Apply(cfg, s, See))
    ensures s.host.processed + s.host.seen in s.device.written
  {
    hide SlotsOk, Stream, Encode, InOrder, Flag;
    var d, h := s.device, s.host;
    PositionInStream(d.issued, h);
    SeenIsWritten(cfg, s);
    SeenInRequest(cfg, s);
  }

  lemma SeenIsWritten(cfg: Config, s: State)
    requires ChannelInv(cfg, s) && FlagSet(cfg, s.slots, s.host.processed + s.host.seen)
    ensures s.host.processed + s.host.seen in s.device.written
  {
    hide SlotsOk, Stream, Encode, InOrder, Flag, PositionOk;
    var d, h := s.device, s.host;
    PositionInStream(d.issued, h);
    assert h.seen > 0 ==> h.processed + h.seen - 1 in d.written;
    if h.seen < cfg.n {
      Freshness(cfg, s, h.processed + h.seen);
    } else {
      LapAheadNotSet(cfg.n, s.slots, Stream(d.issued), d.written, h.processed);
    }
  }

  /** The length the host computes from a base entry is that of the request. */
  lemma LengthIsRead(cfg: Config, s: State)
    requires ChannelInv(cfg, s) && s.host.processed in s.device.written
    ensures var k := |Execs(s.host.log)|;
      k < |s.device.issued| && HostLength(PayloadAt(cfg, s.slots, s.host.processed)) == |Encode(s.device.issued[k])|
  {
    hide Stream, Encode, InOrder, Flag, SlotsOk;
    var d, k := s.device, |Execs(s.host.log)|;
    assert d.issued[..|d.issued|] == d.issued;
    ReadsRequest(cfg, s, 0);
    LengthsAgree(d.issued[k]);
  }

  lemma SeenInRequest(cfg: Config, s: State)
    requires ChannelInv(cfg, s) && Enabled(cfg, s, See) && s.host.processed + s.host.seen in s.device.written
    ensures var k := |Execs(s.host.log)|; k < |s.device.issued| && s.host.seen < |Encode(s.device.issued[k])|
  {
    hide Stream, Encode, InOrder, Flag, SlotsOk;
    LengthIsRead(cfg, s);
  }

  /** What the host reads in the slots of the next request is what the device wrote there. */
  lemma ReadsRequest(cfg: Config, s: State, i: nat)
    requires ChannelInv(cfg, s) && s.host.processed + i in s.device.written
    requires var k := |Execs(s.host.log)|; k < |s.device.issued| && i < |Encode(s.device.issued[k])|
    ensures PayloadAt(cfg, s.slots, s.host.processed + i) == Encode(s.device.issued[|Execs(s.host.log)|])[i]
  {
    hide Stream, Encode, InOrder, Flag;
    var d, h := s.device, s.host;
    var k := |Execs(h.log)|;
    StreamAt(d.issued, k, i);
    assert s.slots[(h.processed + i) % cfg.n] == SlotWord(cfg.n, Stream(d.issued), d.written, h.processed + i);
  }

  /** When all flags are seen, the host reads the whole request and decodes it. */
  lemma ReadsCommand(cfg: Config, s: State)
    requires ChannelInv(cfg, s) && Enabled(cfg, s, Execute)
    ensures var k := |Execs(s.host.log)|;
      && k < |s.device.issued| && HasHandler(cfg, s.host, s.slots)
      && NextCommand(cfg, s.host, s.slots) == (Decoded(s.device.issued[k]), |Encode(s.device.issued[k])|)
      && s.host.seen == |Encode(s.device.issued[k])|
  {
    hide Stream, Encode, InOrder, Flag, SlotsOk, Decode;
    var d, h, k := s.device, s.host, |Execs(s.host.log)|;
    LengthIsRead(cfg, s);
    LengthsAgree(d.issued[k]);
    var e := ReadEntries(cfg, s.slots, h.processed, h.seen);
    forall i | 0 <= i < h.seen
      ensures e[i] == Encode(d.issued[k])[i]
    {
      ReadsRequest(cfg, s, i);
    }
    assert e == Encode(d.issued[k]);
  }

  lemma ExecuteKeepsInv(cfg: Config, s: State)
    requires ChannelInv(cfg, s) && Enabled(cfg, s, Execute)
    ensures ChannelInv(cfg, Apply(cfg, s, Execute))
    ensures var k := |Execs(s.host.log)|;
      k < |s.device.issued| && Execs(Apply(cfg, s, Execute).host.log) == Execs(s.host.log) + [Decoded(s.device.issued[k])]
  {
    hide Stream, Encode, Flag, SlotsOk, Decoded, NextCommand, Execs, Added, InOrder, WrittenOk, HasHandler;
    var d, h, k := s.device, s.host, |Execs(s.host.log)|;
    ReadsCommand(cfg, s);
    var c, len := Decoded(d.issued[k]), |Encode(d.issued[k])|;
    PerformLog(cfg, h, c, len);
    InOrderNext(d.issued, Execs(h.log));
    StartNext(d.issued, k);
    StreamPrefix(d.issued, k + 1);
    SlotsAfterExecute(cfg.n, s.slots, Stream(d.issued), d.written, h.processed, h.complete, len, Perform(cfg, h, c, len).complete);
  }

  lemma InOrderNext(issued: seq<Request>, cs: seq<Command>)
    requires AllLegal(issued) && InOrder(issued, cs) && |cs| < |issued|
    ensures InOrder(issued, cs + [Decoded(issued[|cs|])])
  {
    hide Decoded;
  }

  lemma SlotsAfterExecute(
      n: int, slots: seq<int>, stream: seq<int>, written: set<int>, from: int, complete: int, len: int, complete': int)
    requires n > 0 && |slots| == n && 0 <= from && 0 < len && from + len <= |stream| && complete <= from
    requires complete <= complete' <= from + len
    requires SlotsOk(n, slots, stream, written, from) && WrittenOk(stream, written, from + len, complete + n)
    ensures SlotsOk(n, slots, stream, written, from + len)
    ensures WrittenOk(stream, written, from + len, complete' + n)
  {
    hide SlotsOk;
    assert from + len - 1 in written;
    SlotsAfterAdvance(n, slots, stream, written, from, complete + n, from + len);
  }

  /** The events that performing a command adds to the log. */
  function Added(h: Host, c: Command, len: int): seq<Event> {
    var p := h.processed + len;
    [Executed(c)]
    + (if c.QuietQps? && h.issuedGet then [Flush] else [])
    + (if p - h.lastSync >= THRESHOLD || c.QuietQps? then [Published(p)] else [])
  }

  lemma AddedFacts(h: Host, c: Command, len: int)
    ensures var more := Added(h, c, len);
      && more != [] && more[0] == Executed(c)
      && (forall k :: 0 < k < |more| ==> more[k].Flush? || more[k].Published?)
      && Execs(more) == [c]
  {
    var more := Added(h, c, len);
    var rest := more[1..];
    assert more == [Executed(c)] + rest;
    assert forall k :: 0 <= k < |rest| ==> rest[k] == more[k + 1];
    NoExecs(rest);
    ExecsAppend([Executed(c)], rest);
    assert Execs([Executed(c)]) == [c];
  }

  lemma PerformLog(cfg: Config, h: Host, c: Command, len: int)
    ensures Perform(cfg, h, c, len).log == h.log + Added(h, c, len)
    ensures Execs(Perform(cfg, h, c, len).log) == Execs(h.log) + [c]
  {
    hide Execs;
    AddedFacts(h, c, len);
    ExecsAppend(h.log, Added(h, c, len));
  }

  lemma {:induction false} NoExecs(log: seq<Event>)
    requires forall k :: 0 <= k < |log| ==> !log[k].Executed?
    ensures Execs(log) == []
    decreases |log|
  {
    if log != [] {
      NoExecs(log[..|log| - 1]);
    }
  }
}
