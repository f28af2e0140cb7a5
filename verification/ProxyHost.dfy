/**
 The host side of a proxy channel as functions on its state: reading a request, publishing
 completion, and the quiet machine.  Positions count 8-byte entries.
 */
module ProxyHost {
  import opened Arithmetic
  import opened ProxyCodec

  /** Completion is published once it is this many entries (1024 bytes) behind. */
  const THRESHOLD := 128

  /**
   `n` is the number of entries in the channel, `peers[i]` whether PE i has a transport, and
   `atomicsOnQuiet` whether fetching atomics complete on quiet.
   */
  datatype Config = Config(n: int, peers: seq<bool>, atomicsOnQuiet: bool)

  /** What the host does that others can observe, in order. */
  datatype Event =
    | Executed(c: Command)
    | TransportQuiet(pe: int)
    | Flush
    | Published(p: int)
    | Acked(q: int)

  datatype QuietState = Inactive | InProgress | Done

  /** `seen` counts the entries of the next request whose flags the host has seen to be set. */
  datatype Host = Host(processed: int, lastSync: int, complete: int, seen: int,
                       quiet: QuietState, lastQuietIssue: int, quietAck: int, issuedGet: bool, log: seq<Event>)

  function Flag(n: int, p: int): (f: int)
    requires n > 0
    ensures f == 0 || f == 1
  {
    1 - p / n % 2
  }

  /** The two macros on byte counters are these on entries. */
  lemma UnitsAgree(n: int, p: int)
    requires n > 0 && p >= 0
    ensures (8 * p) % (8 * n) == 8 * (p % n)
    ensures 1 - (8 * p) / (8 * n) % 2 == Flag(n, p)
  {
    assert p == n * (p / n) + p % n;
    assert 8 * p == (8 * n) * (p / n) + 8 * (p % n) by {
      assert 8 * (n * (p / n)) == (8 * n) * (p / n);
    }
    DivIs(8 * p, 8 * n, p / n, 8 * (p % n));
  }

  function UpdateProcessed(h: Host, entries: int, force: bool): Host {
    var p := h.processed + entries;
    if p - h.lastSync >= THRESHOLD || force then
      h.(processed := p, complete := p, lastSync := p, log := h.log + [Published(p)])
    else h.(processed := p)
  }

  function EntryAt(cfg: Config, slots: seq<int>, p: int): int
    requires cfg.n > 0 && |slots| == cfg.n
  {
    slots[p % cfg.n]
  }

  /** The flag in the entry's slot is the flag of its position. */
  predicate FlagSet(cfg: Config, slots: seq<int>, p: int)
    requires cfg.n > 0 && |slots| == cfg.n
  {
    EntryAt(cfg, slots, p) % B1 == Flag(cfg.n, p)
  }

  function PayloadAt(cfg: Config, slots: seq<int>, p: int): int
    requires cfg.n > 0 && |slots| == cfg.n
  {
    EntryAt(cfg, slots, p) / B1
  }

  function ReadEntries(cfg: Config, slots: seq<int>, p: int, len: int): (s: seq<int>)
    requires cfg.n > 0 && |slots| == cfg.n && len >= 0
    ensures |s| == len && (len > 0 ==> s[0] == PayloadAt(cfg, slots, p))
  {
    seq(len, i => PayloadAt(cfg, slots, p + i))
  }

  /** Gets, and fetching atomics that complete on quiet, write local memory. */
  predicate IsGet(cfg: Config, c: Command) {
    || (c.Rma? && c.op in {OP_GET, OP_G})
    || (c.Atomic? && c.amo > AMO_END_OF_NONFETCH && cfg.atomicsOnQuiet)
  }

  /** The request at `processed` has a handler. */
  predicate HasHandler(cfg: Config, h: Host, slots: seq<int>)
    requires cfg.n > 0 && |slots| == cfg.n
  {
    HostLength(PayloadAt(cfg, slots, h.processed)) > 0
  }

  /** The command at `processed` and the number of its entries. */
  function NextCommand(cfg: Config, h: Host, slots: seq<int>): (Command, int)
    requires cfg.n > 0 && |slots| == cfg.n && HasHandler(cfg, h, slots)
  {
    var len := HostLength(PayloadAt(cfg, slots, h.processed));
    (Decode(ReadEntries(cfg, slots, h.processed, len)), len)
  }

  function Perform(cfg: Config, h: Host, c: Command, len: int): Host {
    var flush := if c.QuietQps? && h.issuedGet then [Flush] else [];
    UpdateProcessed(h.(seen := 0, issuedGet := h.issuedGet || IsGet(cfg, c), log := h.log + [Executed(c)] + flush),
                    len, c.QuietQps?)
  }

  function ExecuteNext(cfg: Config, h: Host, slots: seq<int>): Host
    requires cfg.n > 0 && |slots| == cfg.n && HasHandler(cfg, h, slots)
  {
    var (c, len) := NextCommand(cfg, h, slots);
    Perform(cfg, h, c, len)
  }

  // ---------------------------------------------------------------------------------------------
  // Quiet

  function CheckQuiet(h: Host, quietIssue: int): Host {
    if h.quiet == Inactive && quietIssue > h.lastQuietIssue
    then h.(quiet := InProgress, lastQuietIssue := quietIssue) else h
  }

  function TestQuiet(h: Host): Host {
    if h.quiet == InProgress && h.processed >= h.lastQuietIssue then h.(quiet := Done) else h
  }

  /** A transport quiet on each of the first k PEs that has a transport. */
  function Quiets(peers: seq<bool>, k: nat): seq<Event>
    requires k <= |peers|
  {
    if k == 0 then [] else Quiets(peers, k - 1) + if peers[k - 1] then [TransportQuiet(k - 1)] else []
  }

  function DrainQuiet(cfg: Config, h: Host): Host {
    if h.quiet == Done then
      h.(quiet := Inactive, quietAck := h.lastQuietIssue, issuedGet := false,
         log := h.log + Quiets(cfg.peers, |cfg.peers|) + (if h.issuedGet then [Flush] else []) + [Acked(h.lastQuietIssue)])
    else h
  }
}
