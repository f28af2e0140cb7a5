/**
 The host of a proxy channel does no more than quiet calls for: it quiets only transports that exist,
 and it flushes only when a get is outstanding.
 */
module ProxyFlush {
  import opened ProxyCodec
  import opened ProxyHost
  import opened ProxyChannel
  import opened ProxyQuiet

  /** The event at g is a get, and no quiet was acked since. */
  ghost predicate GetSinceAck(cfg: Config, log: seq<Event>, g: int) {
    0 <= g < |log| && GetEvent(cfg, log[g]) && forall a :: g < a < |log| ==> !log[a].Acked?
  }

  ghost predicate Outstanding(cfg: Config, log: seq<Event>) {
    exists g :: GetSinceAck(cfg, log, g)
  }

  /** A flush comes only after a get that no quiet was acked for, and quiets go to existing transports. */
  ghost predicate Called(cfg: Config, log: seq<Event>, m: int)
    requires 0 <= m < |log|
  {
    && (log[m].Flush? ==> Outstanding(cfg, log[..m]))
    && (log[m].TransportQuiet? ==> QuietOfPeer(cfg.peers, |cfg.peers|, log[m]))
  }

  ghost predicate AllCalled(cfg: Config, log: seq<Event>) {
    forall m :: 0 <= m < |log| ==> Called(cfg, log, m)
  }

  /** The host remembers a get exactly until it acks a quiet. */
  ghost predicate FlushInv(cfg: Config, h: Host) {
    (h.issuedGet <==> Outstanding(cfg, h.log)) && AllCalled(cfg, h.log)
  }

  /** Events other than gets and acks leave what is outstanding. */
  lemma OutstandingStays(cfg: Config, log: seq<Event>, more: seq<Event>)
    requires forall k :: 0 <= k < |more| ==> !more[k].Acked? && !GetEvent(cfg, more[k])
    ensures Outstanding(cfg, log + more) <==> Outstanding(cfg, log)
  {
    hide GetEvent;
    var l := log + more;
    if g :| GetSinceAck(cfg, log, g) {
      assert GetSinceAck(cfg, l, g);
    }
    if g :| GetSinceAck(cfg, l, g) {
      assert l[g] == log[g];
      assert forall a :: 0 <= a < |log| ==> l[a] == log[a];
      assert GetSinceAck(cfg, log, g);
    }
  }

  lemma CalledAppend(cfg: Config, log: seq<Event>, more: seq<Event>)
    requires AllCalled(cfg, log)
    requires forall k :: 0 <= k < |more| ==> (more[k].Flush? ==> Outstanding(cfg, log + more[..k]))
    requires forall k :: 0 <= k < |more| && more[k].TransportQuiet? ==> QuietOfPeer(cfg.peers, |cfg.peers|, more[k])
    ensures AllCalled(cfg, log + more)
  {
    hide Outstanding, QuietOfPeer;
    var l := log + more;
    forall m | 0 <= m < |l|
      ensures Called(cfg, l, m)
    {
      if m < |log| {
        assert l[..m] == log[..m] && l[m] == log[m];
        assert Called(cfg, log, m);
      } else {
        assert l[..m] == log + more[..m - |log|] && l[m] == more[m - |log|];
      }
    }
  }

  lemma PerformKeepsFlush(cfg: Config, h: Host, c: Command, len: int)
    requires FlushInv(cfg, h)
    ensures FlushInv(cfg, Perform(cfg, h, c, len))
  {
    hide IsGet, Outstanding, AllCalled, Execs;
    var more := Added(h, c, len);
    AddedFacts(h, c, len);
    PerformLog(cfg, h, c, len);
    var l := h.log + [Executed(c)];
    assert h.log + more == l + more[1..];
    OutstandingStays(cfg, l, more[1..]);
    GetIsOutstanding(cfg, h.log, c);
    forall k | 0 <= k < |more| && more[k].Flush?
      ensures Outstanding(cfg, h.log + more[..k])
    {
      assert more[..k] == [Executed(c)];
    }
    CalledAppend(cfg, h.log, more);
  }

  lemma GetIsOutstanding(cfg: Config, log: seq<Event>, c: Command)
    ensures Outstanding(cfg, log + [Executed(c)]) <==> Outstanding(cfg, log) || IsGet(cfg, c)
  {
    hide IsGet;
    var l := log + [Executed(c)];
    if IsGet(cfg, c) {
      assert GetSinceAck(cfg, l, |log|);
    } else {
      OutstandingStays(cfg, log, [Executed(c)]);
    }
  }

  lemma DrainKeepsFlush(cfg: Config, h: Host)
    requires FlushInv(cfg, h) && h.quiet == Done
    ensures FlushInv(cfg, DrainQuiet(cfg, h))
  {
    hide Outstanding, AllCalled, Quiets;
    var q, more := Quiets(cfg.peers, |cfg.peers|), DrainEvents(cfg, h.issuedGet, h.lastQuietIssue);
    QuietsAre(cfg.peers, |cfg.peers|);
    DrainEventsFacts(cfg, h.log, h.issuedGet, h.lastQuietIssue);
    assert DrainQuiet(cfg, h).log == h.log + more;
    assert forall k :: 0 <= k < |q| ==> more[k] == q[k];
    forall k | 0 <= k < |more| && more[k].Flush?
      ensures Outstanding(cfg, h.log + more[..k])
    {
      assert k == |q| && more[..k] == q;
      OutstandingStays(cfg, h.log, q);
    }
    CalledAppend(cfg, h.log, more);
    AckedIsNotOutstanding(cfg, h.log + more);
  }

  lemma AckedIsNotOutstanding(cfg: Config, log: seq<Event>)
    requires log != [] && log[|log| - 1].Acked?
    ensures !Outstanding(cfg, log)
  {
  }

  lemma StepKeepsFlush(cfg: Config, s: State, step: Step)
    requires Shape(cfg, s) && FlushInv(cfg, s.host) && Enabled(cfg, s, step)
    ensures FlushInv(cfg, Apply(cfg, s, step).host)
  {
    hide FlushInv, NextCommand, Perform, DrainQuiet;
    if step.Execute? {
      var (c, len) := NextCommand(cfg, s.host, s.slots);
      PerformKeepsFlush(cfg, s.host, c, len);
    } else if step.QuietDrain? {
      DrainKeepsFlush(cfg, s.host);
    } else {
      SameFlush(cfg, s.host, Apply(cfg, s, step).host);
    }
  }

  lemma SameFlush(cfg: Config, h: Host, h': Host)
    requires FlushInv(cfg, h) && h'.log == h.log && h'.issuedGet == h.issuedGet
    ensures FlushInv(cfg, h')
  {
  }

  lemma {:induction false} RunFlushInv(cfg: Config, run: seq<State>, i: nat)
    requires IsRun(cfg, run) && i < |run|
    ensures FlushInv(cfg, run[i].host)
  {
    hide Apply, Enabled;
    if i > 0 {
      RunFlushInv(cfg, run, i - 1);
      assert Next(cfg, run[i - 1], run[i]);
      var step :| Enabled(cfg, run[i - 1], step) && run[i] == Apply(cfg, run[i - 1], step);
      StepKeepsFlush(cfg, run[i - 1], step);
    }
  }

  /**
   In every run a flush at m is called for: some request that writes local memory was executed before
   it, and no quiet was acked in between.
   */
  lemma FlushOnlyForGets(cfg: Config, run: seq<State>, i: nat, m: nat) returns (k: nat, g: nat)
    requires IsRun(cfg, run) && i < |run| && m < |run[i].host.log| && run[i].host.log[m].Flush?
    ensures k < |run[i].device.issued| && WritesLocal(cfg, run[i].device.issued[k])
    ensures g < m && ExecutesAt(run[i].host.log, g, k)
    ensures forall a :: g < a < m ==> !run[i].host.log[a].Acked?
  {
    hide Inv, IsRun, Decoded, IsGet, WritesLocal, Execs, InOrder;
    var issued, log := run[i].device.issued, run[i].host.log;
    RunInv(cfg, run, i);
    InvLogs(cfg, run[i]);
    RunFlushInv(cfg, run, i);
    assert Called(cfg, log, m);
    g :| GetSinceAck(cfg, log[..m], g);
    assert forall a :: 0 <= a < m ==> log[..m][a] == log[a];
    k := |Execs(log[..g])|;
    ExecutedAtIs(issued, log, g, k);
    GetsAreRecognised(cfg, issued[k]);
  }

  /** In every run the host quiets only PEs that have a transport. */
  lemma QuietOnlyTransports(cfg: Config, run: seq<State>, i: nat, m: nat)
    requires IsRun(cfg, run) && i < |run| && m < |run[i].host.log| && run[i].host.log[m].TransportQuiet?
    ensures var pe := run[i].host.log[m].pe; 0 <= pe < |cfg.peers| && cfg.peers[pe]
  {
    hide Outstanding;
    RunFlushInv(cfg, run, i);
    assert Called(cfg, run[i].host.log, m);
  }
}
