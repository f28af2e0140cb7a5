/**
 What an acknowledged quiet on a proxy channel promises, and the invariant of the whole channel over
 every run.
 */
module ProxyQuiet {
  import opened ProxyCodec
  import opened ProxyHost
  import opened ProxyChannel

  predicate GetEvent(cfg: Config, e: Event) {
    e.Executed? && IsGet(cfg, e.c)
  }

  /** Between a and b a transport quiet ran for every peer that has a transport. */
  ghost predicate QuietedBetween(cfg: Config, log: seq<Event>, a: int, b: int)
    requires 0 <= a && b <= |log|
  {
    forall pe :: 0 <= pe < |cfg.peers| && cfg.peers[pe] ==> exists t :: a <= t < b && log[t] == TransportQuiet(pe)
  }

  /** The event at g was followed, before end, by quiet on all transports and then by a flush. */
  ghost predicate Settled(cfg: Config, log: seq<Event>, g: int, end: int)
    requires 0 <= g && end <= |log|
  {
    exists m :: g < m < end && log[m] == Flush && QuietedBetween(cfg, log, g, m)
  }

  /**
   The ack at i is earned: by some point j before it every request below the acked position was
   executed, every transport was quieted after j, and every get up to j was settled before i.
   */
  ghost predicate AckEarned(cfg: Config, issued: seq<Request>, log: seq<Event>, i: int)
    requires AllLegal(issued) && 0 <= i < |log| && log[i].Acked?
  {
    exists j :: 0 <= j <= i && EarnedFrom(cfg, issued, log, i, j)
  }

  ghost predicate EarnedFrom(cfg: Config, issued: seq<Request>, log: seq<Event>, i: int, j: int)
    requires AllLegal(issued) && 0 <= j <= i < |log| && log[i].Acked?
  {
    && ExecutedUpTo(issued, log[..j], log[i].q)
    && QuietedBetween(cfg, log, j, i)
    && forall g :: 0 <= g < j && GetEvent(cfg, log[g]) ==> Settled(cfg, log, g, i)
  }

  /** All requests below position q are among the executed ones. */
  ghost predicate ExecutedUpTo(issued: seq<Request>, log: seq<Event>, q: int)
    requires AllLegal(issued)
  {
    |Execs(log)| <= |issued| && q <= Start(issued, |Execs(log)|)
  }

  ghost predicate AcksEarned(cfg: Config, issued: seq<Request>, log: seq<Event>)
    requires AllLegal(issued)
  {
    forall i :: 0 <= i < |log| && log[i].Acked? ==> AckEarned(cfg, issued, log, i)
  }

  ghost predicate GetsOk(cfg: Config, issuedGet: bool, log: seq<Event>) {
    !issuedGet ==> forall g :: 0 <= g < |log| && GetEvent(cfg, log[g]) ==> Settled(cfg, log, g, |log|)
  }

  /** A quiet on queue pairs at e flushes for every get before it that was not settled already. */
  ghost predicate QpQuietsFlush(cfg: Config, log: seq<Event>) {
    forall g, e :: 0 <= g < e < |log| && GetEvent(cfg, log[g]) && QpQuietEvent(log[e]) ==>
      Settled(cfg, log, g, e) || FlushAt(log, e + 1)
  }

  predicate QpQuietEvent(e: Event) {
    e.Executed? && e.c.QuietQps?
  }

  predicate FlushAt(log: seq<Event>, i: int) {
    0 <= i < |log| && log[i] == Flush
  }

  /** Where the completion of the request at e is published, if that is done at once. */
  function Publication(log: seq<Event>, e: int): int {
    if FlushAt(log, e + 1) then e + 2 else e + 1
  }

  predicate PublishedAt(log: seq<Event>, w: int) {
    0 <= w < |log| && log[w].Published?
  }

  /** The completion of a quiet on queue pairs is published at once, after its flush if there is one. */
  ghost predicate QpQuietsPublish(log: seq<Event>) {
    forall e :: 0 <= e < |log| && QpQuietEvent(log[e]) ==> PublishedAt(log, Publication(log, e))
  }

  /** What is published at any point is the position of the requests executed before it. */
  ghost predicate PublishedOk(issued: seq<Request>, log: seq<Event>)
    requires AllLegal(issued)
  {
    forall w :: 0 <= w < |log| && log[w].Published? ==> PublishesDone(issued, log[..w], log[w].p)
  }

  ghost predicate PublishesDone(issued: seq<Request>, done: seq<Event>, p: int)
    requires AllLegal(issued)
  {
    |Execs(done)| <= |issued| && p == Start(issued, |Execs(done)|)
  }

  ghost predicate PublishingOk(issued: seq<Request>, log: seq<Event>)
    requires AllLegal(issued)
  {
    QpQuietsPublish(log) && PublishedOk(issued, log)
  }

  ghost predicate QuietCountersOk(s: State)
    requires AllLegal(s.device.issued)
  {
    var h := s.host;
    && 0 <= h.quietAck <= h.lastQuietIssue <= s.device.quietIssue <= |Stream(s.device.issued)|
    && (h.quiet == Inactive ==> h.quietAck == h.lastQuietIssue)
    && (h.quiet == Done ==> h.processed >= h.lastQuietIssue)
    && (h.quietAck > 0 ==> Acked(h.quietAck) in h.log)
    && (h.complete > 0 ==> Published(h.complete) in h.log)
  }

  ghost predicate Inv(cfg: Config, s: State) {
    && ChannelInv(cfg, s)
    && QuietCountersOk(s)
    && GetsOk(cfg, s.host.issuedGet, s.host.log)
    && AcksEarned(cfg, s.device.issued, s.host.log)
    && QpQuietsFlush(cfg, s.host.log)
    && PublishingOk(s.device.issued, s.host.log)
  }

  // ---------------------------------------------------------------------------------------------
  // Logs only grow

  lemma QuietedStays(cfg: Config, log: seq<Event>, more: seq<Event>, a: int, b: int)
    requires 0 <= a && b <= |log| && QuietedBetween(cfg, log, a, b)
    ensures QuietedBetween(cfg, log + more, a, b)
  {
    forall pe | 0 <= pe < |cfg.peers| && cfg.peers[pe]
      ensures exists t :: a <= t < b && (log + more)[t] == TransportQuiet(pe)
    {
      var t :| a <= t < b && log[t] == TransportQuiet(pe);
      assert (log + more)[t] == log[t];
    }
  }

  lemma SettledStays(cfg: Config, log: seq<Event>, more: seq<Event>, g: int, end: int, end': int)
    requires 0 <= g && end <= |log| && end <= end' <= |log + more| && Settled(cfg, log, g, end)
    ensures Settled(cfg, log + more, g, end')
  {
    var m :| g < m < end && log[m] == Flush && QuietedBetween(cfg, log, g, m);
    QuietedStays(cfg, log, more, g, m);
    assert (log + more)[m] == log[m];
  }

  lemma EarnedStays(cfg: Config, issued: seq<Request>, log: seq<Event>, more: seq<Event>, i: int)
    requires AllLegal(issued) && 0 <= i < |log| && log[i].Acked? && AckEarned(cfg, issued, log, i)
    ensures (log + more)[i] == log[i] && AckEarned(cfg, issued, log + more, i)
  {
    hide QuietedBetween, Settled, ExecutedUpTo;
    var j :| 0 <= j <= i && EarnedFrom(cfg, issued, log, i, j);
    assert (log + more)[..j] == log[..j];
    QuietedStays(cfg, log, more, j, i);
    forall g | 0 <= g < j && GetEvent(cfg, (log + more)[g])
      ensures Settled(cfg, log + more, g, i)
    {
      SettledStays(cfg, log, more, g, i, i);
    }
    assert EarnedFrom(cfg, issued, log + more, i, j);
  }

  /** Reserving more requests takes nothing away from earlier acks. */
  lemma EarnedAfterReserve(cfg: Config, issued: seq<Request>, r: Request, log: seq<Event>)
    requires AllLegal(issued) && Legal(r) && AllLegal(issued + [r]) && AcksEarned(cfg, issued, log)
    ensures AcksEarned(cfg, issued + [r], log)
  {
    hide QuietedBetween, Settled, Start;
    forall i | 0 <= i < |log| && log[i].Acked?
      ensures AckEarned(cfg, issued + [r], log, i)
    {
      var j :| 0 <= j <= i && EarnedFrom(cfg, issued, log, i, j);
      StartStays(issued, r, |Execs(log[..j])|);
      assert EarnedFrom(cfg, issued + [r], log, i, j);
    }
  }

  /** Events other than acks keep what was earned. */
  lemma AcksAfterOther(cfg: Config, issued: seq<Request>, log: seq<Event>, more: seq<Event>)
    requires AllLegal(issued) && AcksEarned(cfg, issued, log)
    requires forall k :: 0 <= k < |more| ==> !more[k].Acked?
    ensures AcksEarned(cfg, issued, log + more)
  {
    hide AckEarned;
    forall i | 0 <= i < |log + more| && (log + more)[i].Acked?
      ensures AckEarned(cfg, issued, log + more, i)
    {
      EarnedStays(cfg, issued, log, more, i);
    }
  }

  lemma QpQuietsStay(cfg: Config, log: seq<Event>, more: seq<Event>)
    requires QpQuietsFlush(cfg, log)
    requires forall k :: 0 <= k < |more| ==> !QpQuietEvent(more[k])
    ensures QpQuietsFlush(cfg, log + more)
  {
    hide Settled;
    var l := log + more;
    forall g, e | 0 <= g < e < |l| && GetEvent(cfg, l[g]) && QpQuietEvent(l[e])
      ensures Settled(cfg, l, g, e) || FlushAt(l, e + 1)
    {
      if Settled(cfg, log, g, e) {
        SettledStays(cfg, log, more, g, e, e);
      }
    }
  }

  lemma QpQuietAdded(cfg: Config, h: Host, c: Command, len: int)
    requires QpQuietsFlush(cfg, h.log) && GetsOk(cfg, h.issuedGet, h.log) && c.QuietQps?
    ensures QpQuietsFlush(cfg, h.log + Added(h, c, len))
  {
    hide Settled;
    var log, more := h.log, Added(h, c, len);
    var l := log + more;
    forall g, e | 0 <= g < e < |l| && GetEvent(cfg, l[g]) && QpQuietEvent(l[e])
      ensures Settled(cfg, l, g, e) || FlushAt(l, e + 1)
    {
      if (e < |log| && Settled(cfg, log, g, e)) || (e == |log| && !h.issuedGet) {
        SettledStays(cfg, log, more, g, e, e);
      }
    }
  }

  lemma PublishedStays(issued: seq<Request>, log: seq<Event>, more: seq<Event>)
    requires AllLegal(issued) && PublishedOk(issued, log)
    requires forall k :: 0 <= k < |more| && more[k].Published? ==> PublishesDone(issued, log + more[..k], more[k].p)
    ensures PublishedOk(issued, log + more)
  {
    hide PublishesDone;
    var l := log + more;
    forall w | 0 <= w < |l| && l[w].Published?
      ensures PublishesDone(issued, l[..w], l[w].p)
    {
      if w < |log| {
        assert l[..w] == log[..w];
      } else {
        assert l[..w] == log + more[..w - |log|];
      }
    }
  }

  /** A command is published, if at all, at the position just after it. */
  lemma PublishedAdded(issued: seq<Request>, h: Host, c: Command, len: int)
    requires AllLegal(issued) && PublishingOk(issued, h.log) && |Execs(h.log)| < |issued|
    requires h.processed + len == Start(issued, |Execs(h.log)| + 1)
    ensures PublishingOk(issued, h.log + Added(h, c, len))
  {
    hide Execs, PublishesDone;
    var more := Added(h, c, len);
    var l := h.log + more;
    forall k | 0 <= k < |more| && more[k].Published?
      ensures PublishesDone(issued, h.log + more[..k], more[k].p)
    {
      PublishedAfterCommand(issued, h, c, len, k);
    }
    PublishedStays(issued, h.log, more);
    forall e | 0 <= e < |l| && QpQuietEvent(l[e])
      ensures PublishedAt(l, Publication(l, e))
    {
      if e < |h.log| {
        assert PublishedAt(h.log, Publication(h.log, e));
      }
    }
  }

  lemma PublishedAfterCommand(issued: seq<Request>, h: Host, c: Command, len: int, k: nat)
    requires AllLegal(issued) && |Execs(h.log)| < |issued|
    requires h.processed + len == Start(issued, |Execs(h.log)| + 1)
    requires k < |Added(h, c, len)| && Added(h, c, len)[k].Published?
    ensures PublishesDone(issued, h.log + Added(h, c, len)[..k], Added(h, c, len)[k].p)
  {
    hide Start;
    var done := Added(h, c, len)[..k];
    assert done == [Executed(c)] + done[1..];
    NoExecs(done[1..]);
    ExecsAppend([Executed(c)], done[1..]);
    ExecsAppend(h.log, done);
    assert Execs([Executed(c)]) == [c];
  }

  lemma PublishingStays(issued: seq<Request>, log: seq<Event>, more: seq<Event>)
    requires AllLegal(issued) && PublishingOk(issued, log)
    requires forall k :: 0 <= k < |more| ==> !more[k].Published? && !more[k].Executed?
    ensures PublishingOk(issued, log + more)
  {
    hide PublishesDone;
    PublishedStays(issued, log, more);
    var l := log + more;
    forall e | 0 <= e < |l| && QpQuietEvent(l[e])
      ensures PublishedAt(l, Publication(l, e))
    {
      assert PublishedAt(log, Publication(log, e));
    }
  }

  lemma PublishingAfterReserve(issued: seq<Request>, r: Request, log: seq<Event>)
    requires AllLegal(issued) && Legal(r) && AllLegal(issued + [r]) && PublishingOk(issued, log)
    ensures PublishingOk(issued + [r], log)
  {
    hide Start;
    forall w | 0 <= w < |log| && log[w].Published?
      ensures PublishesDone(issued + [r], log[..w], log[w].p)
    {
      StartStays(issued, r, |Execs(log[..w])|);
    }
  }

  lemma GetsAfterOther(cfg: Config, before: bool, after: bool, log: seq<Event>, more: seq<Event>)
    requires GetsOk(cfg, before, log) && (before ==> after)
    requires !after ==> forall k :: 0 <= k < |more| ==> !GetEvent(cfg, more[k])
    ensures GetsOk(cfg, after, log + more)
  {
    hide Settled;
    if !after {
      forall g | 0 <= g < |log + more| && GetEvent(cfg, (log + more)[g])
        ensures Settled(cfg, log + more, g, |log + more|)
      {
        SettledStays(cfg, log, more, g, |log|, |log + more|);
      }
    }
  }

  // ---------------------------------------------------------------------------------------------
  // Draining a quiet

  /** A quiet on the transport of one of the first k PEs, which has one. */
  predicate QuietOfPeer(peers: seq<bool>, k: nat, e: Event)
    requires k <= |peers|
  {
    e.TransportQuiet? && 0 <= e.pe < k && peers[e.pe]
  }

  predicate InPeOrder(e: Event, f: Event) {
    e.TransportQuiet? && f.TransportQuiet? && e.pe < f.pe
  }

  /** One quiet for each of the PEs that have a transport, in their order, and nothing else. */
  lemma {:induction false} QuietsAre(peers: seq<bool>, k: nat)
    requires k <= |peers|
    ensures forall pe :: 0 <= pe < k && peers[pe] ==> TransportQuiet(pe) in Quiets(peers, k)
    ensures forall i :: 0 <= i < |Quiets(peers, k)| ==> QuietOfPeer(peers, k, Quiets(peers, k)[i])
    ensures forall i, j :: 0 <= i < j < |Quiets(peers, k)| ==> InPeOrder(Quiets(peers, k)[i], Quiets(peers, k)[j])
  {
    if k > 0 {
      QuietsAre(peers, k - 1);
    }
  }

  lemma QuietsBetween(cfg: Config, log: seq<Event>, more: seq<Event>, a: int)
    requires 0 <= a <= |log|
    ensures var q := Quiets(cfg.peers, |cfg.peers|); QuietedBetween(cfg, log + q + more, a, |log + q|)
  {
    var q := Quiets(cfg.peers, |cfg.peers|);
    QuietsAre(cfg.peers, |cfg.peers|);
    forall pe | 0 <= pe < |cfg.peers| && cfg.peers[pe]
      ensures exists t :: a <= t < |log + q| && (log + q + more)[t] == TransportQuiet(pe)
    {
      var i :| 0 <= i < |q| && q[i] == TransportQuiet(pe);
      assert (log + q + more)[|log| + i] == q[i];
    }
  }

  ghost function Drained(cfg: Config, log: seq<Event>, issuedGet: bool, q: int): seq<Event> {
    log + Quiets(cfg.peers, |cfg.peers|) + (if issuedGet then [Flush] else []) + [Acked(q)]
  }

  /** Draining settles every get so far. */
  lemma DrainSettles(cfg: Config, log: seq<Event>, issuedGet: bool, q: int, g: int)
    requires GetsOk(cfg, issuedGet, log) && 0 <= g < |log| && GetEvent(cfg, log[g])
    ensures Settled(cfg, Drained(cfg, log, issuedGet, q), g, |Drained(cfg, log, issuedGet, q)| - 1)
  {
    var qs := Quiets(cfg.peers, |cfg.peers|);
    var l := Drained(cfg, log, issuedGet, q);
    if issuedGet {
      assert l == log + qs + [Flush, Acked(q)];
      QuietsBetween(cfg, log, [Flush, Acked(q)], g);
      assert l[|log + qs|] == Flush;
    } else {
      assert l == log + (qs + [Acked(q)]);
      SettledStays(cfg, log, qs + [Acked(q)], g, |log|, |l| - 1);
    }
  }

  lemma DrainEarned(cfg: Config, issued: seq<Request>, log: seq<Event>, issuedGet: bool, q: int)
    requires AllLegal(issued) && ExecutedUpTo(issued, log, q) && GetsOk(cfg, issuedGet, log)
    ensures var l := Drained(cfg, log, issuedGet, q); AckEarned(cfg, issued, l, |l| - 1)
  {
    hide QuietedBetween, Settled, GetsOk, ExecutedUpTo;
    var qs, l, j := Quiets(cfg.peers, |cfg.peers|), Drained(cfg, log, issuedGet, q), |log|;
    var rest := (if issuedGet then [Flush] else []) + [Acked(q)];
    assert l == log + qs + rest && l[..j] == log;
    QuietsBetween(cfg, log, rest, j);
    QuietedLonger(cfg, l, j, |log + qs|, |l| - 1);
    forall g | 0 <= g < j && GetEvent(cfg, l[g])
      ensures Settled(cfg, l, g, |l| - 1)
    {
      assert l[g] == log[g];
      DrainSettles(cfg, log, issuedGet, q, g);
    }
    assert EarnedFrom(cfg, issued, l, |l| - 1, j);
  }

  lemma QuietedLonger(cfg: Config, log: seq<Event>, a: int, b: int, b': int)
    requires 0 <= a && b <= b' <= |log| && QuietedBetween(cfg, log, a, b)
    ensures QuietedBetween(cfg, log, a, b')
  {
  }

  lemma DrainKeepsLog(cfg: Config, issued: seq<Request>, log: seq<Event>, issuedGet: bool, q: int)
    requires AllLegal(issued) && ExecutedUpTo(issued, log, q)
    requires GetsOk(cfg, issuedGet, log) && AcksEarned(cfg, issued, log) && QpQuietsFlush(cfg, log)
    requires PublishingOk(issued, log)
    ensures var l := Drained(cfg, log, issuedGet, q);
      && PublishingOk(issued, l) && log <= l && QpQuietsFlush(cfg, l) && AcksEarned(cfg, issued, l) && GetsOk(cfg, false, l) && Execs(l) == Execs(log) && Acked(q) in l
  {
    hide QuietedBetween, Settled, AckEarned, ExecutedUpTo, QpQuietsFlush, PublishingOk, Execs, Quiets;
    var l, more := Drained(cfg, log, issuedGet, q), DrainEvents(cfg, issuedGet, q);
    DrainEventsFacts(cfg, log, issuedGet, q);
    NoExecs(more);
    ExecsAppend(log, more);
    QpQuietsStay(cfg, log, more);
    PublishingStays(issued, log, more);
    DrainKeepsAcks(cfg, issued, log, issuedGet, q);
    DrainKeepsGets(cfg, log, issuedGet, q);
  }

  ghost function DrainEvents(cfg: Config, issuedGet: bool, q: int): seq<Event> {
    Quiets(cfg.peers, |cfg.peers|) + (if issuedGet then [Flush] else []) + [Acked(q)]
  }

  lemma DrainEventsFacts(cfg: Config, log: seq<Event>, issuedGet: bool, q: int)
    ensures var more := DrainEvents(cfg, issuedGet, q);
      && Drained(cfg, log, issuedGet, q) == log + more
      && more != [] && more[|more| - 1] == Acked(q)
      && (forall k :: 0 <= k < |more| ==> !more[k].Executed? && !more[k].Published?)
      && (forall k :: 0 <= k < |more| && more[k].Acked? ==> k == |more| - 1)
  {
    hide Quiets;
    QuietsAre(cfg.peers, |cfg.peers|);
    var quiets, more := Quiets(cfg.peers, |cfg.peers|), DrainEvents(cfg, issuedGet, q);
    assert forall k :: 0 <= k < |quiets| ==> more[k] == quiets[k];
  }

  lemma DrainKeepsAcks(cfg: Config, issued: seq<Request>, log: seq<Event>, issuedGet: bool, q: int)
    requires AllLegal(issued) && ExecutedUpTo(issued, log, q)
    requires GetsOk(cfg, issuedGet, log) && AcksEarned(cfg, issued, log)
    ensures AcksEarned(cfg, issued, Drained(cfg, log, issuedGet, q))
  {
    hide AckEarned, ExecutedUpTo, GetsOk, Drained, DrainEvents;
    var l, more := Drained(cfg, log, issuedGet, q), DrainEvents(cfg, issuedGet, q);
    DrainEventsFacts(cfg, log, issuedGet, q);
    DrainEarned(cfg, issued, log, issuedGet, q);
    forall i | 0 <= i < |l| && l[i].Acked?
      ensures AckEarned(cfg, issued, l, i)
    {
      if i < |log| {
        EarnedStays(cfg, issued, log, more, i);
      } else {
        assert l[i] == more[i - |log|];
      }
    }
  }

  lemma DrainKeepsGets(cfg: Config, log: seq<Event>, issuedGet: bool, q: int)
    requires GetsOk(cfg, issuedGet, log)
    ensures GetsOk(cfg, false, Drained(cfg, log, issuedGet, q))
  {
    hide Settled, Drained, DrainEvents;
    var l, more := Drained(cfg, log, issuedGet, q), DrainEvents(cfg, issuedGet, q);
    DrainEventsFacts(cfg, log, issuedGet, q);
    forall g | 0 <= g < |l| && GetEvent(cfg, l[g])
      ensures Settled(cfg, l, g, |l|)
    {
      DrainSettles(cfg, log, issuedGet, q, g);
      SettledLonger(cfg, l, g, |l| - 1);
    }
  }

  lemma SettledLonger(cfg: Config, log: seq<Event>, g: int, end: int)
    requires 0 <= g && end <= |log| && Settled(cfg, log, g, end)
    ensures Settled(cfg, log, g, |log|)
  {
  }

  // ---------------------------------------------------------------------------------------------
  // Every step keeps the invariant

  lemma DeviceKeepsInv(cfg: Config, s: State, step: Step)
    requires Inv(cfg, s) && Enabled(cfg, s, step) && (step.Reserve? || step.Write? || step.RaiseQuiet?)
    ensures Inv(cfg, Apply(cfg, s, step))
  {
    hide AcksEarned, GetsOk, QpQuietsFlush, PublishingOk, Stream, Encode, SlotsOk, WrittenOk, PositionOk, InOrder;
    match step {
      case Reserve(r) =>
        ReserveKeepsInv(cfg, s, r);
        StreamAppend(s.device.issued, r);
        EarnedAfterReserve(cfg, s.device.issued, r, s.host.log);
        PublishingAfterReserve(s.device.issued, r, s.host.log);
      case Write(k, i) =>
        WriteKeepsInv(cfg, s, k, i);
      case RaiseQuiet(k) =>
        StreamPrefix(s.device.issued, k);
    }
  }

  lemma ExecuteKeepsLog(cfg: Config, issued: seq<Request>, h: Host, c: Command, len: int)
    requires AllLegal(issued) && GetsOk(cfg, h.issuedGet, h.log) && AcksEarned(cfg, issued, h.log)
    requires QpQuietsFlush(cfg, h.log)
    ensures var h' := Perform(cfg, h, c, len);
      && GetsOk(cfg, h'.issuedGet, h'.log) && AcksEarned(cfg, issued, h'.log) && h.log <= h'.log
      && QpQuietsFlush(cfg, h'.log)
  {
    hide GetsOk, AcksEarned, QpQuietsFlush, Execs, Added;
    var more := Added(h, c, len);
    PerformLog(cfg, h, c, len);
    AddedFacts(h, c, len);
    GetsAfterOther(cfg, h.issuedGet, h.issuedGet || IsGet(cfg, c), h.log, more);
    AcksAfterOther(cfg, issued, h.log, more);
    if c.QuietQps? {
      QpQuietAdded(cfg, h, c, len);
    } else {
      QpQuietsStay(cfg, h.log, more);
    }
  }

  lemma ExecutePublishes(cfg: Config, s: State)
    requires Inv(cfg, s) && Enabled(cfg, s, Execute)
    ensures var h' := Apply(cfg, s, Execute).host;
      && PublishingOk(s.device.issued, h'.log)
      && (h'.complete > 0 ==> Published(h'.complete) in h'.log)
  {
    hide AcksEarned, GetsOk, QpQuietsFlush, PublishingOk, Stream, Encode, SlotsOk, WrittenOk, InOrder, NextCommand, Decoded, Execs, PublishingOk;
    var issued, h, k := s.device.issued, s.host, |Execs(s.host.log)|;
    ReadsCommand(cfg, s);
    var (c, len) := NextCommand(cfg, h, s.slots);
    StartNext(issued, k);
    PerformLog(cfg, h, c, len);
    PublishedAdded(issued, h, c, len);
    CompleteLogged(h, c, len);
  }

  lemma CompleteLogged(h: Host, c: Command, len: int)
    requires h.complete > 0 ==> Published(h.complete) in h.log
    ensures var p, more := h.processed + len, Added(h, c, len);
      var complete := if p - h.lastSync >= THRESHOLD || c.QuietQps? then p else h.complete;
      complete > 0 ==> Published(complete) in h.log + more
  {
  }

  lemma ExecuteStepKeepsInv(cfg: Config, s: State)
    requires Inv(cfg, s) && Enabled(cfg, s, Execute)
    ensures Inv(cfg, Apply(cfg, s, Execute))
  {
    hide AcksEarned, GetsOk, QpQuietsFlush, PublishingOk, Stream, Encode, SlotsOk, WrittenOk, PositionOk, InOrder, NextCommand, Decoded, Execs;
    ReadsCommand(cfg, s);
    ExecuteKeepsInv(cfg, s);
    var (c, len) := NextCommand(cfg, s.host, s.slots);
    ExecuteKeepsLog(cfg, s.device.issued, s.host, c, len);
    ExecutePublishes(cfg, s);
    AcksStayLogged(s.host.log, Apply(cfg, s, Execute).host.log);
  }

  lemma AcksStayLogged(log: seq<Event>, log': seq<Event>)
    requires log <= log'
    ensures forall e :: e in log ==> e in log'
  {
  }

  lemma HostKeepsInv(cfg: Config, s: State, step: Step)
    requires Inv(cfg, s) && Enabled(cfg, s, step) && (step.See? || step.QuietCheck? || step.QuietTest?)
    ensures Inv(cfg, Apply(cfg, s, step))
  {
    hide AcksEarned, GetsOk, QpQuietsFlush, PublishingOk, Stream, Encode, SlotsOk, WrittenOk, PositionOk, InOrder, Execs;
    if step.See? {
      SeeKeepsInv(cfg, s);
    } else {
      var h' := Apply(cfg, s, step).host;
      SamePosition(s.device.issued, s.host, h');
    }
  }

  lemma SamePosition(issued: seq<Request>, h: Host, h': Host)
    requires AllLegal(issued) && PositionOk(issued, h)
    requires Execs(h'.log) == Execs(h.log) && h'.processed == h.processed && h'.seen == h.seen
    ensures PositionOk(issued, h')
  {
  }

  lemma DoneIsExecuted(cfg: Config, s: State)
    requires Inv(cfg, s) && s.host.quiet == Done
    ensures ExecutedUpTo(s.device.issued, s.host.log, s.host.lastQuietIssue)
  {
    hide AcksEarned, GetsOk, QpQuietsFlush, PublishingOk, Stream, Encode, SlotsOk, WrittenOk, InOrder;
  }

  lemma DrainKeepsInv(cfg: Config, s: State)
    requires Inv(cfg, s) && Enabled(cfg, s, QuietDrain)
    ensures Inv(cfg, Apply(cfg, s, QuietDrain))
  {
    hide AcksEarned, GetsOk, QpQuietsFlush, PublishingOk, Stream, Encode, SlotsOk, WrittenOk, InOrder, PositionOk, ExecutedUpTo, Quiets, Execs;
    var h, h' := s.host, Apply(cfg, s, QuietDrain).host;
    DoneIsExecuted(cfg, s);
    DrainKeepsLog(cfg, s.device.issued, h.log, h.issuedGet, h.lastQuietIssue);
    assert h'.log == Drained(cfg, h.log, h.issuedGet, h.lastQuietIssue);
    SamePosition(s.device.issued, h, h');
    AcksStayLogged(h.log, h'.log);
  }

  lemma NextKeepsInv(cfg: Config, s: State, step: Step)
    requires Inv(cfg, s) && Enabled(cfg, s, step)
    ensures Inv(cfg, Apply(cfg, s, step))
  {
    hide Inv, Apply;
    if step.Reserve? || step.Write? || step.RaiseQuiet? {
      DeviceKeepsInv(cfg, s, step);
    } else if step.QuietDrain? {
      DrainKeepsInv(cfg, s);
    } else if step.Execute? {
      ExecuteStepKeepsInv(cfg, s);
    } else {
      HostKeepsInv(cfg, s, step);
    }
  }

  // ---------------------------------------------------------------------------------------------
  // Runs

  ghost predicate Next(cfg: Config, s: State, s': State) {
    Shape(cfg, s) && exists step :: Enabled(cfg, s, step) && s' == Apply(cfg, s, step)
  }

  ghost predicate IsRun(cfg: Config, run: seq<State>) {
    && ConfigOk(cfg) && run != [] && run[0] == Init(cfg)
    && forall i, j :: 0 <= i < j < |run| && j == i + 1 ==> Next(cfg, run[i], run[j])
  }

  lemma InitialInv(cfg: Config)
    requires ConfigOk(cfg)
    ensures Inv(cfg, Init(cfg))
  {
    InitInv(cfg);
  }

  lemma {:induction false} RunInv(cfg: Config, run: seq<State>, i: nat)
    requires IsRun(cfg, run) && i < |run|
    ensures Inv(cfg, run[i])
    decreases i
  {
    hide Inv;
    if i == 0 {
      InitialInv(cfg);
    } else {
      RunInv(cfg, run, i - 1);
      assert Next(cfg, run[i - 1], run[i]);
      var step :| Enabled(cfg, run[i - 1], step) && run[i] == Apply(cfg, run[i - 1], step);
      NextKeepsInv(cfg, run[i - 1], step);
    }
  }

  /**
   In every reachable state a flag in the host's window is set exactly when the entry was written in
   this lap, so no stale entry is ever taken for a new one.
   */
  lemma RunFreshness(cfg: Config, run: seq<State>, i: nat, p: int)
    requires IsRun(cfg, run) && i < |run| && run[i].host.processed <= p < run[i].host.processed + cfg.n
    ensures |run[i].slots| == cfg.n > 0
    ensures FlagSet(cfg, run[i].slots, p) <==> p in run[i].device.written
  {
    RunInv(cfg, run, i);
    Freshness(cfg, run[i], p);
  }

  /**
   Requests are executed once each and in order, whatever their lengths; the host stops only at
   request boundaries, and what is executed is what was asked for where the arguments fit.
   */
  lemma ExecutedExactlyOnce(cfg: Config, run: seq<State>, i: nat)
    requires IsRun(cfg, run) && i < |run|
    ensures var s := run[i]; var cs := Execs(s.host.log);
      && AllLegal(s.device.issued) && |cs| <= |s.device.issued|
      && s.host.processed == Start(s.device.issued, |cs|)
      && forall k :: 0 <= k < |cs| && Fits(s.device.issued[k]) ==> cs[k] == Meaning(s.device.issued[k])
  {
    RunInv(cfg, run, i);
    var s := run[i];
    var cs := Execs(s.host.log);
    forall k | 0 <= k < |cs| && Fits(s.device.issued[k])
      ensures cs[k] == Meaning(s.device.issued[k])
    {
      RoundTripIff(s.device.issued[k]);
      assert cs[k] == Decoded(s.device.issued[k]);
    }
  }

  // ---------------------------------------------------------------------------------------------
  // What quiet promises, in terms of the requests

  /** The requests whose completion writes local memory: gets, and fetching atomics that complete on quiet. */
  predicate WritesLocal(cfg: Config, r: Request) {
    || (r.Dma? && (r.op == OP_GET || r.op == OP_G))
    || (r.Amo? && r.amo > AMO_END_OF_NONFETCH && cfg.atomicsOnQuiet)
  }

  /** The event at g executes request k. */
  ghost predicate ExecutesAt(log: seq<Event>, g: int, k: int) {
    0 <= g < |log| && log[g].Executed? && |Execs(log[..g])| == k
  }

  /** The host recognises exactly those requests, whatever else of their arguments is lost. */
  lemma GetsAreRecognised(cfg: Config, r: Request)
    requires Legal(r)
    ensures IsGet(cfg, Decoded(r)) <==> WritesLocal(cfg, r)
    ensures Decoded(r).QuietQps? <==> r.QpQuiet?
  {
    hide Encode, Decode;
    if r.Fence? || r.QpFence? || r.QpQuiet? {
      SyncIsRecognised(r);
    } else {
      DataIsRecognised(r);
    }
  }

  lemma DataIsRecognised(r: Request)
    requires Legal(r) && !r.Fence? && !r.QpFence? && !r.QpQuiet?
    ensures var c := Decoded(r);
      && !c.QuietQps? && (c.Rma? <==> r.Dma?) && (c.Atomic? <==> r.Amo?)
      && (r.Dma? ==> c.op == r.op) && (r.Amo? ==> c.amo == r.amo)
  {
    hide BasePayload, OpOf, PeOf, QpCount, HighWord, ROffset;
    LengthsAgree(r);
    BaseFields(OpFor(if r.Dma? then r.op else if r.Inline? then OP_P else if r.Amo? then OP_AMO else OP_PUT_SIGNAL, r.qp),
               r.roffset);
    if r.Amo? {
      PeQpFields(r.amo, r.pe % B2, r.swapAdd % B4);
    }
  }

  lemma SyncIsRecognised(r: Request)
    requires Legal(r) && (r.Fence? || r.QpFence? || r.QpQuiet?)
    ensures var c := Decoded(r); !c.Rma? && !c.Atomic? && (c.QuietQps? <==> r.QpQuiet?)
  {
    hide BasePayload, OpOf, PeOf, QpCount, HighWord, ROffset;
    LengthsAgree(r);
    if r.Fence? {
      SyncBaseFields(OP_FENCE, 0);
    } else {
      SyncBaseFields(if r.QpFence? then OP_FENCE_QP else OP_QUIET_QP, |r.qps|);
    }
  }

  /** Every executed request has its event. */
  lemma {:induction false} ExecutionOf(log: seq<Event>, k: nat) returns (g: nat)
    requires k < |Execs(log)|
    ensures ExecutesAt(log, g, k) && log[g].c == Execs(log)[k]
    decreases |log|
  {
    var front := log[..|log| - 1];
    if k < |Execs(front)| {
      g := ExecutionOf(front, k);
      assert front[..g] == log[..g];
    } else {
      g := |log| - 1;
    }
  }

  /** The event that executes request k executes what the host makes of request k. */
  lemma ExecutedAtIs(issued: seq<Request>, log: seq<Event>, g: nat, k: nat)
    requires AllLegal(issued) && InOrder(issued, Execs(log)) && ExecutesAt(log, g, k)
    ensures k < |issued| && log[g].c == Decoded(issued[k])
  {
    hide Decoded;
    var upto := log[..g + 1];
    assert upto[..g] == log[..g];
    assert log == upto + log[g + 1..];
    ExecsAppend(upto, log[g + 1..]);
    assert Execs(upto) == Execs(log[..g]) + [log[g].c];
  }

  /** All requests below the acked position were executed before the ack at a, and their gets settled. */
  ghost predicate AckSettles(cfg: Config, issued: seq<Request>, log: seq<Event>, a: int)
    requires AllLegal(issued) && 0 <= a < |log| && log[a].Acked?
  {
    forall k :: 0 <= k < |issued| && Start(issued, k + 1) <= log[a].q ==> SettledRequest(cfg, issued, log, k, a)
  }

  ghost predicate SettledRequest(cfg: Config, issued: seq<Request>, log: seq<Event>, k: int, a: int)
    requires 0 <= k < |issued| && 0 <= a <= |log|
  {
    exists g :: 0 <= g < a && ExecutesAt(log, g, k) && (WritesLocal(cfg, issued[k]) ==> Settled(cfg, log, g, a))
  }

  lemma EarnedSettles(cfg: Config, issued: seq<Request>, log: seq<Event>, a: int)
    requires AllLegal(issued) && InOrder(issued, Execs(log)) && 0 <= a < |log| && log[a].Acked?
    requires AckEarned(cfg, issued, log, a)
    ensures AckSettles(cfg, issued, log, a)
  {
    hide Settled, QuietedBetween, Start, IsGet, Decoded, InOrder, WritesLocal, Execs;
    var j :| 0 <= j <= a && EarnedFrom(cfg, issued, log, a, j);
    forall k | 0 <= k < |issued| && Start(issued, k + 1) <= log[a].q
      ensures SettledRequest(cfg, issued, log, k, a)
    {
      StartReflects(issued, k, |Execs(log[..j])|);
      var g := ExecutionOf(log[..j], k);
      assert log[..j][..g] == log[..g];
      ExecutedAtIs(issued, log, g, k);
      GetsAreRecognised(cfg, issued[k]);
    }
  }

  /** A request that ends at or before the start of request m comes before it. */
  lemma StartReflects(issued: seq<Request>, k: nat, m: nat)
    requires AllLegal(issued) && k < |issued| && m <= |issued| && Start(issued, k + 1) <= Start(issued, m)
    ensures k < m
  {
    hide Encode, Stream;
    StartNext(issued, k);
    if m <= k {
      assert issued[..k][..m] == issued[..m];
      StreamPrefix(issued[..k], m);
    }
  }

  /** Quiet is sound: every ack ever given was earned, and the counters are in order. */
  lemma QuietSound(cfg: Config, run: seq<State>, i: nat)
    requires IsRun(cfg, run) && i < |run|
    ensures var s := run[i]; var h := s.host;
      && AllLegal(s.device.issued)
      && 0 <= h.quietAck <= h.lastQuietIssue <= s.device.quietIssue
      && (h.quietAck > 0 ==> Acked(h.quietAck) in h.log)
      && forall a :: 0 <= a < |h.log| && h.log[a].Acked? ==>
           AckEarned(cfg, s.device.issued, h.log, a) && AckSettles(cfg, s.device.issued, h.log, a)
  {
    hide AckEarned, AckSettles, ChannelInv;
    RunInv(cfg, run, i);
    var s := run[i];
    InvIsLegal(cfg, s);
    forall a | 0 <= a < |s.host.log| && s.host.log[a].Acked?
      ensures AckSettles(cfg, s.device.issued, s.host.log, a)
    {
      EarnedSettles(cfg, s.device.issued, s.host.log, a);
    }
  }

  /**
   In every run, where request m is a quiet on queue pairs and was executed at e: it is published as
   complete at the position just after it, and every earlier request was executed before it and, if it
   writes local memory, was settled already or is flushed between the quiet and that publication.
   */
  lemma QpQuietSound(cfg: Config, run: seq<State>, i: nat, e: nat, m: nat)
    requires IsRun(cfg, run) && i < |run| && m < |run[i].device.issued| && run[i].device.issued[m].QpQuiet?
    requires ExecutesAt(run[i].host.log, e, m)
    ensures AllLegal(run[i].device.issued)
    ensures var issued, log := run[i].device.issued, run[i].host.log; var w := Publication(log, e);
      && PublishedAt(log, w) && log[w].p == Start(issued, m + 1)
      && forall k :: 0 <= k < m ==> FlushedRequest(cfg, issued, log, k, e, w)
  {
    hide Inv, IsRun;
    RunInv(cfg, run, i);
    InvLogs(cfg, run[i]);
    QpQuietEarned(cfg, run[i].device.issued, run[i].host.log, e, m);
  }

  lemma InvLogs(cfg: Config, s: State)
    requires Inv(cfg, s)
    ensures AllLegal(s.device.issued) && InOrder(s.device.issued, Execs(s.host.log))
    ensures QpQuietsFlush(cfg, s.host.log) && PublishingOk(s.device.issued, s.host.log)
  {
    hide ChannelInv;
    InvIsLegal(cfg, s);
  }

  lemma QpQuietEarned(cfg: Config, issued: seq<Request>, log: seq<Event>, e: nat, m: nat)
    requires AllLegal(issued) && InOrder(issued, Execs(log)) && QpQuietsFlush(cfg, log) && PublishingOk(issued, log)
    requires m < |issued| && issued[m].QpQuiet? && ExecutesAt(log, e, m)
    ensures var w := Publication(log, e);
      && PublishedAt(log, w) && log[w].p == Start(issued, m + 1)
      && forall k :: 0 <= k < m ==> FlushedRequest(cfg, issued, log, k, e, w)
  {
    hide Settled, Execs, IsGet, Decoded, InOrder, WritesLocal, Start;
    var w := Publication(log, e);
    ExecutedAtIs(issued, log, e, m);
    GetsAreRecognised(cfg, issued[m]);
    assert PublishedAt(log, w);
    assert PublishesDone(issued, log[..w], log[w].p);
    ExecsUpTo(log, e);
    forall k | 0 <= k < m
      ensures FlushedRequest(cfg, issued, log, k, e, w)
    {
      var g := ExecutionOf(log[..e], k);
      assert log[..e][..g] == log[..g];
      ExecutedAtIs(issued, log, g, k);
      GetsAreRecognised(cfg, issued[k]);
    }
  }

  /** Request k was executed before e and, if it writes local memory, settled before e or flushed before w. */
  ghost predicate FlushedRequest(cfg: Config, issued: seq<Request>, log: seq<Event>, k: int, e: int, w: int)
    requires 0 <= k < |issued| && 0 <= e <= |log|
  {
    exists g :: 0 <= g < e && ExecutesAt(log, g, k) &&
      (WritesLocal(cfg, issued[k]) ==> Settled(cfg, log, g, e) || (e + 1 < w && FlushAt(log, e + 1)))
  }

  lemma ExecsUpTo(log: seq<Event>, e: nat)
    requires e < |log| && log[e].Executed?
    ensures |Execs(log[..e + 1])| == |Execs(log[..e])| + 1
    ensures FlushAt(log, e + 1) ==> Execs(log[..e + 2]) == Execs(log[..e + 1])
  {
    assert log[..e + 1][..e] == log[..e];
    if FlushAt(log, e + 1) {
      assert log[..e + 2][..e + 1] == log[..e + 1];
    }
  }

  /** In every run completion is published for exactly the requests executed so far. */
  lemma PublishedExactly(cfg: Config, run: seq<State>, i: nat, w: nat)
    requires IsRun(cfg, run) && i < |run| && w < |run[i].host.log| && run[i].host.log[w].Published?
    ensures AllLegal(run[i].device.issued)
    ensures PublishesDone(run[i].device.issued, run[i].host.log[..w], run[i].host.log[w].p)
    ensures run[i].host.complete > 0 ==> Published(run[i].host.complete) in run[i].host.log
  {
    hide ChannelInv, PublishesDone;
    RunInv(cfg, run, i);
    InvIsLegal(cfg, run[i]);
  }

  lemma InvIsLegal(cfg: Config, s: State)
    requires ChannelInv(cfg, s)
    ensures AllLegal(s.device.issued) && InOrder(s.device.issued, Execs(s.host.log))
  {
  }

  /** Completion lags by less than the threshold, and not at all after a quiet on queue pairs. */
  lemma CompletionPublished(cfg: Config, run: seq<State>, i: nat)
    requires IsRun(cfg, run) && i + 1 < |run|
    ensures run[i].host.complete <= run[i].host.processed < run[i].host.complete + THRESHOLD
    ensures run[i].host.complete <= run[i + 1].host.complete
    ensures run[i].host.processed <= run[i + 1].host.processed
    ensures run[i].host.quietAck <= run[i + 1].host.quietAck
    ensures run[i].host.lastQuietIssue <= run[i + 1].host.lastQuietIssue
    ensures run[i].device.quietIssue <= run[i + 1].device.quietIssue
    ensures |Execs(run[i + 1].host.log)| > |Execs(run[i].host.log)| && Last(Execs(run[i + 1].host.log)).QuietQps? ==>
      run[i + 1].host.complete == run[i + 1].host.processed
  {
    RunInv(cfg, run, i);
    RunInv(cfg, run, i + 1);
    assert Next(cfg, run[i], run[i + 1]);
    var step :| Enabled(cfg, run[i], step) && run[i + 1] == Apply(cfg, run[i], step);
    StepPublishes(cfg, run[i], step);
  }

  function Last(cs: seq<Command>): Command
    requires cs != []
  {
    cs[|cs| - 1]
  }

  lemma StepPublishes(cfg: Config, s: State, step: Step)
    requires Inv(cfg, s) && Enabled(cfg, s, step)
    ensures var s' := Apply(cfg, s, step);
      && s.host.complete <= s'.host.complete && s.host.processed <= s'.host.processed
      && s.host.quietAck <= s'.host.quietAck && s.host.lastQuietIssue <= s'.host.lastQuietIssue
      && s.device.quietIssue <= s'.device.quietIssue
      && (|Execs(s'.host.log)| > |Execs(s.host.log)| && Last(Execs(s'.host.log)).QuietQps? ==>
            s'.host.complete == s'.host.processed)
  {
    hide Stream, Encode, SlotsOk, WrittenOk, InOrder, NextCommand, Decoded, AcksEarned, GetsOk, QpQuietsFlush, PublishingOk;
    if step.Execute? {
      ReadsCommand(cfg, s);
      var (c, len) := NextCommand(cfg, s.host, s.slots);
      PerformLog(cfg, s.host, c, len);
    } else if step.QuietDrain? {
      DrainKeepsLog(cfg, s.device.issued, s.host.log, s.host.issuedGet, s.host.lastQuietIssue);
      assert Apply(cfg, s, step).host.log == Drained(cfg, s.host.log, s.host.issuedGet, s.host.lastQuietIssue);
    }
  }
}
