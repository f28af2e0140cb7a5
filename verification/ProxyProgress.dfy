/**
 A proxy channel does not get stuck: as long as no request is longer than the buffer less the lag of
 completion, everything issued is executed and every quiet is acked, in a bounded number of steps.
 */
module ProxyProgress {
  import opened Intervals
  import opened ProxyCodec
  import opened ProxyHost
  import opened ProxyChannel
  import opened ProxyQuiet

  /** The longest request that is always let through. */
  function Longest(cfg: Config): int {
    cfg.n - (THRESHOLD - 1)
  }

  ghost predicate AllShort(cfg: Config, issued: seq<Request>) {
    forall k :: 0 <= k < |issued| && Legal(issued[k]) ==> |Encode(issued[k])| <= Longest(cfg)
  }

  /** A step that serves what was asked for, rather than asking for more. */
  predicate Serves(step: Step) {
    !step.Reserve? && !step.RaiseQuiet?
  }

  ghost predicate CanServe(cfg: Config, s: State)
    requires Shape(cfg, s)
  {
    exists step :: Serves(step) && Enabled(cfg, s, step)
  }

  ghost predicate AllDone(s: State)
    requires AllLegal(s.device.issued)
  {
    s.host.processed == |Stream(s.device.issued)| && s.host.quietAck == s.device.quietIssue
  }

  /** The next request can be written, seen or executed. */
  lemma RequestMoves(cfg: Config, s: State)
    requires Inv(cfg, s) && |Execs(s.host.log)| < |s.device.issued|
    requires |Encode(s.device.issued[|Execs(s.host.log)|])| <= Longest(cfg)
    ensures CanServe(cfg, s)
  {
    hide Stream, Encode, SlotsOk, InOrder, AcksEarned, GetsOk, QpQuietsFlush, PublishingOk, Flag;
    var d, h, k := s.device, s.host, |Execs(s.host.log)|;
    var len := |Encode(d.issued[k])|;
    StartNext(d.issued, k);
    if h.seen == len {
      assert h.processed in d.written;
      LengthIsRead(cfg, s);
      assert Enabled(cfg, s, Execute);
    } else if h.processed + h.seen in d.written {
      assert h.processed in d.written;
      LengthIsRead(cfg, s);
      Freshness(cfg, s, h.processed + h.seen);
      assert Enabled(cfg, s, See);
    } else {
      assert Enabled(cfg, s, Write(k, h.seen));
    }
  }

  /** While something is left to do, some step can do it. */
  lemma NeverStuck(cfg: Config, s: State)
    requires Inv(cfg, s) && AllShort(cfg, s.device.issued) && !AllDone(s)
    ensures CanServe(cfg, s)
  {
    hide Encode, SlotsOk, InOrder, AcksEarned, GetsOk, QpQuietsFlush, PublishingOk, Flag;
    var d, h, k := s.device, s.host, |Execs(s.host.log)|;
    if k < |d.issued| {
      RequestMoves(cfg, s);
    } else {
      assert d.issued[..k] == d.issued;
      assert h.seen == 0;
      assert h.quiet == Inactive ==> Enabled(cfg, s, QuietCheck);
      assert h.quiet == InProgress ==> Enabled(cfg, s, QuietTest);
      assert h.quiet == Done ==> Enabled(cfg, s, QuietDrain);
    }
  }

  // ---------------------------------------------------------------------------------------------
  // Bounded work

  function QuietRank(d: Device, h: Host): int {
    (if d.quietIssue > h.lastQuietIssue then 3 else 0)
    + (match h.quiet case Inactive => 0 case InProgress => 2 case Done => 1)
  }

  /** The number of steps that serve what has been asked for so far. */
  ghost function Work(s: State): int
    requires AllLegal(s.device.issued)
  {
    var m := |Stream(s.device.issued)|;
    (m - |s.device.written|) + 2 * (m - s.host.processed) - s.host.seen + QuietRank(s.device, s.host)
  }

  lemma WorkIsNat(cfg: Config, s: State)
    requires Inv(cfg, s)
    ensures Work(s) >= 0
  {
    hide Stream, Encode, SlotsOk, InOrder, AcksEarned, GetsOk, QpQuietsFlush, PublishingOk, PositionOk;
    var d, h, m := s.device, s.host, |Stream(s.device.issued)|;
    PositionInStream(d.issued, h);
    forall p | p in d.written
      ensures p in Interval(0, m)
    {
      assert In(0, m, p);
    }
    SubsetSize(d.written, Interval(0, m));
    IntervalSize(0, m);
  }

  lemma StepDoesWork(cfg: Config, s: State, step: Step)
    requires Inv(cfg, s) && Enabled(cfg, s, step) && Serves(step)
    ensures Apply(cfg, s, step).device.issued == s.device.issued
    ensures Work(Apply(cfg, s, step)) < Work(s)
  {
    hide Inv, Stream, Encode, HasHandler, FlagSet, HostLength, Quiets, ExecuteNext;
    InvLegal(cfg, s);
    if step.Execute? {
      ExecuteDoesWork(cfg, s);
    } else if step.Write? {
      OneMore(s.device.written, Start(s.device.issued, step.k) + step.i);
    }
  }

  lemma OneMore(a: set<int>, x: int)
    requires x !in a
    ensures |a + {x}| == |a| + 1
  {
  }

  lemma ExecuteDoesWork(cfg: Config, s: State)
    requires Inv(cfg, s) && Enabled(cfg, s, Execute)
    ensures Work(Apply(cfg, s, Execute)) < Work(s)
  {
    hide Inv, ChannelInv, Stream, Encode, NextCommand, Decoded, HostLength;
    InvIsChannelInv(cfg, s);
    ReadsCommand(cfg, s);
  }

  lemma InvIsChannelInv(cfg: Config, s: State)
    requires Inv(cfg, s)
    ensures ChannelInv(cfg, s)
  {
  }

  /** States joined by steps that serve. */
  ghost predicate Serving(cfg: Config, path: seq<State>) {
    && path != []
    && forall i, j :: 0 <= i < j < |path| && j == i + 1 ==> ServedTo(cfg, path[i], path[j])
  }

  ghost predicate ServedTo(cfg: Config, s: State, s': State) {
    Shape(cfg, s) && exists step :: Serves(step) && Enabled(cfg, s, step) && s' == Apply(cfg, s, step)
  }

  lemma {:induction false} ServingFacts(cfg: Config, path: seq<State>, i: nat)
    requires Serving(cfg, path) && Inv(cfg, path[0]) && i < |path|
    ensures Inv(cfg, path[i]) && path[i].device.issued == path[0].device.issued
    ensures Work(path[i]) + i <= Work(path[0])
    decreases i
  {
    hide Inv, Work, Apply;
    InvLegal(cfg, path[0]);
    if i > 0 {
      ServingFacts(cfg, path, i - 1);
      assert ServedTo(cfg, path[i - 1], path[i]);
      var step :| Serves(step) && Enabled(cfg, path[i - 1], step) && path[i] == Apply(cfg, path[i - 1], step);
      NextKeepsInv(cfg, path[i - 1], step);
      StepDoesWork(cfg, path[i - 1], step);
      InvLegal(cfg, path[i]);
    }
  }

  lemma InvLegal(cfg: Config, s: State)
    requires Inv(cfg, s)
    ensures Shape(cfg, s) && AllLegal(s.device.issued)
  {
  }

  /**
   From every reachable state, serving ends after a bounded number of steps; and it can end only
   when every request issued has been executed and every quiet asked for has been acked.
   */
  lemma Drains(cfg: Config, run: seq<State>, i: nat, path: seq<State>)
    requires IsRun(cfg, run) && i < |run| && Serving(cfg, path) && path[0] == run[i]
    requires AllShort(cfg, run[i].device.issued)
    ensures AllLegal(run[i].device.issued) && |path| <= Work(run[i]) + 1
    ensures Shape(cfg, path[|path| - 1])
    ensures !CanServe(cfg, path[|path| - 1]) ==> AllDone(path[|path| - 1])
  {
    hide Inv, Work, CanServe, AllDone;
    RunInv(cfg, run, i);
    InvLegal(cfg, run[i]);
    var last := |path| - 1;
    ServingFacts(cfg, path, last);
    InvLegal(cfg, path[last]);
    WorkIsNat(cfg, path[last]);
    if !AllDone(path[last]) {
      NeverStuck(cfg, path[last]);
    }
  }

  // ---------------------------------------------------------------------------------------------
  // The bound on the length is exact

  function Final(run: seq<State>): State
    requires run != []
  {
    run[|run| - 1]
  }

  /** Request f is the next to be executed, and its first entry is not there. */
  ghost predicate Waiting(s: State, f: int) {
    && AllLegal(s.device.issued) && 0 <= f < |s.device.issued|
    && |Execs(s.host.log)| == f && Start(s.device.issued, f) !in s.device.written
  }

  /** Request f is waiting, and the flow control does not let it through. */
  ghost predicate Blocked(cfg: Config, s: State, f: int) {
    Waiting(s, f) && Start(s.device.issued, f + 1) > s.host.complete + cfg.n
  }

  /** Whatever happens after the run, request f is still waiting. */
  ghost predicate WaitsForEver(cfg: Config, run: seq<State>, f: int)
    requires run != []
  {
    forall longer :: IsRun(cfg, longer) && run <= longer ==> Waiting(Final(longer), f)
  }

  lemma BlockedSeesNothing(cfg: Config, s: State, f: int)
    requires Inv(cfg, s) && Blocked(cfg, s, f)
    ensures s.host.seen == 0 && s.host.processed == Start(s.device.issued, f)
    ensures !Enabled(cfg, s, See) && !Enabled(cfg, s, Execute)
  {
    hide Encode, Stream, SlotsOk, InOrder, Flag, AcksEarned, GetsOk, QpQuietsFlush, PublishingOk;
    if Enabled(cfg, s, See) {
      SeenIsWritten(cfg, s);
    }
  }

  /** Nothing that the device or the host can do unblocks a request. */
  lemma BlockedStays(cfg: Config, s: State, f: int, step: Step)
    requires Inv(cfg, s) && Blocked(cfg, s, f) && Enabled(cfg, s, step)
    ensures Blocked(cfg, Apply(cfg, s, step), f)
  {
    hide Encode, Stream, ChannelInv, Flag, AcksEarned, GetsOk, QpQuietsFlush, PublishingOk, Execs, Quiets;
    var d, h := s.device, s.host;
    InvLegal(cfg, s);
    match step {
      case Reserve(r) =>
        StreamAppend(d.issued, r);
        StartStays(d.issued, r, f);
        StartStays(d.issued, r, f + 1);
      case Write(k, i) =>
        if k != f {
          OtherPosition(d.issued, k, i, f);
        }
      case RaiseQuiet(_) =>
      case See => BlockedSeesNothing(cfg, s, f);
      case Execute => BlockedSeesNothing(cfg, s, f);
      case QuietCheck =>
      case QuietTest =>
      case QuietDrain =>
        DoneIsExecuted(cfg, s);
        DrainKeepsLog(cfg, d.issued, h.log, h.issuedGet, h.lastQuietIssue);
        assert Apply(cfg, s, step).host.log == Drained(cfg, h.log, h.issuedGet, h.lastQuietIssue);
    }
  }

  /** An entry of another request is at another position. */
  lemma OtherPosition(issued: seq<Request>, k: nat, i: nat, f: nat)
    requires AllLegal(issued) && k < |issued| && f < |issued| && i < |Encode(issued[k])| && k != f
    ensures Start(issued, k) + i != Start(issued, f)
  {
    hide Encode, Stream;
    StartNext(issued, k);
    StartNext(issued, f);
    if k < f {
      StartGrows(issued, k + 1, f);
    } else {
      StartGrows(issued, f + 1, k);
    }
  }

  lemma StartGrows(issued: seq<Request>, k: nat, f: nat)
    requires AllLegal(issued) && k <= f <= |issued|
    ensures Start(issued, k) <= Start(issued, f)
  {
    assert issued[..f][..k] == issued[..k];
    StreamPrefix(issued[..f], k);
  }

  /** A blocked request stays blocked in every continuation of the run. */
  lemma {:induction false} BlockedForEver(cfg: Config, run: seq<State>, i: nat, j: nat, f: int)
    requires IsRun(cfg, run) && i <= j < |run| && Blocked(cfg, run[i], f)
    ensures Blocked(cfg, run[j], f)
  {
    hide Blocked, Inv, Enabled, Apply, Shape;
    if i < j {
      BlockedForEver(cfg, run, i, j - 1, f);
      RunInv(cfg, run, j - 1);
      assert Next(cfg, run[j - 1], run[j]);
      var step :| Enabled(cfg, run[j - 1], step) && run[j] == Apply(cfg, run[j - 1], step);
      BlockedStays(cfg, run[j - 1], f, step);
    }
  }

  /** The next request waits for ever exactly when it has no entry yet and the flow control holds it back. */
  lemma WaitsForEverIffBlocked(cfg: Config, run: seq<State>, f: int)
    requires IsRun(cfg, run)
    ensures WaitsForEver(cfg, run, f) <==> Blocked(cfg, Final(run), f)
  {
    hide Inv, Encode, Stream, Start, Execs, Next;
    var s := Final(run);
    if Blocked(cfg, s, f) {
      forall longer | IsRun(cfg, longer) && run <= longer
        ensures Waiting(Final(longer), f)
      {
        assert longer[|run| - 1] == s;
        BlockedForEver(cfg, longer, |run| - 1, |longer| - 1, f);
      }
    } else if Waiting(s, f) {
      RunInv(cfg, run, |run| - 1);
      InvLegal(cfg, s);
      CanStart(cfg, s, f);
      RunExtend(cfg, run, Write(f, 0));
      var longer := run + [Apply(cfg, s, Write(f, 0))];
      assert run <= longer && !Waiting(Final(longer), f);
    } else {
      assert run <= run && Final(run) == s;
    }
  }

  lemma CanStart(cfg: Config, s: State, f: int)
    requires Shape(cfg, s) && Waiting(s, f) && !Blocked(cfg, s, f)
    ensures Enabled(cfg, s, Write(f, 0))
    ensures !Waiting(Apply(cfg, s, Write(f, 0)), f)
  {
    hide Stream, Execs;
  }

  /** f fences were executed and completion is not yet published. */
  ghost predicate AfterFences(s: State, f: int) {
    var h := s.host;
    && |s.device.issued| == f && (forall k :: 0 <= k < f ==> s.device.issued[k] == Fence)
    && h.processed == f && h.complete == 0 && h.lastSync == 0 && h.seen == 0
    && h.quiet == Inactive && h.lastQuietIssue == 0 && s.device.quietIssue == 0
  }

  lemma RunExtend(cfg: Config, run: seq<State>, step: Step)
    requires IsRun(cfg, run) && Shape(cfg, run[|run| - 1]) && Enabled(cfg, run[|run| - 1], step)
    ensures IsRun(cfg, run + [Apply(cfg, run[|run| - 1], step)])
  {
    hide Apply, Enabled;
    var run' := run + [Apply(cfg, run[|run| - 1], step)];
    forall i, j | 0 <= i < j < |run'| && j == i + 1
      ensures Next(cfg, run'[i], run'[j])
    {
      if j < |run| {
        assert Next(cfg, run[i], run[j]);
      }
    }
  }

  lemma {:induction false} FenceStream(issued: seq<Request>)
    requires AllLegal(issued) && forall k :: 0 <= k < |issued| ==> issued[k] == Fence
    ensures |Stream(issued)| == |issued|
    decreases |issued|
  {
    if issued != [] {
      FenceStream(issued[..|issued| - 1]);
    }
  }

  lemma FenceStart(issued: seq<Request>, k: nat)
    requires AllLegal(issued) && k <= |issued| && forall i :: 0 <= i < k ==> issued[i] == Fence
    ensures Start(issued, k) == k
  {
    FenceStream(issued[..k]);
  }

  /** One more fence goes through the channel. */
  lemma FenceStep(cfg: Config, run: seq<State>, f: nat) returns (run': seq<State>)
    requires IsRun(cfg, run) && AfterFences(run[|run| - 1], f) && f < THRESHOLD - 1 && f < cfg.n
    ensures IsRun(cfg, run') && AfterFences(run'[|run'| - 1], f + 1)
  {
    hide Inv, Stream, Encode, Flag, Next;
    var s := run[|run| - 1];
    RunInv(cfg, run, |run| - 1);
    InvLegal(cfg, s);
    NotYetWritten(cfg, s, f);
    RunExtend(cfg, run, Reserve(Fence));
    var s1 := Apply(cfg, s, Reserve(Fence));
    run' := run + [s1];
    RunInv(cfg, run', |run'| - 1);
    FenceWritable(cfg, s1, f);
    RunExtend(cfg, run', Write(f, 0));
    var s2 := Apply(cfg, s1, Write(f, 0));
    run' := run' + [s2];
    RunInv(cfg, run', |run'| - 1);
    FenceSeen(cfg, s2, f);
    RunExtend(cfg, run', See);
    var s3 := Apply(cfg, s2, See);
    run' := run' + [s3];
    RunInv(cfg, run', |run'| - 1);
    FenceExecuted(cfg, s3, f);
    RunExtend(cfg, run', Execute);
    run' := run' + [Apply(cfg, s3, Execute)];
  }

  /** The state between the reservation of fence f and its execution. */
  ghost predicate AtFence(s: State, f: int, seen: int) {
    var h := s.host;
    && |s.device.issued| == f + 1 && (forall k :: 0 <= k <= f ==> s.device.issued[k] == Fence)
    && h.processed == f && h.complete == 0 && h.lastSync == 0 && h.seen == seen
    && h.quiet == Inactive && h.lastQuietIssue == 0 && s.device.quietIssue == 0
  }

  lemma NotYetWritten(cfg: Config, s: State, f: nat)
    requires Inv(cfg, s) && AfterFences(s, f)
    ensures f !in s.device.written
  {
    hide Encode, Stream, SlotsOk;
    FenceStream(s.device.issued);
  }

  lemma FenceWritable(cfg: Config, s: State, f: nat)
    requires Inv(cfg, s) && AtFence(s, f, 0) && f < cfg.n
    ensures Shape(cfg, s) && (f !in s.device.written ==> Enabled(cfg, s, Write(f, 0)))
    ensures Start(s.device.issued, f) == f
  {
    FenceStart(s.device.issued, f);
    FenceStart(s.device.issued, f + 1);
  }

  lemma FenceSeen(cfg: Config, s: State, f: nat)
    requires Inv(cfg, s) && AtFence(s, f, 0) && f in s.device.written
    ensures Shape(cfg, s) && Enabled(cfg, s, See)
  {
    Freshness(cfg, s, f);
  }

  lemma FenceExecuted(cfg: Config, s: State, f: nat)
    requires Inv(cfg, s) && AtFence(s, f, 1) && f < THRESHOLD - 1
    ensures Shape(cfg, s) && Enabled(cfg, s, Execute) && AfterFences(Apply(cfg, s, Execute), f + 1)
  {
    hide Encode, Stream, SlotsOk, InOrder, NextCommand;
    FenceStart(s.device.issued, f);
    FenceIsOne();
    LengthIsRead(cfg, s);
    ReadsCommand(cfg, s);
    FenceRoundTrip();
  }

  lemma FenceIsOne()
    ensures |Encode(Fence)| == 1
  {
  }

  lemma {:induction false} FencesRun(cfg: Config, f: nat) returns (run: seq<State>)
    requires ConfigOk(cfg) && f <= THRESHOLD - 1 && f <= cfg.n
    ensures IsRun(cfg, run) && AfterFences(run[|run| - 1], f)
  {
    if f == 0 {
      run := [Init(cfg)];
    } else {
      var shorter := FencesRun(cfg, f - 1);
      run := FenceStep(cfg, shorter, f - 1);
    }
  }

  /** For every long request there is a run, through fences, after which it waits for ever. */
  lemma LongSticks(cfg: Config, r: Request) returns (run: seq<State>, f: nat)
    requires ConfigOk(cfg) && Legal(r) && |Encode(r)| > Longest(cfg)
    ensures Sticks(cfg, r, run, f)
  {
    hide Inv, Stream, Encode, Next, Execs, WaitsForEver;
    f := if cfg.n < THRESHOLD - 1 then cfg.n else THRESHOLD - 1;
    run := FencesRun(cfg, f);
    var s := Final(run);
    RunInv(cfg, run, |run| - 1);
    InvLegal(cfg, s);
    NotYetWritten(cfg, s, f);
    RunExtend(cfg, run, Reserve(r));
    run := run + [Apply(cfg, s, Reserve(r))];
    RunInv(cfg, run, |run| - 1);
    NoSpace(cfg, Final(run), f, r);
    WaitsForEverIffBlocked(cfg, run, f);
  }

  /** Behind f fences, a request that does not fit the rest of the buffer is blocked. */
  lemma NoSpace(cfg: Config, s: State, f: nat, r: Request)
    requires Inv(cfg, s) && Legal(r) && |s.device.issued| == f + 1 && s.device.issued[f] == r
    requires (forall k :: 0 <= k < f ==> s.device.issued[k] == Fence) && f !in s.device.written
    requires s.host.processed == f && s.host.complete == 0 && f + |Encode(r)| > cfg.n
    ensures Blocked(cfg, s, f)
  {
    hide Stream, SlotsOk, WrittenOk, InOrder, AcksEarned, GetsOk, QpQuietsFlush, PublishingOk, Encode;
    var issued, k := s.device.issued, |Execs(s.host.log)|;
    FenceStart(issued, f);
    StartNext(issued, f);
    if k < f {
      FenceStart(issued, k);
    } else if k > f {
      StartGrows(issued, f + 1, k);
    }
  }

  /** Request f of the run is r, and it waits for ever. */
  ghost predicate Sticks(cfg: Config, r: Request, run: seq<State>, f: nat) {
    && IsRun(cfg, run) && f < |Final(run).device.issued| && Final(run).device.issued[f] == r
    && WaitsForEver(cfg, run, f)
  }

  /** The next request of a run, whatever else was issued, is blocked only if it is long. */
  lemma BlockedIsLong(cfg: Config, s: State, f: nat)
    requires Inv(cfg, s) && Blocked(cfg, s, f)
    ensures |Encode(s.device.issued[f])| > Longest(cfg)
  {
    hide Encode, Stream, SlotsOk, WrittenOk, InOrder, AcksEarned, GetsOk, QpQuietsFlush, PublishingOk;
    StartNext(s.device.issued, f);
  }

  /** In some run a request is next and waits for ever, exactly when it is longer than the bound. */
  lemma SticksIffLong(cfg: Config, r: Request)
    requires ConfigOk(cfg) && Legal(r)
    ensures (exists run, f :: Sticks(cfg, r, run, f)) <==> |Encode(r)| > Longest(cfg)
  {
    hide Encode, WaitsForEver, IsRun, Inv;
    if |Encode(r)| > Longest(cfg) {
      var run, f := LongSticks(cfg, r);
      assert Sticks(cfg, r, run, f);
    }
    forall run, f | Sticks(cfg, r, run, f)
      ensures |Encode(r)| > Longest(cfg)
    {
      StickerIsLong(cfg, r, run, f);
    }
  }

  lemma StickerIsLong(cfg: Config, r: Request, run: seq<State>, f: nat)
    requires Legal(r) && Sticks(cfg, r, run, f)
    ensures |Encode(r)| > Longest(cfg)
  {
    hide Encode, Inv, Blocked, WaitsForEver;
    WaitsForEverIffBlocked(cfg, run, f);
    RunInv(cfg, run, |run| - 1);
    BlockedIsLong(cfg, Final(run), f);
  }
}
