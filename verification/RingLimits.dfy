/**
 When the ring all-reduce is right: exactly when every wait asks for the signal of the put it is meant
 for.  With one PE no wait holds it back, and with three or more a PE between the first and the last
 waits for one signal too few as soon as the chunks do not fill the block exactly.
 */
module RingLimits {
  import opened RingAllReduce

  /** The kernel computes the all-reduce: in every run, a PE that has finished holds the result. */
  ghost predicate Correct<V(!new)>(cfg: Config<V>) {
    forall run: seq<State<V>>, i: nat, q: nat ::
      Run(cfg, run) && i < |run| && Shape(cfg, run[i]) && q < cfg.npes && run[i].pc[q].Done? ==>
        HoldsResult(cfg, run[i], q)
  }

  /** In every run, a PE that has finished has no put on its way to it. */
  ghost predicate Settled<V(!new)>(cfg: Config<V>) {
    forall run: seq<State<V>>, i: nat, q: nat ::
      Run(cfg, run) && i < |run| && Shape(cfg, run[i]) && q < cfg.npes && run[i].pc[q].Done? ==>
        run[i].net[Pred(cfg, q)] == []
  }

  /** The state at a launch, with what dst happens to hold. */
  ghost function Launch<V>(cfg: Config<V>, dst: seq<seq<V>>): (s: State<V>)
    requires ValidConfig(cfg) && |dst| == cfg.npes && forall p :: 0 <= p < cfg.npes ==> |dst[p]| == cfg.nchunks
    ensures Init(cfg, s) && s.dst == dst
  {
    State(seq(cfg.npes, _ => ReduceHead(cfg, 0)), dst, seq(cfg.npes, _ => 0), seq(cfg.npes, _ => []))
  }

  // ---------------------------------------------------------------------------------------------
  // What holds of the counts however the waits are set

  ghost predicate NetCounts<V>(cfg: Config<V>, s: State<V>)
    requires Shape(cfg, s)
  {
    && (forall p :: 0 <= p < cfg.npes ==> 0 <= Recv(cfg, s, p))
    && (forall p, k :: 0 <= p < cfg.npes && 0 <= k < |s.net[p]| ==> Numbered(cfg, p, Recv(cfg, s, p) + k, s.net[p][k]))
  }

  /** What put number m of PE p moves. */
  ghost predicate Numbered<V>(cfg: Config<V>, p: nat, m: nat, msg: Msg<V>) {
    && msg.chunk == (if m < cfg.nchunks then m else m - cfg.nchunks)
    && msg.fromSrc == (p == 0 && m < cfg.nchunks)
  }

  /** An unfinished PE's signal counts its left neighbour's puts, and the reduce waits were kept. */
  ghost predicate WaitCounts<V>(cfg: Config<V>, s: State<V>)
    requires Shape(cfg, s)
  {
    forall q :: 0 <= q < cfg.npes ==>
      && (!s.pc[q].Done? ==> s.signal[q] == Recv(cfg, s, Pred(cfg, q)))
      && (forall c :: 0 <= c < cfg.nchunks && q > 0 && PassedReduceWait(s.pc[q], c) ==>
            Recv(cfg, s, Pred(cfg, q)) >= c + 1)
  }

  ghost predicate Counts<V>(cfg: Config<V>, s: State<V>) {
    Shape(cfg, s) && NetCounts(cfg, s) && WaitCounts(cfg, s)
  }

  ghost predicate SameLandings<V>(cfg: Config<V>, s: State<V>, t: State<V>)
    requires Shape(cfg, s) && Shape(cfg, t)
  {
    forall p, m: nat :: 0 <= p < cfg.npes ==> Landed(cfg, t, p, m) == Landed(cfg, s, p, m)
  }

  lemma InitCounts<V>(cfg: Config<V>, s: State<V>)
    requires Init(cfg, s)
    ensures Counts(cfg, s)
  {
    assert forall p :: 0 <= p < cfg.npes ==> Recv(cfg, s, p) == 0;
  }

  lemma SignalKeepsNet<V>(cfg: Config<V>, s: State<V>, p: nat)
    requires Shape(cfg, s) && NetCounts(cfg, s) && Enabled(cfg, s, Signal(p))
    ensures var t := Apply(cfg, s, Signal(p));
      && (forall r :: 0 <= r < cfg.npes ==> Recv(cfg, t, r) == Recv(cfg, s, r) + if r == p then 1 else 0)
      && NetCounts(cfg, t) && SameLandings(cfg, s, t)
  {
    hide Sent, ValidPc, PeEffect, PcNext, Numbered;
    var t := Apply(cfg, s, Signal(p));
    assert forall r :: 0 <= r < cfg.npes ==> Recv(cfg, t, r) == Recv(cfg, s, r) + if r == p then 1 else 0;
    assert forall k :: 0 <= k < |t.net[p]| ==> t.net[p][k] == s.net[p][k + 1];
    forall r, k | 0 <= r < cfg.npes && 0 <= k < |t.net[r]|
      ensures Numbered(cfg, r, Recv(cfg, t, r) + k, t.net[r][k])
    {
      var j := if r == p then k + 1 else k;
      assert Numbered(cfg, r, Recv(cfg, s, r) + j, s.net[r][j]);
    }
  }

  lemma SignalKeepsCounts<V>(cfg: Config<V>, s: State<V>, p: nat)
    requires Counts(cfg, s) && Enabled(cfg, s, Signal(p))
    ensures Counts(cfg, Apply(cfg, s, Signal(p))) && SameLandings(cfg, s, Apply(cfg, s, Signal(p)))
  {
    hide Sent, ValidPc, PeEffect, PcNext, Recv, NetCounts, Landed;
    SignalKeepsNet(cfg, s, p);
    var q := Peer(cfg, p);
    assert forall r :: 0 <= r < cfg.npes && Pred(cfg, r) == p ==> r == q;
  }

  lemma LandKeepsCounts<V>(cfg: Config<V>, s: State<V>, p: nat, k: nat)
    requires Counts(cfg, s) && Enabled(cfg, s, Land(p, k))
    ensures var t := Apply(cfg, s, Land(p, k));
      && Counts(cfg, t)
      && forall r, m: nat :: 0 <= r < cfg.npes ==>
           Landed(cfg, t, r, m) == (Landed(cfg, s, r, m) || (r == p && m == Recv(cfg, s, p) + k))
  {
    hide Sent, ValidPc, PeEffect, PcNext, SourceNow;
    var t := Apply(cfg, s, Land(p, k));
    assert forall r :: 0 <= r < cfg.npes ==> Recv(cfg, t, r) == Recv(cfg, s, r);
    forall r, j | 0 <= r < cfg.npes && 0 <= j < |t.net[r]|
      ensures Numbered(cfg, r, Recv(cfg, t, r) + j, t.net[r][j])
    {
      assert Numbered(cfg, r, Recv(cfg, s, r) + j, s.net[r][j]);
    }
  }

  /** What a PE's step adds to its queue: its next put, or nothing. */
  lemma PeQueue<V>(cfg: Config<V>, s: State<V>, p: nat) returns (put: seq<Msg<V>>)
    requires Shape(cfg, s) && Enabled(cfg, s, Pe(p))
    ensures |put| <= 1 && Apply(cfg, s, Pe(p)).net == s.net[p := s.net[p] + put]
    ensures Sent(cfg, Apply(cfg, s, Pe(p)).pc[p], p) == Sent(cfg, s.pc[p], p) + |put|
    ensures put != [] ==> !put[0].landed && Numbered(cfg, p, Sent(cfg, s.pc[p], p), put[0])
  {
    assert ValidPc(cfg, s.pc[p]);
    put := Apply(cfg, s, Pe(p)).net[p][|s.net[p]|..];
    assert s.net[p] + put == Apply(cfg, s, Pe(p)).net[p];
  }

  lemma PeKeepsNet<V>(cfg: Config<V>, s: State<V>, p: nat)
    requires Shape(cfg, s) && NetCounts(cfg, s) && Enabled(cfg, s, Pe(p))
    ensures var t := Apply(cfg, s, Pe(p));
      && (forall r :: 0 <= r < cfg.npes ==> Recv(cfg, t, r) == Recv(cfg, s, r))
      && NetCounts(cfg, t) && SameLandings(cfg, s, t)
  {
    hide Sent, PeEffect, PcNext, ValidPc, Numbered;
    var t := Apply(cfg, s, Pe(p));
    var put := PeQueue(cfg, s, p);
    assert forall r :: 0 <= r < cfg.npes ==> Recv(cfg, t, r) == Recv(cfg, s, r);
    forall r, k | 0 <= r < cfg.npes && 0 <= k < |t.net[r]|
      ensures Numbered(cfg, r, Recv(cfg, t, r) + k, t.net[r][k])
    {
      if k < |s.net[r]| {
        assert Numbered(cfg, r, Recv(cfg, s, r) + k, s.net[r][k]);
      }
    }
  }

  lemma PeKeepsCounts<V>(cfg: Config<V>, s: State<V>, p: nat)
    requires Counts(cfg, s) && Enabled(cfg, s, Pe(p))
    ensures Counts(cfg, Apply(cfg, s, Pe(p))) && SameLandings(cfg, s, Apply(cfg, s, Pe(p)))
  {
    PeKeepsNet(cfg, s, p);
    forall c | 0 <= c < cfg.nchunks {
      PcFacts(cfg, s.pc[p], c);
    }
    hide NetCounts, Landed;
  }

  // ---------------------------------------------------------------------------------------------
  // Three or more PEs and one signal too few: PE 1 can finish before the last put to it lands

  /** The last put to PE 1, the broadcast of the last chunk, has not landed. */
  ghost predicate LastIsOut<V>(cfg: Config<V>, s: State<V>) {
    && Counts(cfg, s) && cfg.npes >= 3 && cfg.nchunks >= 1
    && !Landed(cfg, s, 0, 2 * cfg.nchunks - 1)
    && LastChunk(cfg, s)
  }

  /** What PE 1 holds in its last chunk as long as that put is out. */
  ghost predicate LastChunk<V>(cfg: Config<V>, s: State<V>)
    requires Shape(cfg, s) && cfg.npes >= 3 && cfg.nchunks >= 1
  {
    var c := cfg.nchunks - 1;
    if Added(s.pc[1], c) then s.dst[1][c] == Partial(cfg, 1, c)
    else Landed(cfg, s, 0, c) ==> s.dst[1][c] == Partial(cfg, 0, c)
  }

  /** The step that lands it. */
  ghost predicate LandsLast<V>(cfg: Config<V>, s: State<V>, step: Step)
    requires Shape(cfg, s)
  {
    step.Land? && step.p == 0 < cfg.npes && Recv(cfg, s, 0) + step.k == 2 * cfg.nchunks - 1
  }

  ghost predicate OnlyLastEnabled<V>(cfg: Config<V>, s: State<V>)
    requires Shape(cfg, s)
  {
    forall step :: Enabled(cfg, s, step) ==> LandsLast(cfg, s, step)
  }

  lemma LandKeepsLastOut<V>(cfg: Config<V>, s: State<V>, p: nat, k: nat)
    requires LastIsOut(cfg, s) && Enabled(cfg, s, Land(p, k)) && !LandsLast(cfg, s, Land(p, k))
    ensures LastIsOut(cfg, Apply(cfg, s, Land(p, k)))
  {
    hide Sent, Landed, ValidPc, PeEffect, PcNext;
    var c := cfg.nchunks - 1;
    LandKeepsCounts(cfg, s, p, k);
    assert Numbered(cfg, p, Recv(cfg, s, p) + k, s.net[p][k]);
    assert Pred(cfg, 1) == 0;
    if Added(s.pc[1], c) {
      assert PassedReduceWait(s.pc[1], c);
    }
  }

  lemma PeKeepsLastOut<V>(cfg: Config<V>, s: State<V>, p: nat)
    requires LastIsOut(cfg, s) && Enabled(cfg, s, Pe(p))
    ensures LastIsOut(cfg, Apply(cfg, s, Pe(p)))
  {
    var c := cfg.nchunks - 1;
    PeKeepsCounts(cfg, s, p);
    PcFacts(cfg, s.pc[p], c);
    assert Pred(cfg, 1) == 0;
    assert PassedReduceWait(s.pc[1], c) ==> Landed(cfg, s, 0, c);
    hide Sent, Landed, ValidPc, NetCounts, WaitCounts;
  }

  lemma StepKeepsLastOut<V>(cfg: Config<V>, s: State<V>, step: Step)
    requires LastIsOut(cfg, s) && Enabled(cfg, s, step) && !LandsLast(cfg, s, step)
    ensures LastIsOut(cfg, Apply(cfg, s, step))
  {
    match step
    case Pe(p) => PeKeepsLastOut(cfg, s, p);
    case Land(p, k) => LandKeepsLastOut(cfg, s, p, k);
    case Signal(p) => SignalKeepsCounts(cfg, s, p);
  }

  /** With nothing else left to do PE 1 has finished, and the put is still on its way. */
  lemma OnlyLastIsLeft<V>(cfg: Config<V>, s: State<V>)
    requires LastIsOut(cfg, s) && cfg.numChunks < cfg.nchunks
    requires OnlyLastEnabled(cfg, s)
    ensures s.pc[1].Done? && s.net[0] != [] && s.dst[1][cfg.nchunks - 1] == Partial(cfg, 1, cfg.nchunks - 1)
  {
    forall p | 0 <= p < cfg.npes
      ensures s.net[p] == [] || (p == 0 && Recv(cfg, s, 0) == 2 * cfg.nchunks - 1)
    {
      if s.net[p] != [] {
        var step := if s.net[p][0].landed then Signal(p) else Land(p, 0);
        assert Enabled(cfg, s, step);
      }
    }
    forall p | 0 <= p < cfg.npes
      ensures Sent(cfg, s.pc[p], p) >= cfg.nchunks
    {
      Reduced(cfg, s, p);
    }
    assert !Enabled(cfg, s, Pe(0)) && !Enabled(cfg, s, Pe(1));
    assert s.pc[0].Done?;
    assert s.pc[1].Done?;
  }

  /** With nothing else left to do every PE has come through its reduce loop, from the left. */
  lemma {:induction false} Reduced<V>(cfg: Config<V>, s: State<V>, p: nat)
    requires Counts(cfg, s) && cfg.npes >= 3 && cfg.nchunks >= 1 && p < cfg.npes
    requires forall r :: 0 <= r < cfg.npes ==>
      && !Enabled(cfg, s, Pe(r))
      && (s.net[r] == [] || (r == 0 && Recv(cfg, s, 0) == 2 * cfg.nchunks - 1))
    ensures Sent(cfg, s.pc[p], p) >= cfg.nchunks
  {
    hide NetCounts, PassedReduceWait;
    if p == 0 {
      assert !Enabled(cfg, s, Pe(0));
    } else {
      Reduced(cfg, s, p - 1);
      ReducedNext(cfg, s, p);
    }
  }

  lemma ReducedNext<V>(cfg: Config<V>, s: State<V>, p: nat)
    requires Counts(cfg, s) && 0 < p < cfg.npes && !Enabled(cfg, s, Pe(p))
    requires Recv(cfg, s, p - 1) >= cfg.nchunks
    ensures Sent(cfg, s.pc[p], p) >= cfg.nchunks
  {
    hide NetCounts, PassedReduceWait, Recv;
    assert ValidPc(cfg, s.pc[p]) && Pred(cfg, p) == p - 1;
  }

  /** Any run can go on until only the landing of the last put to PE 1 is left. */
  lemma {:induction false} RunPastLast<V>(cfg: Config<V>, run: seq<State<V>>) returns (longer: seq<State<V>>)
    requires Run(cfg, run) && LastIsOut(cfg, run[|run| - 1])
    ensures Run(cfg, longer) && longer[0] == run[0]
    ensures LastIsOut(cfg, longer[|longer| - 1]) && OnlyLastEnabled(cfg, longer[|longer| - 1])
    decreases Work(cfg, run[|run| - 1], cfg.npes)
  {
    hide NetCounts, WaitCounts, LastChunk, Landed, Work, ValidPc, Init, Next;
    var s := run[|run| - 1];
    if step :| Enabled(cfg, s, step) && !LandsLast(cfg, s, step) {
      var t := Apply(cfg, s, step);
      StepKeepsLastOut(cfg, s, step);
      StepDoesWork(cfg, s, step);
      WorkNonNegative(cfg, t, cfg.npes);
      RunGrows(cfg, run, step);
      longer := RunPastLast(cfg, run + [t]);
    } else {
      longer := run;
    }
  }

  lemma RunGrows<V>(cfg: Config<V>, run: seq<State<V>>, step: Step)
    requires Run(cfg, run) && Shape(cfg, run[|run| - 1]) && Enabled(cfg, run[|run| - 1], step)
    ensures Run(cfg, run + [Apply(cfg, run[|run| - 1], step)])
  {
    var t := Apply(cfg, run[|run| - 1], step);
    var next := run + [t];
    assert Next(cfg, run[|run| - 1], t);
    forall i | 0 <= i < |next| - 1
      ensures Next(cfg, next[i], next[i + 1])
    {
      if i < |run| - 1 {
        assert Next(cfg, run[i], run[i + 1]);
      }
    }
  }

  /**
   With three or more PEs and chunks that do not fill the block, every launch can leave PE 1 finished
   with the sum of the first two PEs only in its last chunk, the result still on its way to it.
   */
  lemma EarlyFinish<V>(cfg: Config<V>, s: State<V>) returns (run: seq<State<V>>)
    requires Init(cfg, s) && cfg.npes >= 3 && cfg.numChunks < cfg.nchunks
    ensures Run(cfg, run) && run[0] == s && Shape(cfg, run[|run| - 1])
    ensures var t := run[|run| - 1];
      && t.pc[1].Done? && t.net[0] != []
      && t.dst[1][cfg.nchunks - 1] == Partial(cfg, 1, cfg.nchunks - 1)
  {
    hide NetCounts, WaitCounts, Work;
    InitCounts(cfg, s);
    assert Recv(cfg, s, 0) == 0;
    run := RunPastLast(cfg, [s]);
    OnlyLastIsLeft(cfg, run[|run| - 1]);
  }

  /** Three PEs and a block of one element cut into chunks of two: PE 1 can finish with 3 instead of 6. */
  lemma ThreePesShortChunk() returns (cfg: Config<int>, run: seq<State<int>>)
    ensures cfg == Config(3, Iterations(1, 2), 1 / 2, [[1], [2], [3]], (x, y) => x + y)
    ensures Run(cfg, run) && Shape(cfg, run[|run| - 1]) && run[|run| - 1].pc[1].Done?
    ensures run[|run| - 1].dst[1] == [3] && Total(cfg, 0) == 6
  {
    cfg := Config(3, 1, 0, [[1], [2], [3]], (x, y) => x + y);
    run := EarlyFinish(cfg, Launch(cfg, cfg.src));
    var t := run[|run| - 1];
    assert t.dst[1][0] == Partial(cfg, 1, 0) == 3;
  }

  // ---------------------------------------------------------------------------------------------
  // One PE: no wait ever holds

  /** Alone in the ring, a PE never waits: it can finish before any of its own puts has landed. */
  lemma {:induction false} AlonePeOutrunsItsPuts<V>(cfg: Config<V>, run: seq<State<V>>)
    returns (longer: seq<State<V>>)
    requires Run(cfg, run) && cfg.npes == 1 && Shape(cfg, run[|run| - 1])
    ensures Run(cfg, longer) && longer[0] == run[0] && Shape(cfg, longer[|longer| - 1])
    ensures longer[|longer| - 1].pc[0].Done? && longer[|longer| - 1].dst == run[|run| - 1].dst
    ensures Recv(cfg, longer[|longer| - 1], 0) == Recv(cfg, run[|run| - 1], 0)
    decreases Rank(cfg, run[|run| - 1].pc[0])
  {
    var s := run[|run| - 1];
    if s.pc[0].Done? {
      return run;
    }
    var t := Apply(cfg, s, Pe(0));
    assert ValidPc(cfg, s.pc[0]) && ValidPc(cfg, t.pc[0]);
    var put := PeQueue(cfg, s, 0);
    RunGrows(cfg, run, Pe(0));
    longer := AlonePeOutrunsItsPuts(cfg, run + [t]);
  }

  // ---------------------------------------------------------------------------------------------
  // Exactly when the kernel is right

  lemma NextKeepsCounts<V>(cfg: Config<V>, s: State<V>, t: State<V>)
    requires Counts(cfg, s) && Next(cfg, s, t)
    ensures Counts(cfg, t)
  {
    hide NetCounts, WaitCounts, Landed;
    var step :| Enabled(cfg, s, step) && t == Apply(cfg, s, step);
    match step
    case Pe(p) => PeKeepsCounts(cfg, s, p);
    case Land(p, k) => LandKeepsCounts(cfg, s, p, k);
    case Signal(p) => SignalKeepsCounts(cfg, s, p);
  }

  lemma {:induction false} RunCounts<V>(cfg: Config<V>, run: seq<State<V>>, i: nat)
    requires Run(cfg, run) && i < |run|
    ensures Counts(cfg, run[i])
  {
    hide Counts, Next, Init;
    if i == 0 {
      InitCounts(cfg, run[0]);
    } else {
      RunCounts(cfg, run, i - 1);
      assert Next(cfg, run[i - 1], run[i - 1 + 1]);
      NextKeepsCounts(cfg, run[i - 1], run[i]);
    }
  }

  /** A run in which a PE finishes too early, if the waits do not prevent it. */
  lemma UnsettledRun<V>(cfg: Config<V>) returns (run: seq<State<V>>, q: nat)
    requires ValidConfig(cfg) && cfg.nchunks > 0 && !WaitsMatch(cfg)
    ensures Run(cfg, run) && Shape(cfg, run[|run| - 1]) && q < cfg.npes
    ensures run[|run| - 1].pc[q].Done? && run[|run| - 1].net[Pred(cfg, q)] != []
  {
    var s := Launch(cfg, cfg.src);
    if cfg.npes == 1 {
      q := 0;
      run := AlonePeOutrunsItsPuts(cfg, [s]);
    } else {
      q := 1;
      run := EarlyFinish(cfg, s);
    }
  }

  /**
   A PE that has finished never has a put on its way to it, iff there is no data, or there are two PEs,
   or there are more and the waits count the turns of the loops.
   */
  lemma SettledIff<V(!new)>(cfg: Config<V>)
    requires ValidConfig(cfg)
    ensures Settled(cfg) <==>
      cfg.nchunks == 0 || cfg.npes == 2 || (cfg.npes >= 3 && cfg.numChunks == cfg.nchunks)
  {
    if cfg.nchunks == 0 || WaitsMatch(cfg) {
      forall run: seq<State<V>>, i: nat, q: nat
        | Run(cfg, run) && i < |run| && Shape(cfg, run[i]) && q < cfg.npes && run[i].pc[q].Done?
        ensures run[i].net[Pred(cfg, q)] == []
      {
        if WaitsMatch(cfg) {
          RunInv(cfg, run, i);
          FinishedHoldsResult(cfg, run[i], q);
        } else {
          RunCounts(cfg, run, i);
          assert Recv(cfg, run[i], Pred(cfg, q)) >= 0;
        }
      }
    } else {
      var run, q := UnsettledRun(cfg);
    }
  }

  /** The configurations of a launch over blocks of `elems` elements cut into chunks of `chunk`. */
  ghost predicate LaunchOf<V>(cfg: Config<V>, npes: nat, elems: nat, chunk: nat)
    requires chunk > 0
  {
    && ValidConfig(cfg)
    && cfg.npes == npes && cfg.nchunks == Iterations(elems, chunk) && cfg.numChunks == elems / chunk
  }

  lemma CorrectIfWaitsMatch<V(!new)>(cfg: Config<V>)
    requires ValidConfig(cfg) && (WaitsMatch(cfg) || cfg.nchunks == 0)
    ensures Correct(cfg)
  {
    forall run: seq<State<V>>, i: nat, q: nat
      | Run(cfg, run) && i < |run| && Shape(cfg, run[i]) && q < cfg.npes && run[i].pc[q].Done?
      ensures HoldsResult(cfg, run[i], q)
    {
      if WaitsMatch(cfg) {
        AllReduceCorrect(cfg, run, i, i, q);
      }
    }
  }

  /** The last PE's data is w, the others' v. */
  function LastDiffers<V>(npes: nat, nchunks: nat, v: V, w: V): (src: seq<seq<V>>)
    ensures |src| == npes && forall p :: 0 <= p < npes ==> |src[p]| == nchunks
    ensures forall p, c :: 0 <= p < npes && 0 <= c < nchunks ==> src[p][c] == if p == npes - 1 then w else v
  {
    seq(npes, p => seq(nchunks, _ => if p == npes - 1 then w else v))
  }

  lemma WrongAlone<V(!new)>(cfg: Config<V>, v: V)
    requires ValidConfig(cfg) && cfg.npes == 1 && cfg.nchunks > 0 && cfg.src[0][0] != v
    ensures !Correct(cfg)
  {
    hide Rank;
    var run := AlonePeOutrunsItsPuts(cfg, [Launch(cfg, [seq(cfg.nchunks, _ => v)])]);
    assert run[|run| - 1].dst[0][0] == v && Total(cfg, 0) == cfg.src[0][0];
    assert !HoldsResult(cfg, run[|run| - 1], 0);
  }

  lemma WrongEarly<V(!new)>(cfg: Config<V>)
    requires ValidConfig(cfg) && cfg.npes >= 3 && cfg.numChunks < cfg.nchunks
    requires Partial(cfg, 1, cfg.nchunks - 1) != Total(cfg, cfg.nchunks - 1)
    ensures !Correct(cfg)
  {
    var run := EarlyFinish(cfg, Launch(cfg, cfg.src));
    assert !HoldsResult(cfg, run[|run| - 1], 1);
  }

  /** Data on which a launch that does not wait long enough goes wrong. */
  lemma WrongData<V(!new)>(npes: nat, nchunks: nat, numChunks: nat, v: V, w: V) returns (cfg: Config<V>)
    requires npes >= 1 && numChunks <= nchunks <= numChunks + 1 && nchunks > 0 && v != w
    requires npes == 1 || (npes >= 3 && numChunks < nchunks)
    ensures ValidConfig(cfg) && cfg.npes == npes && cfg.nchunks == nchunks && cfg.numChunks == numChunks
    ensures !Correct(cfg)
  {
    hide LastDiffers, Correct;
    cfg := Config(npes, nchunks, numChunks, LastDiffers(npes, nchunks, v, w), (x, y) => y);
    if npes == 1 {
      WrongAlone(cfg, v);
    } else {
      var c := nchunks - 1;
      assert Partial(cfg, 1, c) == cfg.src[1][c] && Total(cfg, c) == cfg.src[npes - 1][c];
      WrongEarly(cfg);
    }
  }

  /**
   The kernel computes the all-reduce whatever the data, the addition and the interleaving, iff there is
   nothing to reduce, or there are two PEs, or there are more and the chunks fill the block exactly.
   */
  lemma CorrectIffChunksFit<V(!new)>(npes: nat, elems: nat, chunk: nat, v: V, w: V)
    requires npes >= 1 && chunk > 0 && v != w
    ensures (forall cfg: Config<V> :: LaunchOf(cfg, npes, elems, chunk) ==> Correct(cfg)) <==>
      elems == 0 || npes == 2 || (npes >= 3 && elems % chunk == 0)
  {
    IterationsAreNumChunks(elems, chunk);
    if elems == 0 || npes == 2 || (npes >= 3 && elems % chunk == 0) {
      forall cfg: Config<V> | LaunchOf(cfg, npes, elems, chunk)
        ensures Correct(cfg)
      {
        CorrectIfWaitsMatch(cfg);
      }
    } else {
      var cfg := WrongData(npes, Iterations(elems, chunk), elems / chunk, v, w);
      assert LaunchOf(cfg, npes, elems, chunk);
    }
  }
}
