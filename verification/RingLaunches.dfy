/**
 The ring all-reduce launched again and again.  The kernel leaves its signals at zero for the next
 launch.  With a barrier between the launches every launch starts as if it were the first.  Without one
 a PE may start again while its right neighbour has still to reset its signal, and the reset wipes out
 the signal of a put of the new launch: from then on the neighbour can never finish.
 */
module RingLaunches {
  import opened RingAllReduce
  import opened RingLimits

  ghost predicate AllDone<V>(s: State<V>) {
    forall p :: 0 <= p < |s.pc| ==> s.pc[p].Done?
  }

  // ---------------------------------------------------------------------------------------------
  // With a barrier

  /** A state of launch number `turn`. */
  datatype Launched<V> = Launched(turn: nat, s: State<V>)

  /** Launches of the same shape, each on its own data and with its own addition. */
  ghost predicate Alike<V>(cfgs: seq<Config<V>>) {
    && cfgs != []
    && forall i :: 0 <= i < |cfgs| ==>
         && ValidConfig(cfgs[i]) && WaitsMatch(cfgs[i])
         && cfgs[i].npes == cfgs[0].npes && cfgs[i].nchunks == cfgs[0].nchunks
  }

  /** Every PE begins the kernel anew: buffers, signals and puts in flight are what they are. */
  ghost function Restart<V>(cfg: Config<V>, s: State<V>): State<V> {
    s.(pc := seq(cfg.npes, _ => ReduceHead(cfg, 0)))
  }

  /** A step of the launch, or, once every PE has finished and met the barrier, the next launch. */
  ghost predicate BarrierNext<V>(cfgs: seq<Config<V>>, x: Launched<V>, y: Launched<V>) {
    && x.turn < |cfgs|
    && (|| (y.turn == x.turn && Next(cfgs[x.turn], x.s, y.s))
        || (y.turn == x.turn + 1 < |cfgs| && AllDone(x.s) && y.s == Restart(cfgs[y.turn], x.s)))
  }

  ghost predicate BarrierRun<V>(cfgs: seq<Config<V>>, run: seq<Launched<V>>) {
    && cfgs != [] && run != []
    && run[0].turn == 0 && Init(cfgs[0], run[0].s)
    && forall i :: 0 <= i < |run| - 1 ==> BarrierNext(cfgs, run[i], run[i + 1])
  }

  /** After a launch that every PE has finished, the next one finds what the first one found. */
  lemma RestartIsInit<V>(cfg: Config<V>, next: Config<V>, s: State<V>)
    requires Inv(cfg, s) && WaitsMatch(cfg) && AllDone(s)
    requires ValidConfig(next) && next.npes == cfg.npes && next.nchunks == cfg.nchunks
    ensures Init(next, Restart(next, s))
  {
    forall p | 0 <= p < cfg.npes
      ensures s.signal[p] == 0 && s.net[p] == []
    {
      FinishedHoldsResult(cfg, s, Peer(cfg, p));
      assert Pred(cfg, Peer(cfg, p)) == p;
    }
  }

  lemma {:induction false} BarrierRunInv<V>(cfgs: seq<Config<V>>, run: seq<Launched<V>>, i: nat)
    requires Alike(cfgs) && BarrierRun(cfgs, run) && i < |run|
    ensures run[i].turn < |cfgs| && Inv(cfgs[run[i].turn], run[i].s)
  {
    hide Inv, Init, Next;
    if i == 0 {
      InitInv(cfgs[0], run[0].s);
    } else {
      BarrierRunInv(cfgs, run, i - 1);
      var x, y := run[i - 1], run[i];
      assert BarrierNext(cfgs, run[i - 1], run[i - 1 + 1]);
      if y.turn == x.turn {
        NextKeepsInv(cfgs[x.turn], x.s, y.s);
      } else {
        RestartIsInit(cfgs[x.turn], cfgs[y.turn], x.s);
        InitInv(cfgs[y.turn], y.s);
      }
    }
  }

  /** In every run of any number of launches, a PE that has finished a launch holds its result. */
  lemma EveryLaunchCorrect<V>(cfgs: seq<Config<V>>, run: seq<Launched<V>>, i: nat, q: nat)
    requires Alike(cfgs) && BarrierRun(cfgs, run) && i < |run|
    requires q < |run[i].s.pc| && run[i].s.pc[q].Done?
    ensures run[i].turn < |cfgs| && q < cfgs[run[i].turn].npes && Shape(cfgs[run[i].turn], run[i].s)
    ensures HoldsResult(cfgs[run[i].turn], run[i].s, q)
  {
    BarrierRunInv(cfgs, run, i);
    FinishedHoldsResult(cfgs[run[i].turn], run[i].s, q);
  }

  /** A run of launches that cannot go on has come to the end of the last launch. */
  lemma EveryLaunchEnds<V>(cfgs: seq<Config<V>>, run: seq<Launched<V>>, x: Launched<V>)
    requires Alike(cfgs) && BarrierRun(cfgs, run) && x == run[|run| - 1]
    requires forall y :: !BarrierNext(cfgs, x, y)
    ensures x.turn == |cfgs| - 1 && AllDone(x.s)
  {
    BarrierRunInv(cfgs, run, |run| - 1);
    var cfg := cfgs[x.turn];
    forall q | 0 <= q < cfg.npes
      ensures x.s.pc[q].Done?
    {
      if !x.s.pc[q].Done? {
        var step := NoDeadlock(cfg, x.s, q);
        var t := Apply(cfg, x.s, step);
        assert Next(cfg, x.s, t);
        assert BarrierNext(cfgs, x, Launched(x.turn, t));
      }
    }
    if x.turn + 1 < |cfgs| {
      assert BarrierNext(cfgs, x, Launched(x.turn + 1, Restart(cfgs[x.turn + 1], x.s)));
    }
  }

  // ---------------------------------------------------------------------------------------------
  // Without a barrier

  /** Two launches of the kernel; again[p] once p has begun the second. */
  datatype Twice<V> = Twice(s: State<V>, again: seq<bool>)

  datatype Move = Kernel(step: Step) | Again(p: nat)

  ghost predicate TwiceShape<V>(cfg: Config<V>, x: Twice<V>) {
    Shape(cfg, x.s) && |x.again| == cfg.npes
  }

  /** A PE may begin its second launch as soon as it has finished the first. */
  ghost predicate May<V>(cfg: Config<V>, x: Twice<V>, move: Move)
    requires TwiceShape(cfg, x)
  {
    match move
    case Kernel(step) => Enabled(cfg, x.s, step)
    case Again(p) => p < cfg.npes && x.s.pc[p].Done? && !x.again[p]
  }

  ghost function Do<V>(cfg: Config<V>, x: Twice<V>, move: Move): (y: Twice<V>)
    requires TwiceShape(cfg, x) && May(cfg, x, move)
    ensures TwiceShape(cfg, y)
  {
    match move
    case Kernel(step) => x.(s := Apply(cfg, x.s, step))
    case Again(p) => Twice(x.s.(pc := x.s.pc[p := ReduceHead(cfg, 0)]), x.again[p := true])
  }

  ghost predicate TwiceNext<V>(cfg: Config<V>, x: Twice<V>, y: Twice<V>) {
    TwiceShape(cfg, x) && exists move :: May(cfg, x, move) && y == Do(cfg, x, move)
  }

  ghost predicate Path<V>(cfg: Config<V>, path: seq<Twice<V>>) {
    && path != []
    && TwiceShape(cfg, path[0])
    && forall i :: 0 <= i < |path| - 1 ==> TwiceNext(cfg, path[i], path[i + 1])
  }

  ghost predicate TwiceRun<V>(cfg: Config<V>, path: seq<Twice<V>>) {
    Path(cfg, path) && Init(cfg, path[0].s) && forall p :: 0 <= p < cfg.npes ==> !path[0].again[p]
  }

  /** PE q has finished its second launch. */
  ghost predicate DoneTwice<V>(x: Twice<V>, q: nat) {
    q < |x.again| == |x.s.pc| && x.again[q] && x.s.pc[q].Done?
  }

  /** Whatever happens from x on, PE q does not finish its second launch. */
  ghost predicate Hangs<V(!new)>(cfg: Config<V>, x: Twice<V>, q: nat) {
    forall path: seq<Twice<V>> :: Path(cfg, path) && path[0] == x ==> !DoneTwice(path[|path| - 1], q)
  }

  /** PE 1 is past the last wait of the kernel. */
  ghost predicate PastLastWait<V>(cfg: Config<V>, pc: Pc)
    requires cfg.nchunks > 0
  {
    if cfg.npes == 2 then PassedReduceWait(pc, cfg.nchunks - 1) else PassedBcastWait(pc, cfg.nchunks - 1)
  }

  /** PE 0 is in its second launch, and one signal of it is missing at PE 1. */
  ghost predicate Lost<V>(cfg: Config<V>, x: Twice<V>) {
    && TwiceShape(cfg, x) && WaitsMatch(cfg) && cfg.nchunks > 0
    && x.again[0]
    && x.s.signal[1] + 1 == Recv(cfg, x.s, 0)
    && (if x.again[1] then !PastLastWait(cfg, x.s.pc[1]) else x.s.pc[1].Done?)
  }

  lemma PeKeepsLost<V>(cfg: Config<V>, x: Twice<V>, p: nat)
    requires Lost(cfg, x) && May(cfg, x, Kernel(Pe(p)))
    ensures Lost(cfg, Do(cfg, x, Kernel(Pe(p))))
  {
    var put := PeQueue(cfg, x.s, p);
    PcFacts(cfg, x.s.pc[p], cfg.nchunks - 1);
    assert ValidPc(cfg, x.s.pc[0]) && ValidPc(cfg, x.s.pc[1]);
    assert Recv(cfg, x.s, 0) <= Quota(cfg, 0);
  }

  /** A lost signal stays lost: PE 1 can never pass its last wait. */
  lemma MoveKeepsLost<V>(cfg: Config<V>, x: Twice<V>, move: Move)
    requires Lost(cfg, x) && May(cfg, x, move)
    ensures Lost(cfg, Do(cfg, x, move))
  {
    match move
    case Kernel(Pe(p)) => PeKeepsLost(cfg, x, p);
    case _ =>
  }

  lemma {:induction false} LostStays<V>(cfg: Config<V>, path: seq<Twice<V>>, i: nat)
    requires Path(cfg, path) && Lost(cfg, path[0]) && i < |path|
    ensures Lost(cfg, path[i])
  {
    if i > 0 {
      LostStays(cfg, path, i - 1);
      assert TwiceNext(cfg, path[i - 1], path[i - 1 + 1]);
      var move :| May(cfg, path[i - 1], move) && path[i] == Do(cfg, path[i - 1], move);
      MoveKeepsLost(cfg, path[i - 1], move);
    }
  }

  lemma LostHangs<V(!new)>(cfg: Config<V>, x: Twice<V>)
    requires Lost(cfg, x)
    ensures Hangs(cfg, x, 1)
  {
    forall path: seq<Twice<V>> | Path(cfg, path) && path[0] == x
      ensures !DoneTwice(path[|path| - 1], 1)
    {
      LostStays(cfg, path, |path| - 1);
    }
  }

  // ---------------------------------------------------------------------------------------------
  // How the signal gets lost

  /** The reset of PE 1. */
  ghost predicate ResetsOne<V>(s: State<V>, step: Step) {
    step == Pe(1) && |s.pc| > 1 && s.pc[1].Reset?
  }

  ghost predicate OnlyResetEnabled<V>(cfg: Config<V>, s: State<V>)
    requires Shape(cfg, s)
  {
    forall step :: Enabled(cfg, s, step) ==> ResetsOne(s, step)
  }

  /** Any launch can go on until only the reset of PE 1 is left. */
  lemma {:induction false} RunToReset<V>(cfg: Config<V>, run: seq<State<V>>) returns (longer: seq<State<V>>)
    requires Run(cfg, run) && WaitsMatch(cfg)
    requires Shape(cfg, run[|run| - 1]) && !run[|run| - 1].pc[1].Done?
    ensures Run(cfg, longer) && longer[0] == run[0]
    ensures Shape(cfg, longer[|longer| - 1]) && !longer[|longer| - 1].pc[1].Done?
    ensures OnlyResetEnabled(cfg, longer[|longer| - 1])
    decreases Work(cfg, run[|run| - 1], cfg.npes)
  {
    hide Work, Init, Next;
    var s := run[|run| - 1];
    if step :| Enabled(cfg, s, step) && !ResetsOne(s, step) {
      var t := Apply(cfg, s, step);
      assert !t.pc[1].Done? by {
        assert ValidPc(cfg, s.pc[1]);
      }
      StepDoesWork(cfg, s, step);
      WorkNonNegative(cfg, t, cfg.npes);
      RunGrows(cfg, run, step);
      longer := RunToReset(cfg, run + [t]);
    } else {
      longer := run;
    }
  }

  /** What the reset of PE 1 leaves enabled was enabled before it. */
  lemma ResetEnablesNothing<V>(cfg: Config<V>, s: State<V>, step: Step)
    requires Shape(cfg, s) && cfg.npes >= 2 && s.pc[1].Reset? && Enabled(cfg, Apply(cfg, s, Pe(1)), step)
    ensures Enabled(cfg, s, step) && !ResetsOne(s, step)
  {
  }

  /** Then PE 0 has finished and nothing is in flight to PE 1. */
  lemma OnlyResetIsLeft<V>(cfg: Config<V>, s: State<V>)
    requires Shape(cfg, s) && Inv(cfg, s) && WaitsMatch(cfg) && !s.pc[1].Done? && OnlyResetEnabled(cfg, s)
    ensures s.pc[0].Done? && s.pc[1].Reset? && s.net[0] == []
  {
    var any := NoDeadlock(cfg, s, 1);
    assert ResetsOne(s, any);
    assert Pred(cfg, 1) == 0;
    ResetAfterLastSignal(cfg, s, 1);
    PeKeepsInv(cfg, s, 1);
    var t := Apply(cfg, s, Pe(1));
    hide Inv;
    if !t.pc[0].Done? {
      var step := NoDeadlock(cfg, t, 0);
      ResetEnablesNothing(cfg, s, step);
    }
  }

  lemma PathGrows<V>(cfg: Config<V>, path: seq<Twice<V>>, move: Move)
    requires Path(cfg, path) && TwiceShape(cfg, path[|path| - 1]) && May(cfg, path[|path| - 1], move)
    ensures Path(cfg, path + [Do(cfg, path[|path| - 1], move)])
  {
    var y := Do(cfg, path[|path| - 1], move);
    var next := path + [y];
    assert TwiceNext(cfg, path[|path| - 1], y);
    forall i | 0 <= i < |next| - 1
      ensures TwiceNext(cfg, next[i], next[i + 1])
    {
      if i < |path| - 1 {
        assert TwiceNext(cfg, path[i], path[i + 1]);
      }
    }
  }

  /** Moves that may be made one after the other. */
  ghost predicate MayAll<V>(cfg: Config<V>, x: Twice<V>, moves: seq<Move>)
    requires TwiceShape(cfg, x)
    decreases |moves|
  {
    moves == [] || (May(cfg, x, moves[0]) && MayAll(cfg, Do(cfg, x, moves[0]), moves[1..]))
  }

  ghost function DoAll<V>(cfg: Config<V>, x: Twice<V>, moves: seq<Move>): (y: Twice<V>)
    requires TwiceShape(cfg, x) && MayAll(cfg, x, moves)
    ensures TwiceShape(cfg, y)
    decreases |moves|
  {
    if moves == [] then x else DoAll(cfg, Do(cfg, x, moves[0]), moves[1..])
  }

  lemma {:induction false} PathGrowsAll<V>(cfg: Config<V>, path: seq<Twice<V>>, moves: seq<Move>)
    returns (longer: seq<Twice<V>>)
    requires Path(cfg, path) && TwiceShape(cfg, path[|path| - 1]) && MayAll(cfg, path[|path| - 1], moves)
    ensures Path(cfg, longer) && longer[0] == path[0]
    ensures longer[|longer| - 1] == DoAll(cfg, path[|path| - 1], moves)
    decreases |moves|
  {
    if moves == [] {
      longer := path;
    } else {
      PathGrows(cfg, path, moves[0]);
      longer := PathGrowsAll(cfg, path + [Do(cfg, path[|path| - 1], moves[0])], moves[1..]);
    }
  }

  /** A run of the first launch is a run of both. */
  lemma {:induction false} FirstLaunch<V>(cfg: Config<V>, run: seq<State<V>>, again: seq<bool>)
    returns (path: seq<Twice<V>>)
    requires Run(cfg, run) && |again| == cfg.npes
    ensures Path(cfg, path) && path[0] == Twice(run[0], again)
    ensures path[|path| - 1] == Twice(run[|run| - 1], again)
    decreases |run|
  {
    if |run| == 1 {
      path := [Twice(run[0], again)];
    } else {
      var most := run[..|run| - 1];
      forall i | 0 <= i < |most| - 1
        ensures Next(cfg, most[i], most[i + 1])
      {
        assert Next(cfg, run[i], run[i + 1]);
      }
      path := FirstLaunch(cfg, most, again);
      var s, t := run[|run| - 2], run[|run| - 1];
      assert Next(cfg, run[|run| - 2], run[|run| - 2 + 1]);
      var step :| Enabled(cfg, s, step) && t == Apply(cfg, s, step);
      PathGrows(cfg, path, Kernel(step));
      path := path + [Do(cfg, Twice(s, again), Kernel(step))];
    }
  }

  /** PE 0 starts again and puts its first chunk; only then does PE 1 reset its signal. */
  function LosingMoves(): seq<Move> {
    [Again(0), Kernel(Pe(0)), Kernel(Pe(0)), Kernel(Pe(0)), Kernel(Land(0, 0)), Kernel(Signal(0)), Kernel(Pe(1))]
  }

  lemma ResetLosesSignal<V>(cfg: Config<V>, x: Twice<V>)
    requires TwiceShape(cfg, x) && WaitsMatch(cfg) && cfg.nchunks > 0
    requires x.s.pc[0].Done? && x.s.pc[1].Reset? && x.s.net[0] == [] && !x.again[0] && !x.again[1]
    ensures MayAll(cfg, x, LosingMoves()) && Lost(cfg, DoAll(cfg, x, LosingMoves()))
  {
    var m := LosingMoves();
    var x1 := Do(cfg, x, m[0]);
    var x2 := Do(cfg, x1, m[1]);
    var x3 := Do(cfg, x2, m[2]);
    var x4 := Do(cfg, x3, m[3]);
    var x5 := Do(cfg, x4, m[4]);
    var x6 := Do(cfg, x5, m[5]);
    var x7 := Do(cfg, x6, m[6]);
    assert Lost(cfg, x7);
  }

  /**
   Whatever the data and the number of PEs, a second launch that does not wait for a barrier can hang:
   there is a run after which PE 1 never finishes it, whatever happens.
   */
  lemma SecondLaunchCanHang<V(!new)>(cfg: Config<V>, s: State<V>) returns (path: seq<Twice<V>>)
    requires Init(cfg, s) && WaitsMatch(cfg) && cfg.nchunks > 0
    ensures TwiceRun(cfg, path) && path[0].s == s && Hangs(cfg, path[|path| - 1], 1)
  {
    hide MayAll, DoAll, LosingMoves, Lost, Inv, Work, Hangs, TwiceNext, Next;
    var run := RunToReset(cfg, [s]);
    RunInv(cfg, run, |run| - 1);
    OnlyResetIsLeft(cfg, run[|run| - 1]);
    var again := seq(cfg.npes, _ => false);
    path := FirstLaunch(cfg, run, again);
    ResetLosesSignal(cfg, path[|path| - 1]);
    path := PathGrowsAll(cfg, path, LosingMoves());
    LostHangs(cfg, path[|path| - 1]);
  }

  /** Every PE can still finish both launches. */
  ghost predicate CanFinish<V(!new)>(cfg: Config<V>, x: Twice<V>) {
    forall q: nat :: q < cfg.npes ==> !Hangs(cfg, x, q)
  }

  /** Two launches without a barrier: no run comes to a state from which some PE cannot finish both. */
  ghost predicate NeverHangs<V(!new)>(cfg: Config<V>) {
    forall path: seq<Twice<V>> :: TwiceRun(cfg, path) ==> CanFinish(cfg, path[|path| - 1])
  }

  lemma {:induction false} PathShape<V>(cfg: Config<V>, path: seq<Twice<V>>, i: nat)
    requires Path(cfg, path) && i < |path|
    ensures TwiceShape(cfg, path[i])
  {
    if i > 0 {
      PathShape(cfg, path, i - 1);
      assert TwiceNext(cfg, path[i - 1], path[i - 1 + 1]);
    }
  }

  /** Without data there is nothing to wait for. */
  lemma EmptyLaunchEnds<V(!new)>(cfg: Config<V>, x: Twice<V>, q: nat)
    requires TwiceShape(cfg, x) && cfg.nchunks == 0 && q < cfg.npes
    ensures !Hangs(cfg, x, q)
  {
    assert ValidPc(cfg, x.s.pc[q]);
    var path := [x];
    if !x.s.pc[q].Done? {
      PathGrows(cfg, path, Kernel(Pe(q)));
      path := path + [Do(cfg, x, Kernel(Pe(q)))];
    }
    var y := path[|path| - 1];
    if !y.again[q] {
      var z := Do(cfg, y, Again(q));
      PathGrows(cfg, path, Again(q));
      PathGrows(cfg, path + [z], Kernel(Pe(q)));
      path := path + [z] + [Do(cfg, z, Kernel(Pe(q)))];
    }
    assert DoneTwice(path[|path| - 1], q);
  }

  /** A kernel that is right in one launch needs a barrier before the next one iff there is data. */
  lemma NeverHangsIff<V(!new)>(cfg: Config<V>)
    requires ValidConfig(cfg) && WaitsMatch(cfg)
    ensures NeverHangs(cfg) <==> cfg.nchunks == 0
  {
    if cfg.nchunks == 0 {
      forall path: seq<Twice<V>> | TwiceRun(cfg, path)
        ensures CanFinish(cfg, path[|path| - 1])
      {
        PathShape(cfg, path, |path| - 1);
        var x := path[|path| - 1];
        forall q: nat | q < cfg.npes
          ensures !Hangs(cfg, x, q)
        {
          EmptyLaunchEnds(cfg, x, q);
        }
      }
    } else {
      var path := SecondLaunchCanHang(cfg, Launch(cfg, cfg.src));
    }
  }
}
