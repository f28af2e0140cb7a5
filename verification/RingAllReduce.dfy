/**
 The ring all-reduce kernel as a step system.

 One thread block of every PE runs the same program: a reduce loop over the chunks, a broadcast
 loop over the chunks, and a reset of the block's signal.  PEs share nothing but the puts they send
 to their right neighbour.  A put is non-blocking: its data is fetched from the sender's buffer when
 it lands, not when it is issued, and data of different puts may land in any order.  What is assumed
 of the network is only that a put's own signal follows its data and that the signals of one sender
 arrive in the order of its puts.

 Chunks hold values of any type and `add` is any function, so the result proved is the left-to-right
 sum itself and needs neither associativity nor commutativity (floating point and wrap-around
 included).
 */
module RingAllReduce {
  import opened Arithmetic

  /**
   The loops over the chunks make `nchunks` turns, the last on what is left of the block; the waits of
   the broadcast count on `numChunks`, the number of whole chunks.
   */
  datatype Config<!V> = Config(npes: nat, nchunks: nat, numChunks: nat, src: seq<seq<V>>, add: (V, V) -> V)

  /** Where a PE's block stands: `R` is the reduce loop, `B` the broadcast loop. */
  datatype Pc =
    | RWait(c: nat)   // before the signal_wait of the reduce loop
    | RAdd(c: nat)    // before dst_block += src_block
    | RPut(c: nat)    // before the put of the reduce loop
    | BWait(c: nat)   // before the signal_wait of the broadcast loop
    | BPut(c: nat)    // before the put of the broadcast loop
    | Reset           // before signal_block[0] = 0
    | Done

  /** A put in flight: `issued` is what the source held when the put was issued. */
  datatype Msg<V> = Msg(chunk: nat, fromSrc: bool, issued: V, landed: bool)

  /** net[p] is the sequence of puts from p to its right neighbour whose signal is still to come. */
  datatype State<V> = State(pc: seq<Pc>, dst: seq<seq<V>>, signal: seq<nat>, net: seq<seq<Msg<V>>>)

  datatype Step = Pe(p: nat) | Land(p: nat, k: nat) | Signal(p: nat)

  // ---------------------------------------------------------------------------------------------
  // The kernel

  ghost predicate ValidConfig<V>(cfg: Config<V>) {
    && cfg.npes >= 1
    && cfg.numChunks <= cfg.nchunks <= cfg.numChunks + 1
    && |cfg.src| == cfg.npes
    && forall p :: 0 <= p < cfg.npes ==> |cfg.src[p]| == cfg.nchunks
  }

  ghost predicate ValidPc<V>(cfg: Config<V>, pc: Pc) {
    pc.Reset? || pc.Done? || pc.c < cfg.nchunks
  }

  ghost predicate Shape<V>(cfg: Config<V>, s: State<V>) {
    && ValidConfig(cfg)
    && |s.pc| == |s.dst| == |s.signal| == |s.net| == cfg.npes
    && (forall p :: 0 <= p < cfg.npes ==> |s.dst[p]| == cfg.nchunks)
    && (forall p :: 0 <= p < cfg.npes ==> ValidPc(cfg, s.pc[p]))
    && (forall p, k :: 0 <= p < cfg.npes && 0 <= k < |s.net[p]| ==> s.net[p][k].chunk < cfg.nchunks)
  }

  /** (p + 1) modulo the number of PEs. */
  function Peer<V>(cfg: Config<V>, p: nat): (q: nat)
    requires p < cfg.npes
  {
    if p + 1 == cfg.npes then 0 else p + 1
  }

  function Pred<V>(cfg: Config<V>, q: nat): (p: nat)
    requires q < cfg.npes
    ensures p < cfg.npes && Peer(cfg, p) == q
  {
    if q == 0 then cfg.npes - 1 else q - 1
  }

  function ReduceHead<V>(cfg: Config<V>, c: nat): Pc {
    if c < cfg.nchunks then RWait(c) else BcastHead(cfg, 0)
  }

  function BcastHead<V>(cfg: Config<V>, c: nat): Pc {
    if c < cfg.nchunks then BWait(c) else Reset
  }

  /** The signal value a PE waits for before it takes chunk c of the broadcast. */
  function Expected<V>(cfg: Config<V>, p: nat, c: nat): nat {
    if p == 0 then c + 1 else cfg.numChunks + c + 1
  }

  /** Every wait asks for the signal of the put it is meant for; with two PEs no wait uses numChunks. */
  ghost predicate WaitsMatch<V>(cfg: Config<V>) {
    cfg.npes >= 2 && (cfg.npes == 2 || cfg.numChunks == cfg.nchunks)
  }

  ghost predicate Init<V>(cfg: Config<V>, s: State<V>) {
    && Shape(cfg, s)
    && forall p :: 0 <= p < cfg.npes ==>
         s.pc[p] == ReduceHead(cfg, 0) && s.signal[p] == 0 && s.net[p] == []
  }

  ghost predicate Enabled<V>(cfg: Config<V>, s: State<V>, step: Step)
    requires Shape(cfg, s)
  {
    && step.p < cfg.npes
    && match step
       case Pe(p) => (
         match s.pc[p]
         case RWait(c) => p == 0 || s.signal[p] >= c + 1
         case BWait(c) => p == cfg.npes - 1 || s.signal[p] >= Expected(cfg, p, c)
         case Done => false
         case _ => true)
       case Land(p, k) => k < |s.net[p]| && !s.net[p][k].landed
       case Signal(p) => s.net[p] != [] && s.net[p][0].landed
  }

  /** What the source of a put holds now. */
  ghost function SourceNow<V>(cfg: Config<V>, s: State<V>, p: nat, m: Msg<V>): V
    requires Shape(cfg, s) && p < cfg.npes && m.chunk < cfg.nchunks
  {
    if m.fromSrc then cfg.src[p][m.chunk] else s.dst[p][m.chunk]
  }

  ghost function Put<V>(cfg: Config<V>, s: State<V>, p: nat, c: nat, fromSrc: bool): State<V>
    requires Shape(cfg, s) && p < cfg.npes && c < cfg.nchunks
  {
    var v := if fromSrc then cfg.src[p][c] else s.dst[p][c];
    s.(net := s.net[p := s.net[p] + [Msg(c, fromSrc, v, false)]])
  }

  function PcNext<V>(cfg: Config<V>, pc: Pc): Pc {
    match pc
    case RWait(c) => RAdd(c)
    case RAdd(c) => RPut(c)
    case RPut(c) => ReduceHead(cfg, c + 1)
    case BWait(c) => BPut(c)
    case BPut(c) => BcastHead(cfg, c + 1)
    case _ => Done
  }

  /** What a PE's step does besides moving its program counter. */
  ghost function PeEffect<V>(cfg: Config<V>, s: State<V>, p: nat): State<V>
    requires Shape(cfg, s) && p < cfg.npes
  {
    match s.pc[p]
    case RAdd(c) =>
      if p == 0 then s
      else s.(dst := s.dst[p := s.dst[p][c := cfg.add(s.dst[p][c], cfg.src[p][c])]])
    case RPut(c) => Put(cfg, s, p, c, p == 0)
    case BPut(c) => if p + 2 < cfg.npes then Put(cfg, s, p, c, false) else s
    case Reset => s.(signal := s.signal[p := 0])
    case _ => s
  }

  ghost function Apply<V>(cfg: Config<V>, s: State<V>, step: Step): (t: State<V>)
    requires Shape(cfg, s) && Enabled(cfg, s, step)
    ensures Shape(cfg, t)
  {
    match step
    case Pe(p) => PeEffect(cfg, s, p).(pc := s.pc[p := PcNext(cfg, s.pc[p])])
    case Land(p, k) =>
      var q, m := Peer(cfg, p), s.net[p][k];
      s.(dst := s.dst[q := s.dst[q][m.chunk := SourceNow(cfg, s, p, m)]],
         net := s.net[p := s.net[p][k := m.(landed := true)]])
    case Signal(p) =>
      var q := Peer(cfg, p);
      s.(signal := s.signal[q := s.signal[q] + 1], net := s.net[p := s.net[p][1..]])
  }

  ghost predicate Next<V>(cfg: Config<V>, s: State<V>, t: State<V>) {
    Shape(cfg, s) && exists step :: Enabled(cfg, s, step) && t == Apply(cfg, s, step)
  }

  /** A run: any interleaving of PE steps, landings and signals from any initial contents of dst. */
  ghost predicate Run<V>(cfg: Config<V>, run: seq<State<V>>) {
    && run != []
    && Init(cfg, run[0])
    && forall i :: 0 <= i < |run| - 1 ==> Next(cfg, run[i], run[i + 1])
  }

  // ---------------------------------------------------------------------------------------------
  // What the kernel is for

  /** src[0][c] + src[1][c] + ... + src[p][c], added from left to right. */
  ghost function Partial<V>(cfg: Config<V>, p: nat, c: nat): V
    requires ValidConfig(cfg) && p < cfg.npes && c < cfg.nchunks
  {
    if p == 0 then cfg.src[0][c] else cfg.add(Partial(cfg, p - 1, c), cfg.src[p][c])
  }

  ghost function Total<V>(cfg: Config<V>, c: nat): V
    requires ValidConfig(cfg) && c < cfg.nchunks
  {
    Partial(cfg, cfg.npes - 1, c)
  }

  // ---------------------------------------------------------------------------------------------
  // The invariant

  /** The number of puts a PE at `pc` has issued. */
  function Sent<V>(cfg: Config<V>, pc: Pc, p: nat): nat {
    match pc
    case RWait(c) => c
    case RAdd(c) => c
    case RPut(c) => c
    case BWait(c) => cfg.nchunks + if p + 2 < cfg.npes then c else 0
    case BPut(c) => cfg.nchunks + if p + 2 < cfg.npes then c else 0
    case Reset => Quota(cfg, p)
    case Done => Quota(cfg, p)
  }

  /** The number of puts a PE issues in the whole kernel. */
  function Quota<V>(cfg: Config<V>, p: nat): nat {
    cfg.nchunks + if p + 2 < cfg.npes then cfg.nchunks else 0
  }

  /** The number of p's puts whose signal has arrived. */
  ghost function Recv<V>(cfg: Config<V>, s: State<V>, p: nat): int
    requires Shape(cfg, s) && p < cfg.npes
  {
    Sent(cfg, s.pc[p], p) - |s.net[p]|
  }

  predicate PassedReduceWait(pc: Pc, c: nat) {
    match pc
    case RWait(k) => c < k
    case RAdd(k) => c <= k
    case RPut(k) => c <= k
    case _ => true
  }

  predicate Added(pc: Pc, c: nat) {
    match pc
    case RWait(k) => c < k
    case RAdd(k) => c < k
    case RPut(k) => c <= k
    case _ => true
  }

  predicate PassedBcastWait(pc: Pc, c: nat) {
    match pc
    case BWait(k) => c < k
    case BPut(k) => c <= k
    case Reset => true
    case Done => true
    case _ => false
  }

  /** The value put number m of PE p carries. */
  ghost function Value<V>(cfg: Config<V>, p: nat, m: nat): V
    requires ValidConfig(cfg) && p < cfg.npes && m < Quota(cfg, p)
  {
    if m < cfg.nchunks then Partial(cfg, p, m) else Total(cfg, m - cfg.nchunks)
  }

  ghost predicate OkMsg<V>(cfg: Config<V>, p: nat, m: nat, msg: Msg<V>)
    requires ValidConfig(cfg) && p < cfg.npes
  {
    && m < Quota(cfg, p)
    && msg.chunk == (if m < cfg.nchunks then m else m - cfg.nchunks)
    && msg.fromSrc == (p == 0 && m < cfg.nchunks)
    && msg.issued == Value(cfg, p, m)
  }

  /** The puts in flight are the last ones p issued, in order, with the values they should carry. */
  ghost predicate NetInv<V>(cfg: Config<V>, s: State<V>)
    requires Shape(cfg, s)
  {
    && (forall p :: 0 <= p < cfg.npes ==> 0 <= Recv(cfg, s, p))
    && (forall p, k :: 0 <= p < cfg.npes && 0 <= k < |s.net[p]| ==>
          OkMsg(cfg, p, Recv(cfg, s, p) + k, s.net[p][k]))
  }

  ghost predicate SignalInv<V>(cfg: Config<V>, s: State<V>)
    requires Shape(cfg, s)
  {
    forall q :: 0 <= q < cfg.npes ==>
      s.signal[q] == if s.pc[q].Done? then 0 else Recv(cfg, s, Pred(cfg, q))
  }

  ghost predicate WaitInv<V>(cfg: Config<V>, s: State<V>)
    requires Shape(cfg, s)
  {
    forall q, c :: 0 <= q < cfg.npes && 0 <= c < cfg.nchunks ==>
      && (q > 0 && PassedReduceWait(s.pc[q], c) ==> Recv(cfg, s, Pred(cfg, q)) >= c + 1)
      && (q < cfg.npes - 1 && PassedBcastWait(s.pc[q], c) ==>
            Recv(cfg, s, Pred(cfg, q)) >= Expected(cfg, q, c))
  }

  /** The data of p's put number m has been written at the receiver. */
  ghost predicate Landed<V>(cfg: Config<V>, s: State<V>, p: nat, m: nat)
    requires Shape(cfg, s) && p < cfg.npes
  {
    var r := Recv(cfg, s, p);
    m < r || (r <= m < r + |s.net[p]| && s.net[p][m - r].landed)
  }

  ghost predicate DstOk<V>(cfg: Config<V>, s: State<V>, q: nat, c: nat)
    requires Shape(cfg, s) && q < cfg.npes && c < cfg.nchunks
  {
    var p := Pred(cfg, q);
    if q == 0 then
      Landed(cfg, s, p, c) ==> s.dst[q][c] == Total(cfg, c)
    else if Added(s.pc[q], c) then
      s.dst[q][c] ==
      if q < cfg.npes - 1 && Landed(cfg, s, p, cfg.nchunks + c) then Total(cfg, c) else Partial(cfg, q, c)
    else
      Landed(cfg, s, p, c) ==> s.dst[q][c] == Partial(cfg, p, c)
  }

  ghost predicate DstInv<V>(cfg: Config<V>, s: State<V>)
    requires Shape(cfg, s)
  {
    forall q, c :: 0 <= q < cfg.npes && 0 <= c < cfg.nchunks ==> DstOk(cfg, s, q, c)
  }

  ghost predicate Inv<V>(cfg: Config<V>, s: State<V>) {
    Shape(cfg, s) && NetInv(cfg, s) && SignalInv(cfg, s) && WaitInv(cfg, s) && DstInv(cfg, s)
  }

  // ---------------------------------------------------------------------------------------------
  // Causality: what a signal says about PEs further up the ring

  /** A PE that has put its partial sum of chunk c saw every PE to its left put theirs. */
  lemma {:induction false} ReduceChain<V>(cfg: Config<V>, s: State<V>, q: nat, c: nat)
    requires Shape(cfg, s) && NetInv(cfg, s) && WaitInv(cfg, s) && q < cfg.npes && c < cfg.nchunks
    requires Sent(cfg, s.pc[q], q) > c
    ensures forall p :: 0 <= p < q ==> Recv(cfg, s, p) > c
  {
    if q > 0 {
      assert PassedReduceWait(s.pc[q], c);
      assert Pred(cfg, q) == q - 1;
      ReduceChain(cfg, s, q - 1, c);
    }
  }

  /** A PE that has forwarded the result of chunk c got it from the last PE, which had put it. */
  lemma {:induction false} BcastChain<V>(cfg: Config<V>, s: State<V>, p: nat, c: nat)
    requires Shape(cfg, s) && NetInv(cfg, s) && WaitInv(cfg, s) && WaitsMatch(cfg) && p + 2 < cfg.npes && c < cfg.nchunks
    requires Sent(cfg, s.pc[p], p) > cfg.nchunks + c
    ensures forall q :: 0 <= q < cfg.npes ==> Recv(cfg, s, q) > c
  {
    assert PassedBcastWait(s.pc[p], c);
    var r := Pred(cfg, p);
    assert Recv(cfg, s, r) >= Expected(cfg, p, c);
    if p == 0 {
      ReduceChain(cfg, s, cfg.npes - 1, c);
    } else {
      BcastChain(cfg, s, p - 1, c);
    }
  }

  /**
   The result of chunk c reaches a PE's buffer only after that PE has added and forwarded its own
   partial sum of c, and its right neighbour has got it.
   */
  lemma BroadcastComesAfterPut<V>(cfg: Config<V>, s: State<V>, q: nat, c: nat)
    requires Inv(cfg, s) && WaitsMatch(cfg) && 0 < q < cfg.npes - 1 && c < cfg.nchunks
    requires Landed(cfg, s, q - 1, cfg.nchunks + c)
    ensures Recv(cfg, s, q) > c && Added(s.pc[q], c)
  {
    hide DstInv, SignalInv;
    LandedIsSent(cfg, s, q - 1, cfg.nchunks + c);
    BcastChain(cfg, s, q - 1, c);
    assert Recv(cfg, s, q) > c;
  }

  lemma LandedIsSent<V>(cfg: Config<V>, s: State<V>, p: nat, m: nat)
    requires Shape(cfg, s) && p < cfg.npes && Landed(cfg, s, p, m)
    ensures Sent(cfg, s.pc[p], p) > m
  {
    hide Sent;
  }

  /**
   Puts may be non-blocking: from the issue of a put until its signal has arrived, its source holds
   what it held when the put was issued.
   */
  lemma SourceStable<V>(cfg: Config<V>, s: State<V>, p: nat, k: nat)
    requires Inv(cfg, s) && WaitsMatch(cfg) && p < cfg.npes && k < |s.net[p]|
    ensures SourceNow(cfg, s, p, s.net[p][k]) == s.net[p][k].issued
  {
    hide SignalInv;
    var m := Recv(cfg, s, p) + k;
    assert OkMsg(cfg, p, m, s.net[p][k]);
    if m >= cfg.nchunks {
      var c := m - cfg.nchunks;
      assert DstOk(cfg, s, p, c) && PassedBcastWait(s.pc[p], c);
      assert Recv(cfg, s, Pred(cfg, p)) >= Expected(cfg, p, c);
    } else if p > 0 {
      assert DstOk(cfg, s, p, m) && Added(s.pc[p], m);
      if p < cfg.npes - 1 && Landed(cfg, s, p - 1, cfg.nchunks + m) {
        BroadcastComesAfterPut(cfg, s, p, m);
      }
    }
  }

  /**
   While a PE is between its wait for chunk c and its put of chunk c, no put that is still to land
   targets that chunk: the in-place addition races with nothing.
   */
  lemma AddRacesWithNothing<V>(cfg: Config<V>, s: State<V>, q: nat, k: nat)
    requires Inv(cfg, s) && WaitsMatch(cfg) && 0 < q < cfg.npes
    requires (s.pc[q].RAdd? || s.pc[q].RPut?) && k < |s.net[Pred(cfg, q)]|
    ensures s.net[Pred(cfg, q)][k].chunk != s.pc[q].c
  {
    var p, c := Pred(cfg, q), s.pc[q].c;
    var m := Recv(cfg, s, p) + k;
    assert OkMsg(cfg, p, m, s.net[p][k]) && PassedReduceWait(s.pc[q], c);
    assert Recv(cfg, s, q) <= c;
    if m == cfg.nchunks + c {
      BcastChain(cfg, s, p, c);
      assert false;
    }
  }

  /** A PE about to reset its signal has received every signal it will ever get. */
  lemma ResetAfterLastSignal<V>(cfg: Config<V>, s: State<V>, q: nat)
    requires Inv(cfg, s) && WaitsMatch(cfg) && q < cfg.npes && (s.pc[q].Reset? || s.pc[q].Done?)
    ensures s.net[Pred(cfg, q)] == [] && Recv(cfg, s, Pred(cfg, q)) == Quota(cfg, Pred(cfg, q))
  {
    if cfg.nchunks > 0 {
      var c := cfg.nchunks - 1;
      assert PassedReduceWait(s.pc[q], c) && PassedBcastWait(s.pc[q], c);
      assert Recv(cfg, s, Pred(cfg, q)) >= Quota(cfg, Pred(cfg, q));
    }
  }

  // ---------------------------------------------------------------------------------------------
  // Every step keeps the invariant

  lemma InitInv<V>(cfg: Config<V>, s: State<V>)
    requires Init(cfg, s) && WaitsMatch(cfg)
    ensures Inv(cfg, s)
  {
    assert forall p :: 0 <= p < cfg.npes ==> Recv(cfg, s, p) == 0;
    assert cfg.nchunks > 0 ==> ReduceHead(cfg, 0) == RWait(0);
    forall q, c | 0 <= q < cfg.npes && 0 <= c < cfg.nchunks
      ensures DstOk(cfg, s, q, c)
    {
      assert !Landed(cfg, s, Pred(cfg, q), c);
    }
  }

  /** A signal moves one put from `in flight` to `received` and touches no data. */
  lemma SignalFacts<V>(cfg: Config<V>, s: State<V>, p: nat)
    requires Shape(cfg, s) && NetInv(cfg, s) && Enabled(cfg, s, Signal(p))
    ensures var t := Apply(cfg, s, Signal(p));
      && (forall r :: 0 <= r < cfg.npes ==> Recv(cfg, t, r) == Recv(cfg, s, r) + if r == p then 1 else 0)
      && (forall r, m: nat :: 0 <= r < cfg.npes ==> Landed(cfg, t, r, m) == Landed(cfg, s, r, m))
      && NetInv(cfg, t)
  {
    hide OkMsg, ValidPc, Sent, PeEffect, PcNext;
    var t := Apply(cfg, s, Signal(p));
    assert forall r :: 0 <= r < cfg.npes ==> Recv(cfg, t, r) == Recv(cfg, s, r) + if r == p then 1 else 0;
    assert forall k :: 0 <= k < |t.net[p]| ==> t.net[p][k] == s.net[p][k + 1];
    forall r, k | 0 <= r < cfg.npes && 0 <= k < |t.net[r]|
      ensures OkMsg(cfg, r, Recv(cfg, t, r) + k, t.net[r][k])
    {
      assert OkMsg(cfg, r, Recv(cfg, s, r) + if r == p then k + 1 else k, s.net[r][if r == p then k + 1 else k]);
    }
  }

  lemma SignalKeepsInv<V>(cfg: Config<V>, s: State<V>, p: nat)
    requires Inv(cfg, s) && WaitsMatch(cfg) && Enabled(cfg, s, Signal(p))
    ensures Inv(cfg, Apply(cfg, s, Signal(p)))
  {
    var t, q := Apply(cfg, s, Signal(p)), Peer(cfg, p);
    SignalFacts(cfg, s, p);
    if s.pc[q].Done? {
      ResetAfterLastSignal(cfg, s, q);
    }
    assert SignalInv(cfg, t);
    assert WaitInv(cfg, t);
    forall q, c | 0 <= q < cfg.npes && 0 <= c < cfg.nchunks
      ensures DstOk(cfg, t, q, c)
    {
      assert DstOk(cfg, s, q, c);
    }
  }

  /** A landing changes neither the counters nor any put but its own. */
  lemma LandFacts<V>(cfg: Config<V>, s: State<V>, p: nat, k: nat)
    requires Shape(cfg, s) && NetInv(cfg, s) && Enabled(cfg, s, Land(p, k))
    ensures var t := Apply(cfg, s, Land(p, k));
      && (forall r :: 0 <= r < cfg.npes ==> Recv(cfg, t, r) == Recv(cfg, s, r))
      && (forall r, m: nat :: 0 <= r < cfg.npes ==>
            Landed(cfg, t, r, m) == (Landed(cfg, s, r, m) || (r == p && m == Recv(cfg, s, p) + k)))
      && NetInv(cfg, t)
  {
    hide ValidPc, Sent, PeEffect, PcNext, Value, Quota, SourceNow;
    var t := Apply(cfg, s, Land(p, k));
    assert forall r :: 0 <= r < cfg.npes ==> Recv(cfg, t, r) == Recv(cfg, s, r);
    forall r, j | 0 <= r < cfg.npes && 0 <= j < |t.net[r]|
      ensures OkMsg(cfg, r, Recv(cfg, t, r) + j, t.net[r][j])
    {
      assert OkMsg(cfg, r, Recv(cfg, s, r) + j, s.net[r][j]);
    }
  }

  lemma LandKeepsInv<V>(cfg: Config<V>, s: State<V>, p: nat, k: nat)
    requires Inv(cfg, s) && WaitsMatch(cfg) && Enabled(cfg, s, Land(p, k))
    ensures Inv(cfg, Apply(cfg, s, Land(p, k)))
  {
    hide NetInv, DstInv, Landed;
    LandFacts(cfg, s, p, k);
    LandKeepsDst(cfg, s, p, k);
  }

  lemma LandKeepsDst<V>(cfg: Config<V>, s: State<V>, p: nat, k: nat)
    requires Inv(cfg, s) && WaitsMatch(cfg) && Enabled(cfg, s, Land(p, k))
    ensures DstInv(cfg, Apply(cfg, s, Land(p, k)))
  {
    hide SignalInv, Landed, Partial;
    var t, q, m := Apply(cfg, s, Land(p, k)), Peer(cfg, p), Recv(cfg, s, p) + k;
    LandFacts(cfg, s, p, k);
    SourceStable(cfg, s, p, k);
    assert OkMsg(cfg, p, m, s.net[p][k]);
    var c := s.net[p][k].chunk;
    if m >= cfg.nchunks {
      BcastChain(cfg, s, p, c);
      assert Recv(cfg, s, q) > c && Added(s.pc[q], c);
    }
    forall r, d | 0 <= r < cfg.npes && 0 <= d < cfg.nchunks
      ensures DstOk(cfg, t, r, d)
    {
      assert DstOk(cfg, s, r, d);
      assert Added(s.pc[r], d) ==> PassedReduceWait(s.pc[r], d);
    }
  }

  /** A chunk a PE is about to put holds the value its put should carry. */
  lemma PutCarriesValue<V>(cfg: Config<V>, s: State<V>, p: nat)
    requires Inv(cfg, s) && WaitsMatch(cfg) && p < cfg.npes
    requires s.pc[p].RPut? || (s.pc[p].BPut? && p + 2 < cfg.npes)
    ensures Sent(cfg, s.pc[p], p) < Quota(cfg, p)
    ensures (if p == 0 && s.pc[p].RPut? then cfg.src[p][s.pc[p].c] else s.dst[p][s.pc[p].c])
         == Value(cfg, p, Sent(cfg, s.pc[p], p))
  {
    var c, r := s.pc[p].c, Pred(cfg, p);
    assert DstOk(cfg, s, p, c);
    if s.pc[p].BPut? {
      assert PassedBcastWait(s.pc[p], c) && Recv(cfg, s, r) >= Expected(cfg, p, c);
    } else if 0 < p < cfg.npes - 1 && Landed(cfg, s, r, cfg.nchunks + c) {
      BroadcastComesAfterPut(cfg, s, p, c);
    }
  }

  /** Appending puts that have not landed, as their sender counts them, lands nothing. */
  lemma QueueGrows<V>(cfg: Config<V>, s: State<V>, t: State<V>, p: nat, put: seq<Msg<V>>)
    requires Shape(cfg, s) && NetInv(cfg, s) && Shape(cfg, t) && p < cfg.npes
    requires t.net == s.net[p := s.net[p] + put]
    requires forall r :: 0 <= r < cfg.npes ==> Recv(cfg, t, r) == Recv(cfg, s, r)
    requires |put| <= 1
    requires put != [] ==> !put[0].landed && OkMsg(cfg, p, Sent(cfg, s.pc[p], p), put[0])
    ensures forall r, m: nat :: 0 <= r < cfg.npes ==> Landed(cfg, t, r, m) == Landed(cfg, s, r, m)
    ensures NetInv(cfg, t)
  {
    forall r, j | 0 <= r < cfg.npes && 0 <= j < |t.net[r]|
      ensures OkMsg(cfg, r, Recv(cfg, t, r) + j, t.net[r][j])
    {
      if j < |s.net[r]| {
        assert OkMsg(cfg, r, Recv(cfg, s, r) + j, s.net[r][j]);
      }
    }
  }

  /** A PE step moves no signal and lands nothing; its put, if any, joins the end of the queue. */
  lemma PeFacts<V>(cfg: Config<V>, s: State<V>, p: nat)
    requires Inv(cfg, s) && WaitsMatch(cfg) && Enabled(cfg, s, Pe(p))
    ensures var t := Apply(cfg, s, Pe(p));
      && (forall r :: 0 <= r < cfg.npes ==> Recv(cfg, t, r) == Recv(cfg, s, r))
      && (forall r, m: nat :: 0 <= r < cfg.npes ==> Landed(cfg, t, r, m) == Landed(cfg, s, r, m))
      && NetInv(cfg, t)
  {
    hide OkMsg, WaitInv, DstInv, SignalInv;
    var t := Apply(cfg, s, Pe(p));
    if s.pc[p].RPut? || (s.pc[p].BPut? && p + 2 < cfg.npes) {
      PutCarriesValue(cfg, s, p);
      QueueGrows(cfg, s, t, p, t.net[p][|s.net[p]|..]);
    } else {
      assert s.net[p] + [] == s.net[p];
      QueueGrows(cfg, s, t, p, []);
    }
  }

  /** A program counter gets past a wait only at that wait. */
  lemma PcFacts<V>(cfg: Config<V>, pc: Pc, c: nat)
    requires ValidPc(cfg, pc) && c < cfg.nchunks
    ensures PassedReduceWait(PcNext(cfg, pc), c) == (PassedReduceWait(pc, c) || pc == RWait(c))
    ensures PassedBcastWait(PcNext(cfg, pc), c) == (PassedBcastWait(pc, c) || pc == BWait(c))
    ensures Added(PcNext(cfg, pc), c) == (Added(pc, c) || pc == RAdd(c))
    ensures PcNext(cfg, pc).Done? == (pc.Reset? || pc.Done?)
  {
  }

  /** A PE past its waits saw the signals they ask for. */
  lemma PeKeepsWaits<V>(cfg: Config<V>, s: State<V>, p: nat)
    requires Shape(cfg, s) && SignalInv(cfg, s) && WaitInv(cfg, s) && Enabled(cfg, s, Pe(p))
    requires forall r :: 0 <= r < cfg.npes ==> Recv(cfg, Apply(cfg, s, Pe(p)), r) == Recv(cfg, s, r)
    ensures SignalInv(cfg, Apply(cfg, s, Pe(p))) && WaitInv(cfg, Apply(cfg, s, Pe(p)))
  {
    forall c | 0 <= c < cfg.nchunks {
      PcFacts(cfg, s.pc[p], c);
    }
  }

  /** A PE about to add has the partial sum of its left neighbour in place and nothing newer. */
  lemma AddSeesPartialSum<V>(cfg: Config<V>, s: State<V>, p: nat)
    requires Inv(cfg, s) && WaitsMatch(cfg) && 0 < p < cfg.npes && s.pc[p].RAdd?
    ensures Landed(cfg, s, p - 1, s.pc[p].c)
    ensures p < cfg.npes - 1 ==> !Landed(cfg, s, p - 1, cfg.nchunks + s.pc[p].c)
  {
    var c := s.pc[p].c;
    assert PassedReduceWait(s.pc[p], c) && Recv(cfg, s, Pred(cfg, p)) >= c + 1;
    if p < cfg.npes - 1 && Landed(cfg, s, p - 1, cfg.nchunks + c) {
      BroadcastComesAfterPut(cfg, s, p, c);
    }
  }

  lemma PeKeepsDst<V>(cfg: Config<V>, s: State<V>, p: nat, q: nat, c: nat)
    requires Shape(cfg, s) && Enabled(cfg, s, Pe(p)) && q < cfg.npes && c < cfg.nchunks
    requires DstOk(cfg, s, q, c)
    requires q == p && p > 0 && s.pc[p] == RAdd(c) ==>
      Landed(cfg, s, p - 1, c) && (p < cfg.npes - 1 ==> !Landed(cfg, s, p - 1, cfg.nchunks + c))
    requires forall r, m: nat :: 0 <= r < cfg.npes ==>
      Landed(cfg, Apply(cfg, s, Pe(p)), r, m) == Landed(cfg, s, r, m)
    ensures DstOk(cfg, Apply(cfg, s, Pe(p)), q, c)
  {
    var t := Apply(cfg, s, Pe(p));
    PcFacts(cfg, s.pc[p], c);
    if q != p || p == 0 || s.pc[p] != RAdd(c) {
      assert t.dst[q][c] == s.dst[q][c];
    }
  }

  lemma PeKeepsInv<V>(cfg: Config<V>, s: State<V>, p: nat)
    requires Inv(cfg, s) && WaitsMatch(cfg) && Enabled(cfg, s, Pe(p))
    ensures Inv(cfg, Apply(cfg, s, Pe(p)))
  {
    PeFacts(cfg, s, p);
    PeKeepsWaits(cfg, s, p);
    if s.pc[p].RAdd? && p > 0 {
      AddSeesPartialSum(cfg, s, p);
    }
    forall q, c | 0 <= q < cfg.npes && 0 <= c < cfg.nchunks
      ensures DstOk(cfg, Apply(cfg, s, Pe(p)), q, c)
    {
      PeKeepsDst(cfg, s, p, q, c);
    }
  }

  lemma NextKeepsInv<V>(cfg: Config<V>, s: State<V>, t: State<V>)
    requires Inv(cfg, s) && WaitsMatch(cfg) && Next(cfg, s, t)
    ensures Inv(cfg, t)
  {
    var step :| Enabled(cfg, s, step) && t == Apply(cfg, s, step);
    match step
    case Pe(p) => PeKeepsInv(cfg, s, p);
    case Land(p, k) => LandKeepsInv(cfg, s, p, k);
    case Signal(p) => SignalKeepsInv(cfg, s, p);
  }

  lemma {:induction false} RunInv<V>(cfg: Config<V>, run: seq<State<V>>, i: nat)
    requires Run(cfg, run) && WaitsMatch(cfg) && i < |run|
    ensures Inv(cfg, run[i])
  {
    if i == 0 {
      InitInv(cfg, run[0]);
    } else {
      RunInv(cfg, run, i - 1);
      assert Next(cfg, run[i - 1], run[i - 1 + 1]);
      NextKeepsInv(cfg, run[i - 1], run[i]);
    }
  }

  // ---------------------------------------------------------------------------------------------
  // Safety: a PE that has finished holds the result, and keeps it

  /** PE q holds the sum of all PEs' src in every chunk. */
  ghost predicate HoldsResult<V>(cfg: Config<V>, s: State<V>, q: nat)
    requires Shape(cfg, s) && q < cfg.npes
  {
    forall c :: 0 <= c < cfg.nchunks ==> s.dst[q][c] == Total(cfg, c)
  }

  lemma FinishedHoldsResult<V>(cfg: Config<V>, s: State<V>, q: nat)
    requires Inv(cfg, s) && WaitsMatch(cfg) && q < cfg.npes && s.pc[q].Done?
    ensures HoldsResult(cfg, s, q) && s.net[Pred(cfg, q)] == []
  {
    ResetAfterLastSignal(cfg, s, q);
    forall c | 0 <= c < cfg.nchunks
      ensures s.dst[q][c] == Total(cfg, c)
    {
      assert DstOk(cfg, s, q, c);
    }
  }

  lemma {:induction false} FinishedStays<V>(cfg: Config<V>, run: seq<State<V>>, i: nat, j: nat, q: nat)
    requires Run(cfg, run) && i <= j < |run|
    requires Shape(cfg, run[i]) && q < cfg.npes && run[i].pc[q].Done?
    ensures Shape(cfg, run[j]) && run[j].pc[q].Done?
  {
    if i < j {
      FinishedStays(cfg, run, i, j - 1, q);
      assert Next(cfg, run[j - 1], run[j - 1 + 1]);
    }
  }

  /**
   In every run, a PE that has finished holds the left-to-right sum of all PEs' src in every chunk,
   whatever dst held at first, and nothing that happens later changes it.
   */
  lemma AllReduceCorrect<V>(cfg: Config<V>, run: seq<State<V>>, i: nat, j: nat, q: nat)
    requires Run(cfg, run) && WaitsMatch(cfg) && i <= j < |run|
    requires Shape(cfg, run[i]) && q < cfg.npes && run[i].pc[q].Done?
    ensures Shape(cfg, run[j]) && run[j].pc[q].Done? && HoldsResult(cfg, run[j], q)
  {
    FinishedStays(cfg, run, i, j, q);
    RunInv(cfg, run, j);
    FinishedHoldsResult(cfg, run[j], q);
  }

  // ---------------------------------------------------------------------------------------------
  // Termination and absence of deadlock

  function Rank<V>(cfg: Config<V>, pc: Pc): int {
    match pc
    case RWait(c) => 3 * (cfg.nchunks - c) + 2 * cfg.nchunks + 2
    case RAdd(c) => 3 * (cfg.nchunks - c) + 2 * cfg.nchunks + 1
    case RPut(c) => 3 * (cfg.nchunks - c) + 2 * cfg.nchunks
    case BWait(c) => 2 * (cfg.nchunks - c) + 2
    case BPut(c) => 2 * (cfg.nchunks - c) + 1
    case Reset => 1
    case Done => 0
  }

  ghost function Weight<V>(q: seq<Msg<V>>): nat {
    if q == [] then 0 else (if q[|q| - 1].landed then 1 else 2) + Weight(q[..|q| - 1])
  }

  /** What is left to do for the first n PEs: their own steps and the puts they have in flight. */
  ghost function Work<V>(cfg: Config<V>, s: State<V>, n: nat): int
    requires Shape(cfg, s) && n <= cfg.npes
  {
    if n == 0 then 0
    else 3 * Rank(cfg, s.pc[n - 1]) + Weight(s.net[n - 1]) + Work(cfg, s, n - 1)
  }

  lemma {:induction false} WeightLanded<V>(q: seq<Msg<V>>, k: nat)
    requires k < |q| && !q[k].landed
    ensures Weight(q[k := q[k].(landed := true)]) == Weight(q) - 1
  {
    var r := q[k := q[k].(landed := true)];
    if k == |q| - 1 {
      assert r[..|q| - 1] == q[..|q| - 1];
    } else {
      WeightLanded(q[..|q| - 1], k);
      assert r[..|q| - 1] == q[..|q| - 1][k := q[k].(landed := true)];
    }
  }

  lemma {:induction false} WeightTail<V>(q: seq<Msg<V>>)
    requires q != []
    ensures Weight(q[1..]) < Weight(q)
  {
    if |q| > 1 {
      WeightTail(q[..|q| - 1]);
      assert q[1..][..|q| - 2] == q[..|q| - 1][1..];
    }
  }

  lemma {:induction false} WorkDrops<V>(cfg: Config<V>, s: State<V>, t: State<V>, p: nat, n: nat)
    requires Shape(cfg, s) && Shape(cfg, t) && p < cfg.npes && n <= cfg.npes
    requires forall r :: 0 <= r < cfg.npes && r != p ==> s.pc[r] == t.pc[r] && s.net[r] == t.net[r]
    requires 3 * Rank(cfg, t.pc[p]) + Weight(t.net[p]) < 3 * Rank(cfg, s.pc[p]) + Weight(s.net[p])
    ensures if p < n then Work(cfg, t, n) < Work(cfg, s, n) else Work(cfg, t, n) == Work(cfg, s, n)
  {
    if n > 0 {
      WorkDrops(cfg, s, t, p, n - 1);
    }
  }

  lemma {:induction false} WorkNonNegative<V>(cfg: Config<V>, s: State<V>, n: nat)
    requires Shape(cfg, s) && n <= cfg.npes
    ensures 0 <= Work(cfg, s, n)
  {
    if n > 0 {
      WorkNonNegative(cfg, s, n - 1);
      assert ValidPc(cfg, s.pc[n - 1]);
    }
  }

  /** Every step of the system leaves less to do. */
  lemma StepDoesWork<V>(cfg: Config<V>, s: State<V>, step: Step)
    requires Shape(cfg, s) && Enabled(cfg, s, step)
    ensures Work(cfg, Apply(cfg, s, step), cfg.npes) < Work(cfg, s, cfg.npes)
  {
    var t, p := Apply(cfg, s, step), step.p;
    match step {
      case Pe(_) =>
        assert ValidPc(cfg, s.pc[p]);
        assert Rank(cfg, t.pc[p]) < Rank(cfg, s.pc[p]);
        if |t.net[p]| > |s.net[p]| {
          assert t.net[p][..|s.net[p]|] == s.net[p];
        }
      case Land(_, k) => WeightLanded(s.net[p], k);
      case Signal(_) => WeightTail(s.net[p]);
    }
    WorkDrops(cfg, s, t, p, cfg.npes);
  }

  lemma {:induction false} InitialWork<V>(cfg: Config<V>, s: State<V>, n: nat)
    requires Init(cfg, s) && n <= cfg.npes
    ensures Work(cfg, s, n) <= n * (15 * cfg.nchunks + 6)
  {
    if n > 0 {
      InitialWork(cfg, s, n - 1);
      assert n * (15 * cfg.nchunks + 6) == (n - 1) * (15 * cfg.nchunks + 6) + (15 * cfg.nchunks + 6);
    }
  }

  lemma {:induction false} RunDoesWork<V>(cfg: Config<V>, run: seq<State<V>>, i: nat)
    requires Run(cfg, run) && i < |run|
    ensures Shape(cfg, run[i]) && Work(cfg, run[i], cfg.npes) + i <= Work(cfg, run[0], cfg.npes)
  {
    if i > 0 {
      RunDoesWork(cfg, run, i - 1);
      assert Next(cfg, run[i - 1], run[i - 1 + 1]);
      var step :| Enabled(cfg, run[i - 1], step) && run[i] == Apply(cfg, run[i - 1], step);
      StepDoesWork(cfg, run[i - 1], step);
    }
  }

  /** Every run ends: the number of steps is bounded by the number of PEs and chunks. */
  lemma RunsAreBounded<V>(cfg: Config<V>, run: seq<State<V>>)
    requires Run(cfg, run)
    ensures |run| - 1 <= cfg.npes * (15 * cfg.nchunks + 6)
  {
    RunDoesWork(cfg, run, |run| - 1);
    WorkNonNegative(cfg, run[|run| - 1], cfg.npes);
    InitialWork(cfg, run[0], cfg.npes);
  }

  /** With nothing in flight, a wait is over once the left neighbour has come far enough. */
  lemma WaitIsOver<V>(cfg: Config<V>, s: State<V>, p: nat)
    requires Shape(cfg, s) && SignalInv(cfg, s) && WaitsMatch(cfg) && p < cfg.npes && !s.pc[p].Done?
    requires s.net[Pred(cfg, p)] == []
    requires s.pc[p].RWait? && p > 0 ==> Sent(cfg, s.pc[p - 1], p - 1) >= cfg.nchunks
    requires s.pc[p].BWait? && p == 0 ==> Sent(cfg, s.pc[cfg.npes - 1], cfg.npes - 1) >= cfg.nchunks
    requires s.pc[p].BWait? && 0 < p < cfg.npes - 1 ==> s.pc[p - 1].Done?
    ensures Enabled(cfg, s, Pe(p))
  {
    assert s.signal[p] == Recv(cfg, s, Pred(cfg, p));
    assert ValidPc(cfg, s.pc[p]);
  }

  /** With nothing in flight, the first PE still reducing can step, or else the first unfinished one. */
  lemma QuietNetStep<V>(cfg: Config<V>, s: State<V>, q: nat) returns (p: nat)
    requires Shape(cfg, s) && q < cfg.npes && !s.pc[q].Done?
    ensures p < cfg.npes && !s.pc[p].Done?
    ensures s.pc[p].RWait? && p > 0 ==> Sent(cfg, s.pc[p - 1], p - 1) >= cfg.nchunks
    ensures s.pc[p].BWait? ==> Sent(cfg, s.pc[cfg.npes - 1], cfg.npes - 1) >= cfg.nchunks
    ensures s.pc[p].BWait? && p > 0 ==> s.pc[p - 1].Done?
  {
    p := 0;
    while p < cfg.npes && Sent(cfg, s.pc[p], p) >= cfg.nchunks
      invariant p <= cfg.npes
      invariant forall r :: 0 <= r < p ==> Sent(cfg, s.pc[r], r) >= cfg.nchunks
    {
      p := p + 1;
    }
    if p < cfg.npes {
      return;
    }
    p := 0;
    while s.pc[p].Done?
      invariant p <= q
      invariant p > 0 ==> s.pc[p - 1].Done?
      decreases q - p
    {
      p := p + 1;
    }
    assert ValidPc(cfg, s.pc[p]);
  }

  /** Some step is enabled as long as some PE has not finished. */
  lemma NoDeadlock<V>(cfg: Config<V>, s: State<V>, q: nat) returns (step: Step)
    requires Inv(cfg, s) && WaitsMatch(cfg) && q < cfg.npes && !s.pc[q].Done?
    ensures Enabled(cfg, s, step)
  {
    if p :| 0 <= p < cfg.npes && s.net[p] != [] {
      step := if s.net[p][0].landed then Signal(p) else Land(p, 0);
    } else {
      var p := QuietNetStep(cfg, s, q);
      WaitIsOver(cfg, s, p);
      step := Pe(p);
    }
  }

  ghost predicate Finished<V>(cfg: Config<V>, s: State<V>, q: nat)
    requires Shape(cfg, s) && q < cfg.npes
  {
    s.pc[q].Done? && HoldsResult(cfg, s, q) && s.signal[q] == 0 && s.net[q] == []
  }

  /**
   A run that cannot go on has done the whole job: every PE has finished with the result, every
   signal is zero again for the next launch and no put is in flight.
   */
  lemma MaximalRunSucceeds<V>(cfg: Config<V>, run: seq<State<V>>, s: State<V>)
    requires Run(cfg, run) && WaitsMatch(cfg) && s == run[|run| - 1]
    requires Shape(cfg, s) && forall step :: !Enabled(cfg, s, step)
    ensures forall q :: 0 <= q < cfg.npes ==> Finished(cfg, s, q)
  {
    RunInv(cfg, run, |run| - 1);
    forall q | 0 <= q < cfg.npes
      ensures s.pc[q].Done?
    {
      if !s.pc[q].Done? {
        var step := NoDeadlock(cfg, s, q);
      }
    }
    forall q | 0 <= q < cfg.npes
      ensures Finished(cfg, s, q)
    {
      FinishedHoldsResult(cfg, s, q);
      FinishedHoldsResult(cfg, s, Peer(cfg, q));
      assert Pred(cfg, Peer(cfg, q)) == q;
    }
  }

  // ---------------------------------------------------------------------------------------------
  // The addition of one chunk, and the number of chunks

  /**
   The threads of a block add a chunk together, thread t taking the indices t, t + n, t + 2n, ...
   Between them they add every element exactly once.
   */
  method AddBlock<V>(dst: array<V>, src: seq<V>, add: (V, V) -> V, threads: nat)
    requires threads > 0 && |src| == dst.Length
    modifies dst
    ensures forall i :: 0 <= i < dst.Length ==> dst[i] == add(old(dst[i]), src[i])
  {
    for t := 0 to threads
      invariant forall k :: 0 <= k < dst.Length ==>
        dst[k] == if k % threads < t then add(old(dst[k]), src[k]) else old(dst[k])
    {
      var i := t;
      while i < dst.Length
        invariant i % threads == t
        invariant forall k :: 0 <= k < dst.Length ==>
          dst[k] == if k % threads < t || (k % threads == t && k < i) then add(old(dst[k]), src[k]) else old(dst[k])
      {
        dst[i] := add(dst[i], src[i]);
        forall k | i <= k < i + threads {
          WindowResidues(i, k, threads);
        }
        i := i + threads;
      }
    }
  }

  /** How often the loops over `zip(starts, ends)` run. */
  function Iterations(elems: nat, chunk: nat): nat
    requires chunk > 0
  {
    (elems + chunk - 1) / chunk
  }

  /**
   The loops make num_chunks turns, as the broadcast's waits assume, iff the chunks fill the block
   exactly, and one more if they do not.
   */
  lemma IterationsAreNumChunks(elems: nat, chunk: nat)
    requires chunk > 0
    ensures Iterations(elems, chunk) == elems / chunk + (if elems % chunk == 0 then 0 else 1)
    ensures Iterations(elems, chunk) == 0 <==> elems == 0
  {
    var q, r := elems / chunk, elems % chunk;
    assert elems == chunk * q + r;
    if r == 0 {
      DivIs(elems + chunk - 1, chunk, q, chunk - 1);
    } else {
      assert elems + chunk - 1 == chunk * (q + 1) + (r - 1) by {
        assert chunk * (q + 1) == chunk * q + chunk;
      }
      DivIs(elems + chunk - 1, chunk, q + 1, r - 1);
    }
  }
}
