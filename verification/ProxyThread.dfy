/**
 The proxy thread: the object whose methods poll the channel, process requests and progress quiet.
 Each method is tied to functions on the state of the host, each call to a sequence of steps of the
 channel, and so whole runs of the thread beside any device to runs of the channel.

 A handler waits for the flags of its entries one by one.  A call that finds an entry missing returns
 with the number of entries seen so far; calling again is going on with the wait.
 */
module ProxyThread {
  import opened ProxyCodec
  import opened ProxyHost
  import opened ProxyChannel
  import opened ProxyQuiet
  import opened ProxyProgress

  datatype Status = Processed | Waits | Exited

  /** How far a wait that has seen i of len entries gets with the flags that are set. */
  function Reached(cfg: Config, slots: seq<int>, p: int, i: int, len: int): (r: int)
    requires cfg.n > 0 && |slots| == cfg.n
    ensures i <= r && (i <= len ==> r <= len)
    ensures r < len ==> !FlagSet(cfg, slots, p + r)
    ensures forall j :: p + i <= j < p + r ==> FlagSet(cfg, slots, j)
    decreases len - i
  {
    if i < len && FlagSet(cfg, slots, p + i) then Reached(cfg, slots, p, i + 1, len) else i
  }

  function NextLength(cfg: Config, h: Host, slots: seq<int>): int
    requires cfg.n > 0 && |slots| == cfg.n
  {
    HostLength(PayloadAt(cfg, slots, h.processed))
  }

  /** A handler: wait for the entries, and execute the request once all are there. */
  function ProcessOne(cfg: Config, h: Host, slots: seq<int>): Host
    requires cfg.n > 0 && |slots| == cfg.n && HasHandler(cfg, h, slots)
  {
    var len := NextLength(cfg, h, slots);
    var r := Reached(cfg, slots, h.processed, h.seen, len);
    if r < len then h.(seen := r) else ExecuteNext(cfg, h, slots)
  }

  /** No request has been begun and none has arrived. */
  predicate Idle(cfg: Config, h: Host, slots: seq<int>)
    requires cfg.n > 0 && |slots| == cfg.n
  {
    h.seen == 0 && !FlagSet(cfg, slots, h.processed)
  }

  /** A request has arrived whose operation has no handler. */
  predicate Invalid(cfg: Config, h: Host, slots: seq<int>)
    requires cfg.n > 0 && |slots| == cfg.n
  {
    !Idle(cfg, h, slots) && !HasHandler(cfg, h, slots)
  }

  /** One turn of the polling loop. */
  function Turn(cfg: Config, h: Host, slots: seq<int>): Host
    requires cfg.n > 0 && |slots| == cfg.n
  {
    if Idle(cfg, h, slots) || !HasHandler(cfg, h, slots) then h else ProcessOne(cfg, h, slots)
  }

  function Turns(cfg: Config, h: Host, slots: seq<int>, m: nat): Host
    requires cfg.n > 0 && |slots| == cfg.n
  {
    if m == 0 then h else Turn(cfg, Turns(cfg, h, slots, m - 1), slots)
  }

  function QuietCall(cfg: Config, h: Host, quietIssue: int): Host {
    DrainQuiet(cfg, TestQuiet(CheckQuiet(h, quietIssue)))
  }

  /** Turns that change nothing stay that way. */
  lemma {:induction false} TurnsFixed(cfg: Config, h: Host, slots: seq<int>, j: nat, m: nat)
    requires cfg.n > 0 && |slots| == cfg.n && j <= m
    requires Turn(cfg, Turns(cfg, h, slots, j), slots) == Turns(cfg, h, slots, j)
    ensures Turns(cfg, h, slots, m) == Turns(cfg, h, slots, j)
  {
    hide Turn;
    if j < m {
      TurnsFixed(cfg, h, slots, j, m - 1);
    }
  }

  /** A wait goes no further without new flags. */
  lemma WaitFixed(cfg: Config, h: Host, slots: seq<int>)
    requires cfg.n > 0 && |slots| == cfg.n && HasHandler(cfg, h, slots)
    requires Reached(cfg, slots, h.processed, h.seen, NextLength(cfg, h, slots)) < NextLength(cfg, h, slots)
    ensures var g := ProcessOne(cfg, h, slots); Turn(cfg, g, slots) == g
  {
    hide FlagSet, HostLength, ExecuteNext, PayloadAt;
  }

  /** What is executed does not depend on how the wait went. */
  lemma SeenIsNotUsed(cfg: Config, h: Host, slots: seq<int>, r: int)
    requires cfg.n > 0 && |slots| == cfg.n && HasHandler(cfg, h, slots)
    ensures HasHandler(cfg, h.(seen := r), slots)
    ensures ExecuteNext(cfg, h.(seen := r), slots) == ExecuteNext(cfg, h, slots)
  {
    hide HostLength, Decode;
  }

  lemma ReadMore(cfg: Config, slots: seq<int>, p: int, i: nat)
    requires cfg.n > 0 && |slots| == cfg.n
    ensures ReadEntries(cfg, slots, p, i + 1) == ReadEntries(cfg, slots, p, i) + [PayloadAt(cfg, slots, p + i)]
  {
  }

  class ProxyState {
    const cfg: Config
    const buf: array<int>
    var processed: int
    var lastSync: int
    var complete: int
    var seen: int
    var quietInProgress: QuietState
    var lastQuietIssue: int
    var quietAck: int
    var issuedGet: bool
    ghost var log: seq<Event>

    ghost function Model(): Host
      reads this
    {
      Host(processed, lastSync, complete, seen, quietInProgress, lastQuietIssue, quietAck, issuedGet, log)
    }

    ghost predicate Valid() {
      cfg.n > 0 && buf.Length == cfg.n
    }

    constructor (c: Config)
      requires ConfigOk(c)
      ensures Valid() && cfg == c && Model() == Init(c).host && buf[..] == Init(c).slots && fresh(buf)
    {
      cfg := c;
      buf := new int[c.n](_ => 0);
      processed, lastSync, complete, seen := 0, 0, 0, 0;
      quietInProgress, lastQuietIssue, quietAck, issuedGet := Inactive, 0, 0, false;
      log := [];
    }

    method UpdateProcessed(entries: int, force: bool)
      modifies this`processed, this`complete, this`lastSync, this`log
      ensures Model() == ProxyHost.UpdateProcessed(old(Model()), entries, force)
    {
      processed := processed + entries;
      if processed - lastSync >= THRESHOLD || force {
        complete := processed;
        lastSync := processed;
        log := log + [Published(processed)];
      }
    }

    /** Waits for the flags of the entries, as far as they are set. */
    method WaitForEntries(len: int) returns (arrived: bool)
      requires Valid()
      modifies this`seen
      ensures seen == Reached(cfg, buf[..], processed, old(seen), len)
      ensures arrived <==> seen >= len
    {
      while seen < len
        invariant Reached(cfg, buf[..], processed, seen, len) == Reached(cfg, buf[..], processed, old(seen), len)
        decreases len - seen
      {
        if buf[(processed + seen) % cfg.n] % B1 != Flag(cfg.n, processed + seen) {
          return false;
        }
        seen := seen + 1;
      }
      return true;
    }

    /** Reads the entries of a request. */
    method ReadRequest(len: nat) returns (s: seq<int>)
      requires Valid()
      ensures s == ReadEntries(cfg, buf[..], processed, len)
    {
      s := [];
      for i := 0 to len
        invariant s == ReadEntries(cfg, buf[..], processed, i)
      {
        ReadMore(cfg, buf[..], processed, i);
        s := s + [buf[(processed + i) % cfg.n] / B1];
      }
    }

    /** Decodes the request, whose entries are all there, and hands it to a transport. */
    method ExecuteRequest(len: int)
      requires Valid() && HasHandler(cfg, Model(), buf[..]) && len == NextLength(cfg, Model(), buf[..])
      modifies this
      ensures Model() == ExecuteNext(cfg, old(Model()), buf[..])
    {
      hide HostLength, Decode, IsGet;
      var s := ReadRequest(len);
      var c := Decode(s);
      seen := 0;
      log := log + [Executed(c)] + if c.QuietQps? && issuedGet then [Flush] else [];
      UpdateProcessed(len, c.QuietQps?);
      if IsGet(cfg, c) {
        issuedGet := true;
      }
    }

    /** `Exited` stands for the exit(-1) on an operation without a handler. */
    method ProcessRequest() returns (status: Status)
      requires Valid()
      modifies this
      ensures status == Exited <==> !HasHandler(cfg, old(Model()), buf[..])
      ensures Model() == if status == Exited then old(Model()) else ProcessOne(cfg, old(Model()), buf[..])
      ensures status == Waits ==> Turn(cfg, Model(), buf[..]) == Model() && !Invalid(cfg, Model(), buf[..])
    {
      hide ExecuteNext, HostLength, Flag;
      var len := HostLength(buf[processed % cfg.n] / B1);
      if len == 0 {
        return Exited;
      }
      ghost var h := Model();
      var arrived := WaitForEntries(len);
      if !arrived {
        WaitFixed(cfg, h, buf[..]);
        return Waits;
      }
      SeenIsNotUsed(cfg, h, buf[..], seen);
      ExecuteRequest(len);
      return Processed;
    }

    /** Processes requests until the batch is full, none is there, or one has not fully arrived. */
    method ProgressChannels(batchMax: nat) returns (exited: bool)
      requires Valid()
      modifies this
      ensures Model() == Turns(cfg, old(Model()), buf[..], batchMax)
      ensures exited <==> exists j :: 0 <= j < batchMax && Invalid(cfg, Turns(cfg, old(Model()), buf[..], j), buf[..])
    {
      hide ProcessOne, HasHandler, Flag, ExecuteNext;
      ghost var h, slots := Model(), buf[..];
      var m := 0;
      exited := false;
      while m < batchMax
        invariant m <= batchMax && Model() == Turns(cfg, h, slots, m)
        invariant forall j :: 0 <= j < m ==> !Invalid(cfg, Turns(cfg, h, slots, j), slots)
      {
        if seen == 0 && buf[processed % cfg.n] % B1 != Flag(cfg.n, processed) {
          NoTurnInvalid(cfg, h, slots, m, batchMax);
          return false;
        }
        var status := ProcessRequest();
        if status == Exited {
          assert Invalid(cfg, Turns(cfg, h, slots, m), slots);
          TurnsFixed(cfg, h, slots, m, batchMax);
          return true;
        }
        m := m + 1;
        if status == Waits {
          NoTurnInvalid(cfg, h, slots, m, batchMax);
          return false;
        }
      }
    }

    method QuietChannelsCheck(quietIssue: int) returns (start: bool)
      modifies this`lastQuietIssue
      ensures start <==> quietIssue > old(lastQuietIssue)
      ensures lastQuietIssue == if start then quietIssue else old(lastQuietIssue)
    {
      start := false;
      if quietIssue > lastQuietIssue {
        lastQuietIssue := quietIssue;
        start := true;
      }
    }

    /** A transport quiet for every PE that has a transport. */
    method QuietTransports()
      modifies this`log
      ensures log == old(log) + Quiets(cfg.peers, |cfg.peers|)
    {
      for i := 0 to |cfg.peers|
        invariant log == old(log) + Quiets(cfg.peers, i)
      {
        if cfg.peers[i] {
          log := log + [TransportQuiet(i)];
        }
      }
    }

    method ProgressQuiet(quietIssue: int)
      modifies this
      ensures Model() == QuietCall(cfg, old(Model()), quietIssue)
    {
      if quietInProgress == Inactive {
        var start := QuietChannelsCheck(quietIssue);
        if start {
          quietInProgress := InProgress;
        }
      }
      if quietInProgress == InProgress {
        if processed >= lastQuietIssue {
          quietInProgress := Done;
        }
      }
      if quietInProgress == Done {
        QuietTransports();
        if issuedGet {
          log := log + [Flush];
          issuedGet := false;
        }
        log := log + [Acked(lastQuietIssue)];
        quietAck := lastQuietIssue;
        quietInProgress := Inactive;
      }
    }
  }

  /** A turn that changes nothing and is not invalid is followed by no invalid one. */
  lemma {:induction false} NoTurnInvalid(cfg: Config, h: Host, slots: seq<int>, m: nat, max: nat)
    requires cfg.n > 0 && |slots| == cfg.n && m <= max
    requires Turn(cfg, Turns(cfg, h, slots, m), slots) == Turns(cfg, h, slots, m)
    requires m < max ==> !Invalid(cfg, Turns(cfg, h, slots, m), slots)
    requires forall j :: 0 <= j < m ==> !Invalid(cfg, Turns(cfg, h, slots, j), slots)
    ensures Turns(cfg, h, slots, max) == Turns(cfg, h, slots, m)
    ensures forall j :: 0 <= j < max ==> !Invalid(cfg, Turns(cfg, h, slots, j), slots)
  {
    hide Turn, Invalid;
    TurnsFixed(cfg, h, slots, m, max);
    forall j | m <= j < max
      ensures !Invalid(cfg, Turns(cfg, h, slots, j), slots)
    {
      TurnsFixed(cfg, h, slots, m, j);
    }
  }

  // ---------------------------------------------------------------------------------------------
  // Calls are sequences of steps

  lemma ServingExtend(cfg: Config, path: seq<State>, step: Step)
    requires Serving(cfg, path) && Shape(cfg, path[|path| - 1])
    requires Serves(step) && Enabled(cfg, path[|path| - 1], step)
    ensures Serving(cfg, path + [Apply(cfg, path[|path| - 1], step)])
  {
    hide Apply, Enabled;
    var path' := path + [Apply(cfg, path[|path| - 1], step)];
    forall i, j | 0 <= i < j < |path'| && j == i + 1
      ensures ServedTo(cfg, path'[i], path'[j])
    {
      if j < |path| {
        assert ServedTo(cfg, path[i], path[j]);
      }
    }
  }

  lemma ServingJoin(cfg: Config, a: seq<State>, b: seq<State>)
    requires Serving(cfg, a) && Serving(cfg, b) && a[|a| - 1] == b[0]
    ensures Serving(cfg, a + b[1..])
  {
    hide ServedTo;
    var path := a + b[1..];
    forall i, j | 0 <= i < j < |path| && j == i + 1
      ensures ServedTo(cfg, path[i], path[j])
    {
      if j < |a| {
        assert ServedTo(cfg, a[i], a[j]);
      } else {
        assert ServedTo(cfg, b[i - (|a| - 1)], b[j - (|a| - 1)]);
      }
    }
  }

  /** The host is within the request it has begun. */
  ghost predicate SeenOk(cfg: Config, h: Host, slots: seq<int>)
    requires cfg.n > 0 && |slots| == cfg.n
  {
    0 <= h.seen && (h.seen > 0 ==> h.seen <= NextLength(cfg, h, slots))
  }

  /** A wait is a step for each flag it sees. */
  lemma {:induction false} WaitIsSteps(cfg: Config, s: State) returns (path: seq<State>)
    requires Shape(cfg, s) && HasHandler(cfg, s.host, s.slots) && SeenOk(cfg, s.host, s.slots)
    ensures Serving(cfg, path) && path[0] == s
    ensures var r := Reached(cfg, s.slots, s.host.processed, s.host.seen, NextLength(cfg, s.host, s.slots));
      path[|path| - 1] == s.(host := s.host.(seen := r))
    decreases NextLength(cfg, s.host, s.slots) - s.host.seen
  {
    hide FlagSet, HostLength, PayloadAt;
    var h := s.host;
    path := [s];
    if h.seen < NextLength(cfg, h, s.slots) && FlagSet(cfg, s.slots, h.processed + h.seen) {
      ServingExtend(cfg, path, See);
      var t := Apply(cfg, s, See);
      var rest := WaitIsSteps(cfg, t);
      ServingJoin(cfg, [s, t], rest);
      path := [s, t] + rest[1..];
    }
  }

  /** Processing a request, as far as it has arrived, is a sequence of steps. */
  lemma ProcessIsSteps(cfg: Config, s: State) returns (path: seq<State>)
    requires Shape(cfg, s) && HasHandler(cfg, s.host, s.slots) && SeenOk(cfg, s.host, s.slots)
    ensures Serving(cfg, path) && path[0] == s
    ensures path[|path| - 1] == s.(host := ProcessOne(cfg, s.host, s.slots))
    ensures SeenOk(cfg, ProcessOne(cfg, s.host, s.slots), s.slots)
  {
    hide FlagSet, HostLength, Decode, PayloadAt;
    path := WaitIsSteps(cfg, s);
    var t := path[|path| - 1];
    if t.host.seen == NextLength(cfg, s.host, s.slots) {
      ServingExtend(cfg, path, Execute);
      path := path + [Apply(cfg, t, Execute)];
    }
  }

  /** Polling a batch is a sequence of steps, whatever has arrived. */
  lemma {:induction false} TurnsAreSteps(cfg: Config, s: State, m: nat) returns (path: seq<State>)
    requires Shape(cfg, s) && SeenOk(cfg, s.host, s.slots)
    ensures Serving(cfg, path) && path[0] == s
    ensures path[|path| - 1] == s.(host := Turns(cfg, s.host, s.slots, m))
    ensures SeenOk(cfg, Turns(cfg, s.host, s.slots, m), s.slots)
  {
    hide Idle, HasHandler, ProcessOne, SeenOk;
    if m == 0 {
      path := [s];
    } else {
      path := TurnsAreSteps(cfg, s, m - 1);
      var t := s.(host := Turns(cfg, s.host, s.slots, m - 1));
      if !Idle(cfg, t.host, s.slots) && HasHandler(cfg, t.host, s.slots) {
        var more := ProcessIsSteps(cfg, t);
        ServingJoin(cfg, path, more);
        path := path + more[1..];
      }
    }
  }

  /** A call that progresses quiet is at most one step of each kind. */
  lemma QuietCallIsSteps(cfg: Config, s: State) returns (path: seq<State>)
    requires Shape(cfg, s) && s.host.seen == 0
    ensures Serving(cfg, path) && path[0] == s
    ensures path[|path| - 1] == s.(host := QuietCall(cfg, s.host, s.device.quietIssue))
  {
    hide Serving, Quiets;
    path := [s];
    OneState(cfg, s);
    path := QuietStep(cfg, path, QuietCheck);
    path := QuietStep(cfg, path, QuietTest);
    path := QuietStep(cfg, path, QuietDrain);
  }

  lemma OneState(cfg: Config, s: State)
    ensures Serving(cfg, [s])
  {
  }

  /** Takes the step if it is enabled. */
  lemma QuietStep(cfg: Config, path: seq<State>, step: Step) returns (longer: seq<State>)
    requires Serving(cfg, path) && Shape(cfg, path[|path| - 1])
    requires step.QuietCheck? || step.QuietTest? || step.QuietDrain?
    ensures Serving(cfg, longer) && longer[0] == path[0] && Shape(cfg, longer[|longer| - 1])
    ensures var s := path[|path| - 1];
      longer[|longer| - 1] == if Enabled(cfg, s, step) then Apply(cfg, s, step) else s
  {
    longer := path;
    if Enabled(cfg, path[|path| - 1], step) {
      ServingExtend(cfg, path, step);
      longer := path + [Apply(cfg, path[|path| - 1], step)];
    }
  }

  // ---------------------------------------------------------------------------------------------
  // Runs of the thread are runs of the channel

  /** What happens: a device step, a call that polls a batch, or a call that progresses quiet. */
  datatype Action = Device(step: Step) | Poll(batchMax: nat) | Quiet

  /** Quiet is progressed only between handlers. */
  ghost predicate Possible(cfg: Config, s: State, a: Action)
    requires Shape(cfg, s)
  {
    match a
    case Device(step) => !Serves(step) || step.Write?
    case Poll(_) => true
    case Quiet => s.host.seen == 0
  }

  ghost predicate Acts(cfg: Config, s: State, a: Action, s': State) {
    && Shape(cfg, s) && Possible(cfg, s, a)
    && match a
       case Device(step) => Enabled(cfg, s, step) && s' == Apply(cfg, s, step)
       case Poll(batchMax) => s' == s.(host := Turns(cfg, s.host, s.slots, batchMax))
       case Quiet => s' == s.(host := QuietCall(cfg, s.host, s.device.quietIssue))
  }

  ghost predicate ThreadRun(cfg: Config, states: seq<State>, actions: seq<Action>) {
    && ConfigOk(cfg) && |states| == |actions| + 1 && states[0] == Init(cfg)
    && forall i, j :: 0 <= i < j < |states| && j == i + 1 ==> Acts(cfg, states[i], actions[i], states[j])
  }

  /** A run goes on with any path of serving steps from its last state. */
  lemma {:induction false} RunContinues(cfg: Config, run: seq<State>, path: seq<State>)
    requires IsRun(cfg, run) && Serving(cfg, path) && path[0] == Final(run)
    ensures IsRun(cfg, run + path[1..])
    ensures Final(run + path[1..]) == path[|path| - 1]
  {
    hide Next, ServedTo;
    var longer := run + path[1..];
    forall i, j | 0 <= i < j < |longer| && j == i + 1
      ensures Next(cfg, longer[i], longer[j])
    {
      if j < |run| {
        assert Next(cfg, run[i], run[j]);
      } else {
        var k := i - (|run| - 1);
        assert longer[i] == path[k] && longer[j] == path[k + 1];
        ServedIsNext(cfg, path[k], path[k + 1]);
      }
    }
  }

  lemma ServedIsNext(cfg: Config, s: State, s': State)
    requires ServedTo(cfg, s, s')
    ensures Next(cfg, s, s')
  {
  }

  lemma InvSeenOk(cfg: Config, s: State)
    requires Inv(cfg, s)
    ensures Shape(cfg, s) && SeenOk(cfg, s.host, s.slots)
  {
    hide Encode, Stream, SlotsOk, InOrder, AcksEarned, GetsOk, QpQuietsFlush, PublishingOk;
    if s.host.seen > 0 {
      LengthIsRead(cfg, s);
    }
  }

  /**
   Every state of every run of the thread, beside any device, is reached by a run of the channel, so
   every theorem about the runs of the channel holds of it.
   */
  lemma {:induction false} ThreadRunIsRun(cfg: Config, states: seq<State>, actions: seq<Action>, i: nat)
    returns (run: seq<State>)
    requires ThreadRun(cfg, states, actions) && i < |states|
    ensures IsRun(cfg, run) && Final(run) == states[i] && Inv(cfg, states[i])
  {
    hide Inv, ServedTo, Next, Turns, QuietCall, SeenOk, Apply, Enabled;
    if i == 0 {
      run := [Init(cfg)];
    } else {
      run := ThreadRunIsRun(cfg, states, actions, i - 1);
      var s, a := states[i - 1], actions[i - 1];
      assert Acts(cfg, s, a, states[i]);
      InvSeenOk(cfg, s);
      match a {
        case Device(step) =>
          RunExtend(cfg, run, step);
          run := run + [states[i]];
        case Poll(batchMax) =>
          var path := TurnsAreSteps(cfg, s, batchMax);
          RunContinues(cfg, run, path);
          run := run + path[1..];
        case Quiet =>
          var path := QuietCallIsSteps(cfg, s);
          RunContinues(cfg, run, path);
          run := run + path[1..];
      }
    }
    RunInv(cfg, run, |run| - 1);
  }

  /** In every run of the thread, no turn of a polling call meets a request without a handler. */
  lemma ThreadNeverExits(cfg: Config, states: seq<State>, actions: seq<Action>, i: nat, j: nat)
    requires ThreadRun(cfg, states, actions) && i < |states|
    ensures var s := states[i];
      Shape(cfg, s) && !Invalid(cfg, Turns(cfg, s.host, s.slots, j), s.slots)
  {
    hide Inv, ThreadRun, Invalid, Turns, ServedTo, SeenOk, Next;
    var s := states[i];
    var run := ThreadRunIsRun(cfg, states, actions, i);
    InvSeenOk(cfg, s);
    var path := TurnsAreSteps(cfg, s, j);
    RunContinues(cfg, run, path);
    RunInv(cfg, run + path[1..], |run + path[1..]| - 1);
    HandlerExists(cfg, Final(run + path[1..]));
  }

  lemma HandlerExists(cfg: Config, s: State)
    requires Inv(cfg, s)
    ensures Shape(cfg, s) && !Invalid(cfg, s.host, s.slots)
  {
    hide Encode, Stream, SlotsOk, InOrder, AcksEarned, GetsOk, QpQuietsFlush, PublishingOk, Flag;
    if !Idle(cfg, s.host, s.slots) {
      if s.host.seen == 0 {
        SeenIsWritten(cfg, s);
      }
      LengthIsRead(cfg, s);
    }
  }
}
