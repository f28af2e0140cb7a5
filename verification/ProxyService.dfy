/**
 The proxy thread serves what has arrived: a poll executes as many of the fully written requests as its
 batch allows, and once everything is written, polls and quiet calls bring every request and every
 quiet to its end.
 */
module ProxyService {
  import opened ProxyCodec
  import opened ProxyHost
  import opened ProxyChannel
  import opened ProxyQuiet
  import opened ProxyProgress
  import opened ProxyThread

  /** Every entry of request k is written. */
  ghost predicate Arrived(issued: seq<Request>, written: set<int>, k: int)
    requires AllLegal(issued) && 0 <= k < |issued|
  {
    forall p :: Start(issued, k) <= p < Start(issued, k + 1) ==> p in written
  }

  /** How many requests have arrived without a gap from request k on. */
  ghost function Ready(issued: seq<Request>, written: set<int>, k: int): (n: nat)
    requires AllLegal(issued) && 0 <= k <= |issued|
    ensures k + n <= |issued|
    decreases |issued| - k
  {
    if k < |issued| && Arrived(issued, written, k) then 1 + Ready(issued, written, k + 1) else 0
  }

  lemma {:induction false} ReadyIs(issued: seq<Request>, written: set<int>, k: int)
    requires AllLegal(issued) && 0 <= k <= |issued|
    ensures var n := Ready(issued, written, k);
      && (forall j :: k <= j < k + n ==> Arrived(issued, written, j))
      && (k + n < |issued| ==> !Arrived(issued, written, k + n))
    decreases |issued| - k
  {
    hide Arrived;
    if k < |issued| && Arrived(issued, written, k) {
      ReadyIs(issued, written, k + 1);
    }
  }

  function Min(a: int, b: int): int {
    if a < b then a else b
  }

  // ---------------------------------------------------------------------------------------------
  // A turn of the polling loop

  lemma WaitKeepsInv(cfg: Config, s: State, r: int)
    requires Inv(cfg, s) && Shape(cfg, s) && HasHandler(cfg, s.host, s.slots)
    requires r == Reached(cfg, s.slots, s.host.processed, s.host.seen, NextLength(cfg, s.host, s.slots))
    ensures Inv(cfg, s.(host := s.host.(seen := r)))
  {
    hide Inv, ServedTo, SeenOk, HasHandler, NextLength, Reached;
    InvSeenOk(cfg, s);
    var path := WaitIsSteps(cfg, s);
    ServingFacts(cfg, path, |path| - 1);
  }

  lemma ProcessKeepsInv(cfg: Config, s: State)
    requires Inv(cfg, s) && Shape(cfg, s) && HasHandler(cfg, s.host, s.slots)
    ensures Inv(cfg, s.(host := ProcessOne(cfg, s.host, s.slots)))
  {
    hide Inv, ServedTo, SeenOk, HasHandler, ProcessOne;
    InvSeenOk(cfg, s);
    var path := ProcessIsSteps(cfg, s);
    ServingFacts(cfg, path, |path| - 1);
  }

  lemma SeenAreWritten(cfg: Config, s: State)
    requires Inv(cfg, s)
    ensures forall p :: 0 <= p < s.host.processed + s.host.seen ==> p in s.device.written
    ensures forall p :: p in s.device.written ==> 0 <= p < s.host.processed + cfg.n
    ensures s.host.processed >= 0 && s.host.seen >= 0
  {
    hide Encode, Stream, SlotsOk, InOrder, AcksEarned, GetsOk, QpQuietsFlush, PublishingOk, Execs;
  }

  /** The host has seen the flags up to the first entry that is not written, and no further. */
  lemma WaitReaches(cfg: Config, s: State)
    requires Inv(cfg, s) && Shape(cfg, s) && s.host.processed in s.device.written
    ensures HasHandler(cfg, s.host, s.slots)
    ensures var k, len := |Execs(s.host.log)|, NextLength(cfg, s.host, s.slots);
      var r := Reached(cfg, s.slots, s.host.processed, s.host.seen, len);
      && k < |s.device.issued| && r <= len
      && (r == len <==> Arrived(s.device.issued, s.device.written, k))
      && (r < len ==> s.host.processed + r !in s.device.written)
  {
    hide Inv, ChannelInv, FlagSet, HostLength, Encode, Start, Execs;
    var d, h, k := s.device, s.host, |Execs(s.host.log)|;
    InvIsChannelInv(cfg, s);
    InvPosition(cfg, s);
    LengthIsRead(cfg, s);
    var len := NextLength(cfg, h, s.slots);
    var r := Reached(cfg, s.slots, h.processed, h.seen, len);
    WaitKeepsInv(cfg, s, r);
    SeenAreWritten(cfg, s.(host := h.(seen := r)));
    StartNext(d.issued, k);
    if r < len && h.processed + r in d.written {
      Freshness(cfg, s, h.processed + r);
    }
  }

  /** The next request was executed if it has arrived, and otherwise waits for its next entry. */
  ghost predicate ServedNext(s: State, h: Host)
    requires AllLegal(s.device.issued)
  {
    var k := |Execs(s.host.log)|;
    && k <= |s.device.issued|
    && (if k < |s.device.issued| && Arrived(s.device.issued, s.device.written, k) then |Execs(h.log)| == k + 1
        else |Execs(h.log)| == k && h.processed + h.seen !in s.device.written)
  }

  lemma ProcessServes(cfg: Config, s: State)
    requires Inv(cfg, s) && Shape(cfg, s) && s.host.processed in s.device.written && HasHandler(cfg, s.host, s.slots)
    ensures ServedNext(s, ProcessOne(cfg, s.host, s.slots))
  {
    hide Inv, HasHandler, NextLength, Reached, ExecuteNext, Execs, Arrived;
    WaitReaches(cfg, s);
    ExecuteAddsOne(cfg, s.host, s.slots);
  }

  lemma TurnServes(cfg: Config, s: State)
    requires Inv(cfg, s) && Shape(cfg, s)
    ensures Inv(cfg, s.(host := Turn(cfg, s.host, s.slots)))
    ensures ServedNext(s, Turn(cfg, s.host, s.slots))
  {
    hide Inv, Idle, HasHandler, ProcessOne, ServedNext;
    if Idle(cfg, s.host, s.slots) {
      IdleIsUnwritten(cfg, s);
    } else {
      BegunIsWritten(cfg, s);
      ArrivedHasHandler(cfg, s);
      ProcessServes(cfg, s);
      ProcessKeepsInv(cfg, s);
    }
  }

  lemma ArrivedHasHandler(cfg: Config, s: State)
    requires Inv(cfg, s) && Shape(cfg, s) && s.host.processed in s.device.written
    ensures HasHandler(cfg, s.host, s.slots)
  {
    hide Inv, ChannelInv, Encode, HostLength, Execs;
    InvIsChannelInv(cfg, s);
    InvPosition(cfg, s);
    LengthIsRead(cfg, s);
  }

  lemma InvPosition(cfg: Config, s: State)
    requires Inv(cfg, s)
    ensures AllLegal(s.device.issued) && PositionOk(s.device.issued, s.host)
  {
    hide Execs, Start;
  }

  /** Without a flag the next request has no entry. */
  lemma IdleIsUnwritten(cfg: Config, s: State)
    requires Inv(cfg, s) && Shape(cfg, s) && Idle(cfg, s.host, s.slots)
    ensures ServedNext(s, s.host)
  {
    hide Inv, ChannelInv, Encode, Start, FlagSet, Execs;
    InvIsChannelInv(cfg, s);
    InvPosition(cfg, s);
    Freshness(cfg, s, s.host.processed);
    var k := |Execs(s.host.log)|;
    if k < |s.device.issued| {
      StartNext(s.device.issued, k);
      assert Start(s.device.issued, k) < Start(s.device.issued, k + 1);
    }
  }

  lemma BegunIsWritten(cfg: Config, s: State)
    requires Inv(cfg, s) && Shape(cfg, s) && !Idle(cfg, s.host, s.slots)
    ensures s.host.processed in s.device.written
  {
    hide Inv, ChannelInv, FlagSet;
    InvIsChannelInv(cfg, s);
    SeenAreWritten(cfg, s);
    if s.host.seen == 0 {
      SeenIsWritten(cfg, s);
    }
  }

  lemma ExecuteAddsOne(cfg: Config, h: Host, slots: seq<int>)
    requires cfg.n > 0 && |slots| == cfg.n && HasHandler(cfg, h, slots)
    ensures |Execs(ExecuteNext(cfg, h, slots).log)| == |Execs(h.log)| + 1
  {
    hide NextCommand, Perform, Execs, HasHandler;
    var (c, len) := NextCommand(cfg, h, slots);
    PerformLog(cfg, h, c, len);
  }

  // ---------------------------------------------------------------------------------------------
  // A poll

  /**
   From s, m turns executed the lesser of m and the number of requests that have arrived; with turns to
   spare the host waits at the first entry that is missing.
   */
  ghost predicate Polled(s: State, m: nat, h: Host)
    requires AllLegal(s.device.issued) && |Execs(s.host.log)| <= |s.device.issued|
  {
    var k := |Execs(s.host.log)|;
    var ready := Ready(s.device.issued, s.device.written, k);
    && |Execs(h.log)| == k + Min(m, ready)
    && (m > ready ==> h.processed + h.seen !in s.device.written)
  }

  lemma PolledOnce(s: State, m: nat, g: Host, h: Host)
    requires AllLegal(s.device.issued) && |Execs(s.host.log)| <= |s.device.issued|
    requires Polled(s, m, g) && ServedNext(s.(host := g), h)
    ensures Polled(s, m + 1, h)
  {
    hide Arrived, Execs, Ready;
    ReadyIs(s.device.issued, s.device.written, |Execs(s.host.log)|);
  }

  lemma {:induction false} PollExecutes(cfg: Config, s: State, m: nat)
    requires Inv(cfg, s) && Shape(cfg, s)
    ensures Inv(cfg, s.(host := Turns(cfg, s.host, s.slots, m)))
    ensures |Execs(s.host.log)| <= |s.device.issued| && Polled(s, m, Turns(cfg, s.host, s.slots, m))
  {
    hide Inv, Turn, Execs, ServedNext;
    InvPosition(cfg, s);
    if m > 0 {
      hide Polled;
      PollExecutes(cfg, s, m - 1);
      var g := Turns(cfg, s.host, s.slots, m - 1);
      TurnServes(cfg, s.(host := g));
      PolledOnce(s, m - 1, g, Turn(cfg, g, s.slots));
    }
  }

  /** In every run of the thread, a poll executes what has arrived as far as its batch goes. */
  lemma PollServes(cfg: Config, states: seq<State>, actions: seq<Action>, i: nat)
    requires ThreadRun(cfg, states, actions) && i < |actions| && actions[i].Poll?
    ensures var s, t := states[i], states[i + 1];
      && AllLegal(s.device.issued) && |Execs(s.host.log)| <= |s.device.issued| && t.device == s.device
      && Polled(s, actions[i].batchMax, t.host) && Execs(s.host.log) <= Execs(t.host.log)
  {
    hide Inv, Execs, Ready, Turns;
    var s, t, j := states[i], states[i + 1], i + 1;
    var run := ThreadRunIsRun(cfg, states, actions, i);
    assert Acts(cfg, states[i], actions[i], states[j]);
    InvPosition(cfg, s);
    PollExecutes(cfg, s, actions[i].batchMax);
    SameOrder(cfg, s, t);
  }

  /** What was executed stays executed. */
  lemma SameOrder(cfg: Config, s: State, t: State)
    requires Inv(cfg, s) && Inv(cfg, t) && t.device.issued == s.device.issued
    requires |Execs(s.host.log)| <= |Execs(t.host.log)|
    ensures Execs(s.host.log) <= Execs(t.host.log)
  {
    hide Execs, Decoded, Stream;
    InvIsChannelInv(cfg, s);
    InvIsChannelInv(cfg, t);
  }

  // ---------------------------------------------------------------------------------------------
  // Everything is served

  ghost predicate AllWritten(s: State)
    requires AllLegal(s.device.issued)
  {
    forall k :: 0 <= k < |s.device.issued| ==> Arrived(s.device.issued, s.device.written, k)
  }

  ghost predicate AllExecuted(s: State) {
    |Execs(s.host.log)| == |s.device.issued|
  }

  /** How many more quiet calls are needed once everything is executed. */
  function QuietsLeft(s: State): nat {
    if s.host.quietAck == s.device.quietIssue then 0
    else if s.host.quiet != Inactive && s.host.lastQuietIssue != s.device.quietIssue then 2
    else 1
  }

  /** A quiet call leaves one fewer to make, and a poll no more. */
  predicate Nearer(s: State, a: Action, t: State) {
    QuietsLeft(t) <= if a.Quiet? && QuietsLeft(s) > 0 then QuietsLeft(s) - 1 else QuietsLeft(s)
  }

  lemma AllReady(s: State)
    requires AllLegal(s.device.issued) && AllWritten(s) && |Execs(s.host.log)| <= |s.device.issued|
    ensures var k := |Execs(s.host.log)|; Ready(s.device.issued, s.device.written, k) == |s.device.issued| - k
  {
    hide Arrived, Execs;
    ReadyIs(s.device.issued, s.device.written, |Execs(s.host.log)|);
  }

  /** A quiet call executes nothing. */
  lemma QuietCallExecutesNothing(cfg: Config, h: Host, quietIssue: int)
    ensures Execs(QuietCall(cfg, h, quietIssue).log) == Execs(h.log)
  {
    hide Execs, Quiets;
    var g := TestQuiet(CheckQuiet(h, quietIssue));
    if g.quiet == Done {
      var more := DrainEvents(cfg, g.issuedGet, g.lastQuietIssue);
      DrainEventsFacts(cfg, h.log, g.issuedGet, g.lastQuietIssue);
      NoExecs(more);
      ExecsAppend(h.log, more);
      assert QuietCall(cfg, h, quietIssue).log == h.log + more;
    }
  }

  /** Once everything is executed, each quiet call comes one nearer to the last ack. */
  lemma QuietCallServes(cfg: Config, s: State)
    requires Inv(cfg, s) && Shape(cfg, s) && AllExecuted(s)
    ensures var t := s.(host := QuietCall(cfg, s.host, s.device.quietIssue));
      Nearer(s, Quiet, t)
  {
    hide Quiets, ChannelInv, AcksEarned, GetsOk, QpQuietsFlush, PublishingOk, Execs;
    AllExecutedIsEnd(cfg, s);
  }

  lemma AllExecutedIsEnd(cfg: Config, s: State)
    requires Inv(cfg, s) && AllExecuted(s)
    ensures AllLegal(s.device.issued) && s.host.processed == |Stream(s.device.issued)| && s.host.seen == 0
  {
    hide Execs, Stream;
    InvPosition(cfg, s);
    assert s.device.issued[..|s.device.issued|] == s.device.issued;
  }

  /** What a call of the thread does to a channel with everything written. */
  lemma CallServes(cfg: Config, s: State, a: Action, t: State)
    requires Inv(cfg, s) && AllLegal(s.device.issued) && AllWritten(s) && Acts(cfg, s, a, t) && !a.Device?
    ensures t.device == s.device && |Execs(s.host.log)| <= |s.device.issued|
    ensures |Execs(t.host.log)| ==
      if a.Poll? then Min(|Execs(s.host.log)| + a.batchMax, |s.device.issued|) else |Execs(s.host.log)|
    ensures AllExecuted(s) ==> Nearer(s, a, t)
  {
    hide Inv, Turns, QuietCall, Execs, AllWritten, Ready;
    InvPosition(cfg, s);
    if a.Poll? {
      AllReady(s);
      PollExecutes(cfg, s, a.batchMax);
      if AllExecuted(s) {
        EndStays(cfg, s, a.batchMax);
      }
    } else {
      QuietCallExecutesNothing(cfg, s.host, s.device.quietIssue);
      if AllExecuted(s) {
        QuietCallServes(cfg, s);
      }
    }
  }

  /** With nothing left to execute a poll changes nothing. */
  lemma EndStays(cfg: Config, s: State, m: nat)
    requires Inv(cfg, s) && Shape(cfg, s) && AllExecuted(s)
    ensures Turns(cfg, s.host, s.slots, m) == s.host
  {
    hide Inv, Turn;
    EndIsIdle(cfg, s);
    assert Turns(cfg, s.host, s.slots, 0) == s.host;
    assert Turn(cfg, s.host, s.slots) == s.host by {
      IdleTurn(cfg, s);
    }
    TurnsFixed(cfg, s.host, s.slots, 0, m);
  }

  lemma IdleTurn(cfg: Config, s: State)
    requires Shape(cfg, s) && Idle(cfg, s.host, s.slots)
    ensures Turn(cfg, s.host, s.slots) == s.host
  {
  }

  lemma EndIsIdle(cfg: Config, s: State)
    requires Inv(cfg, s) && Shape(cfg, s) && AllExecuted(s)
    ensures Idle(cfg, s.host, s.slots)
  {
    hide Inv, Execs, FlagSet;
    AllExecutedIsEnd(cfg, s);
    if FlagSet(cfg, s.slots, s.host.processed) {
      FlaggedIsIssued(cfg, s);
    }
  }

  lemma FlaggedIsIssued(cfg: Config, s: State)
    requires Inv(cfg, s) && Shape(cfg, s) && s.host.seen == 0 && FlagSet(cfg, s.slots, s.host.processed)
    ensures |Execs(s.host.log)| < |s.device.issued|
  {
    hide Inv, ChannelInv, FlagSet, Execs, Encode;
    InvIsChannelInv(cfg, s);
    SeenIsWritten(cfg, s);
    LengthIsRead(cfg, s);
  }

  /** The turns of all polls, and the number of quiet calls. */
  function PollTurns(actions: seq<Action>): nat
    decreases |actions|
  {
    if actions == [] then 0
    else
      var a := actions[|actions| - 1];
      PollTurns(actions[..|actions| - 1]) + if a.Poll? then a.batchMax else 0
  }

  function QuietCalls(actions: seq<Action>): nat
    decreases |actions|
  {
    if actions == [] then 0
    else QuietCalls(actions[..|actions| - 1]) + if actions[|actions| - 1].Quiet? then 1 else 0
  }

  /** From the state at i on, with everything written, only the thread acts. */
  ghost predicate ThreadOnly(cfg: Config, states: seq<State>, actions: seq<Action>, i: nat) {
    && ThreadRun(cfg, states, actions) && i < |states|
    && AllLegal(states[i].device.issued) && AllWritten(states[i])
    && forall j :: i <= j < |actions| ==> !actions[j].Device?
  }

  /** The call at j, as long as the device has not moved. */
  lemma CallAt(cfg: Config, states: seq<State>, actions: seq<Action>, i: nat, j: nat)
    requires ThreadOnly(cfg, states, actions, i) && i <= j < |actions| == |states| - 1
    requires states[j].device == states[i].device
    ensures states[j + 1].device == states[i].device && |Execs(states[j].host.log)| <= |states[i].device.issued|
    ensures |Execs(states[j + 1].host.log)| ==
      if actions[j].Poll? then Min(|Execs(states[j].host.log)| + actions[j].batchMax, |states[i].device.issued|)
      else |Execs(states[j].host.log)|
    ensures AllExecuted(states[j]) ==> Nearer(states[j], actions[j], states[j + 1])
  {
    hide Inv, Execs, AllWritten, Acts, QuietsLeft;
    var run := ThreadRunIsRun(cfg, states, actions, j);
    var next := j + 1;
    assert Acts(cfg, states[j], actions[j], states[next]);
    SameWritten(states[i], states[j]);
    CallServes(cfg, states[j], actions[j], states[next]);
  }

  lemma SameWritten(s: State, t: State)
    requires AllLegal(s.device.issued) && AllWritten(s) && t.device == s.device
    ensures AllWritten(t)
  {
  }

  lemma ThreadFacts(cfg: Config, states: seq<State>, actions: seq<Action>, i: nat)
    requires ThreadRun(cfg, states, actions) && i < |states|
    ensures Inv(cfg, states[i]) && AllLegal(states[i].device.issued)
    ensures |Execs(states[i].host.log)| <= |states[i].device.issued|
  {
    hide Inv, Execs;
    var run := ThreadRunIsRun(cfg, states, actions, i);
    InvPosition(cfg, states[i]);
  }

  /** The polls execute one request per turn until all are executed. */
  lemma {:induction false} PollsExecute(cfg: Config, states: seq<State>, actions: seq<Action>, i: nat, j: nat)
    requires ThreadOnly(cfg, states, actions, i) && i <= j < |states| == |actions| + 1
    ensures states[j].device == states[i].device && |Execs(states[i].host.log)| <= |states[i].device.issued|
    ensures |Execs(states[j].host.log)| ==
      Min(|Execs(states[i].host.log)| + PollTurns(actions[i..j]), |states[i].device.issued|)
  {
    hide Inv, Execs, ThreadRun, AllWritten;
    ThreadFacts(cfg, states, actions, i);
    if i < j {
      hide ThreadOnly;
      PollsExecute(cfg, states, actions, i, j - 1);
      CallAt(cfg, states, actions, i, j - 1);
      assert actions[i..j][..j - 1 - i] == actions[i..j - 1];
    } else {
      assert actions[i..j] == [];
    }
  }

  /** Then the quiet calls ack the last quiet, the second at the latest. */
  lemma {:induction false} QuietsFinish(cfg: Config, states: seq<State>, actions: seq<Action>, i: nat, j: nat, m: nat)
    requires ThreadOnly(cfg, states, actions, i) && i <= j <= m < |states| == |actions| + 1
    requires AllExecuted(states[j])
    ensures AllExecuted(states[m]) && states[m].device == states[i].device
    ensures QuietsLeft(states[m]) + Min(2, QuietCalls(actions[j..m])) <= 2
  {
    hide Inv, Execs, ThreadOnly;
    PollsExecute(cfg, states, actions, i, j);
    if j < m {
      QuietsFinish(cfg, states, actions, i, j, m - 1);
      CallAt(cfg, states, actions, i, m - 1);
      assert actions[j..m][..m - 1 - j] == actions[j..m - 1];
    } else {
      assert actions[j..m] == [];
    }
  }

  /** Everything is executed and nothing is left to ack. */
  lemma AllServed(cfg: Config, s: State)
    requires Inv(cfg, s) && AllExecuted(s) && QuietsLeft(s) == 0
    ensures AllLegal(s.device.issued) && AllDone(s)
  {
    hide Inv, Execs;
    AllExecutedIsEnd(cfg, s);
  }

  /**
   In every run of the thread, from any state in which everything issued is written: polls with at
   least as many turns as requests are left, and then two quiet calls, among any other polls and quiet
   calls, execute every request and ack every quiet.
   */
  lemma ThreadDrains(cfg: Config, states: seq<State>, actions: seq<Action>, i: nat, j: nat)
    requires ThreadOnly(cfg, states, actions, i) && i <= j < |states| == |actions| + 1
    requires PollTurns(actions[i..j]) >= |states[i].device.issued| - |Execs(states[i].host.log)|
    requires QuietCalls(actions[j..]) >= 2
    ensures var t := states[|states| - 1]; t.device == states[i].device && AllLegal(t.device.issued) && AllDone(t)
  {
    hide Inv, Execs, AllWritten, ThreadRun, PollTurns, QuietCalls, AllDone, QuietsLeft;
    var last := |states| - 1;
    PollsExecute(cfg, states, actions, i, j);
    assert actions[j..last] == actions[j..];
    QuietsFinish(cfg, states, actions, i, j, last);
    ThreadFacts(cfg, states, actions, last);
    AllServed(cfg, states[last]);
  }

  /** And such calls are always possible: three are enough. */
  lemma ThreadCanFinish(cfg: Config, states: seq<State>, actions: seq<Action>)
    returns (states': seq<State>, actions': seq<Action>)
    requires ThreadRun(cfg, states, actions) && |states| == |actions| + 1
    requires AllLegal(states[|states| - 1].device.issued) && AllWritten(states[|states| - 1])
    ensures ThreadRun(cfg, states', actions') && |actions'| == |actions| + 3 && |states'| == |states| + 3
    ensures states < states' && actions < actions' && forall k :: |actions| <= k < |actions'| ==> !actions'[k].Device?
    ensures var t := states'[|states'| - 1];
      t.device == states[|states| - 1].device && AllLegal(t.device.issued) && AllDone(t)
  {
    hide Inv, Execs, AllWritten, ThreadRun, AllDone, QuietsLeft, Min;
    var i, s := |actions|, states[|states| - 1];
    ThreadFacts(cfg, states, actions, i);
    InvSeenOk(cfg, s);
    var m := |s.device.issued| - |Execs(s.host.log)|;
    states', actions' := ThreadExtend(cfg, states, actions, Poll(m));
    assert actions'[i..i + 1] == [Poll(m)];
    assert PollTurns([Poll(m)]) == m;
    PollThenReady(cfg, states', actions', i, m);
    states', actions' := ThreadExtend(cfg, states', actions', Quiet);
    QuietsFinish(cfg, states', actions', i, i + 1, i + 2);
    ExecutedCanQuiet(cfg, states', actions', i + 2);
    states', actions' := ThreadExtend(cfg, states', actions', Quiet);
    assert actions'[i + 1..] == [Quiet, Quiet] && actions'[i..i + 1] == [Poll(m)];
    assert QuietCalls([Quiet, Quiet]) == 2 by {
      assert [Quiet, Quiet][..1] == [Quiet];
    }
    ThreadDrains(cfg, states', actions', i, i + 1);
  }

  /** Once everything is executed the host is between requests, so quiet can be progressed. */
  lemma ExecutedCanQuiet(cfg: Config, states: seq<State>, actions: seq<Action>, i: nat)
    requires ThreadRun(cfg, states, actions) && i < |states| && AllExecuted(states[i])
    ensures Shape(cfg, states[i]) && Possible(cfg, states[i], Quiet)
  {
    hide Inv, Execs;
    ThreadFacts(cfg, states, actions, i);
    InvSeenOk(cfg, states[i]);
    AllExecutedIsEnd(cfg, states[i]);
  }

  lemma PollThenReady(cfg: Config, states: seq<State>, actions: seq<Action>, i: nat, m: nat)
    requires ThreadOnly(cfg, states, actions, i) && i + 1 < |states| == |actions| + 1
    requires actions[i] == Poll(m) && m >= |states[i].device.issued| - |Execs(states[i].host.log)|
    ensures AllExecuted(states[i + 1]) && Shape(cfg, states[i + 1]) && Possible(cfg, states[i + 1], Quiet)
    ensures states[i + 1].device == states[i].device
  {
    hide Inv, Execs, AllWritten, ThreadRun, Possible;
    CallAt(cfg, states, actions, i, i);
    ExecutedCanQuiet(cfg, states, actions, i + 1);
  }

  lemma ThreadExtend(cfg: Config, states: seq<State>, actions: seq<Action>, a: Action)
    returns (states': seq<State>, actions': seq<Action>)
    requires ThreadRun(cfg, states, actions) && !a.Device?
    requires Shape(cfg, states[|states| - 1]) && Possible(cfg, states[|states| - 1], a)
    ensures ThreadRun(cfg, states', actions') && actions' == actions + [a]
    ensures |states'| == |states| + 1 == |actions'| + 1 && states < states'
  {
    hide Turns, QuietCall;
    var s := states[|states| - 1];
    var h := if a.Poll? then Turns(cfg, s.host, s.slots, a.batchMax) else QuietCall(cfg, s.host, s.device.quietIssue);
    states', actions' := states + [s.(host := h)], actions + [a];
    forall i, j | 0 <= i < j < |states'| && j == i + 1
      ensures Acts(cfg, states'[i], actions'[i], states'[j])
    {
      if j < |states| {
        assert Acts(cfg, states[i], actions[i], states[j]);
      }
    }
  }
}
