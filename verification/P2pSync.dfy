/**
 The on-stream synchronisation of a team: every PE writes its round number into its own slot on
 every other PE and waits until every slot of its own holds at least that number.  Slots are never
 reset.  Each PE's stream executes the operations queued for it one by one; streams of different PEs
 interleave in any way.

 The operations name peers by team rank, but the write addresses its target through a PE number.
 `team[r]` is the PE number of rank r; the model keeps the two apart, and the proofs say what follows.
 */
module P2pSync {

  /** Write(i, v): set my slot on PE i to v.  Wait(i, v): wait until rank i's slot here is at least v. */
  datatype Op = Write(i: nat, v: int) | Wait(i: nat, v: int)

  function Writes(n: nat, me: nat, v: int): seq<Op> {
    if n == 0 then [] else Writes(n - 1, me, v) + if n - 1 == me then [] else [Write(n - 1, v)]
  }

  function Waits(n: nat, me: nat, v: int): seq<Op> {
    if n == 0 then [] else Waits(n - 1, me, v) + if n - 1 == me then [] else [Wait(n - 1, v)]
  }

  function SyncOps(n: nat, me: nat, v: int): seq<Op> {
    Writes(n, me, v) + Waits(n, me, v)
  }

  /** The host side: count the round and queue its operations. */
  method Enqueue(size: nat, me: nat, count: int) returns (count': int, ops: seq<Op>)
    ensures count' == count + 1 && ops == SyncOps(size, me, count')
  {
    count' := count + 1;
    ops := [];
    for i := 0 to size
      invariant ops == Writes(i, me, count')
    {
      if i != me {
        ops := ops + [Write(i, count')];
      }
    }
    for i := 0 to size
      invariant ops == Writes(size, me, count') + Waits(i, me, count')
    {
      if i != me {
        ops := ops + [Wait(i, count')];
      }
    }
  }

  /**
   By rank: count[r], the rounds r has begun, and todo[r], the operations of its current round still
   to execute.  By PE number and rank: slot[pe][r].
   */
  datatype State = State(count: seq<int>, todo: seq<seq<Op>>, slot: seq<seq<int>>)

  /** A team: any PE numbers, in any order. */
  ghost predicate ValidTeam(team: seq<nat>, npes: nat) {
    |team| <= npes && forall r :: 0 <= r < |team| ==> team[r] < npes
  }

  ghost predicate RanksArePes(team: seq<nat>) {
    forall r :: 0 <= r < |team| ==> team[r] == r
  }

  ghost predicate Shape(team: seq<nat>, s: State) {
    && |s.count| == |s.todo| == |team|
    && ValidTeam(team, |s.slot|)
    && (forall e :: 0 <= e < |s.slot| ==> |s.slot[e]| == |team|)
    && (forall p, k :: 0 <= p < |team| && 0 <= k < |s.todo[p]| ==> s.todo[p][k].i < |team|)
  }

  ghost predicate Init(team: seq<nat>, s: State) {
    && Shape(team, s)
    && (forall p :: 0 <= p < |team| ==> s.count[p] == 0 && s.todo[p] == [])
    && (forall e, r :: 0 <= e < |s.slot| && 0 <= r < |team| ==> s.slot[e][r] == 0)
  }

  ghost predicate CanExecute(team: seq<nat>, s: State, p: nat)
    requires Shape(team, s)
  {
    && p < |team|
    && s.todo[p] != []
    && (s.todo[p][0].Write? || s.slot[team[p]][s.todo[p][0].i] >= s.todo[p][0].v)
  }

  ghost function Execute(team: seq<nat>, s: State, p: nat): (t: State)
    requires Shape(team, s) && CanExecute(team, s, p)
    ensures Shape(team, t)
  {
    var t, op := s.(todo := s.todo[p := s.todo[p][1..]]), s.todo[p][0];
    if op.Write? then t.(slot := s.slot[op.i := s.slot[op.i][p := op.v]]) else t
  }

  ghost predicate CanBegin(team: seq<nat>, s: State, p: nat)
    requires Shape(team, s)
  {
    p < |team| && s.todo[p] == []
  }

  ghost function Begin(team: seq<nat>, s: State, p: nat): State
    requires Shape(team, s) && CanBegin(team, s, p)
  {
    s.(count := s.count[p := s.count[p] + 1],
       todo := s.todo[p := SyncOps(|team|, p, s.count[p] + 1)])
  }

  ghost predicate Next(team: seq<nat>, s: State, t: State) {
    && Shape(team, s)
    && ((exists p :: CanExecute(team, s, p) && t == Execute(team, s, p))
        || (exists p :: CanBegin(team, s, p) && t == Begin(team, s, p)))
  }

  ghost predicate Run(team: seq<nat>, run: seq<State>) {
    && run != []
    && Init(team, run[0])
    && forall i :: 0 <= i < |run| - 1 ==> Next(team, run[i], run[i + 1])
  }

  ghost function Last(run: seq<State>): State
    requires run != []
  {
    run[|run| - 1]
  }

  /** The number of rounds p has completed. */
  ghost function Completed(s: State, p: nat): int
    requires p < |s.count| && p < |s.todo|
  {
    s.count[p] - if s.todo[p] == [] then 0 else 1
  }

  // ---------------------------------------------------------------------------------------------
  // Safety

  /** Operations of one round, in the order they are queued: each at most once, writes first. */
  ghost predicate Ordered(n: nat, me: nat, v: int, ops: seq<Op>) {
    && (forall k :: 0 <= k < |ops| ==> ops[k].i < n && ops[k].i != me && ops[k].v == v)
    && (forall j, k :: 0 <= j < k < |ops| ==> ops[j] != ops[k] && (ops[k].Write? ==> ops[j].Write?))
  }

  /** One more operation, for the next rank, of the same kind as those before it. */
  lemma OrderedSnoc(n: nat, me: nat, v: int, ops: seq<Op>, op: Op)
    requires Ordered(n, me, v, ops) && op.i == n != me && op.v == v
    requires forall k :: 0 <= k < |ops| ==> ops[k].Write? == op.Write?
    ensures Ordered(n + 1, me, v, ops + [op])
  {
  }

  lemma OrderedMore(n: nat, me: nat, v: int, ops: seq<Op>)
    requires Ordered(n, me, v, ops)
    ensures Ordered(n + 1, me, v, ops)
  {
  }

  lemma OrderedTail(n: nat, me: nat, v: int, ops: seq<Op>)
    requires Ordered(n, me, v, ops) && ops != []
    ensures Ordered(n, me, v, ops[1..]) && ops[0].i < n && ops[0].i != me && ops[0].v == v
  {
  }

  lemma {:induction false} WriteQueued(n: nat, me: nat, v: int, i: nat)
    requires i < n && i != me
    ensures Write(i, v) in Writes(n, me, v)
  {
    if i < n - 1 {
      WriteQueued(n - 1, me, v, i);
    }
  }

  lemma {:induction false} WritesOrdered(n: nat, me: nat, v: int)
    ensures Ordered(n, me, v, Writes(n, me, v))
    ensures forall k :: 0 <= k < |Writes(n, me, v)| ==> Writes(n, me, v)[k].Write?
  {
    if n > 0 {
      hide Ordered;
      WritesOrdered(n - 1, me, v);
      if n - 1 == me {
        OrderedMore(n - 1, me, v, Writes(n - 1, me, v));
      } else {
        OrderedSnoc(n - 1, me, v, Writes(n - 1, me, v), Write(n - 1, v));
      }
    }
  }

  lemma {:induction false} WaitQueued(n: nat, me: nat, v: int, i: nat)
    requires i < n && i != me
    ensures Wait(i, v) in Waits(n, me, v)
  {
    if i < n - 1 {
      WaitQueued(n - 1, me, v, i);
    }
  }

  lemma {:induction false} WaitsOrdered(n: nat, me: nat, v: int)
    ensures Ordered(n, me, v, Waits(n, me, v))
    ensures forall k :: 0 <= k < |Waits(n, me, v)| ==> Waits(n, me, v)[k].Wait?
  {
    if n > 0 {
      hide Ordered;
      WaitsOrdered(n - 1, me, v);
      if n - 1 == me {
        OrderedMore(n - 1, me, v, Waits(n - 1, me, v));
      } else {
        OrderedSnoc(n - 1, me, v, Waits(n - 1, me, v), Wait(n - 1, v));
      }
    }
  }

  /** A round queues a write to and a wait for every other rank, writes first. */
  lemma SyncOpsFacts(n: nat, me: nat, v: int)
    ensures Ordered(n, me, v, SyncOps(n, me, v))
    ensures forall i :: 0 <= i < n && i != me ==> Write(i, v) in SyncOps(n, me, v) && Wait(i, v) in SyncOps(n, me, v)
  {
    WritesOrdered(n, me, v);
    WaitsOrdered(n, me, v);
    forall i | 0 <= i < n && i != me
      ensures Write(i, v) in SyncOps(n, me, v) && Wait(i, v) in SyncOps(n, me, v)
    {
      WriteQueued(n, me, v, i);
      WaitQueued(n, me, v, i);
    }
  }

  ghost predicate PairOk(team: seq<nat>, s: State, p: nat, q: nat)
    requires Shape(team, s) && p < |team| && q < |team|
  {
    // q's slot for p holds the last round p has told q about
    && s.slot[q][p] == s.count[p] - (if Write(q, s.count[p]) in s.todo[p] then 1 else 0)
    // p gets past its wait for q only when q has begun the same round
    && s.count[q] >= s.count[p] - (if Wait(q, s.count[p]) in s.todo[p] then 1 else 0)
  }

  ghost predicate Inv(team: seq<nat>, s: State) {
    && Shape(team, s)
    && (forall p :: 0 <= p < |team| ==> Ordered(|team|, p, s.count[p], s.todo[p]))
    && (forall p, q :: 0 <= p < |team| && 0 <= q < |team| && p != q ==> PairOk(team, s, p, q))
  }

  lemma BeginFacts(team: seq<nat>, s: State, p: nat)
    requires Shape(team, s) && CanBegin(team, s, p)
    ensures var t := Begin(team, s, p);
      && Shape(team, t)
      && Ordered(|team|, p, t.count[p], t.todo[p])
      && forall q :: 0 <= q < |team| && q != p ==>
           Write(q, t.count[p]) in t.todo[p] && Wait(q, t.count[p]) in t.todo[p]
  {
    hide SyncOps;
    SyncOpsFacts(|team|, p, s.count[p] + 1);
    assert Ordered(|team|, p, s.count[p] + 1, SyncOps(|team|, p, s.count[p] + 1));
  }

  lemma BeginKeepsInv(team: seq<nat>, s: State, p: nat)
    requires Inv(team, s) && CanBegin(team, s, p)
    ensures Inv(team, Begin(team, s, p))
  {
    var t := Begin(team, s, p);
    BeginFacts(team, s, p);
    forall a, b | 0 <= a < |team| && 0 <= b < |team| && a != b
      ensures PairOk(team, t, a, b)
    {
      assert PairOk(team, s, a, b);
    }
  }

  lemma ExecuteKeepsPair(team: seq<nat>, s: State, p: nat, a: nat, b: nat)
    requires RanksArePes(team) && Shape(team, s) && CanExecute(team, s, p)
    requires Ordered(|team|, p, s.count[p], s.todo[p])
    requires a < |team| && b < |team| && a != b && PairOk(team, s, a, b) && PairOk(team, s, b, a)
    ensures PairOk(team, Execute(team, s, p), a, b)
  {
    var t, op := Execute(team, s, p), s.todo[p][0];
    assert team[p] == p;
    if a == p {
      assert s.todo[p] == [op] + t.todo[p] && op !in t.todo[p];
    }
  }

  lemma ExecuteKeepsInv(team: seq<nat>, s: State, p: nat)
    requires RanksArePes(team) && Inv(team, s) && CanExecute(team, s, p)
    ensures Inv(team, Execute(team, s, p))
  {
    forall a, b | 0 <= a < |team| && 0 <= b < |team| && a != b
      ensures PairOk(team, Execute(team, s, p), a, b)
    {
      ExecuteKeepsPair(team, s, p, a, b);
    }
  }

  lemma NextKeepsInv(team: seq<nat>, s: State, t: State)
    requires RanksArePes(team) && Inv(team, s) && Next(team, s, t)
    ensures Inv(team, t)
  {
    if p :| CanExecute(team, s, p) && t == Execute(team, s, p) {
      ExecuteKeepsInv(team, s, p);
    } else {
      var p :| CanBegin(team, s, p) && t == Begin(team, s, p);
      BeginKeepsInv(team, s, p);
    }
  }

  lemma {:induction false} RunInv(team: seq<nat>, run: seq<State>, i: nat)
    requires RanksArePes(team) && Run(team, run) && i < |run|
    ensures Inv(team, run[i])
  {
    if i == 0 {
      assert forall p, q :: 0 <= p < |team| && 0 <= q < |team| ==> PairOk(team, run[0], p, q);
    } else {
      RunInv(team, run, i - 1);
      assert Next(team, run[i - 1], run[i - 1 + 1]);
      NextKeepsInv(team, run[i - 1], run[i]);
    }
  }

  /**
   The barrier, for any number of rounds: a PE has completed a round only when every PE has begun it,
   so the numbers of rounds two PEs have completed differ by at most one.
   */
  lemma Barrier(team: seq<nat>, run: seq<State>, i: nat, p: nat, q: nat)
    requires RanksArePes(team) && Run(team, run) && i < |run| && p < |team| && q < |team|
    ensures Shape(team, run[i])
    ensures Completed(run[i], p) <= run[i].count[q]
    ensures -1 <= Completed(run[i], p) - Completed(run[i], q) <= 1
  {
    RunInv(team, run, i);
    if p != q {
      assert PairOk(team, run[i], p, q) && PairOk(team, run[i], q, p);
    }
  }

  // ---------------------------------------------------------------------------------------------
  // Progress

  /** A PE in a round that every PE has begun is not stuck: it, or a PE it waits for, can execute. */
  lemma RoundProgresses(team: seq<nat>, s: State, p: nat) returns (q: nat)
    requires RanksArePes(team) && Inv(team, s) && p < |team| && s.todo[p] != []
    requires forall r :: 0 <= r < |team| ==> s.count[r] >= s.count[p]
    ensures CanExecute(team, s, q)
  {
    q := p;
    if !CanExecute(team, s, p) {
      q := s.todo[p][0].i;
      assert Ordered(|team|, p, s.count[p], s.todo[p]) && PairOk(team, s, q, p);
      var k :| 0 <= k < |s.todo[q]| && s.todo[q][k] == Write(p, s.count[q]);
      assert k > 0 ==> s.todo[q][0].Write?;
    }
  }

  ghost function Work(todo: seq<seq<Op>>): nat {
    if todo == [] then 0 else |todo[|todo| - 1]| + Work(todo[..|todo| - 1])
  }

  lemma {:induction false} ExecuteDoesWork(todo: seq<seq<Op>>, p: nat)
    requires p < |todo| && todo[p] != []
    ensures Work(todo[p := todo[p][1..]]) == Work(todo) - 1
  {
    var t := todo[p := todo[p][1..]];
    if p == |todo| - 1 {
      assert t[..|todo| - 1] == todo[..|todo| - 1];
    } else {
      ExecuteDoesWork(todo[..|todo| - 1], p);
      assert t[..|todo| - 1] == todo[..|todo| - 1][p := todo[p][1..]];
    }
  }

  lemma Extend(team: seq<nat>, run: seq<State>, t: State)
    requires Run(team, run) && Next(team, run[|run| - 1], t)
    ensures Run(team, run + [t])
  {
    var longer := run + [t];
    forall i | 0 <= i < |longer| - 1
      ensures Next(team, longer[i], longer[i + 1])
    {
      assert i < |run| - 1 ==> Next(team, run[i], run[i + 1]);
    }
  }

  ghost predicate AllBegun(team: seq<nat>, s: State, v: int) {
    Shape(team, s) && forall r :: 0 <= r < |team| ==> s.count[r] == v
  }

  ghost predicate AllCompleted(team: seq<nat>, s: State, v: int) {
    Shape(team, s) && forall r :: 0 <= r < |team| ==> Completed(s, r) == v
  }

  /** The first k ranks have begun round v + 1; the others have completed round v. */
  ghost predicate FirstBegun(team: seq<nat>, s: State, k: nat, v: int) {
    && Shape(team, s)
    && forall r :: 0 <= r < |team| ==>
         if r < k then s.count[r] == v + 1 else s.count[r] == v && s.todo[r] == []
  }

  /** States joined by the execution of queued operations. */
  ghost predicate Executing(team: seq<nat>, path: seq<State>) {
    && path != []
    && forall i, j :: 0 <= i < j < |path| && j == i + 1 ==> ExecutedTo(team, path[i], path[j])
  }

  ghost predicate ExecutedTo(team: seq<nat>, s: State, t: State) {
    Shape(team, s) && exists p :: CanExecute(team, s, p) && t == Execute(team, s, p)
  }

  lemma {:induction false} ExecutingFacts(team: seq<nat>, path: seq<State>, i: nat)
    requires RanksArePes(team) && Executing(team, path) && Inv(team, path[0]) && i < |path|
    ensures Inv(team, path[i]) && path[i].count == path[0].count
    ensures Work(path[i].todo) + i == Work(path[0].todo)
  {
    hide Inv, Work;
    if i > 0 {
      ExecutingFacts(team, path, i - 1);
      var s := path[i - 1];
      assert ExecutedTo(team, s, path[i]);
      var p :| CanExecute(team, s, p) && path[i] == Execute(team, s, p);
      ExecuteKeepsInv(team, s, p);
      ExecuteDoesWork(s.todo, p);
    }
  }

  /**
   Once every PE has begun a round, the streams execute what is queued in a bounded number of steps,
   and in whatever order they do, they can stop only when every PE has completed the round.
   */
  lemma RoundCompletes(team: seq<nat>, run: seq<State>, path: seq<State>, v: int)
    requires RanksArePes(team) && Run(team, run) && AllBegun(team, Last(run), v)
    requires Executing(team, path) && path[0] == Last(run)
    ensures |path| - 1 <= Work(Last(run).todo) && Shape(team, Last(path))
    ensures (forall p :: !CanExecute(team, Last(path), p)) ==>
      AllCompleted(team, Last(path), v) && FirstBegun(team, Last(path), 0, v)
  {
    RunInv(team, run, |run| - 1);
    ExecutingFacts(team, path, |path| - 1);
    var s := Last(path);
    if p :| 0 <= p < |team| && s.todo[p] != [] {
      var q := RoundProgresses(team, s, p);
    }
  }

  /** The operations of a round can be executed to the end. */
  lemma {:induction false} CompleteRound(team: seq<nat>, run: seq<State>, v: int) returns (longer: seq<State>)
    requires RanksArePes(team) && Run(team, run) && AllBegun(team, Last(run), v)
    ensures Run(team, longer) && run <= longer && FirstBegun(team, Last(longer), 0, v)
    decreases Work(Last(run).todo)
  {
    var s := Last(run);
    if p :| 0 <= p < |team| && s.todo[p] != [] {
      RunInv(team, run, |run| - 1);
      var q := RoundProgresses(team, s, p);
      var t := Execute(team, s, q);
      ExecuteDoesWork(s.todo, q);
      assert Next(team, s, t);
      Extend(team, run, t);
      longer := CompleteRound(team, run + [t], v);
    } else {
      longer := run;
    }
  }

  /** PEs that have all completed a round can all begin the next. */
  lemma {:induction false} AllCanBegin(team: seq<nat>, run: seq<State>, k: nat, v: int) returns (longer: seq<State>)
    requires Run(team, run) && k <= |team| && FirstBegun(team, Last(run), k, v)
    ensures Run(team, longer) && run <= longer && AllBegun(team, Last(longer), v + 1)
    decreases |team| - k
  {
    longer := run;
    if k < |team| {
      var s := Last(run);
      var t := Begin(team, s, k);
      BeginFacts(team, s, k);
      assert CanBegin(team, s, k) && Next(team, s, t);
      Extend(team, run, t);
      longer := AllCanBegin(team, run + [t], k + 1, v);
    }
  }

  // ---------------------------------------------------------------------------------------------
  // Teams whose ranks are not PE numbers

  /** A rank that the wait of rank r for it never ends on, when r is not on PE r. */
  ghost function Silent(team: seq<nat>, r: nat): nat
    requires r < |team|
  {
    if team[r] < |team| then team[r] else if r == 0 then 1 else 0
  }

  /**
   Rank r is not on PE r and has not completed a round: the slot of the silent rank on its PE is
   never written, since a rank writes to every PE of the team's size but the one of its own number.
   */
  ghost predicate Hangs(team: seq<nat>, s: State, r: nat)
    requires r < |team|
  {
    && Shape(team, s) && |team| >= 2 && team[r] != r
    && Silent(team, r) < |s.slot[team[r]]| && s.slot[team[r]][Silent(team, r)] == 0
    && (forall p :: 0 <= p < |team| ==> Ordered(|team|, p, s.count[p], s.todo[p]))
    && (s.count[r] == 0 || (s.count[r] == 1 && Wait(Silent(team, r), 1) in s.todo[r]))
  }

  lemma ExecuteKeepsHanging(team: seq<nat>, s: State, r: nat, p: nat)
    requires r < |team| && Hangs(team, s, r) && CanExecute(team, s, p)
    ensures Hangs(team, Execute(team, s, p), r)
  {
    hide Ordered;
    var t, op := Execute(team, s, p), s.todo[p][0];
    OrderedTail(|team|, p, s.count[p], s.todo[p]);
    assert s.todo[p] == [op] + t.todo[p];
  }

  lemma BeginKeepsHanging(team: seq<nat>, s: State, r: nat, p: nat)
    requires r < |team| && Hangs(team, s, r) && CanBegin(team, s, p)
    ensures Hangs(team, Begin(team, s, p), r)
  {
    BeginFacts(team, s, p);
  }

  /** On a team where rank r is not on PE r, rank r completes no round in any run. */
  lemma {:induction false} RunHangs(team: seq<nat>, run: seq<State>, i: nat, r: nat)
    requires |team| >= 2 && r < |team| && team[r] != r && Run(team, run) && i < |run|
    ensures Hangs(team, run[i], r) && Completed(run[i], r) <= 0
  {
    if i > 0 {
      RunHangs(team, run, i - 1, r);
      var s, t := run[i - 1], run[i];
      assert Next(team, s, run[i - 1 + 1]);
      if p :| CanExecute(team, s, p) && t == Execute(team, s, p) {
        ExecuteKeepsHanging(team, s, r, p);
      } else {
        var p :| CanBegin(team, s, p) && t == Begin(team, s, p);
        BeginKeepsHanging(team, s, r, p);
      }
    }
  }

  /** Every rank of the team can get through k rounds. */
  ghost predicate RoundsCanComplete(team: seq<nat>, k: nat) {
    exists run :: Run(team, run) && AllCompleted(team, Last(run), k)
  }

  lemma InitialRun(team: seq<nat>, npes: nat) returns (run: seq<State>)
    requires ValidTeam(team, npes)
    ensures Run(team, run) && FirstBegun(team, Last(run), 0, 0)
  {
    var row := seq(|team|, _ => 0);
    var s := State(row, seq(|team|, _ => []), seq(npes, _ => row));
    assert Init(team, s);
    run := [s];
  }

  /** With no one to wait for, a round is complete as soon as it begins. */
  lemma BeginAlone(team: seq<nat>, run: seq<State>, v: int) returns (longer: seq<State>)
    requires Run(team, run) && |team| == 1 && FirstBegun(team, Last(run), 0, v)
    ensures Run(team, longer) && FirstBegun(team, Last(longer), 0, v + 1)
  {
    var s := Last(run);
    var t := Begin(team, s, 0);
    assert Writes(0, 0, v + 1) == [] && Waits(0, 0, v + 1) == [] && SyncOps(1, 0, v + 1) == [];
    assert CanBegin(team, s, 0) && Next(team, s, t);
    Extend(team, run, t);
    longer := run + [t];
  }

  /** Any number of rounds can be completed, one after the other, with no slot ever reset. */
  lemma {:induction false} RoundsComplete(team: seq<nat>, npes: nat, k: nat) returns (run: seq<State>)
    requires ValidTeam(team, npes) && (RanksArePes(team) || |team| == 1)
    ensures Run(team, run) && FirstBegun(team, Last(run), 0, k) && AllCompleted(team, Last(run), k)
  {
    hide Run;
    if k == 0 {
      run := InitialRun(team, npes);
    } else {
      run := RoundsComplete(team, npes, k - 1);
      if |team| == 1 {
        run := BeginAlone(team, run, k - 1);
      } else {
        run := AllCanBegin(team, run, 0, k - 1);
        run := CompleteRound(team, run, k);
      }
    }
  }

  /**
   The synchronisation works on a team, for any number of rounds, exactly when every rank is on the
   PE of its own number or there is no one to wait for.
   */
  lemma WorksIffRanksArePes(team: seq<nat>, npes: nat)
    requires ValidTeam(team, npes)
    ensures (forall k: nat :: RoundsCanComplete(team, k)) <==> RanksArePes(team) || |team| == 1
  {
    if RanksArePes(team) || |team| == 1 {
      forall k: nat
        ensures RoundsCanComplete(team, k)
      {
        var run := RoundsComplete(team, npes, k);
      }
    } else {
      var r :| 0 <= r < |team| && team[r] != r;
      if RoundsCanComplete(team, 1) {
        var run :| Run(team, run) && AllCompleted(team, Last(run), 1);
        RunHangs(team, run, |run| - 1, r);
      }
    }
  }
}
