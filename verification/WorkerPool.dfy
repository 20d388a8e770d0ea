/** Workers that wait for queued items on a condition variable, as the message workers and the
    work thread of the asynchronous driver library do (lib/libasyncdriver/asyncdriver.c), under
    the scheduler of the thread library and next to any other activity. */
module WorkerPool {
  import opened CoroState
  import opened CoroInvariant
  import opened CoroThreads
  import opened CoroRuns
  import opened CoroFrame

  /** qm and qe are the event mutex and the event. A parked worker is inside the wait for an item.
      accepted lists all items ever queued, handed those given to a worker. limit is the capacity
      of the queue, 0 for none. */
  datatype Pool<T> = Pool(
    co: State, qm: nat, qe: nat, limit: nat, parked: seq<bool>, queue: seq<T>, accepted: seq<T>, handed: seq<T>)

  datatype Result = Done | Full | Slept | Failed

  ghost predicate Ids(p: Pool) {
    UserMutex(p.co, p.qm) && UserCond(p.co, p.qe) && Shape(p.co) && |p.parked| == |p.co.status|
  }

  /** A thread is parked exactly when it is suspended in the wait, and the mutex is only used
      there. */
  ghost predicate PoolLocal(p: Pool, t: nat)
    requires Ids(p) && t < |p.parked|
  {
    var d := p.co.doing[t];
    if p.parked[t] then d == Waiting(p.qe, p.qm)
    else d != Locking(p.qm) && (d.Waiting? ==> d.c != p.qe && d.mutex != p.qm)
  }

  /** The workers that were signalled and have not run since. */
  ghost function Signalled(p: Pool): set<nat>
    requires Ids(p)
  {
    set t: nat | t < |p.parked| && p.parked[t] && p.co.status[t] == Runnable
  }

  ghost predicate PoolInv(p: Pool) {
    && Ids(p) && Inv(p.co) && p.co.owner[p.qm] == Nil
    && (forall t :: 0 <= t < |p.parked| ==> PoolLocal(p, t))
    && (p.co.queues[p.qe] != [] ==> |p.queue| <= |Signalled(p)|)
    && p.accepted == p.handed + p.queue
    && (p.limit > 0 ==> |p.queue| <= p.limit)
  }

  // ---------------------------------------------------------------- the operations

  ghost function SignalUnder(s: State, qe: nat, qm: nat): (State, Code)
    requires Shape(s) && qm < |s.queues| && qe < |s.queues|
  {
    var (locked, code) := LockStep(s, qm);
    if code != Ok then (locked, code) else UnlockStep(SignalStep(locked, qe), qm)
  }

  /** enqueue and asyncdrv_enqueue_work: queue the item and signal one worker. */
  ghost function PutStep<T>(p: Pool<T>, x: T): (Pool<T>, Result)
    requires Ids(p)
  {
    if p.limit > 0 && |p.queue| >= p.limit then (p, Full)
    else
      var (co, code) := SignalUnder(p.co, p.qe, p.qm);
      (p.(co := co, queue := p.queue + [x], accepted := p.accepted + [x]), if code == Ok then Done else Failed)
  }

  /** The caller takes the oldest item. */
  ghost function Took<T>(p: Pool<T>): Pool<T>
    requires p.queue != []
  {
    p.(queue := p.queue[1..], handed := p.handed + [p.queue[0]])
  }

  /** The caller waits for an item. */
  ghost function SleepStep<T>(p: Pool<T>): (Pool<T>, Result)
    requires Ids(p)
  {
    var (locked, code) := LockStep(p.co, p.qm);
    if code != Ok then (p.(co := locked), Failed)
    else
      var (co, waited) := WaitStep(locked, p.qe, p.qm, Waiting(p.qe, p.qm));
      (p.(co := co, parked := p.parked[p.co.current := true]), if waited == Switched then Slept else Failed)
  }

  /** A worker looks for an item: the head of the worker loop. */
  ghost function PollStep<T>(p: Pool<T>): (Pool<T>, Result)
    requires Ids(p)
  {
    if p.queue != [] then (Took(p), Done) else SleepStep(p)
  }

  /** A scheduled worker leaves the wait and looks again. */
  ghost function WakeStep<T>(p: Pool<T>): (Pool<T>, Result)
    requires Ids(p) && Resumable(p.co)
  {
    var (co, code) := ResumeStep(p.co);
    if code != Ok then (p.(co := co), Failed)
    else
      var (left, released) := UnlockStep(co, p.qm);
      var awake := p.(co := left, parked := p.parked[p.co.current := false]);
      if released != Ok then (awake, Failed) else PollStep(awake)
  }

  ghost function Grown<T>(p: Pool<T>, co: State): Pool<T> {
    var more := if |co.status| > |p.parked| then |co.status| - |p.parked| else 0;
    p.(co := co, parked := p.parked + seq(more, _ => false))
  }

  // ---------------------------------------------------------------- taking and sleeping

  lemma TookInv<T>(p: Pool<T>)
    requires PoolInv(p) && p.queue != []
    ensures PoolInv(Took(p))
  {
    var r := Took(p);
    assert Signalled(r) == Signalled(p);
    forall t | 0 <= t < |r.parked| ensures PoolLocal(r, t) { assert PoolLocal(p, t); }
    assert p.queue == [p.queue[0]] + p.queue[1..];
  }

  lemma SleepInv<T>(p: Pool<T>)
    requires PoolInv(p) && p.queue == [] && p.co.current != MAIN && p.co.doing[p.co.current] == User
    ensures SleepStep(p).1 == Slept && PoolInv(SleepStep(p).0)
  {
    var r, t := SleepStep(p).0, p.co.current;
    TakeAndGive(p.co, p.qm);
    var asleep := Parked(p.co, p.qe, Blocked, Waiting(p.qe, p.qm));
    WaitBetween(p.co, p.qe, p.qm);
    ScheduleInv(asleep);
    ScheduleFrame(asleep, p.qm);
    assert r.co == Schedule(asleep);
    forall u | 0 <= u < |r.parked| ensures PoolLocal(r, u) { assert u != t ==> PoolLocal(p, u); }
  }

  lemma PollInv<T>(p: Pool<T>)
    requires PoolInv(p) && p.co.current != MAIN && p.co.doing[p.co.current] == User
    ensures PoolInv(PollStep(p).0) && PollStep(p).1 == if p.queue != [] then Done else Slept
  {
    if p.queue != [] { TookInv(p); } else { SleepInv(p); }
  }

  // ---------------------------------------------------------------- waking

  /** A scheduled worker gets the mutex at once. */
  lemma AwakeIs<T>(p: Pool<T>)
    requires PoolInv(p) && p.parked[p.co.current]
    ensures Resumable(p.co) && p.co.current != MAIN
    ensures var back := p.co.(doing := p.co.doing[p.co.current := User]);
      Inv(back) && ResumeStep(p.co).1 == Ok && UnlockStep(ResumeStep(p.co).0, p.qm) == (back, Ok)
  {
    assert PoolLocal(p, p.co.current) && Local(p.co, p.co.current);
    BackInv(p.co);
    TakeAndGive(p.co.(doing := p.co.doing[p.co.current := User]), p.qm);
  }

  ghost function Awake<T>(p: Pool<T>): Pool<T>
    requires Ids(p)
  {
    p.(co := p.co.(doing := p.co.doing[p.co.current := User]), parked := p.parked[p.co.current := false])
  }

  /** Leaving the wait costs one signalled worker, so it must take an item or find none. */
  lemma AwakeLocal<T>(p: Pool<T>)
    requires PoolInv(p) && p.parked[p.co.current]
    ensures var r := Awake(p);
      Ids(r) && Inv(r.co) && r.co.owner[r.qm] == Nil && (forall t :: 0 <= t < |r.parked| ==> PoolLocal(r, t))
    ensures Signalled(Awake(p)) == Signalled(p) - {p.co.current} && |Signalled(Awake(p))| == |Signalled(p)| - 1
  {
    AwakeIs(p);
    var r := Awake(p);
    forall t | 0 <= t < |r.parked| ensures PoolLocal(r, t) { assert PoolLocal(p, t); }
    assert p.co.current in Signalled(p);
    assert Signalled(r) == Signalled(p) - {p.co.current};
  }

  lemma WakeInv<T>(p: Pool<T>)
    requires PoolInv(p) && p.parked[p.co.current]
    ensures Resumable(p.co) && PoolInv(WakeStep(p).0) && WakeStep(p).1 == if p.queue != [] then Done else Slept
  {
    AwakeIs(p);
    AwakeLocal(p);
    var r := Awake(p);
    assert WakeStep(p) == PollStep(r);
    if p.queue == [] {
      SleepInv(r);
    } else {
      AwakeTakes(p);
    }
  }

  lemma AwakeTakes<T>(p: Pool<T>)
    requires PoolInv(p) && p.parked[p.co.current] && p.queue != []
    ensures PoolInv(Took(Awake(p)))
  {
    AwakeLocal(p);
    var r, v := Awake(p), Took(Awake(p));
    assert Signalled(v) == Signalled(r);
    forall t | 0 <= t < |v.parked| ensures PoolLocal(v, t) { assert PoolLocal(r, t); }
    assert p.queue == [p.queue[0]] + p.queue[1..];
  }

  // ---------------------------------------------------------------- queueing

  lemma SignalUnderIs(s: State, qe: nat, qm: nat)
    requires Inv(s) && UserMutex(s, qm) && UserCond(s, qe) && s.owner[qm] == Nil
    ensures SignalUnder(s, qe, qm) == (SignalStep(s, qe), Ok)
  {
    TakeAndGive(s, qm);
    SignalUnderMutex(s, qe, qm);
  }

  /** A signal adds one signalled worker if any is waiting. */
  lemma SignalledGrows<T>(p: Pool<T>)
    requires PoolInv(p)
    ensures var r := p.(co := SignalStep(p.co, p.qe));
      Ids(r) && (p.co.queues[p.qe] != [] ==> |Signalled(r)| == |Signalled(p)| + 1)
  {
    var r := p.(co := SignalStep(p.co, p.qe));
    if p.co.queues[p.qe] != [] {
      var h := p.co.queues[p.qe][0];
      assert h in p.co.queues[p.qe] && PoolLocal(p, h) && Local(p.co, h);
      assert Signalled(r) == Signalled(p) + {h};
    }
  }

  lemma PutInv<T>(p: Pool<T>, x: T)
    requires PoolInv(p)
    ensures PoolInv(PutStep(p, x).0) && PutStep(p, x).1 != Failed && PutStep(p, x).1 != Slept
    ensures PutStep(p, x).1 == Full <==> p.limit > 0 && |p.queue| == p.limit
  {
    if !(p.limit > 0 && |p.queue| >= p.limit) {
      SignalUnderIs(p.co, p.qe, p.qm);
      SignalInv(p.co, p.qe);
      SignalledGrows(p);
      var r := PutStep(p, x).0;
      assert r.co == SignalStep(p.co, p.qe);
      assert Signalled(r) == Signalled(p.(co := r.co));
      forall t | 0 <= t < |r.parked| ensures PoolLocal(r, t) { assert PoolLocal(p, t); }
    }
  }

  // ---------------------------------------------------------------- other steps

  /** The rest of the program leaves the event and its mutex to the pool. */
  ghost predicate MayStep(p: Pool, op: Op)
    requires Ids(p)
  {
    && Enabled(p.co, op) && !p.parked[p.co.current]
    && (op.OpTryLock? ==> op.m != p.qm) && (op.OpLock? ==> op.m != p.qm) && (op.OpUnlock? ==> op.m != p.qm)
    && (op.OpWait? ==> op.c != p.qe && op.mutex != p.qm)
    && (op.OpSignal? ==> op.c != p.qe) && (op.OpBroadcast? ==> op.c != p.qe)
  }

  lemma GrownLocal<T>(p: Pool<T>, op: Op, co: State, d: Doing, t: nat)
    requires PoolInv(p) && MayStep(p, op) && Inv(co) && SameAt(p.co, co, p.qm) && SameAt(p.co, co, p.qe)
    requires CallerDoing(p.co, op, d) && OnlyCaller(p.co, co, d) && t < |Grown(p, co).parked|
    ensures var r := Grown(p, co); Ids(r) && PoolLocal(r, t) && (t in Signalled(r) <==> t in Signalled(p))
  {
    assert PoolLocal(p, p.co.current);
    if t < |p.parked| {
      assert PoolLocal(p, t);
      if p.parked[t] {
        WaitingBlocked(p.co, t, p.qe, p.qm);
        WaitingBlocked(co, t, p.qe, p.qm);
        assert Local(p.co, t) && Local(co, t);
      }
    }
  }

  lemma GrownInv<T>(p: Pool<T>, op: Op, co: State, d: Doing)
    requires PoolInv(p) && MayStep(p, op) && Inv(co) && SameAt(p.co, co, p.qm) && SameAt(p.co, co, p.qe)
    requires CallerDoing(p.co, op, d) && OnlyCaller(p.co, co, d)
    ensures PoolInv(Grown(p, co))
  {
    var r := Grown(p, co);
    forall t: nat | t < |r.parked| ensures Ids(r) && PoolLocal(r, t) && (t in Signalled(r) <==> t in Signalled(p)) {
      GrownLocal(p, op, co, d, t);
    }
    assert Signalled(r) == Signalled(p);
  }

  lemma Untouched<T>(p: Pool<T>, op: Op)
    requires PoolInv(p) && MayStep(p, op)
    ensures !Touches(p.co, op, p.qm) && !Touches(p.co, op, p.qe)
  {
    assert PoolLocal(p, p.co.current) && Local(p.co, p.co.current);
  }

  lemma OtherInv<T>(p: Pool<T>, op: Op)
    requires PoolInv(p) && MayStep(p, op)
    ensures PoolInv(Grown(p, Next(p.co, op).0))
  {
    Untouched(p, op);
    NextInv(p.co, op);
    StepFrame(p.co, op, p.qm);
    StepFrame(p.co, op, p.qe);
    var d := StepDoing(p.co, op);
    GrownInv(p, op, Next(p.co, op).0, d);
  }

  // ---------------------------------------------------------------- runs

  datatype PoolOp<T> = Put(x: T) | Poll | Wake | Other(op: Op)

  ghost predicate PoolEnabled<T>(p: Pool<T>, op: PoolOp<T>)
    requires Ids(p)
  {
    match op
    case Put(_) => true
    case Poll => p.co.current != MAIN && p.co.doing[p.co.current] == User
    case Wake => Resumable(p.co) && p.parked[p.co.current]
    case Other(o) => MayStep(p, o)
  }

  ghost function PoolNext<T>(p: Pool<T>, op: PoolOp<T>): Pool<T>
    requires Ids(p) && PoolEnabled(p, op)
  {
    match op
    case Put(x) => PutStep(p, x).0
    case Poll => PollStep(p).0
    case Wake => WakeStep(p).0
    case Other(o) => Grown(p, Next(p.co, o).0)
  }

  lemma PoolNextInv<T>(p: Pool<T>, op: PoolOp<T>)
    requires PoolInv(p) && PoolEnabled(p, op)
    ensures PoolInv(PoolNext(p, op))
  {
    match op
    case Put(x) => PutInv(p, x);
    case Poll => PollInv(p);
    case Wake => WakeInv(p);
    case Other(o) => OtherInv(p, o);
  }

  /** The pool after initialization: nothing queued and nobody waiting. */
  ghost predicate PoolInitial(p: Pool) {
    && Ids(p) && Inv(p.co) && p.co.owner[p.qm] == Nil && p.queue == [] && p.accepted == [] && p.handed == []
    && (forall t :: 0 <= t < |p.parked| ==> !p.parked[t] && PoolLocal(p, t))
  }

  ghost predicate PoolFollows<T>(p: Pool<T>, op: PoolOp<T>, r: Pool<T>) {
    Ids(p) && PoolEnabled(p, op) && r == PoolNext(p, op)
  }

  ghost predicate PoolRun<T>(run: seq<Pool<T>>, ops: seq<PoolOp<T>>) {
    && |run| == |ops| + 1 && PoolInitial(run[0])
    && forall i :: 0 <= i < |ops| ==> PoolFollows(run[i], ops[i], run[i + 1])
  }

  lemma {:induction false} PoolRunInv<T>(run: seq<Pool<T>>, ops: seq<PoolOp<T>>, i: nat)
    requires PoolRun(run, ops) && i < |run|
    ensures PoolInv(run[i])
  {
    if i > 0 {
      PoolRunInv(run, ops, i - 1);
      FollowsInv(run[i - 1], ops[i - 1], run[i]);
    }
  }

  lemma FollowsInv<T>(p: Pool<T>, op: PoolOp<T>, r: Pool<T>)
    requires PoolInv(p) && PoolFollows(p, op, r)
    ensures PoolInv(r)
  {
    PoolNextInv(p, op);
  }

  /** Every worker that was woken has run. */
  ghost predicate Drained(p: Pool)
    requires Ids(p)
  {
    !p.parked[p.co.current] && forall t :: t in p.co.queues[RUN] && t < |p.parked| ==> !p.parked[t]
  }

  /** No wakeup is lost: while workers wait, the queued items number at most the workers already
      signalled. So once none of those is left, a non-empty queue means that no worker waits. */
  lemma NoLostWakeup<T>(run: seq<Pool<T>>, ops: seq<PoolOp<T>>, i: nat)
    requires PoolRun(run, ops) && i < |run|
    ensures Ids(run[i]) && (run[i].co.queues[run[i].qe] != [] ==> |run[i].queue| <= |Signalled(run[i])|)
    ensures Drained(run[i]) ==> run[i].queue == [] || run[i].co.queues[run[i].qe] == []
  {
    PoolRunInv(run, ops, i);
    var p := run[i];
    forall t | t in Signalled(p) ensures t == p.co.current || t in p.co.queues[RUN] {
      assert PoolLocal(p, t) && Local(p.co, t);
      assert t in p.co.queues[RUN] <==> PlaceOf(p.co, p.co.current, t) == RUN;
    }
    assert Drained(p) ==> Signalled(p) == {};
  }

  // ---------------------------------------------------------------- what callers see

  ghost function Joined<T>(parts: seq<seq<T>>): seq<T> {
    if parts == [] then [] else Joined(parts[..|parts| - 1]) + parts[|parts| - 1]
  }

  /** A record that each step extends by its part is the parts joined. */
  lemma {:induction false} JoinedIs<T>(record: seq<seq<T>>, parts: seq<seq<T>>)
    requires |record| == |parts| + 1 && record[0] == []
    requires forall k :: 0 <= k < |parts| ==> record[k + 1] == record[k] + parts[k]
    ensures record[|parts|] == Joined(parts)
  {
    var n := |parts|;
    if n > 0 {
      JoinedIs(record[..n], parts[..n - 1]);
      assert record[n - 1 + 1] == record[n - 1] + parts[n - 1];
    }
  }

  /** The items of the calls to enqueue that succeeded, in order. */
  ghost function Puts<T>(run: seq<Pool<T>>, ops: seq<PoolOp<T>>, i: nat): seq<T>
    requires |run| == |ops| + 1 && i <= |ops|
  {
    Joined(seq(i, k requires 0 <= k < i => PutBy(run[k], ops[k])))
  }

  ghost function PutBy<T>(p: Pool<T>, op: PoolOp<T>): seq<T> {
    if op.Put? && Ids(p) && PutStep(p, op.x).1 == Done then [op.x] else []
  }

  /** The items that workers got, at once or after a wait: each time the oldest one queued. */
  ghost function Gets<T>(run: seq<Pool<T>>, ops: seq<PoolOp<T>>, i: nat): seq<T>
    requires |run| == |ops| + 1 && i <= |ops|
  {
    Joined(seq(i, k requires 0 <= k < i => GotBy(run[k], ops[k])))
  }

  ghost function GotBy<T>(p: Pool<T>, op: PoolOp<T>): seq<T> {
    if Ids(p) && PoolEnabled(p, op) && GivesItem(p, op) && p.queue != [] then [p.queue[0]] else []
  }

  ghost predicate GivesItem<T>(p: Pool<T>, op: PoolOp<T>)
    requires Ids(p) && PoolEnabled(p, op)
  {
    (op.Poll? && PollStep(p).1 == Done) || (op.Wake? && WakeStep(p).1 == Done)
  }

  lemma StepRecords<T>(p: Pool<T>, op: PoolOp<T>)
    requires PoolInv(p) && PoolEnabled(p, op)
    ensures var r := PoolNext(p, op);
      r.accepted == p.accepted + PutBy(p, op) && r.handed == p.handed + GotBy(p, op)
    ensures (op.Poll? || op.Wake?) && p.queue != [] ==> GivesItem(p, op)
    ensures op.Put? && (p.limit == 0 || |p.queue| < p.limit) ==> PutBy(p, op) == [op.x]
  {
    match op
    case Put(x) => PutRecords(p, x);
    case Poll => PollRecords(p);
    case Wake => WakeRecords(p);
    case Other(_) =>
  }

  lemma PutRecords<T>(p: Pool<T>, x: T)
    requires PoolInv(p)
    ensures var (r, res) := PutStep(p, x);
      && res == (if p.limit == 0 || |p.queue| < p.limit then Done else Full) && r.handed == p.handed
      && r.accepted == if res == Done then p.accepted + [x] else p.accepted
  {
    PutInv(p, x);
  }

  lemma PollRecords<T>(p: Pool<T>)
    requires PoolInv(p) && p.co.current != MAIN && p.co.doing[p.co.current] == User
    ensures var (r, res) := PollStep(p);
      && res == (if p.queue != [] then Done else Slept) && r.accepted == p.accepted
      && r.handed == if p.queue != [] then p.handed + [p.queue[0]] else p.handed
  {
    PollInv(p);
  }

  lemma WakeRecords<T>(p: Pool<T>)
    requires PoolInv(p) && p.parked[p.co.current]
    ensures Resumable(p.co)
    ensures var (r, res) := WakeStep(p);
      && res == (if p.queue != [] then Done else Slept) && r.accepted == p.accepted
      && r.handed == if p.queue != [] then p.handed + [p.queue[0]] else p.handed
  {
    WakeInv(p);
    AwakeIs(p);
  }

  lemma RecordsMatch<T>(run: seq<Pool<T>>, ops: seq<PoolOp<T>>, i: nat)
    requires PoolRun(run, ops) && i < |run|
    ensures run[i].accepted == Puts(run, ops, i) && run[i].handed == Gets(run, ops, i)
  {
    var accepted := seq(i + 1, k requires 0 <= k <= i => run[k].accepted);
    var handed := seq(i + 1, k requires 0 <= k <= i => run[k].handed);
    var puts := seq(i, k requires 0 <= k < i => PutBy(run[k], ops[k]));
    var gets := seq(i, k requires 0 <= k < i => GotBy(run[k], ops[k]));
    forall k | 0 <= k < i ensures accepted[k + 1] == accepted[k] + puts[k] && handed[k + 1] == handed[k] + gets[k] {
      RecordsGrow(run, ops, k);
    }
    JoinedIs(accepted, puts);
    JoinedIs(handed, gets);
  }

  lemma RecordsGrow<T>(run: seq<Pool<T>>, ops: seq<PoolOp<T>>, i: nat)
    requires PoolRun(run, ops) && i < |ops|
    ensures run[i + 1].accepted == run[i].accepted + PutBy(run[i], ops[i])
    ensures run[i + 1].handed == run[i].handed + GotBy(run[i], ops[i])
  {
    PoolRunInv(run, ops, i);
    assert PoolFollows(run[i], ops[i], run[i + 1]);
    StepRecords(run[i], ops[i]);
  }

  /** Every item whose call succeeded is given to a worker once, in the order of the calls, or is still
      queued, and workers are given nothing else. */
  lemma EachItemOnce<T>(run: seq<Pool<T>>, ops: seq<PoolOp<T>>, i: nat)
    requires PoolRun(run, ops) && i < |run|
    ensures Puts(run, ops, i) == Gets(run, ops, i) + run[i].queue
  {
    RecordsMatch(run, ops, i);
    PoolRunInv(run, ops, i);
  }

  lemma StepHands<T>(p: Pool<T>, op: PoolOp<T>)
    requires PoolInv(p) && PoolEnabled(p, op)
    ensures var r := PoolNext(p, op); p.accepted <= r.accepted && p.handed <= r.handed && |r.handed| <= |p.handed| + 1
  {
    if op.Wake? { AwakeIs(p); }
  }

  lemma RunHands<T>(run: seq<Pool<T>>, ops: seq<PoolOp<T>>, i: nat)
    requires PoolRun(run, ops) && i < |ops|
    ensures run[i].accepted <= run[i + 1].accepted && run[i].handed <= run[i + 1].handed
    ensures |run[i + 1].handed| <= |run[i].handed| + 1
  {
    PoolRunInv(run, ops, i);
    assert PoolFollows(run[i], ops[i], run[i + 1]);
    StepHands(run[i], ops[i]);
  }

  /** What was accepted or handed out stays so. */
  lemma HistoryStays<T>(run: seq<Pool<T>>, ops: seq<PoolOp<T>>, i: nat, j: nat)
    requires PoolRun(run, ops) && i <= j < |run|
    ensures run[i].accepted <= run[j].accepted && run[i].handed <= run[j].handed
  {
    var accepted := seq(|run|, k requires 0 <= k < |run| => run[k].accepted);
    var handed := seq(|run|, k requires 0 <= k < |run| => run[k].handed);
    forall k | 0 <= k < |run| - 1 ensures accepted[k] <= accepted[k + 1] && handed[k] <= handed[k + 1] {
      RunHands(run, ops, k);
    }
    Extends(accepted, i, j);
    Extends(handed, i, j);
  }

  /** A record that each step extends is at any time an extension of what it was. */
  lemma {:induction false} Extends<T>(record: seq<seq<T>>, i: nat, j: nat)
    requires i <= j < |record| && forall k :: 0 <= k < |record| - 1 ==> record[k] <= record[k + 1]
    ensures record[i] <= record[j]
    decreases j
  {
    if i < j {
      Extends(record, i, j - 1);
      assert record[j - 1] <= record[j - 1 + 1];
    }
  }

  /** Every accepted item is handed to a worker at most once, in the order of acceptance, and the
      rest are still queued. */
  lemma HandedOnceInOrder<T>(run: seq<Pool<T>>, ops: seq<PoolOp<T>>, i: nat)
    requires PoolRun(run, ops) && i < |run|
    ensures run[i].accepted == run[i].handed + run[i].queue
  {
    PoolRunInv(run, ops, i);
  }
}
