/** Every run of the thread library. */
module CoroRuns {
  import opened CoroState
  import opened CoroInvariant
  import opened CoroThreads

  ghost function Next(s: State, op: Op): (State, Code)
    requires Shape(s) && Enabled(s, op)
  {
    match op
    case OpTryLock(m) => TryLockStep(s, m)
    case OpLock(m) => LockStep(s, m)
    case OpUnlock(m) => UnlockStep(s, m)
    case OpWait(c, m) => WaitStep(s, c, m, Waiting(c, m))
    case OpSignal(c) => (SignalStep(s, c), Ok)
    case OpBroadcast(c) => (BroadcastStep(s, c), Ok)
    case OpYield => YieldStep(s)
    case OpExit => (ExitStep(s), Switched)
    case OpJoin(t) => JoinStep(s, t)
    case OpCreate => CreateStep(s)
    case OpResume => ResumeStep(s)
  }

  lemma ResumeInv(s: State)
    requires Inv(s) && s.doing[s.current] != User
    ensures Local(s, s.current) && Inv(ResumeStep(s).0)
  {
    assert Local(s, s.current);
    if s.doing[s.current].Joining? {
      ResumeJoinInv(s);
    } else {
      BackInv(s);
      if s.doing[s.current].Waiting? { LockInv(s.(doing := s.doing[s.current := User]), s.doing[s.current].mutex); }
    }
  }

  lemma NextInv(s: State, op: Op)
    requires Inv(s) && Enabled(s, op)
    ensures Inv(Next(s, op).0)
  {
    match op
    case OpTryLock(m) => TryLockInv(s, m);
    case OpLock(m) => LockInv(s, m);
    case OpUnlock(m) => UnlockInv(s, m);
    case OpWait(c, m) => WaitInv(s, c, m);
    case OpSignal(c) => SignalInv(s, c);
    case OpBroadcast(c) => BroadcastInv(s, c);
    case OpYield => YieldInv(s);
    case OpExit => ExitInv(s);
    case OpJoin(t) => JoinInv(s, t);
    case OpCreate => CreateInv(s);
    case OpResume => ResumeInv(s);
  }

  /** After coro_init, with mutexes and condition variables initialized: only the main thread. */
  function Initial(nm: nat, nc: nat): State {
    var n := FIRST + nm + nc + 2;
    State([Dead], [User], MAIN, seq(n, _ => []), seq(n, _ => Nil), nm, nc, seq(n, _ => []), seq(n, _ => []))
  }

  lemma InitialInv(nm: nat, nc: nat)
    ensures Inv(Initial(nm, nc))
  {
    var s := Initial(nm, nc);
    assert Local(s, MAIN);
  }

  /** The states of a run: each follows from the one before by an enabled step. */
  ghost predicate Run(run: seq<State>, ops: seq<Op>) {
    && |run| == |ops| + 1
    && (exists nm: nat, nc: nat :: run[0] == Initial(nm, nc))
    && forall i :: 0 <= i < |ops| ==> Follows(run[i], ops[i], run[i + 1])
  }

  ghost predicate Follows(s: State, op: Op, r: State) {
    Shape(s) && Enabled(s, op) && r == Next(s, op).0
  }

  lemma {:induction false} RunInv(run: seq<State>, ops: seq<Op>, i: nat)
    requires Run(run, ops) && i < |run|
    ensures Inv(run[i])
  {
    if i == 0 {
      var nm: nat, nc: nat :| run[0] == Initial(nm, nc);
      InitialInv(nm, nc);
    } else {
      RunInv(run, ops, i - 1);
      assert Follows(run[i - 1], ops[i - 1], run[i]);
      NextInv(run[i - 1], ops[i - 1]);
    }
  }

  // ---------------------------------------------------------------- what runs promise

  /** In every state of a run a thread is in at most one queue, once, and its status tells which:
      a dead one is free, a blocked one waits for what it asked, a runnable one other than the
      current waits for the processor. The main thread runs or is ready. */
  lemma OneQueueEach(run: seq<State>, ops: seq<Op>, i: nat, t: nat, q: nat)
    requires Run(run, ops) && i < |run| && t < |run[i].status| && q < |run[i].queues|
    ensures var s := run[i];
      && Shape(s) && NoDup(s.queues[q])
      && (t in s.queues[q] <==> PlaceOf(s, s.current, t) == q)
      && (t != MAIN && t in s.queues[q] ==>
           match s.status[t]
           case Dead => q == FREE
           case Runnable => q == RUN
           case Blocked => q >= FIRST
           case Exiting => false)
      && (s.current != MAIN ==> MAIN in s.queues[RUN] && s.status[s.current] == Runnable)
  {
    RunInv(run, ops, i);
    assert Local(run[i], t);
    assert t in run[i].queues[q] <==> PlaceOf(run[i], run[i].current, t) == q;
    assert run[i].current != MAIN ==> MAIN in run[i].queues[RUN];
  }

  /** A suspended call that holds mutex m when it returns. */
  predicate Takes(d: Doing, m: nat) {
    d == Locking(m) || (d.Waiting? && d.mutex == m)
  }

  /** Whenever a lock call returns 0, at once or after waiting, the caller owns the mutex. */
  lemma LockedMeansOwner(run: seq<State>, ops: seq<Op>, i: nat, m: nat)
    requires Run(run, ops) && i < |ops| && Follows(run[i], ops[i], run[i + 1]) && Next(run[i], ops[i]).1 == Ok
    requires || ops[i] == OpLock(m) || ops[i] == OpTryLock(m)
             || (ops[i] == OpResume && Takes(run[i].doing[run[i].current], m))
    ensures m < |run[i + 1].owner| && run[i + 1].owner[m] == run[i].current
  {
    var s := run[i];
    RunInv(run, ops, i);
    assert Local(s, s.current);
    assert s.doing[s.current] == Locking(m) && s.current != MAIN ==> s.owner[m] == s.current;
  }

  /** A mutex is granted in the order it was asked for, and no waiter is left behind when it has
      no owner. */
  lemma GrantedInOrder(run: seq<State>, ops: seq<Op>, i: nat, m: nat)
    requires Run(run, ops) && i < |run| && UserMutex(run[i], m)
    ensures m < |run[i].queues| == |run[i].owner| == |run[i].asked| == |run[i].granted|
    ensures run[i].asked[m] == run[i].granted[m] + run[i].queues[m]
    ensures run[i].owner[m] == Nil ==> run[i].queues[m] == []
  {
    RunInv(run, ops, i);
    assert MutexOk(run[i], m);
  }

  /** Returning from a condition wait never fails: the mutex is free and taken, or the caller
      queues for it. */
  lemma WaitNeverFails(run: seq<State>, ops: seq<Op>, i: nat)
    requires Run(run, ops) && i < |ops| && ops[i] == OpResume && Follows(run[i], OpResume, run[i + 1])
    ensures Next(run[i], OpResume).1 == Ok || Next(run[i], OpResume).1 == Switched
  {
    var s := run[i];
    RunInv(run, ops, i);
    assert Local(s, s.current);
    if s.doing[s.current].Joining? { ResumeJoinInv(s); }
  }

  // ---------------------------------------------------------------- order

  lemma {:induction false} BroadcastKeeps(s: State, c: nat, m: nat)
    requires Shape(s) && FIRST <= c < |s.queues| && FIRST <= m < |s.queues| && m != c
    ensures BroadcastStep(s, c).queues[m] == s.queues[m] && BroadcastStep(s, c).nm == s.nm
    decreases |s.queues[c]|
  {
    if s.queues[c] != [] { BroadcastKeeps(SignalStep(s, c), c, m); }
  }

  lemma {:induction false} AddThreadsKeeps(s: State, k: nat, m: nat)
    requires Shape(s) && FIRST <= m < Base(s)
    ensures var r := AddThreads(s, k); r.nm == s.nm && r.nc == s.nc && m < |r.queues| && r.queues[m] == s.queues[m]
    decreases k
  {
    if k > 0 { AddThreadsKeeps(AddThread(s), k - 1, m); }
  }

  /** The queue of a mutex stays, or the caller joins it at the end, or its first thread leaves it
      as the new owner. */
  ghost predicate FirstInFirstOut(s: State, r: State, m: nat)
    requires m < |s.queues| && m < |r.queues| && m < |r.owner|
  {
    || r.queues[m] == s.queues[m]
    || r.queues[m] == s.queues[m] + [s.current]
    || (s.queues[m] != [] && r.queues[m] == s.queues[m][1..] && r.owner[m] == s.queues[m][0])
  }

  lemma HandedKeeps(s: State, k: nat, m: nat)
    requires Shape(s) && UserMutex(s, k) && UserMutex(s, m)
    ensures FirstInFirstOut(s, UnlockStep(s, k).0, m) && UnlockStep(s, k).0.nm == s.nm
  {
  }

  lemma ScheduleKeeps(s: State, m: nat)
    requires Shape(s) && FIRST <= m < |s.queues|
    ensures var r := Schedule(s);
      r.nm == s.nm && |r.queues| == |s.queues| && r.queues[m] == s.queues[m] && r.owner == s.owner
  {
  }

  lemma LockKeeps(s: State, k: nat, m: nat)
    requires Shape(s) && UserMutex(s, k) && UserMutex(s, m)
    ensures var r := LockStep(s, k).0; r.nm == s.nm && m < |r.queues| && m < |r.owner| && FirstInFirstOut(s, r, m)
  {
    ScheduleKeeps(Asking(s, k), m);
  }

  lemma WaitKeeps(s: State, c: nat, k: nat, m: nat)
    requires Shape(s) && UserCond(s, c) && UserMutex(s, k) && UserMutex(s, m)
    ensures var r := WaitStep(s, c, k, Waiting(c, k)).0;
      r.nm == s.nm && m < |r.queues| && m < |r.owner| && FirstInFirstOut(s, r, m)
  {
    HandedKeeps(s, k, m);
    ScheduleKeeps(Parked(UnlockStep(s, k).0, c, Blocked, Waiting(c, k)), m);
  }

  lemma JoinKeeps(s: State, t: nat, m: nat)
    requires Inv(s) && UserMutex(s, m)
    ensures var r := JoinStep(s, t).0; r.nm == s.nm && m < |r.queues| && m < |r.owner| && r.queues[m] == s.queues[m]
  {
    if t < |s.status| && t != s.current && s.status[t] != Dead && s.status[t] != Exiting {
      ExitMutexIdle(s, t);
      var k := ExitMutex(s, t);
      var locked := s.(owner := s.owner[k := s.current]);
      assert locked.(owner := locked.owner[k := Nil]) == s;
      ScheduleKeeps(Parked(s, ExitEvent(s, t), Blocked, Joining(t)), m);
    }
  }

  lemma ResumeKeeps(s: State, m: nat)
    requires Inv(s) && UserMutex(s, m) && Resumable(s)
    ensures var r := ResumeStep(s).0; r.nm == s.nm && m < |r.queues| && m < |r.owner| && FirstInFirstOut(s, r, m)
  {
    assert Local(s, s.current);
    var back := s.(doing := s.doing[s.current := User]);
    match s.doing[s.current]
    case User =>
    case Locking(_) =>
    case Waiting(_, k) => LockKeeps(back, k, m);
    case Joining(t) => ExitMutexIdle(s, t);
  }

  lemma CreateKeeps(s: State, m: nat)
    requires Shape(s) && UserMutex(s, m)
    ensures var r := CreateStep(s).0; r.nm == s.nm && m < |r.queues| && m < |r.owner| && r.queues[m] == s.queues[m]
  {
    var k := PoolSize(|s.status| - 1) - (|s.status| - 1);
    AddThreadsKeeps(s, k, m);
    StartKeeps(s, m);
    StartKeeps(AddThreads(s, k), m);
  }

  lemma StartKeeps(s: State, m: nat)
    requires Shape(s) && UserMutex(s, m)
    ensures s.queues[FREE] != [] ==> Start(s).queues[m] == s.queues[m] && Start(s).nm == s.nm
  {
  }

  /** Whatever happens, a waiter stays ahead of those behind it until the mutex is its own. */
  lemma FifoStep(s: State, op: Op, m: nat)
    requires Inv(s) && Enabled(s, op) && UserMutex(s, m)
    ensures var r := Next(s, op).0; r.nm == s.nm && m < |r.queues| && m < |r.owner| && FirstInFirstOut(s, r, m)
  {
    match op
    case OpTryLock(_) =>
    case OpLock(k) => LockKeeps(s, k, m);
    case OpUnlock(k) => HandedKeeps(s, k, m);
    case OpWait(c, k) => WaitKeeps(s, c, k, m);
    case OpSignal(_) =>
    case OpBroadcast(c) => BroadcastKeeps(s, c, m);
    case OpYield => ScheduleKeeps(Parked(s, RUN, Runnable, s.doing[s.current]), m);
    case OpExit => ScheduleKeeps(SignalStep(s.(status := s.status[s.current := Exiting]), ExitEvent(s, s.current)), m);
    case OpJoin(t) => JoinKeeps(s, t, m);
    case OpCreate => CreateKeeps(s, m);
    case OpResume => ResumeKeeps(s, m);
  }

  /** t is queued for the mutex before u. */
  ghost predicate Ahead(q: seq<nat>, t: nat, u: nat) {
    exists a, b :: 0 <= a < b < |q| && q[a] == t && q[b] == u
  }

  lemma RunFifo(run: seq<State>, ops: seq<Op>, i: nat, m: nat)
    requires Run(run, ops) && i < |ops| && UserMutex(run[i], m)
    ensures UserMutex(run[i + 1], m) && m < |run[i].queues| && m < |run[i + 1].queues| && m < |run[i + 1].owner|
    ensures FirstInFirstOut(run[i], run[i + 1], m)
  {
    RunInv(run, ops, i);
    assert Follows(run[i], ops[i], run[i + 1]);
    FifoStep(run[i], ops[i], m);
  }

  /** No waiter is overtaken: from then on it is still ahead, or the mutex was its own. */
  lemma {:induction false} NoOvertaking(run: seq<State>, ops: seq<Op>, i: nat, j: nat, m: nat, t: nat, u: nat)
    requires Run(run, ops) && i <= j < |run| && UserMutex(run[i], m) && m < |run[i].queues|
    requires Ahead(run[i].queues[m], t, u)
    ensures UserMutex(run[j], m) && m < |run[j].queues|
    ensures Ahead(run[j].queues[m], t, u) || exists k :: i < k <= j && m < |run[k].owner| && run[k].owner[m] == t
    decreases j
  {
    if i < j {
      NoOvertaking(run, ops, i, j - 1, m, t, u);
      RunFifo(run, ops, j - 1, m);
      var q := run[j - 1].queues[m];
      if Ahead(q, t, u) {
        var a, b :| 0 <= a < b < |q| && q[a] == t && q[b] == u;
        StaysAhead(run[j - 1], run[j], m, a, b);
      }
    }
  }

  lemma StaysAhead(s: State, r: State, m: nat, a: nat, b: nat)
    requires m < |s.queues| && m < |r.queues| && m < |r.owner| && FirstInFirstOut(s, r, m) && a < b < |s.queues[m]|
    ensures Ahead(r.queues[m], s.queues[m][a], s.queues[m][b]) || r.owner[m] == s.queues[m][a]
  {
    var q, q' := s.queues[m], r.queues[m];
    if q' == q || q' == q + [s.current] {
      assert q'[a] == q[a] && q'[b] == q[b];
    } else if a > 0 {
      assert q'[a - 1] == q[a] && q'[b - 1] == q[b];
    }
  }
}
