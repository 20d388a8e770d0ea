/** What a step of the thread library leaves alone: clients that keep their mutexes and condition
    variables to themselves can rely on it. */
module CoroFrame {
  import opened CoroState
  import opened CoroInvariant
  import opened CoroRuns

  /** The step may change the owner or the queue of mutex or condition variable x. */
  ghost predicate Touches(s: State, op: Op, x: nat)
    requires Shape(s)
  {
    match op
    case OpTryLock(m) => m == x
    case OpLock(m) => m == x
    case OpUnlock(m) => m == x
    case OpWait(c, m) => c == x || m == x
    case OpSignal(c) => c == x
    case OpBroadcast(c) => c == x
    case OpResume => s.doing[s.current].Waiting? && s.doing[s.current].mutex == x
    case _ => false
  }

  ghost predicate SameAt(s: State, r: State, x: nat) {
    && r.nm == s.nm && r.nc == s.nc && x < |s.queues| == |s.owner| && x < |r.queues| == |r.owner|
    && r.queues[x] == s.queues[x] && r.owner[x] == s.owner[x]
  }

  lemma ScheduleFrame(s: State, x: nat)
    requires Shape(s) && FIRST <= x < |s.queues|
    ensures SameAt(s, Schedule(s), x)
  {
  }

  lemma LockFrame(s: State, m: nat, x: nat)
    requires Shape(s) && FIRST <= x < |s.queues| && m < |s.queues| && m != x
    ensures SameAt(s, LockStep(s, m).0, x)
  {
    ScheduleFrame(Asking(s, m), x);
  }

  lemma UnlockFrame(s: State, m: nat, x: nat)
    requires Shape(s) && FIRST <= x < |s.queues| && m < |s.queues| && m != x
    ensures SameAt(s, UnlockStep(s, m).0, x)
  {
  }

  lemma WaitFrame(s: State, c: nat, m: nat, d: Doing, x: nat)
    requires Shape(s) && FIRST <= x < |s.queues| && c < |s.queues| && m < |s.queues| && m != x && c != x
    ensures SameAt(s, WaitStep(s, c, m, d).0, x)
  {
    UnlockFrame(s, m, x);
    ScheduleFrame(Parked(UnlockStep(s, m).0, c, Blocked, d), x);
  }

  lemma {:induction false} BroadcastFrame(s: State, c: nat, x: nat)
    requires Shape(s) && FIRST <= c < |s.queues| && FIRST <= x < |s.queues| && x != c
    ensures SameAt(s, BroadcastStep(s, c), x)
    decreases |s.queues[c]|
  {
    if s.queues[c] != [] { BroadcastFrame(SignalStep(s, c), c, x); }
  }

  lemma {:induction false} AddThreadsFrame(s: State, k: nat, x: nat)
    requires Shape(s) && FIRST <= x < Base(s)
    ensures SameAt(s, AddThreads(s, k), x)
    decreases k
  {
    if k > 0 { AddThreadsFrame(AddThread(s), k - 1, x); }
  }

  lemma StartFrame(s: State, x: nat)
    requires Shape(s) && FIRST <= x < Base(s)
    ensures s.queues[FREE] != [] ==> SameAt(s, Start(s), x)
  {
  }

  lemma CreateFrame(s: State, x: nat)
    requires Shape(s) && FIRST <= x < Base(s)
    ensures SameAt(s, CreateStep(s).0, x)
  {
    var n := |s.status| - 1;
    if s.queues[FREE] != [] {
      StartFrame(s, x);
    } else if PoolSize(n) < MAX_THREADS {
      var grown := AddThreads(s, PoolSize(n) - n);
      AddThreadsFrame(s, PoolSize(n) - n, x);
      StartFrame(grown, x);
      SameAtChain(s, grown, CreateStep(s).0, x);
    }
  }

  lemma SameAtChain(a: State, b: State, c: State, x: nat)
    requires SameAt(a, b, x) && (c == b || SameAt(b, c, x))
    ensures SameAt(a, c, x)
  {
  }

  lemma JoinFrame(s: State, t: nat, x: nat)
    requires Shape(s) && FIRST <= x < Base(s)
    ensures SameAt(s, JoinStep(s, t).0, x)
  {
    if t < |s.status| && t != s.current && s.status[t] != Dead && s.status[t] != Exiting {
      WaitFrame(TryLockStep(s, ExitMutex(s, t)).0, ExitEvent(s, t), ExitMutex(s, t), Joining(t), x);
    }
  }

  lemma ResumeFrame(s: State, x: nat)
    requires Shape(s) && Resumable(s) && FIRST <= x < Base(s) && !Touches(s, OpResume, x)
    ensures SameAt(s, ResumeStep(s).0, x)
  {
    var back := s.(doing := s.doing[s.current := User]);
    match s.doing[s.current]
    case User =>
    case Locking(_) =>
    case Waiting(_, m) => LockFrame(back, m, x);
    case Joining(t) => UnlockFrame(TryLockStep(back, ExitMutex(s, t)).0, ExitMutex(s, t), x);
  }

  /** A step leaves alone every mutex and condition variable it does not name. */
  lemma StepFrame(s: State, op: Op, x: nat)
    requires Inv(s) && Enabled(s, op) && FIRST <= x < Base(s) && !Touches(s, op, x)
    ensures SameAt(s, Next(s, op).0, x)
  {
    match op
    case OpTryLock(_) =>
    case OpLock(m) => LockFrame(s, m, x);
    case OpUnlock(m) => UnlockFrame(s, m, x);
    case OpWait(c, m) => WaitFrame(s, c, m, Waiting(c, m), x);
    case OpSignal(_) =>
    case OpBroadcast(c) => BroadcastFrame(s, c, x);
    case OpYield => ScheduleFrame(Parked(s, RUN, Runnable, s.doing[s.current]), x);
    case OpExit => ScheduleFrame(SignalStep(s.(status := s.status[s.current := Exiting]), ExitEvent(s, s.current)), x);
    case OpJoin(t) => JoinFrame(s, t, x);
    case OpCreate => CreateFrame(s, x);
    case OpResume => ResumeFrame(s, x);
  }

  // ---------------------------------------------------------------- what threads are doing

  /** Only the caller may change what it is doing, and new threads are in user code. */
  ghost predicate OnlyCaller(s: State, r: State, d: Doing)
    requires s.current < |s.doing|
  {
    && |s.doing| <= |r.doing|
    && (forall t :: 0 <= t < |s.doing| ==> r.doing[t] == if t == s.current then d else s.doing[t])
    && (forall t :: |s.doing| <= t < |r.doing| ==> r.doing[t] == User)
  }

  /** The caller is still in user code, or suspended in the call. */
  ghost predicate CallerDoing(s: State, op: Op, d: Doing)
    requires Shape(s)
  {
    || d == User
    || (op.OpLock? && d == Locking(op.m))
    || (op.OpWait? && d == Waiting(op.c, op.mutex))
    || (op.OpJoin? && d == Joining(op.t))
    || (op.OpResume? && s.doing[s.current].Waiting? && d == Locking(s.doing[s.current].mutex))
  }

  lemma {:induction false} BroadcastDoing(s: State, c: nat)
    requires Shape(s) && c < |s.queues| && c != RUN
    ensures BroadcastStep(s, c).doing == s.doing
    decreases |s.queues[c]|
  {
    if s.queues[c] != [] { BroadcastDoing(SignalStep(s, c), c); }
  }

  lemma {:induction false} AddThreadsDoing(s: State, k: nat)
    requires Shape(s)
    ensures s.doing <= AddThreads(s, k).doing
    ensures forall t :: |s.doing| <= t < |AddThreads(s, k).doing| ==> AddThreads(s, k).doing[t] == User
    decreases k
  {
    if k > 0 { AddThreadsDoing(AddThread(s), k - 1); }
  }

  lemma CreateDoing(s: State)
    requires Shape(s)
    ensures OnlyCaller(s, CreateStep(s).0, s.doing[s.current])
  {
    var n := |s.status| - 1;
    AddThreadsDoing(s, PoolSize(n) - n);
  }

  lemma JoinDoing(s: State, t: nat)
    requires Shape(s)
    ensures OnlyCaller(s, JoinStep(s, t).0, s.doing[s.current]) || OnlyCaller(s, JoinStep(s, t).0, Joining(t))
  {
  }

  lemma ResumeDoing(s: State)
    requires Shape(s) && Resumable(s) && s.doing[s.current] != User
    ensures OnlyCaller(s, ResumeStep(s).0, User)
      || (s.doing[s.current].Waiting? && OnlyCaller(s, ResumeStep(s).0, Locking(s.doing[s.current].mutex)))
  {
  }

  lemma LockDoing(s: State, m: nat)
    requires Shape(s) && m < |s.queues| && s.doing[s.current] == User
    ensures OnlyCaller(s, LockStep(s, m).0, if LockStep(s, m).1 == Switched then Locking(m) else User)
  {
  }

  lemma WaitDoing(s: State, c: nat, m: nat)
    requires Shape(s) && c < |s.queues| && m < |s.queues| && s.doing[s.current] == User
    ensures OnlyCaller(s, WaitStep(s, c, m, Waiting(c, m)).0, if s.owner[m] == s.current then Waiting(c, m) else User)
  {
  }

  lemma StepDoing(s: State, op: Op) returns (d: Doing)
    requires Shape(s) && Enabled(s, op)
    ensures CallerDoing(s, op, d) && OnlyCaller(s, Next(s, op).0, d)
  {
    d := User;
    match op
    case OpTryLock(_) =>
    case OpLock(m) =>
      LockDoing(s, m);
      d := if LockStep(s, m).1 == Switched then Locking(m) else User;
    case OpUnlock(_) =>
    case OpWait(c, m) =>
      WaitDoing(s, c, m);
      d := if s.owner[m] == s.current then Waiting(c, m) else User;
    case OpSignal(_) =>
    case OpBroadcast(c) => BroadcastDoing(s, c);
    case OpYield =>
    case OpExit =>
    case OpJoin(t) =>
      JoinDoing(s, t);
      d := if OnlyCaller(s, JoinStep(s, t).0, User) then User else Joining(t);
    case OpCreate => CreateDoing(s);
    case OpResume =>
      ResumeDoing(s);
      d := if OnlyCaller(s, ResumeStep(s).0, User) then User else Locking(s.doing[s.current].mutex);
  }

  // ---------------------------------------------------------------- patterns of use

  /** A free mutex is taken and given back without a trace. */
  lemma TakeAndGive(s: State, m: nat)
    requires Inv(s) && UserMutex(s, m) && s.owner[m] == Nil
    ensures var locked := s.(owner := s.owner[m := s.current]);
      LockStep(s, m) == (locked, Ok) && UnlockStep(locked, m) == (s, Ok)
  {
    var locked := s.(owner := s.owner[m := s.current]);
    assert MutexOk(s, m);
    assert locked.(owner := locked.owner[m := Nil]) == s;
  }

  /** A signal sent under a free mutex. */
  lemma SignalUnderMutex(s: State, c: nat, m: nat)
    requires Inv(s) && UserCond(s, c) && UserMutex(s, m) && s.owner[m] == Nil
    ensures UnlockStep(SignalStep(s.(owner := s.owner[m := s.current]), c), m) == (SignalStep(s, c), Ok)
  {
    assert MutexOk(s, m);
    var r := SignalStep(s.(owner := s.owner[m := s.current]), c);
    assert r.(owner := r.owner[m := Nil]) == SignalStep(s, c);
  }

  /** A thread in a wait is blocked exactly while it is on the queue. */
  lemma WaitingBlocked(s: State, t: nat, c: nat, m: nat)
    requires Inv(s) && t < |s.status| && s.doing[t] == Waiting(c, m)
    ensures c < |s.queues| && (s.status[t] == Blocked <==> t in s.queues[c])
  {
    assert Local(s, t);
    assert t in s.queues[c] <==> PlaceOf(s, s.current, t) == c;
  }
}
