/** The cooperative thread library (lib/libcoro): threads, the run queue, mutexes with direct
    handoff, condition variables, and thread creation, exit and join. Thread 0 is the main thread;
    thread i + 1 is the one with library id i. A step is the code between two context switches. */
module CoroState {

  const Nil := -1
  const MAIN := 0
  const RUN := 0
  const FREE := 1
  const FIRST := 2
  const NR_THREADS := 4
  const MAX_THREADS := 1024

  datatype Status = Dead | Blocked | Runnable | Exiting

  /** What a thread does when it is next scheduled: go on in user code, return from a lock call,
      take the mutex again after a wait, or finish a join. */
  datatype Doing = User | Locking(m: nat) | Waiting(c: nat, mutex: nat) | Joining(target: nat)

  datatype Code = Ok | Deadlk | Busy | Perm | Invalid | NoSuch | Again | Empty | Switched

  /** Queues are numbered: the run queue, the free threads, the wait queues of nm mutexes and nc
      condition variables, and then for each thread those of its exit mutex and exit event. A
      mutex or condition variable is named by its queue. asked[m] lists every thread that had to
      wait for mutex m, granted[m] every thread it was handed to. */
  datatype State = State(
    status: seq<Status>, doing: seq<Doing>, current: nat,
    queues: seq<seq<nat>>, owner: seq<int>, nm: nat, nc: nat,
    asked: seq<seq<nat>>, granted: seq<seq<nat>>)

  function Base(s: State): nat {
    FIRST + s.nm + s.nc
  }

  predicate UserMutex(s: State, m: nat) {
    FIRST <= m < FIRST + s.nm
  }

  predicate UserCond(s: State, c: nat) {
    FIRST + s.nm <= c < Base(s)
  }

  function ExitMutex(s: State, t: nat): nat {
    Base(s) + 2 * t
  }

  function ExitEvent(s: State, t: nat): nat {
    Base(s) + 2 * t + 1
  }

  ghost predicate Shape(s: State) {
    && s.current < |s.status| == |s.doing|
    && |s.queues| == |s.owner| == |s.asked| == |s.granted| == Base(s) + 2 * |s.status|
    && forall q, i :: 0 <= q < |s.queues| && 0 <= i < |s.queues[q]| ==> s.queues[q][i] < |s.status|
  }

  function Push(queues: seq<seq<nat>>, q: nat, t: nat): seq<seq<nat>>
    requires q < |queues|
  {
    queues[q := queues[q] + [t]]
  }

  function Pop(queues: seq<seq<nat>>, q: nat): seq<seq<nat>>
    requires q < |queues| && queues[q] != []
  {
    queues[q := queues[q][1..]]
  }

  // ---------------------------------------------------------------- scheduling

  /** coro_schedule. */
  ghost function Schedule(s: State): (r: State)
    requires Shape(s)
    ensures Shape(r)
  {
    if s.queues[RUN] == [] then s.(current := MAIN)
    else s.(current := s.queues[RUN][0], queues := Pop(s.queues, RUN))
  }

  /** coro_unsuspend. */
  ghost function Woken(s: State, t: nat): (r: State)
    requires Shape(s) && t < |s.status|
    ensures Shape(r)
  {
    s.(status := s.status[t := Runnable], queues := Push(s.queues, RUN, t))
  }

  /** The calling thread queues itself and suspends. */
  ghost function Parked(s: State, q: nat, status: Status, doing: Doing): (r: State)
    requires Shape(s) && q < |s.queues|
    ensures Shape(r)
  {
    s.(status := s.status[s.current := status], doing := s.doing[s.current := doing],
       queues := Push(s.queues, q, s.current))
  }

  ghost function YieldStep(s: State): (State, Code)
    requires Shape(s)
  {
    if s.queues[RUN] == [] then (s, Empty)
    else (Schedule(Parked(s, RUN, Runnable, s.doing[s.current])), Switched)
  }

  // ---------------------------------------------------------------- mutexes

  /** coro_mutex_trylock. */
  ghost function TryLockStep(s: State, m: nat): (State, Code)
    requires Shape(s) && m < |s.queues|
  {
    if s.owner[m] == s.current then (s, Deadlk)
    else if s.owner[m] == Nil then (s.(owner := s.owner[m := s.current]), Ok)
    else (s, Busy)
  }

  /** The caller joins the queue of a busy mutex. */
  ghost function Asking(s: State, m: nat): (r: State)
    requires Shape(s) && m < |s.queues|
    ensures Shape(r)
  {
    Parked(s, m, Blocked, Locking(m)).(asked := Push(s.asked, m, s.current))
  }

  /** coro_mutex_lock, up to its return or the suspension of the caller. */
  ghost function LockStep(s: State, m: nat): (State, Code)
    requires Shape(s) && m < |s.queues|
  {
    var (r, code) := TryLockStep(s, m);
    if code == Busy then (Schedule(Asking(s, m)), Switched) else (r, code)
  }

  /** The mutex is handed to its first waiter. */
  ghost function Handed(s: State, m: nat): (r: State)
    requires Shape(s) && m < |s.queues| && s.queues[m] != []
    ensures Shape(r)
  {
    var t := s.queues[m][0];
    Woken(s.(queues := Pop(s.queues, m), owner := s.owner[m := t], granted := Push(s.granted, m, t)), t)
  }

  /** coro_mutex_unlock. */
  ghost function UnlockStep(s: State, m: nat): (r: (State, Code))
    requires Shape(s) && m < |s.queues|
    ensures Shape(r.0)
  {
    if s.owner[m] != s.current then (s, Perm)
    else if s.queues[m] == [] then (s.(owner := s.owner[m := Nil]), Ok)
    else (Handed(s, m), Ok)
  }

  // ---------------------------------------------------------------- condition variables

  /** coro_cond_signal. */
  ghost function SignalStep(s: State, c: nat): (r: State)
    requires Shape(s) && c < |s.queues|
    ensures Shape(r) && |r.queues| == |s.queues|
  {
    if s.queues[c] == [] then s
    else Woken(s.(queues := Pop(s.queues, c)), s.queues[c][0])
  }

  /** coro_cond_broadcast. */
  ghost function BroadcastStep(s: State, c: nat): (r: State)
    requires Shape(s) && c < |s.queues| && c != RUN
    ensures Shape(r) && |r.queues| == |s.queues|
    decreases |s.queues[c]|
  {
    if s.queues[c] == [] then s else BroadcastStep(SignalStep(s, c), c)
  }

  /** coro_cond_wait up to the suspension. */
  ghost function WaitStep(s: State, c: nat, m: nat, doing: Doing): (State, Code)
    requires Shape(s) && c < |s.queues| && m < |s.queues|
  {
    var (r, code) := UnlockStep(s, m);
    if code != Ok then (s, code) else (Schedule(Parked(r, c, Blocked, doing)), Switched)
  }

  // ---------------------------------------------------------------- threads

  /** coro_thread_stop on a thread other than the caller. */
  ghost function StopStep(s: State, t: nat): (r: State)
    requires Shape(s) && t < |s.status|
    ensures Shape(r)
  {
    if s.status[t] == Dead || t == s.current then s
    else s.(status := s.status[t := Dead], queues := Push(s.queues, FREE, t))
  }

  /** coro_exit. */
  ghost function ExitStep(s: State): State
    requires Shape(s)
  {
    Schedule(SignalStep(s.(status := s.status[s.current := Exiting]), ExitEvent(s, s.current)))
  }

  /** coro_join up to its return or the suspension of the caller. */
  ghost function JoinStep(s: State, t: nat): (State, Code)
    requires Shape(s)
  {
    if t >= |s.status| then (s, Invalid)
    else if t == s.current then (s, Deadlk)
    else if s.status[t] == Dead then (s, NoSuch)
    else if s.status[t] == Exiting then (StopStep(s, t), Ok)
    else
      var (r, code) := TryLockStep(s, ExitMutex(s, t));
      if code != Ok then (r, code) else WaitStep(r, ExitEvent(s, t), ExitMutex(s, t), Joining(t))
  }

  /** The size of the thread pool after realloc_thread_pool, for n threads without the main one. */
  function PoolSize(n: nat): nat {
    if n == 0 then NR_THREADS else 2 * n
  }

  /** One round of the last loop of realloc_thread_pool, with the new control block. */
  ghost function AddThread(s: State): (r: State)
    requires Shape(s)
    ensures Shape(r)
  {
    var t := |s.status|;
    s.(status := s.status + [Dead], doing := s.doing + [User],
       queues := Push(s.queues, FREE, t) + [[], []], owner := s.owner + [Nil, Nil],
       asked := s.asked + [[], []], granted := s.granted + [[], []])
  }

  ghost function AddThreads(s: State, k: nat): (r: State)
    requires Shape(s)
    ensures Shape(r) && |r.status| == |s.status| + k
    decreases k
  {
    if k == 0 then s else AddThreads(AddThread(s), k - 1)
  }

  /** coro_thread_init on a thread taken from the free queue. */
  ghost function Start(s: State): (r: State)
    requires Shape(s) && s.queues[FREE] != []
    ensures Shape(r)
  {
    var t := s.queues[FREE][0];
    var popped := Pop(s.queues, FREE);
    Woken(s.(queues := popped[ExitMutex(s, t) := []][ExitEvent(s, t) := []],
             owner := s.owner[ExitMutex(s, t) := Nil]), t)
  }

  /** coro_thread_create. */
  ghost function CreateStep(s: State): (State, Code)
    requires Shape(s)
  {
    var n := |s.status| - 1;
    if s.queues[FREE] != [] then (Start(s), Ok)
    else if PoolSize(n) >= MAX_THREADS then (s, Again)
    else
      var grown := AddThreads(s, PoolSize(n) - n);
      if grown.queues[FREE] == [] then (grown, Again) else (Start(grown), Ok)
  }

  // ---------------------------------------------------------------- steps

  datatype Op =
    | OpTryLock(m: nat) | OpLock(m: nat) | OpUnlock(m: nat)
    | OpWait(c: nat, mutex: nat) | OpSignal(c: nat) | OpBroadcast(c: nat)
    | OpYield | OpExit | OpJoin(t: nat) | OpCreate
    | OpResume

  ghost predicate Resumable(s: State)
    requires Shape(s)
  {
    match s.doing[s.current]
    case Waiting(_, m) => m < |s.queues|
    case Joining(t) => t < |s.status|
    case _ => true
  }

  /** The rest of the call in which the scheduled thread was suspended. */
  ghost function ResumeStep(s: State): (State, Code)
    requires Shape(s) && Resumable(s)
  {
    var back := s.(doing := s.doing[s.current := User]);
    match s.doing[s.current]
    case User => (s, Ok)
    case Locking(m) => (back, Ok)
    case Waiting(c, m) => LockStep(back, m)
    case Joining(t) =>
      var (locked, code) := TryLockStep(back, ExitMutex(s, t));
      if code != Ok then (locked, code) else (StopStep(UnlockStep(locked, ExitMutex(s, t)).0, t), Ok)
  }

  /** What the callers promise: the main thread only yields and takes free locks, and a thread
      has at most one joiner. */
  ghost predicate Enabled(s: State, op: Op)
    requires Shape(s)
  {
    && (op.OpResume? <==> s.doing[s.current] != User)
    && match op
       case OpTryLock(m) => UserMutex(s, m)
       case OpLock(m) => UserMutex(s, m) && (s.current == MAIN ==> s.owner[m] == Nil || s.owner[m] == MAIN)
       case OpUnlock(m) => UserMutex(s, m)
       case OpWait(c, m) => UserCond(s, c) && UserMutex(s, m) && (s.current == MAIN ==> s.owner[m] != MAIN)
       case OpSignal(c) => UserCond(s, c)
       case OpBroadcast(c) => UserCond(s, c)
       case OpExit => s.current != MAIN
       case OpJoin(t) =>
         && (forall j :: 0 <= j < |s.doing| ==> s.doing[j] != Joining(t))
         && (s.current == MAIN && t < |s.status| ==> t == MAIN || s.status[t] == Dead || s.status[t] == Exiting)
       case OpResume => Resumable(s)
       case OpYield => true
       case OpCreate => true
  }
}
