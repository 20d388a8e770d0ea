/** The message workers and the work thread of the asynchronous driver library
    (lib/libasyncdriver/asyncdriver.c) on their queues and the thread library. Each method is the
    code up to a return or the suspension of the caller. */
module AsyncDriver {
  import opened CoroState
  import opened CoroInvariant
  import opened CoroThreads
  import opened CoroFrame
  import opened CoroKernel
  import opened MessageQueue
  import opened WorkerPool

  class Messages<M> {
    const lib: Library
    const mq: Mq<M>
    const qm: nat
    const qe: nat
    ghost var parked: seq<bool>
    ghost var accepted: seq<M>
    ghost var handed: seq<M>

    ghost function View(): Pool<M>
      reads this, lib, mq
    {
      Pool(lib.st, qm, qe, MQ_SIZE, parked, mq.contents, accepted, handed)
    }

    ghost predicate Valid()
      reads this, lib, mq, mq.lists
    {
      lib.Valid() && mq.Valid() && PoolInv(View())
    }

    /** After init_main_thread, on an event and a mutex that nobody uses yet. */
    constructor (lib: Library, blank: M, qm: nat, qe: nat)
      requires lib.Valid() && UserMutex(lib.st, qm) && UserCond(lib.st, qe) && lib.owner[qm] == Nil
      requires forall t :: 0 <= t < |lib.st.doing| ==> Stranger(lib.st.doing[t], qm, qe)
      ensures Valid() && this.lib == lib && fresh(mq) && fresh(mq.lists) && PoolInitial(View())
    {
      this.lib, this.qm, this.qe := lib, qm, qe;
      mq := new Mq(blank);
      parked := seq(|lib.status|, _ => false);
      accepted, handed := [], [];
      new;
      FreshPool(View());
    }

    /** enqueue, where a full queue makes the driver panic. */
    method Enqueue(msg: M) returns (ok: bool)
      requires Valid() && lib.st.doing[lib.current] == User
      modifies this, lib, mq, mq.lists
      ensures Valid() && (View(), if ok then Done else Full) == PutStep(old(View()), msg)
      ensures ok <==> |old(mq.contents)| < MQ_SIZE
      ensures mq.contents == if ok then old(mq.contents) + [msg] else old(mq.contents)
    {
      PutInv(View(), msg);
      SignalUnderIs(lib.st, qe, qm);
      ok := mq.Enqueue(msg);
      if !ok { return; }
      SignalEvent(lib, qe, qm);
      accepted := accepted + [msg];
    }

    /** The wait in dequeue, up to the suspension. */
    method Sleep() returns (r: Result)
      requires lib.Valid() && mq.Valid() && PoolInv(View()) && mq.contents == []
      requires lib.current != MAIN && lib.st.doing[lib.current] == User
      modifies this, lib
      ensures lib.Valid() && (View(), r) == SleepStep(old(View()))
    {
      ghost var me := lib.current;
      var code := SleepOn(lib, qe, qm);
      parked := parked[me := true];
      r := if code == Switched then Slept else Failed;
    }

    method TakeOrSleep(blank: M) returns (r: Result, msg: M)
      requires lib.Valid() && mq.Valid() && Ids(View()) && (mq.contents == [] ==> PoolInv(View()))
      requires lib.current != MAIN && lib.st.doing[lib.current] == User
      modifies this, lib, mq, mq.lists
      ensures lib.Valid() && mq.Valid() && (View(), r) == PollStep(old(View()))
      ensures r == if old(mq.contents) != [] then Done else Slept
      ensures r == Done ==> [msg] + mq.contents == old(mq.contents)
    {
      var ok;
      ok, msg := mq.Dequeue(blank);
      if ok {
        handed := handed + [msg];
        r := Done;
      } else {
        SleepInv(View());
        r := Sleep();
      }
    }

    /** The head of the worker loop: take a message or wait for one. */
    method Poll(blank: M) returns (r: Result, msg: M)
      requires Valid() && lib.current != MAIN && lib.st.doing[lib.current] == User
      modifies this, lib, mq, mq.lists
      ensures Valid() && (View(), r) == PollStep(old(View()))
      ensures r == if old(mq.contents) != [] then Done else Slept
      ensures r == Done ==> [msg] + mq.contents == old(mq.contents)
    {
      PollInv(View());
      r, msg := TakeOrSleep(blank);
    }

    /** A scheduled worker leaves the wait in dequeue and tries again. */
    method GoOn(blank: M, doing: Doing) returns (r: Result, msg: M)
      requires Valid() && lib.current < |parked| && parked[lib.current] && doing == lib.st.doing[lib.current]
      modifies this, lib, mq, mq.lists
      ensures Valid() && Resumable(old(lib.st)) && (View(), r) == WakeStep(old(View()))
      ensures r == if old(mq.contents) != [] then Done else Slept
      ensures r == Done ==> [msg] + mq.contents == old(mq.contents)
    {
      ghost var before, me := View(), lib.current;
      AwakePolls(before);
      LeaveWait(lib, qm, doing);
      parked := parked[me := false];
      assert View() == Awake(before);
      r, msg := TakeOrSleep(blank);
    }
  }

  /** The thread has nothing to do with this mutex and event. */
  ghost predicate Stranger(d: Doing, qm: nat, qe: nat) {
    d != Locking(qm) && (d.Waiting? ==> d.c != qe && d.mutex != qm)
  }

  lemma FreshPool<T>(p: Pool<T>)
    requires Ids(p) && Inv(p.co) && p.co.owner[p.qm] == Nil && p.queue == [] && p.accepted == [] && p.handed == []
    requires forall t :: 0 <= t < |p.parked| ==> !p.parked[t] && Stranger(p.co.doing[t], p.qm, p.qe)
    ensures PoolInitial(p) && PoolInv(p)
  {
    forall t | 0 <= t < |p.parked| ensures PoolLocal(p, t) {}
    NoneWaiting(p);
  }

  lemma NoneWaiting<T>(p: Pool<T>)
    requires Ids(p) && Inv(p.co) && forall t :: 0 <= t < |p.parked| ==> !p.parked[t] && PoolLocal(p, t)
    ensures p.co.queues[p.qe] == []
  {
    forall t: nat | t < |p.parked| ensures t !in p.co.queues[p.qe] { assert PoolLocal(p, t) && Local(p.co, t); }
    FirstIn(p.co.queues[p.qe]);
  }

  /** A worker that leaves the wait goes on as one that looks for an item. */
  lemma AwakePolls<T>(p: Pool<T>)
    requires PoolInv(p) && p.parked[p.co.current]
    ensures p.co.current != MAIN && p.co.doing[p.co.current] == Waiting(p.qe, p.qm)
    ensures Resumable(p.co) && WakeStep(p) == PollStep(Awake(p)) && PoolInv(PollStep(Awake(p)).0)
    ensures Ids(Awake(p)) && (p.queue == [] ==> PoolInv(Awake(p)))
  {
    assert PoolLocal(p, p.co.current);
    WakeInv(p);
    AwakeIs(p);
    AwakeLocal(p);
  }

  // ---------------------------------------------------------------- the calls on the event

  /** Signalling under the event mutex. */
  method SignalEvent(lib: Library, qe: nat, qm: nat)
    requires lib.Valid() && UserMutex(lib.st, qm) && UserCond(lib.st, qe) && lib.owner[qm] == Nil
    requires lib.st.doing[lib.current] == User
    modifies lib
    ensures lib.Valid() && lib.st == SignalUnder(old(lib.st), qe, qm).0
  {
    TakeAndGive(lib.st, qm);
    var code := lib.Lock(qm);
    lib.Signal(qe);
    code := lib.Unlock(qm);
  }

  /** Locking the event mutex and waiting on the event. */
  method SleepOn(lib: Library, qe: nat, qm: nat) returns (code: Code)
    requires lib.Valid() && UserMutex(lib.st, qm) && UserCond(lib.st, qe) && lib.owner[qm] == Nil
    requires lib.st.doing[lib.current] == User && lib.current != MAIN
    modifies lib
    ensures lib.Valid() && LockStep(old(lib.st), qm).1 == Ok
    ensures (lib.st, code) == WaitStep(LockStep(old(lib.st), qm).0, qe, qm, Waiting(qe, qm))
  {
    TakeAndGive(lib.st, qm);
    code := lib.Lock(qm);
    code := lib.Wait(qe, qm);
  }

  /** Returning from the wait and unlocking the event mutex. */
  method LeaveWait(lib: Library, qm: nat, doing: Doing)
    requires lib.Valid() && UserMutex(lib.st, qm) && doing == lib.st.doing[lib.current] && doing.Waiting?
    requires doing.mutex == qm
    requires lib.owner[qm] == Nil
    modifies lib
    ensures lib.Valid() && lib.st == old(lib.st).(doing := old(lib.st).doing[old(lib.current) := User])
  {
    BackUnlocked(lib.st, qm);
    var code := lib.Resume(doing);
    code := lib.Unlock(qm);
  }

  lemma BackUnlocked(s: State, m: nat)
    requires Inv(s) && UserMutex(s, m) && s.owner[m] == Nil && s.doing[s.current].Waiting?
    requires s.doing[s.current].mutex == m
    ensures var back := s.(doing := s.doing[s.current := User]);
      && Resumable(s) && ResumeStep(s) == (back.(owner := back.owner[m := s.current]), Ok)
      && UnlockStep(ResumeStep(s).0, m) == (back, Ok)
  {
    var back := s.(doing := s.doing[s.current := User]);
    assert MutexOk(s, m);
    var locked := back.(owner := back.owner[m := s.current]);
    assert locked.(owner := locked.owner[m := Nil]) == back;
  }
}
