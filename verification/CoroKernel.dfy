/** The thread library on its linked queues (lib/libcoro/queue.c, scheduler.c, mutex.c, condvar.c
    and thread.c): all queues share the one next field of a thread control block. */
module CoroKernel {
  import opened CoroState
  import opened CoroInvariant
  import opened CoroThreads
  import opened CoroRuns
  import opened CoroLaws

  function After(l: seq<nat>, i: int): int
    requires -1 <= i < |l|
  {
    if i + 1 < |l| then l[i + 1] else Nil
  }

  function Last(l: seq<nat>): int {
    if l == [] then Nil else l[|l| - 1]
  }

  ghost predicate IsQueue(next: seq<int>, head: int, tail: int, l: seq<nat>) {
    && head == After(l, -1) && tail == Last(l)
    && (forall i :: 0 <= i < |l| ==> l[i] < |next|)
    && (forall i {:trigger next[l[i]]} :: 0 <= i < |l| ==> next[l[i]] == After(l, i))
  }

  /** The queues are linked as they should, and a thread in no queue has no next. */
  ghost predicate Links(next: seq<int>, head: seq<int>, tail: seq<int>, queues: seq<seq<nat>>, place: seq<int>) {
    && |head| == |tail| == |queues| && |next| == |place| && Homes(queues, place)
    && (forall q :: 0 <= q < |queues| ==> IsQueue(next, head[q], tail[q], queues[q]))
    && (forall t :: 0 <= t < |place| && place[t] == Nil ==> next[t] == Nil)
  }

  lemma QueueSame(next: seq<int>, next': seq<int>, head: int, tail: int, l: seq<nat>)
    requires IsQueue(next, head, tail, l) && |next'| >= |next| && forall i :: 0 <= i < |l| ==> next'[l[i]] == next[l[i]]
    ensures IsQueue(next', head, tail, l)
  {
  }

  /** A change to the next field of threads that are not in other queues leaves those alone. */
  lemma OtherQueues(next: seq<int>, next': seq<int>, head: seq<int>, tail: seq<int>, queues: seq<seq<nat>>,
                    place: seq<int>, q: nat)
    requires Links(next, head, tail, queues, place) && |next'| >= |next| && q < |queues|
    requires forall t :: 0 <= t < |next| && place[t] != Nil && place[t] != q ==> next'[t] == next[t]
    ensures forall p :: 0 <= p < |queues| && p != q ==> IsQueue(next', head[p], tail[p], queues[p])
  {
    forall p | 0 <= p < |queues| && p != q ensures IsQueue(next', head[p], tail[p], queues[p]) {
      forall i | 0 <= i < |queues[p]| ensures next'[queues[p][i]] == next[queues[p][i]] {
        assert queues[p][i] in queues[p];
      }
      QueueSame(next, next', head[p], tail[p], queues[p]);
    }
  }

  lemma PushQueue(next: seq<int>, head: int, tail: int, l: seq<nat>, t: nat)
    requires IsQueue(next, head, tail, l) && NoDup(l) && t < |next| && t !in l && next[t] == Nil
    ensures l == [] ==> IsQueue(next, t, t, l + [t])
    ensures l != [] ==> 0 <= tail < |next| && IsQueue(next[tail := t], head, t, l + [t])
  {
    if l != [] {
      var l', next' := l + [t], next[tail := t];
      forall i | 0 <= i < |l'| ensures next'[l'[i]] == After(l', i) {
        if i < |l| { assert l'[i] == l[i] && next[l[i]] == After(l, i); }
      }
    }
  }

  lemma PopQueue(next: seq<int>, head: int, tail: int, l: seq<nat>)
    requires IsQueue(next, head, tail, l) && NoDup(l) && l != []
    ensures 0 <= head < |next| && (head == tail <==> |l| == 1) && (|l| > 1 ==> next[head] == l[1])
    ensures IsQueue(next[head := Nil], After(l, 0), Last(l[1..]), l[1..])
  {
    var l', next' := l[1..], next[head := Nil];
    assert next[l[0]] == After(l, 0);
    forall i | 0 <= i < |l'| ensures next'[l'[i]] == After(l', i) {
      assert l'[i] == l[i + 1] && next[l[i + 1]] == After(l, i + 1) && l[i + 1] != l[0];
    }
  }

  /** The queues say where each thread is. */
  lemma HomesUnique(queues: seq<seq<nat>>, a: seq<int>, b: seq<int>)
    requires Homes(queues, a) && Homes(queues, b) && |a| == |b|
    ensures a == b
  {
    forall t: nat | t < |a| ensures a[t] == b[t] {
      if a[t] != Nil { assert t in queues[a[t]]; }
      if b[t] != Nil { assert t in queues[b[t]]; }
    }
  }

  /** Without a free thread creation grows the pool, which then has one. */
  lemma CreateGrows(s: State)
    requires Inv(s) && s.queues[FREE] == []
    ensures var n := |s.status| - 1;
      if PoolSize(n) >= MAX_THREADS then CreateStep(s) == (s, Again)
      else var r := AddThreads(s, PoolSize(n) - n);
           Inv(r) && r.queues[FREE] != [] && CreateStep(s) == (Start(r), Ok)
  {
    var n := |s.status| - 1;
    AddThreadsInv(s, PoolSize(n) - n);
  }

  class Library {
    const nm: nat
    const nc: nat
    var next: seq<int>
    var head: seq<int>
    var tail: seq<int>
    var status: seq<Status>
    var owner: seq<int>
    var current: nat
    ghost var st: State
    ghost var place: seq<int>

    ghost predicate Agrees()
      reads this
    {
      && Shape(st) && st.nm == nm && st.nc == nc && st.status == status && st.owner == owner && st.current == current
      && |place| == |status| && Links(next, head, tail, st.queues, place)
    }

    ghost predicate Valid()
      reads this
    {
      Agrees() && Inv(st)
    }

    /** coro_init, and the initialization of the mutexes and condition variables. */
    constructor (nm: nat, nc: nat)
      ensures Valid() && st == Initial(nm, nc)
    {
      var n := FIRST + nm + nc + 2;
      this.nm, this.nc := nm, nc;
      next, status, current := [Nil], [Dead], MAIN;
      head := seq(n, _ => Nil);
      tail := seq(n, _ => Nil);
      owner := seq(n, _ => Nil);
      st, place := Initial(nm, nc), [Nil];
      new;
      InitialInv(nm, nc);
    }

    lemma CurrentUnqueued()
      requires Valid()
      ensures place == Placement(st, current) && place[current] == Nil
    {
      HomesUnique(st.queues, place, Placement(st, current));
    }

    /** coro_queue_enqueue. */
    method Enqueue(q: nat, t: nat)
      requires Agrees() && q < |head| && t < |status| && place[t] == Nil
      modifies this`next, this`head, this`tail, this`st, this`place
      ensures Agrees() && st == old(st).(queues := Push(old(st).queues, q, t)) && place == old(place)[t := q]
    {
      ghost var l := st.queues[q];
      assert t !in l;
      PushQueue(next, head[q], tail[q], l, t);
      HomesPush(st.queues, place, q, t);
      ghost var next0, head0, tail0 := next, head, tail;
      if head[q] == Nil {
        head, tail := head[q := t], tail[q := t];
      } else {
        assert Last(l) in l;
        next := next[tail[q] := t];
        tail := tail[q := t];
      }
      OtherQueues(next0, next, head0, tail0, st.queues, place, q);
      st, place := st.(queues := Push(st.queues, q, t)), place[t := q];
    }

    /** coro_queue_dequeue. */
    method Dequeue(q: nat) returns (t: int)
      requires Agrees() && q < |head|
      modifies this`next, this`head, this`tail, this`st, this`place
      ensures Agrees()
      ensures old(st).queues[q] == [] ==> t == Nil && st == old(st) && place == old(place)
      ensures old(st).queues[q] != [] ==> t == old(st).queues[q][0] && 0 <= t < |status|
      ensures old(st).queues[q] != [] ==>
                st == old(st).(queues := Pop(old(st).queues, q)) && place == old(place)[t := Nil]
    {
      t := head[q];
      if t == Nil { return; }
      ghost var l := st.queues[q];
      PopQueue(next, head[q], tail[q], l);
      HomesPop(st.queues, place, q);
      ghost var next0, head0, tail0 := next, head, tail;
      if head[q] == tail[q] {
        head, tail := head[q := Nil], tail[q := Nil];
      } else {
        head := head[q := next[head[q]]];
      }
      next := next[t := Nil];
      OtherQueues(next0, next, head0, tail0, st.queues, place, q);
      assert Last(l[1..]) == if |l| == 1 then Nil else Last(l);
      st, place := st.(queues := Pop(st.queues, q)), place[t := Nil];
    }

    /** coro_schedule. */
    method Reschedule()
      requires Agrees()
      modifies this`next, this`head, this`tail, this`st, this`place, this`current
      ensures Agrees() && st == Schedule(old(st))
    {
      if head[RUN] == Nil {
        if current == MAIN { return; }
        current := MAIN;
        st := st.(current := MAIN);
      } else {
        var t := Dequeue(RUN);
        current := t;
        st := st.(current := t);
      }
    }

    /** coro_unsuspend. */
    method Unsuspend(t: nat)
      requires Agrees() && t < |status| && place[t] == Nil
      modifies this`next, this`head, this`tail, this`st, this`place, this`status
      ensures Agrees() && st == Woken(old(st), t) && place == old(place)[t := RUN]
    {
      status := status[t := Runnable];
      st := st.(status := status);
      Enqueue(RUN, t);
    }

    /** The caller queues itself and suspends; what it does next is its saved context. */
    method Park(q: nat, state: Status, ghost doing: Doing)
      requires Agrees() && q < |head| && place[current] == Nil
      modifies this`next, this`head, this`tail, this`st, this`place, this`status, this`current
      ensures Agrees() && st == Schedule(Parked(old(st), q, state, doing))
    {
      Enqueue(q, current);
      status := status[current := state];
      st := st.(status := status, doing := st.doing[current := doing]);
      Reschedule();
    }

    /** coro_yield. */
    method Yield() returns (code: Code)
      requires Valid() && Enabled(st, OpYield)
      modifies this
      ensures Valid() && (st, code) == Next(old(st), OpYield)
      ensures Answers(old(st), OpYield, code) && RunsOn(old(st), st, Readied(old(st), OpYield), code)
    {
      NextInv(st, OpYield);
      FairStep(st, OpYield);
      CurrentUnqueued();
      if head[RUN] == Nil { return Empty; }
      Park(RUN, Runnable, st.doing[current]);
      return Switched;
    }

    // -------------------------------------------------------------- mutexes

    /** coro_mutex_trylock. */
    method TakeIfFree(m: nat) returns (code: Code)
      requires Agrees() && m < |head|
      modifies this`st, this`owner
      ensures Agrees() && (st, code) == TryLockStep(old(st), m)
    {
      if owner[m] == current {
        return Deadlk;
      } else if owner[m] == Nil {
        owner := owner[m := current];
        st := st.(owner := owner);
        return Ok;
      }
      return Busy;
    }

    method TryLock(m: nat) returns (code: Code)
      requires Valid() && Enabled(st, OpTryLock(m))
      modifies this
      ensures Valid() && (st, code) == Next(old(st), OpTryLock(m))
    {
      NextInv(st, OpTryLock(m));
      code := TakeIfFree(m);
    }

    /** coro_mutex_lock. */
    method LockFrom(m: nat) returns (code: Code)
      requires Valid() && UserMutex(st, m)
      modifies this
      ensures Agrees() && (st, code) == LockStep(old(st), m)
    {
      CurrentUnqueued();
      code := TakeIfFree(m);
      if code == Busy {
        st := st.(asked := Push(st.asked, m, current));
        Park(m, Blocked, Locking(m));
        code := Switched;
      }
    }

    method Lock(m: nat) returns (code: Code)
      requires Valid() && Enabled(st, OpLock(m))
      modifies this
      ensures Valid() && (st, code) == Next(old(st), OpLock(m))
    {
      NextInv(st, OpLock(m));
      code := LockFrom(m);
    }

    /** coro_mutex_unlock. */
    method Release(m: nat) returns (code: Code)
      requires Agrees() && m < |head|
      modifies this`next, this`head, this`tail, this`st, this`place, this`status, this`owner
      ensures Agrees() && (st, code) == UnlockStep(old(st), m)
      ensures forall t :: 0 <= t < |place| && old(place)[t] == Nil ==> place[t] == Nil
    {
      if owner[m] != current { return Perm; }
      ghost var was := st;
      var t := Dequeue(m);
      if was.queues[m] != [] {
        assert t in was.queues[m] && old(place)[t] == m;
        st := st.(granted := Push(st.granted, m, t));
      }
      owner := owner[m := t];
      st := st.(owner := owner);
      if t != Nil { Unsuspend(t); }
      return Ok;
    }

    method Unlock(m: nat) returns (code: Code)
      requires Valid() && Enabled(st, OpUnlock(m))
      modifies this
      ensures Valid() && (st, code) == Next(old(st), OpUnlock(m))
    {
      NextInv(st, OpUnlock(m));
      code := Release(m);
    }

    // -------------------------------------------------------------- condition variables

    /** coro_cond_signal. */
    method WakeOne(c: nat)
      requires Agrees() && c < |head|
      modifies this`next, this`head, this`tail, this`st, this`place, this`status
      ensures Agrees() && st == SignalStep(old(st), c)
    {
      var t := Dequeue(c);
      if t != Nil { Unsuspend(t); }
    }

    method Signal(c: nat)
      requires Valid() && Enabled(st, OpSignal(c))
      modifies this
      ensures Valid() && (st, Ok) == Next(old(st), OpSignal(c))
    {
      NextInv(st, OpSignal(c));
      WakeOne(c);
    }

    /** coro_cond_broadcast. */
    method Broadcast(c: nat)
      requires Valid() && Enabled(st, OpBroadcast(c))
      modifies this
      ensures Valid() && (st, Ok) == Next(old(st), OpBroadcast(c))
      ensures st.queues[c] == [] && RunsOn(old(st), st, old(st.queues[c]), Ok)
    {
      NextInv(st, OpBroadcast(c));
      BroadcastReadies(st, c);
      while head[c] != Nil
        invariant Agrees() && c < |head| && BroadcastStep(st, c) == BroadcastStep(old(st), c)
        decreases |st.queues[c]|
      {
        WakeOne(c);
      }
    }

    /** coro_cond_wait up to the suspension. */
    method WaitOn(c: nat, m: nat, ghost doing: Doing) returns (code: Code)
      requires Agrees() && c < |head| && m < |head| && place[current] == Nil
      modifies this
      ensures Agrees() && (st, code) == WaitStep(old(st), c, m, doing)
    {
      code := Release(m);
      if code != Ok { return; }
      Park(c, Blocked, doing);
      code := Switched;
    }

    method Wait(c: nat, m: nat) returns (code: Code)
      requires Valid() && Enabled(st, OpWait(c, m))
      modifies this
      ensures Valid() && (st, code) == Next(old(st), OpWait(c, m))
    {
      NextInv(st, OpWait(c, m));
      CurrentUnqueued();
      code := WaitOn(c, m, Waiting(c, m));
    }

    // -------------------------------------------------------------- threads

    function ExitM(t: nat): nat {
      FIRST + nm + nc + 2 * t
    }

    function ExitE(t: nat): nat {
      FIRST + nm + nc + 2 * t + 1
    }

    /** coro_exit. */
    method Exit()
      requires Valid() && Enabled(st, OpExit)
      modifies this
      ensures Valid() && (st, Switched) == Next(old(st), OpExit)
    {
      NextInv(st, OpExit);
      status := status[current := Exiting];
      st := st.(status := status);
      WakeOne(ExitE(current));
      Reschedule();
    }

    /** coro_thread_stop. */
    method Stop(t: nat)
      requires Agrees() && t < |status| && place[t] == Nil
      modifies this`next, this`head, this`tail, this`st, this`place, this`status
      ensures Agrees() && st == StopStep(old(st), t)
    {
      if status[t] == Dead { return; }
      if t != current {
        next := next[t := Nil];
        status := status[t := Dead];
        st := st.(status := status);
        Enqueue(FREE, t);
      }
    }

    /** The part of coro_join for a thread that has not exited. */
    method BeginJoin(t: nat) returns (code: Code)
      requires Agrees() && t < |status| && place[current] == Nil
      modifies this
      ensures Agrees()
      ensures var (r, locked) := TryLockStep(old(st), ExitMutex(old(st), t));
        (st, code) == if locked != Ok then (r, locked)
                      else WaitStep(r, ExitEvent(old(st), t), ExitMutex(old(st), t), Joining(t))
    {
      code := TakeIfFree(ExitM(t));
      if code != Ok { return; }
      code := WaitOn(ExitE(t), ExitM(t), Joining(t));
    }

    /** coro_join up to its return or the suspension of the caller. */
    method Join(t: nat) returns (code: Code)
      requires Valid() && Enabled(st, OpJoin(t))
      modifies this
      ensures Valid() && (st, code) == Next(old(st), OpJoin(t))
      ensures Answers(old(st), OpJoin(t), code)
    {
      NextInv(st, OpJoin(t));
      JoinAnswers(st, t);
      CurrentUnqueued();
      if t >= |status| { return Invalid; }
      if t == current { return Deadlk; }
      if status[t] == Dead { return NoSuch; }
      if status[t] != Exiting {
        code := BeginJoin(t);
      } else {
        assert Local(st, t) && place[t] == Nil;
        Stop(t);
        code := Ok;
      }
    }

    /** Taking the free exit mutex and giving it back. */
    method TouchExit(t: nat) returns (code: Code)
      requires Agrees() && t < |status| && owner[ExitM(t)] == Nil && st.queues[ExitM(t)] == []
      modifies this
      ensures Agrees() && st == old(st) && place == old(place) && code == Ok
    {
      code := TakeIfFree(ExitM(t));
      var released := Release(ExitM(t));
      assert st.owner == old(st).owner;
      HomesUnique(st.queues, place, old(place));
    }

    /** The end of coro_join in a thread that is scheduled again. */
    method FinishJoin(t: nat) returns (code: Code)
      requires Agrees() && t < |status| && place[t] == Nil && owner[ExitM(t)] == Nil && st.queues[ExitM(t)] == []
      modifies this
      ensures Agrees() && st == StopStep(old(st), t) && code == Ok
    {
      code := TouchExit(t);
      Stop(t);
    }

    /** The scheduled thread returns from the call in which it was suspended. */
    method Resume(at: Doing) returns (code: Code)
      requires Valid() && Enabled(st, OpResume) && at == st.doing[current]
      modifies this
      ensures Valid() && (st, code) == Next(old(st), OpResume)
    {
      NextInv(st, OpResume);
      assert Local(st, current);
      match at
      case Locking(_) =>
        st := st.(doing := st.doing[current := User]);
        return Ok;
      case Waiting(_, m) =>
        BackInv(st);
        st := st.(doing := st.doing[current := User]);
        code := LockFrom(m);
      case Joining(t) =>
        ResumeJoinInv(st);
        ResumeJoinIs(st);
        CurrentUnqueued();
        assert Local(st, t) && place[t] == Nil;
        st := st.(doing := st.doing[current := User]);
        code := FinishJoin(t);
    }

    /** A new zeroed control block, queued as free and then reset. */
    method GrowOne()
      requires Agrees()
      modifies this
      ensures Agrees() && st == AddThread(old(st)) && |status| == |old(status)| + 1
    {
      var t := |status|;
      GrowLinks(next, head, tail, st.queues, place);
      next, status := next + [Nil], status + [Dead];
      head, tail, owner := head + [Nil, Nil], tail + [Nil, Nil], owner + [Nil, Nil];
      place := place + [Nil];
      st := st.(status := status, doing := st.doing + [User], queues := st.queues + [[], []], owner := owner,
                asked := st.asked + [[], []], granted := st.granted + [[], []]);
      Enqueue(FREE, t);
      assert Push(old(st).queues + [[], []], FREE, t) == Push(old(st).queues, FREE, t) + [[], []];
      ResetLast(t);
    }

    /** coro_thread_reset on the dead thread at the end of the free queue: its link and state are
        what they are set to, so the queue stays. */
    method ResetLast(t: nat)
      requires Agrees() && t < |status| && status[t] == Dead && st.queues[FREE] != []
      requires st.queues[FREE][|st.queues[FREE]| - 1] == t
      modifies this`next, this`status
      ensures Agrees() && next == old(next) && status == old(status)
    {
      assert next[t] == Nil;
      next, status := next[t := Nil], status[t := Dead];
    }

    /** realloc_thread_pool. */
    method GrowPool() returns (ok: bool)
      requires Agrees()
      modifies this
      ensures Agrees() && (ok <==> PoolSize(|old(status)| - 1) < MAX_THREADS)
      ensures st == if ok then AddThreads(old(st), PoolSize(|old(status)| - 1) - (|old(status)| - 1)) else old(st)
    {
      var size := PoolSize(|status| - 1);
      if size >= MAX_THREADS { return false; }
      ghost var k: nat := size - (|status| - 1);
      while |status| - 1 < size
        invariant Agrees() && |status| - 1 + k == size
        invariant AddThreads(st, k) == AddThreads(old(st), size - (|old(status)| - 1))
        decreases k
      {
        GrowOne();
        k := k - 1;
      }
      return true;
    }

    /** Initializing the idle exit mutex and event of a thread. */
    method InitExit(t: nat)
      requires Agrees() && t < |status| && owner[ExitM(t)] == Nil && st.queues[ExitM(t)] == []
      requires st.queues[ExitE(t)] == []
      modifies this`head, this`tail, this`owner
      ensures Agrees()
    {
      assert IsQueue(next, head[ExitM(t)], tail[ExitM(t)], []) && IsQueue(next, head[ExitE(t)], tail[ExitE(t)], []);
      assert head[ExitM(t) := Nil][ExitE(t) := Nil] == head && tail[ExitM(t) := Nil][ExitE(t) := Nil] == tail;
      assert owner[ExitM(t) := Nil] == owner;
      head := head[ExitM(t) := Nil][ExitE(t) := Nil];
      tail := tail[ExitM(t) := Nil][ExitE(t) := Nil];
      owner := owner[ExitM(t) := Nil];
    }

    /** coro_thread_init. */
    method InitThread(t: nat)
      requires Agrees() && t < |status| && place[t] == Nil && status[t] == Dead
      requires owner[ExitM(t)] == Nil && st.queues[ExitM(t)] == [] && st.queues[ExitE(t)] == []
      modifies this`next, this`head, this`tail, this`st, this`place, this`status, this`owner
      ensures Agrees() && st == Woken(old(st), t)
    {
      next := next[t := Nil];
      status := status[t := Dead];
      InitExit(t);
      Unsuspend(t);
    }

    /** The first free thread is initialized. */
    method StartFree() returns (t: nat)
      requires Valid() && st.queues[FREE] != []
      modifies this
      ensures Agrees() && st == Start(old(st)) && 0 < t < |status| && status[t] == Runnable
    {
      StartIsMove(st);
      t := Dequeue(FREE);
      InitThread(t);
    }

    /** The start of coro_thread_create: more threads, if none is free. */
    method MakeRoom() returns (ok: bool)
      requires Valid()
      modifies this
      ensures Valid() && (ok ==> st.queues[FREE] != [] && CreateStep(old(st)) == (Start(st), Ok))
      ensures !ok ==> CreateStep(old(st)) == (st, Again)
    {
      if head[FREE] != Nil { return true; }
      CreateGrows(st);
      ok := GrowPool();
    }

    /** coro_thread_create. */
    method Create() returns (code: Code, t: int)
      requires Valid() && Enabled(st, OpCreate)
      modifies this
      ensures Valid() && (st, code) == Next(old(st), OpCreate)
      ensures code == Ok ==> 0 < t < |status| && status[t] == Runnable
    {
      var ok := MakeRoom();
      if !ok { return Again, Nil; }
      StartInv(st);
      t := StartFree();
      code := Ok;
    }
  }

  /** The rest of a join takes and releases the exit mutex and frees the target. */
  lemma ResumeJoinIs(s: State)
    requires Inv(s) && s.doing[s.current].Joining?
    ensures Resumable(s) && var t, back := s.doing[s.current].target, s.(doing := s.doing[s.current := User]);
      && t < |s.status| && s.owner[ExitMutex(s, t)] == Nil && s.queues[ExitMutex(s, t)] == []
      && ResumeStep(s) == (StopStep(back, t), Ok)
  {
    var t, back := s.doing[s.current].target, s.(doing := s.doing[s.current := User]);
    assert Local(s, s.current);
    ExitMutexIdle(s, t);
    var m := ExitMutex(s, t);
    var locked := back.(owner := back.owner[m := s.current]);
    assert locked.(owner := locked.owner[m := Nil]) == back;
  }

  lemma GrowLinks(next: seq<int>, head: seq<int>, tail: seq<int>, queues: seq<seq<nat>>, place: seq<int>)
    requires Links(next, head, tail, queues, place)
    ensures Links(next + [Nil], head + [Nil, Nil], tail + [Nil, Nil], queues + [[], []], place + [Nil])
  {
    var queues', place', next' := queues + [[], []], place + [Nil], next + [Nil];
    forall q, t: nat | 0 <= q < |queues'| ensures t in queues'[q] <==> t < |place'| && place'[t] == q {
      assert q < |queues| ==> (t in queues[q] <==> t < |place| && place[t] == q);
    }
    forall q | 0 <= q < |queues'|
      ensures IsQueue(next', (head + [Nil, Nil])[q], (tail + [Nil, Nil])[q], queues'[q])
    {
      if q < |queues| { QueueSame(next, next', head[q], tail[q], queues[q]); }
    }
  }
}
