/** What every step of the thread library keeps: each thread is in at most one queue, the one its
    status and activity call for; mutex ownership and waiting; joins. */
module CoroInvariant {
  import opened CoroState

  ghost predicate NoDup(q: seq<nat>) {
    forall i, j :: 0 <= i < j < |q| ==> q[i] != q[j]
  }

  /** place[t] is the one queue that holds t, or Nil. */
  ghost predicate Homes(queues: seq<seq<nat>>, place: seq<int>) {
    && (forall q :: 0 <= q < |queues| ==> NoDup(queues[q]))
    && (forall t :: 0 <= t < |place| ==> place[t] == Nil || 0 <= place[t] < |queues|)
    && (forall q, t: nat {:trigger t in queues[q]} :: 0 <= q < |queues| ==>
          (t in queues[q] <==> t < |place| && place[t] == q))
  }

  lemma HomesPush(queues: seq<seq<nat>>, place: seq<int>, q: nat, t: nat)
    requires Homes(queues, place) && q < |queues| && t < |place| && place[t] == Nil
    ensures Homes(Push(queues, q, t), place[t := q])
  {
    assert t !in queues[q];
  }

  lemma HomesPop(queues: seq<seq<nat>>, place: seq<int>, q: nat)
    requires Homes(queues, place) && q < |queues| && queues[q] != []
    ensures var t := queues[q][0]; t < |place| && place[t] == q && Homes(Pop(queues, q), place[t := Nil])
  {
    var l := queues[q];
    assert l[0] in l && l == [l[0]] + l[1..];
    assert forall t: nat :: t in l[1..] <==> t in l && t != l[0];
  }

  /** The queue a thread should be in when `running` has the processor. */
  ghost function PlaceOf(s: State, running: int, t: nat): int
    requires t < |s.status| == |s.doing|
  {
    if t == running then Nil
    else if t == MAIN then RUN
    else match s.status[t]
      case Dead => FREE
      case Exiting => Nil
      case Runnable => RUN
      case Blocked =>
        match s.doing[t]
        case User => Nil
        case Locking(m) => m
        case Waiting(c, _) => c
        case Joining(u) => ExitEvent(s, u)
  }

  ghost function Placement(s: State, running: int): (place: seq<int>)
    requires |s.status| == |s.doing|
    ensures |place| == |s.status| && forall t :: 0 <= t < |place| ==> place[t] == PlaceOf(s, running, t)
  {
    seq(|s.status|, t requires 0 <= t < |s.status| => PlaceOf(s, running, t))
  }

  ghost predicate Local(s: State, t: nat)
    requires Shape(s) && t < |s.status|
  {
    && (t == MAIN ==> s.doing[t] == User && (s.status[t] == Dead || s.status[t] == Runnable))
    && (t != MAIN && (s.status[t] == Dead || s.status[t] == Exiting) ==> s.doing[t] == User)
    && (s.status[t] == Blocked ==> s.doing[t] != User)
    && s.owner[ExitMutex(s, t)] == Nil
    && match s.doing[t]
       case User => true
       case Locking(m) => UserMutex(s, m) && (s.status[t] == Runnable <==> s.owner[m] == t)
       case Waiting(c, m) => UserCond(s, c) && UserMutex(s, m) && s.owner[m] != t
       case Joining(u) =>
         && u < |s.status| && u != t
         && (s.status[t] == Blocked ==> s.status[u] == Runnable || s.status[u] == Blocked)
         && (s.status[t] == Runnable ==> s.status[u] == Exiting)
  }

  /** A mutex without owner has no waiters, and it was handed out in the order it was asked for. */
  ghost predicate MutexOk(s: State, m: nat)
    requires Shape(s) && m < |s.queues|
  {
    && -1 <= s.owner[m] < |s.status|
    && (s.owner[m] == Nil ==> s.queues[m] == [])
    && s.asked[m] == s.granted[m] + s.queues[m]
  }

  ghost predicate Rest(s: State) {
    && Shape(s)
    && (forall t :: 0 <= t < |s.status| ==> Local(s, t))
    && (forall m :: UserMutex(s, m) ==> MutexOk(s, m))
    && (forall j, k :: 0 <= j < |s.doing| && 0 <= k < |s.doing| && j != k && s.doing[j].Joining? ==>
         s.doing[k] != s.doing[j])
  }

  ghost predicate Inv(s: State) {
    && Rest(s) && Homes(s.queues, Placement(s, s.current))
    && (s.current != MAIN ==> s.status[s.current] == Runnable)
  }

  /** As Inv, in the middle of a context switch. */
  ghost predicate Between(s: State) {
    Rest(s) && Homes(s.queues, Placement(s, Nil))
  }

  // ---------------------------------------------------------------- context switches

  /** The main thread is always the current one or in the run queue, so the scheduler never has to
      fall back to it. */
  lemma ScheduleInv(s: State)
    requires Between(s)
    ensures s.queues[RUN] != [] && Inv(Schedule(s))
  {
    assert MAIN in s.queues[RUN];
    var r := Schedule(s);
    assert Local(s, r.current);
    HomesPop(s.queues, Placement(s, Nil), RUN);
    assert Placement(r, r.current) == Placement(s, Nil)[r.current := Nil];
    forall t | 0 <= t < |r.status| ensures Local(r, t) { assert Local(s, t); }
    forall m | UserMutex(r, m) ensures MutexOk(r, m) { assert MutexOk(s, m); }
  }

  lemma YieldBetween(s: State)
    requires Inv(s)
    ensures Between(Parked(s, RUN, Runnable, s.doing[s.current]))
  {
    var p := Parked(s, RUN, Runnable, s.doing[s.current]);
    assert Local(s, s.current);
    HomesPush(s.queues, Placement(s, s.current), RUN, s.current);
    assert Placement(p, Nil) == Placement(s, s.current)[s.current := RUN];
    forall t | 0 <= t < |p.status| ensures Local(p, t) { assert Local(s, t); }
    forall m | UserMutex(p, m) ensures MutexOk(p, m) { assert MutexOk(s, m); }
  }

  lemma YieldInv(s: State)
    requires Inv(s)
    ensures Inv(YieldStep(s).0)
  {
    YieldBetween(s);
    ScheduleInv(Parked(s, RUN, Runnable, s.doing[s.current]));
  }

  // ---------------------------------------------------------------- mutexes

  lemma TryLockInv(s: State, m: nat)
    requires Inv(s) && UserMutex(s, m) && s.doing[s.current] == User
    ensures Inv(TryLockStep(s, m).0)
    ensures TryLockStep(s, m).1 == Ok ==> TryLockStep(s, m).0.owner[m] == s.current
  {
    if s.owner[m] == Nil {
      var r := TryLockStep(s, m).0;
      assert Placement(r, r.current) == Placement(s, s.current);
      forall t | 0 <= t < |r.status| ensures Local(r, t) {
        assert Local(s, t) && MutexOk(s, m);
        NobodyLocking(s, m, t);
      }
      forall k | UserMutex(r, k) ensures MutexOk(r, k) { assert MutexOk(s, k); }
    }
  }

  /** Nobody is queued for, or about to return from locking, a mutex without owner. */
  lemma NobodyLocking(s: State, m: nat, t: nat)
    requires Rest(s) && Homes(s.queues, Placement(s, s.current)) && UserMutex(s, m) && s.owner[m] == Nil
    requires t < |s.status|
    requires s.current != MAIN ==> s.status[s.current] == Runnable
    ensures s.doing[t] != Locking(m)
  {
    assert Local(s, t) && MutexOk(s, m);
    assert t in s.queues[m] <==> PlaceOf(s, s.current, t) == m;
  }

  lemma AskingBetween(s: State, m: nat)
    requires Inv(s) && UserMutex(s, m) && s.owner[m] != Nil && s.owner[m] != s.current && s.current != MAIN
    requires s.doing[s.current] == User
    ensures Between(Asking(s, m))
  {
    var p := Asking(s, m);
    HomesPush(s.queues, Placement(s, s.current), m, s.current);
    assert Placement(p, Nil) == Placement(s, s.current)[s.current := m];
    forall t | 0 <= t < |p.status| ensures Local(p, t) { assert Local(s, t) && Local(s, s.current); }
    forall k | UserMutex(p, k) ensures MutexOk(p, k) { assert MutexOk(s, k); }
  }

  lemma LockInv(s: State, m: nat)
    requires Inv(s) && UserMutex(s, m) && s.doing[s.current] == User
    requires s.current == MAIN ==> s.owner[m] == Nil || s.owner[m] == MAIN
    ensures Inv(LockStep(s, m).0)
  {
    if TryLockStep(s, m).1 == Busy {
      AskingBetween(s, m);
      ScheduleInv(Asking(s, m));
    } else {
      TryLockInv(s, m);
    }
  }

  /** The first waiter of a queue is woken: it moves to the run queue. */
  lemma WokenHomes(s: State, q: nat, r: State)
    requires Rest(s) && Homes(s.queues, Placement(s, s.current)) && FIRST <= q < |s.queues| && s.queues[q] != []
    requires Shape(r)
    requires r.queues == Push(Pop(s.queues, q), RUN, s.queues[q][0]) && r.current == s.current
    requires r.status == s.status[s.queues[q][0] := Runnable] && r.doing == s.doing && r.nm == s.nm && r.nc == s.nc
    ensures Homes(r.queues, Placement(r, r.current))
    ensures var t := s.queues[q][0];
      t != s.current && t != MAIN && s.status[t] == Blocked && PlaceOf(s, s.current, t) == q
  {
    var t := s.queues[q][0];
    HomesPop(s.queues, Placement(s, s.current), q);
    HomesPush(Pop(s.queues, q), Placement(s, s.current)[t := Nil], RUN, t);
    assert Local(s, t);
    assert Placement(r, r.current) == Placement(s, s.current)[t := RUN];
  }

  lemma HandedInv(s: State, m: nat)
    requires Inv(s) && UserMutex(s, m) && s.owner[m] == s.current && s.queues[m] != [] && s.doing[s.current] == User
    ensures Inv(Handed(s, m))
  {
    var r, t := Handed(s, m), s.queues[m][0];
    WokenHomes(s, m, r);
    assert Local(s, t) && s.doing[t] == Locking(m);
    forall u | 0 <= u < |r.status| ensures Local(r, u) {
      assert Local(s, u);
      assert s.doing[u] == Locking(m) && s.status[u] == Runnable ==> u == s.current;
    }
    forall k | UserMutex(r, k) ensures MutexOk(r, k) {
      assert MutexOk(s, k);
      assert k == m ==> s.queues[m] == [t] + s.queues[m][1..];
    }
  }

  lemma ReleasedInv(s: State, m: nat)
    requires Inv(s) && UserMutex(s, m) && s.owner[m] == s.current && s.queues[m] == [] && s.doing[s.current] == User
    ensures Inv(s.(owner := s.owner[m := Nil]))
  {
    var r := s.(owner := s.owner[m := Nil]);
    assert Placement(r, r.current) == Placement(s, s.current);
    forall u | 0 <= u < |r.status| ensures Local(r, u) {
      assert Local(s, u);
      assert s.doing[u] == Locking(m) && s.status[u] == Runnable ==> u == s.current;
    }
    forall k | UserMutex(r, k) ensures MutexOk(r, k) { assert MutexOk(s, k); }
  }

  lemma UnlockInv(s: State, m: nat)
    requires Inv(s) && UserMutex(s, m) && s.doing[s.current] == User
    ensures Inv(UnlockStep(s, m).0)
  {
    if s.owner[m] == s.current {
      if s.queues[m] == [] { ReleasedInv(s, m); } else { HandedInv(s, m); }
    }
  }

  // ---------------------------------------------------------------- condition variables

  lemma SignalInv(s: State, c: nat)
    requires Inv(s) && UserCond(s, c)
    ensures Inv(SignalStep(s, c))
  {
    if s.queues[c] != [] {
      var r, t := SignalStep(s, c), s.queues[c][0];
      WokenHomes(s, c, r);
      assert Local(s, t) && s.doing[t].Waiting?;
      forall u | 0 <= u < |r.status| ensures Local(r, u) { assert Local(s, u); }
      forall k | UserMutex(r, k) ensures MutexOk(r, k) { assert MutexOk(s, k); }
    }
  }

  lemma {:induction false} BroadcastInv(s: State, c: nat)
    requires Inv(s) && UserCond(s, c)
    ensures Inv(BroadcastStep(s, c)) && BroadcastStep(s, c).queues[c] == []
    decreases |s.queues[c]|
  {
    if s.queues[c] != [] {
      SignalInv(s, c);
      BroadcastInv(SignalStep(s, c), c);
    }
  }

  lemma WaitBetween(s: State, c: nat, m: nat)
    requires Inv(s) && UserCond(s, c) && UserMutex(s, m) && s.owner[m] != s.current && s.current != MAIN
    requires s.doing[s.current] == User
    ensures Between(Parked(s, c, Blocked, Waiting(c, m)))
  {
    var p := Parked(s, c, Blocked, Waiting(c, m));
    HomesPush(s.queues, Placement(s, s.current), c, s.current);
    assert Placement(p, Nil) == Placement(s, s.current)[s.current := c];
    forall t | 0 <= t < |p.status| ensures Local(p, t) { assert Local(s, t) && Local(s, s.current); }
    forall k | UserMutex(p, k) ensures MutexOk(p, k) { assert MutexOk(s, k); }
  }

  lemma WaitInv(s: State, c: nat, m: nat)
    requires Inv(s) && UserCond(s, c) && UserMutex(s, m) && s.doing[s.current] == User
    requires s.current == MAIN ==> s.owner[m] != MAIN
    ensures Inv(WaitStep(s, c, m, Waiting(c, m)).0)
  {
    var r := UnlockStep(s, m);
    if r.1 == Ok {
      UnlockInv(s, m);
      HandedAway(s, m);
      WaitBetween(r.0, c, m);
      ScheduleInv(Parked(r.0, c, Blocked, Waiting(c, m)));
    }
  }

  lemma HandedAway(s: State, m: nat)
    requires Inv(s) && UserMutex(s, m) && s.owner[m] == s.current
    ensures var r := UnlockStep(s, m).0; r.owner[m] != s.current && r.current == s.current && r.doing == s.doing
  {
    if s.queues[m] != [] {
      assert s.queues[m][0] in s.queues[m];
    }
  }
}
