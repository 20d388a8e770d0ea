/** Thread creation, exit and join keep the invariant of the thread library. */
module CoroThreads {
  import opened CoroState
  import opened CoroInvariant

  /** The exit mutex of a thread is never held or waited for between steps. */
  lemma ExitMutexIdle(s: State, t: nat)
    requires Rest(s) && Homes(s.queues, Placement(s, s.current)) && t < |s.status|
    ensures s.owner[ExitMutex(s, t)] == Nil && s.queues[ExitMutex(s, t)] == []
  {
    assert Local(s, t);
    var m := ExitMutex(s, t);
    forall u: nat | u < |s.status| ensures u !in s.queues[m] { assert Local(s, u); }
    FirstIn(s.queues[m]);
  }

  lemma FirstIn(q: seq<nat>)
    ensures q == [] || q[0] in q
  {
  }

  /** Only the joiner of t can be queued on its exit event, while t still runs or waits. */
  lemma ExitEventJoiner(s: State, t: nat, i: nat)
    requires Rest(s) && Homes(s.queues, Placement(s, s.current)) && t < |s.status| && i < |s.queues[ExitEvent(s, t)]|
    ensures var j := s.queues[ExitEvent(s, t)][i];
      && j != s.current && j != MAIN && s.status[j] == Blocked && s.doing[j] == Joining(t)
      && s.status[t] != Dead && s.status[t] != Exiting
  {
    var j := s.queues[ExitEvent(s, t)][i];
    assert j in s.queues[ExitEvent(s, t)] && Local(s, j);
  }

  lemma StopInv(s: State, t: nat)
    requires Inv(s) && t < |s.status| && t != s.current && s.status[t] == Exiting
    requires forall j :: 0 <= j < |s.doing| ==> s.doing[j] != Joining(t)
    ensures Inv(StopStep(s, t))
  {
    var r := StopStep(s, t);
    assert Local(s, t);
    HomesPush(s.queues, Placement(s, s.current), FREE, t);
    assert Placement(r, r.current) == Placement(s, s.current)[t := FREE];
    forall u | 0 <= u < |r.status| ensures Local(r, u) { assert Local(s, u); }
    forall m | UserMutex(r, m) ensures MutexOk(r, m) { assert MutexOk(s, m); }
  }

  // ---------------------------------------------------------------- exit

  /** Without a joiner the exiting thread leaves and nobody is woken. */
  lemma ExitAloneBetween(s: State)
    requires Inv(s) && s.current != MAIN && s.doing[s.current] == User && s.queues[ExitEvent(s, s.current)] == []
    ensures Between(s.(status := s.status[s.current := Exiting]))
  {
    var r := s.(status := s.status[s.current := Exiting]);
    assert Placement(r, Nil) == Placement(s, s.current);
    forall u | 0 <= u < |r.status| ensures Local(r, u) {
      assert Local(s, u) && Local(s, s.current);
      assert u in s.queues[ExitEvent(s, s.current)] <==> PlaceOf(s, s.current, u) == ExitEvent(s, s.current);
    }
    forall m | UserMutex(r, m) ensures MutexOk(r, m) { assert MutexOk(s, m); }
  }

  /** With one, the joiner is the only thread that waits for it, and it is woken. */
  lemma ExitJoinedBetween(s: State)
    requires Inv(s) && s.current != MAIN && s.doing[s.current] == User && s.queues[ExitEvent(s, s.current)] != []
    ensures Between(SignalStep(s.(status := s.status[s.current := Exiting]), ExitEvent(s, s.current)))
  {
    var e := ExitEvent(s, s.current);
    var x := s.(status := s.status[s.current := Exiting]);
    var r, j := SignalStep(x, e), s.queues[e][0];
    ExitEventJoiner(s, s.current, 0);
    HomesPop(s.queues, Placement(s, s.current), e);
    HomesPush(Pop(s.queues, e), Placement(s, s.current)[j := Nil], RUN, j);
    assert Placement(r, Nil) == Placement(s, s.current)[j := RUN];
    forall u | 0 <= u < |r.status| ensures Local(r, u) {
      assert Local(s, u) && Local(s, s.current);
      assert u != j ==> s.doing[u] != Joining(s.current);
    }
    forall m | UserMutex(r, m) ensures MutexOk(r, m) { assert MutexOk(s, m); }
  }

  lemma ExitInv(s: State)
    requires Inv(s) && s.current != MAIN && s.doing[s.current] == User
    ensures Inv(ExitStep(s))
  {
    if s.queues[ExitEvent(s, s.current)] == [] { ExitAloneBetween(s); } else { ExitJoinedBetween(s); }
    ScheduleInv(SignalStep(s.(status := s.status[s.current := Exiting]), ExitEvent(s, s.current)));
  }

  // ---------------------------------------------------------------- join

  lemma JoinBetween(s: State, t: nat)
    requires Inv(s) && s.current != MAIN && s.doing[s.current] == User && t < |s.status| && t != s.current
    requires s.status[t] == Runnable || s.status[t] == Blocked
    requires forall j :: 0 <= j < |s.doing| ==> s.doing[j] != Joining(t)
    ensures Between(Parked(s, ExitEvent(s, t), Blocked, Joining(t)))
  {
    var e := ExitEvent(s, t);
    var p := Parked(s, e, Blocked, Joining(t));
    HomesPush(s.queues, Placement(s, s.current), e, s.current);
    assert Placement(p, Nil) == Placement(s, s.current)[s.current := e];
    forall u | 0 <= u < |p.status| ensures Local(p, u) { assert Local(s, u) && Local(s, s.current); }
    forall m | UserMutex(p, m) ensures MutexOk(p, m) { assert MutexOk(s, m); }
  }

  lemma JoinInv(s: State, t: nat)
    requires Inv(s) && s.doing[s.current] == User && Enabled(s, OpJoin(t))
    ensures Inv(JoinStep(s, t).0)
  {
    if t < |s.status| && t != s.current {
      if s.status[t] == Exiting {
        StopInv(s, t);
      } else if s.status[t] != Dead {
        ExitMutexIdle(s, t);
        var m := ExitMutex(s, t);
        var locked := s.(owner := s.owner[m := s.current]);
        assert locked.(owner := locked.owner[m := Nil]) == s;
        JoinBetween(s, t);
        ScheduleInv(Parked(s, ExitEvent(s, t), Blocked, Joining(t)));
      }
    }
  }

  /** A joiner that is scheduled again finds the exit mutex free and its target exiting. */
  lemma ResumeJoinInv(s: State)
    requires Inv(s) && s.doing[s.current].Joining?
    ensures var t := s.doing[s.current].target;
      && t < |s.status| && s.status[t] == Exiting && ResumeStep(s).1 == Ok
      && Inv(ResumeStep(s).0) && ResumeStep(s).0.status[t] == Dead
  {
    var t, back := s.doing[s.current].target, s.(doing := s.doing[s.current := User]);
    assert Local(s, s.current);
    BackInv(s);
    ExitMutexIdle(back, t);
    var m := ExitMutex(s, t);
    var locked := back.(owner := back.owner[m := s.current]);
    assert locked.(owner := locked.owner[m := Nil]) == back;
    StopInv(back, t);
  }

  /** A scheduled thread may forget what it was suspended for, unless that is a mutex. */
  lemma BackInv(s: State)
    requires Inv(s) && s.doing[s.current] != User
    ensures Inv(s.(doing := s.doing[s.current := User]))
  {
    var r := s.(doing := s.doing[s.current := User]);
    assert Placement(r, r.current) == Placement(s, s.current);
    forall u | 0 <= u < |r.status| ensures Local(r, u) { assert Local(s, u) && Local(s, s.current); }
    forall m | UserMutex(r, m) ensures MutexOk(r, m) { assert MutexOk(s, m); }
  }

  // ---------------------------------------------------------------- creation

  lemma HomesGrow(queues: seq<seq<nat>>, place: seq<int>)
    requires Homes(queues, place) && |queues| >= FIRST
    ensures Homes(Push(queues, FREE, |place|) + [[], []], place + [FREE])
  {
    var t := |place|;
    assert t !in queues[FREE];
    var q', place' := Push(queues, FREE, t) + [[], []], place + [FREE];
    forall q, u: nat | 0 <= q < |q'| ensures u in q'[q] <==> u < |place'| && place'[u] == q {
      assert q < |queues| ==> (u in queues[q] <==> u < |place| && place[u] == q);
    }
  }

  lemma AddThreadInv(s: State)
    requires Inv(s)
    ensures Inv(AddThread(s)) && AddThread(s).queues[FREE] != []
  {
    var r := AddThread(s);
    HomesGrow(s.queues, Placement(s, s.current));
    assert Placement(r, r.current) == Placement(s, s.current) + [FREE];
    forall u | 0 <= u < |r.status| ensures Local(r, u) { assert u < |s.status| ==> Local(s, u); }
    forall m | UserMutex(r, m) ensures MutexOk(r, m) { assert MutexOk(s, m); }
  }

  lemma {:induction false} AddThreadsInv(s: State, k: nat)
    requires Inv(s)
    ensures Inv(AddThreads(s, k)) && (k > 0 || s.queues[FREE] != [] ==> AddThreads(s, k).queues[FREE] != [])
    decreases k
  {
    if k > 0 {
      AddThreadInv(s);
      AddThreadsInv(AddThread(s), k - 1);
    }
  }

  /** Initializing the exit mutex and event of a free thread loses nobody: their queues are
      empty. */
  lemma StartIsMove(s: State)
    requires Inv(s) && s.queues[FREE] != []
    ensures var t := s.queues[FREE][0];
      && t != s.current && t != MAIN && s.status[t] == Dead
      && s.owner[ExitMutex(s, t)] == Nil && s.queues[ExitMutex(s, t)] == [] && s.queues[ExitEvent(s, t)] == []
      && Start(s) == Woken(s.(queues := Pop(s.queues, FREE)), t)
  {
    var t := s.queues[FREE][0];
    assert t in s.queues[FREE] && Local(s, t);
    ExitMutexIdle(s, t);
    if s.queues[ExitEvent(s, t)] != [] { ExitEventJoiner(s, t, 0); }
    var popped := Pop(s.queues, FREE);
    assert popped[ExitMutex(s, t) := []][ExitEvent(s, t) := []] == popped;
    assert s.owner[ExitMutex(s, t) := Nil] == s.owner;
  }

  lemma StartInv(s: State)
    requires Inv(s) && s.queues[FREE] != []
    ensures Inv(Start(s))
  {
    StartIsMove(s);
    var r, t := Start(s), s.queues[FREE][0];
    HomesPop(s.queues, Placement(s, s.current), FREE);
    HomesPush(Pop(s.queues, FREE), Placement(s, s.current)[t := Nil], RUN, t);
    assert Placement(r, r.current) == Placement(s, s.current)[t := RUN];
    forall u | 0 <= u < |r.status| ensures Local(r, u) { assert Local(s, u) && Local(s, t); }
    forall m | UserMutex(r, m) ensures MutexOk(r, m) { assert MutexOk(s, m); }
  }

  lemma GrownStartInv(s: State, k: nat)
    requires Inv(s) && k > 0
    ensures AddThreads(s, k).queues[FREE] != [] && Inv(Start(AddThreads(s, k)))
  {
    AddThreadsInv(s, k);
    StartInv(AddThreads(s, k));
  }

  /** Creation fails only with no free thread left and the pool at its limit. */
  lemma CreateInv(s: State)
    requires Inv(s)
    ensures Inv(CreateStep(s).0)
    ensures || CreateStep(s).1 == Ok
            || (CreateStep(s) == (s, Again) && s.queues[FREE] == [] && PoolSize(|s.status| - 1) >= MAX_THREADS)
  {
    var n := |s.status| - 1;
    if s.queues[FREE] != [] {
      StartInv(s);
    } else if PoolSize(n) < MAX_THREADS {
      GrownStartInv(s, PoolSize(n) - n);
    }
  }
}
