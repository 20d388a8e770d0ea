/** A thread that holds the readers/writer lock, or is suspended in it, has not exited, as long as no
    thread exits while it has to do with the lock. */
module RwHolders {
  import opened CoroState
  import opened CoroInvariant
  import opened CoroFrame
  import opened CoroRuns
  import opened CoroThreads
  import opened RwLock
  import opened RwProgress

  predicate Present(status: Status) {
    status == Runnable || status == Blocked
  }

  /** Nobody who is present leaves, except perhaps thread x. */
  ghost predicate Remain(s: State, r: State, x: int) {
    |s.status| <= |r.status| && forall t :: 0 <= t < |s.status| && t != x && Present(s.status[t]) ==>
         Present(r.status[t])
  }

  // ---------------------------------------------------------------- steps of the thread library

  lemma ParkedRemain(s: State, q: nat, status: Status, doing: Doing)
    requires Shape(s) && q < |s.queues| && Present(status)
    ensures Remain(s, Schedule(Parked(s, q, status, doing)), Nil)
  {
  }

  lemma LockRemain(s: State, m: nat)
    requires Shape(s) && m < |s.queues|
    ensures Remain(s, LockStep(s, m).0, Nil)
  {
    ParkedRemain(s, m, Blocked, Locking(m));
  }

  lemma WaitRemain(s: State, c: nat, m: nat, doing: Doing)
    requires Shape(s) && c < |s.queues| && m < |s.queues|
    ensures Remain(s, WaitStep(s, c, m, doing).0, Nil)
  {
    ParkedRemain(UnlockStep(s, m).0, c, Blocked, doing);
  }

  lemma {:induction false} BroadcastRemain(s: State, c: nat)
    requires Shape(s) && c < |s.queues| && c != RUN
    ensures Remain(s, BroadcastStep(s, c), Nil)
    decreases |s.queues[c]|
  {
    if s.queues[c] != [] { BroadcastRemain(SignalStep(s, c), c); }
  }

  lemma {:induction false} AddThreadsRemain(s: State, k: nat)
    requires Shape(s)
    ensures Remain(s, AddThreads(s, k), Nil)
    decreases k
  {
    if k > 0 { AddThreadsRemain(AddThread(s), k - 1); }
  }

  lemma CreateRemain(s: State)
    requires Shape(s)
    ensures Remain(s, CreateStep(s).0, Nil)
  {
    var n := |s.status| - 1;
    AddThreadsRemain(s, PoolSize(n) - n);
  }

  lemma JoinRemain(s: State, t: nat)
    requires Shape(s)
    ensures Remain(s, JoinStep(s, t).0, Nil)
  {
    if t < |s.status| && t != s.current && s.status[t] != Dead && s.status[t] != Exiting {
      var (r, code) := TryLockStep(s, ExitMutex(s, t));
      WaitRemain(r, ExitEvent(s, t), ExitMutex(s, t), Joining(t));
    }
  }

  lemma ResumeRemain(s: State)
    requires Inv(s) && Resumable(s)
    ensures Remain(s, ResumeStep(s).0, Nil)
  {
    assert Local(s, s.current);
    var back := s.(doing := s.doing[s.current := User]);
    match s.doing[s.current]
    case Waiting(_, m) => LockRemain(back, m);
    case Joining(t) =>
      var locked := TryLockStep(back, ExitMutex(s, t)).0;
      StopRemain(UnlockStep(locked, ExitMutex(s, t)).0, t, s);
    case _ =>
  }

  lemma StopRemain(r: State, t: nat, s: State)
    requires Shape(r) && t < |s.status| == |r.status| && !Present(s.status[t]) && Remain(s, r, Nil)
    ensures Remain(s, StopStep(r, t), Nil)
  {
  }

  lemma ExitRemain(s: State)
    requires Shape(s)
    ensures Remain(s, ExitStep(s), s.current)
  {
  }

  lemma StepRemain(s: State, op: Op)
    requires Inv(s) && Enabled(s, op)
    ensures Remain(s, Next(s, op).0, if op == OpExit then s.current else Nil)
  {
    match op
    case OpTryLock(_) =>
    case OpLock(m) => LockRemain(s, m);
    case OpUnlock(_) =>
    case OpWait(c, m) => WaitRemain(s, c, m, Waiting(c, m));
    case OpSignal(_) =>
    case OpBroadcast(c) => BroadcastRemain(s, c);
    case OpYield => ParkedRemain(s, RUN, Runnable, s.doing[s.current]);
    case OpExit => ExitRemain(s);
    case OpJoin(t) => JoinRemain(s, t);
    case OpCreate => CreateRemain(s);
    case OpResume => ResumeRemain(s);
  }

  // ---------------------------------------------------------------- steps of the lock

  /** The thread has to do with the lock: it holds it, or is suspended in it. */
  ghost predicate Involved(w: Rw, t: nat)
    requires Ids(w) && t < |w.phase|
  {
    w.holds[t] > 0 || w.phase[t] != Outside
  }

  ghost predicate There(w: Rw) {
    Ids(w) && forall t :: 0 <= t < |w.phase| && t != MAIN && Involved(w, t) ==> Present(w.co.status[t])
  }

  /** Exits while it has to do with the lock. */
  ghost predicate WalksOff(w: Rw, op: RwOp) {
    Ids(w) && op == Other(OpExit) && Involved(w, w.co.current)
  }

  lemma WrFinishRemain(w: Rw)
    requires Inside(w)
    ensures Remain(w.co, WrFinish(w).0.co, Nil)
  {
    if w.readers > 0 {
      TakeAndGive(w.co, w.mx);
      ParkedRemain(w.co, w.wq, Blocked, Waiting(w.wq, w.mx));
    }
  }

  lemma AskRemain(w: Rw, write: bool)
    requires RwInv(w) && MayAsk(w, write)
    ensures Remain(w.co, (if write then WrStep(w) else RdStep(w)).0.co, Nil)
  {
    LockRemain(w.co, w.rq);
    if LockStep(w.co, w.rq).1 == Ok {
      TakenInside(w);
      if write { WrFinishRemain(w.(co := LockStep(w.co, w.rq).0)); }
    }
  }

  lemma UnRemain(w: Rw)
    requires RwInv(w) && MayUnlock(w)
    ensures Remain(w.co, UnStep(w).0.co, Nil)
  {
    TakeAndGive(w.co, w.mx);
    SignalUnderMutex(w.co, w.wq, w.mx);
  }

  lemma LetInRemain(w: Rw)
    requires RwInv(w) && (w.phase[w.co.current] == RdWait || w.phase[w.co.current] == WrWait)
    ensures Resumable(w.co) && Remain(w.co, GoStep(w).0.co, Nil)
  {
    HandedInside(w);
    assert RwLocal(w, w.co.current);
    var v := w.(co := ResumeStep(w.co).0);
    WrFinishRemain(v);
  }

  lemma WokenRemain(w: Rw)
    requires RwInv(w) && w.phase[w.co.current] == WrCond
    ensures Resumable(w.co) && Remain(w.co, GoStep(w).0.co, Nil)
  {
    var t, back := w.co.current, w.co.(doing := w.co.doing[w.co.current := User]);
    assert RwLocal(w, t) && Local(w.co, t);
    BackInv(w.co);
    TakeAndGive(back, w.mx);
  }

  lemma RwRemain(w: Rw, op: RwOp)
    requires RwInv(w) && RwEnabled(w, op)
    ensures Remain(w.co, RwNext(w, op).0.co, if op == Other(OpExit) then w.co.current else Nil)
  {
    match op
    case RdLock => AskRemain(w, false);
    case WrLock => AskRemain(w, true);
    case Unlock => UnRemain(w);
    case Go => if w.phase[w.co.current] == WrCond { WokenRemain(w); } else { LetInRemain(w); }
    case Other(o) => StepRemain(w.co, o);
  }

  ghost predicate Moves(w: Rw, v: Rw)
    requires Ids(w)
  {
    && Ids(v)
    && var l, m, t := LineOf(w), LineOf(v), w.co.current;
       Stays(l, m, t) || Leaves(l, m, t) || Advances(l, m, t) || Joins(l, m, t, RdWait) || Joins(l, m, t, WrWait)
  }

  lemma AskMoves(w: Rw, write: bool)
    requires RwInv(w) && MayAsk(w, write)
    ensures Moves(w, (if write then WrStep(w) else RdStep(w)).0)
  {
    var code := LockStep(w.co, w.rq).1;
    assert RwLocal(w, w.co.current);
    if code == Switched {
      AskLine(w, write);
    } else if !write {
      RdLine(w);
    } else if code == Ok {
      WrLine(w);
    }
  }

  lemma UnMoves(w: Rw)
    requires RwInv(w) && MayUnlock(w)
    ensures Moves(w, UnStep(w).0)
  {
    if w.writer == w.co.current {
      WriterLeavesLine(w);
    } else if w.readers == 1 && w.writer != Nil {
      LastReaderLine(w);
    } else {
      ReaderLeavesLine(w);
    }
  }

  lemma GoMoves(w: Rw)
    requires RwInv(w) && w.phase[w.co.current] != Outside && w.phase[w.co.current] != Writing
    ensures Resumable(w.co) && Moves(w, GoStep(w).0)
  {
    match w.phase[w.co.current]
    case RdWait => LetInLine(w);
    case WrWait => LetInWriterLine(w);
    case WrCond => WokenLine(w);
  }

  lemma NextMoves(w: Rw, op: RwOp)
    requires RwInv(w) && RwEnabled(w, op)
    ensures Moves(w, RwNext(w, op).0)
  {
    match op
    case RdLock => AskMoves(w, false);
    case WrLock => AskMoves(w, true);
    case Unlock => UnMoves(w);
    case Go => GoMoves(w);
    case Other(o) => OtherLine(w, o);
  }

  /** Only the caller can become involved. */
  lemma NewlyInvolved(w: Rw, v: Rw, t: nat)
    requires Ids(w) && Moves(w, v) && t < |v.phase| && Involved(v, t) && t != w.co.current
    ensures t < |w.phase| && Involved(w, t)
  {
  }

  lemma ThereNext(w: Rw, op: RwOp)
    requires RwInv(w) && There(w) && RwEnabled(w, op) && !WalksOff(w, op)
    ensures There(RwNext(w, op).0)
  {
    var v, c := RwNext(w, op).0, w.co.current;
    RwNextInv(w, op);
    RwRemain(w, op);
    NextMoves(w, op);
    forall t | 0 <= t < |v.phase| && t != MAIN && Involved(v, t) ensures Present(v.co.status[t]) {
      if t != c { NewlyInvolved(w, v, t); }
    }
  }

  lemma {:induction false} RunThere(run: seq<Rw>, ops: seq<RwOp>, i: nat)
    requires RwRun(run, ops) && i < |run| && forall k :: 0 <= k < i ==> !WalksOff(run[k], ops[k])
    ensures There(run[i])
  {
    if i > 0 {
      RunThere(run, ops, i - 1);
      RwRunInv(run, ops, i - 1);
      assert RwFollows(run[i - 1], ops[i - 1], run[i]);
      ThereNext(run[i - 1], ops[i - 1]);
    }
  }

  /** While nobody asks for the lock in vain or walks off with it, a thread suspended in the lock has
      another that can let it go on and has not exited. */
  lemma HelperPresent(run: seq<Rw>, ops: seq<RwOp>, i: nat, t: nat) returns (u: nat)
    requires RwRun(run, ops) && i < |run| && Ids(run[i]) && t < |run[i].phase|
    requires forall k :: 0 <= k < i ==> !SelfAsk(run[k], ops[k]) && !WalksOff(run[k], ops[k])
    requires run[i].co.status[t] == Blocked && run[i].phase[t] != Outside && run[i].phase[t] != Writing
    ensures CanHelp(run[i], t, u) && (u == MAIN || Present(run[i].co.status[u]))
  {
    u := NobodyStranded(run, ops, i, t);
    RunThere(run, ops, i);
  }
}
