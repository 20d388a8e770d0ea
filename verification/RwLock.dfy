/** The readers/writer lock of the thread library (lib/libcoro/rwlock.c) as a client of the mutexes
    and condition variables it is made of, under the library's own scheduler and next to any other
    activity of the threads. */
module RwLock {
  import opened CoroState
  import opened CoroInvariant
  import opened CoroThreads
  import opened CoroRuns
  import opened CoroFrame

  /** Where a thread is: outside, suspended for the reader queue in a read or a write request,
      suspended until the readers have left, or holding the lock for writing. */
  datatype Phase = Outside | RdWait | WrWait | WrCond | Writing

  /** rq, mx and wq are the embedded reader_queue, mutex and writer_queue. holds[t] is the number
      of read locks thread t has. */
  datatype Rw = Rw(co: State, rq: nat, mx: nat, wq: nat, readers: nat, writer: int, phase: seq<Phase>, holds: seq<nat>)

  function Sum(a: seq<nat>): nat {
    if a == [] then 0 else a[0] + Sum(a[1..])
  }

  lemma {:induction false} SumUpdate(a: seq<nat>, i: nat, v: nat)
    requires i < |a|
    ensures Sum(a[i := v]) == Sum(a) - a[i] + v && a[i] <= Sum(a)
  {
    if i > 0 {
      SumUpdate(a[1..], i - 1, v);
      assert a[i := v][1..] == a[1..][i - 1 := v];
    } else {
      assert a[0 := v][1..] == a[1..];
    }
  }

  lemma {:induction false} SumPositive(a: seq<nat>)
    ensures Sum(a) > 0 <==> exists i :: 0 <= i < |a| && a[i] > 0
  {
    if a != [] {
      SumPositive(a[1..]);
      if Sum(a[1..]) > 0 {
        var i :| 0 <= i < |a[1..]| && a[1..][i] > 0;
        assert a[i + 1] > 0;
      }
      forall i | 0 < i < |a| && a[i] > 0 ensures Sum(a[1..]) > 0 { assert a[1..][i - 1] > 0; }
    }
  }

  lemma {:induction false} SumPad(a: seq<nat>, k: nat)
    ensures Sum(a + seq(k, _ => 0)) == Sum(a)
    decreases |a| + k
  {
    var z := seq(k, _ => 0);
    if a != [] {
      SumPad(a[1..], k);
      assert (a + z)[1..] == a[1..] + z;
    } else if k > 0 {
      SumPad([], k - 1);
      assert a + z == z && z[1..] == [] + seq(k - 1, _ => 0);
    } else {
      assert a + z == a;
    }
  }

  // ---------------------------------------------------------------- the invariant

  ghost predicate Ids(w: Rw) {
    && UserMutex(w.co, w.rq) && UserMutex(w.co, w.mx) && w.rq != w.mx && UserCond(w.co, w.wq)
    && Shape(w.co) && |w.phase| == |w.holds| == |w.co.status|
  }

  /** The thread is not suspended in the lock. */
  ghost predicate Foreign(w: Rw, d: Doing) {
    && d != Locking(w.rq) && d != Locking(w.mx)
    && (d.Waiting? ==> d.c != w.wq && d.mutex != w.rq && d.mutex != w.mx)
  }

  ghost predicate RwLocal(w: Rw, t: nat)
    requires Ids(w) && t < |w.phase|
  {
    match w.phase[t]
    case Outside => Foreign(w, w.co.doing[t]) && w.co.owner[w.rq] != t
    case RdWait => w.co.doing[t] == Locking(w.rq)
    case WrWait => w.co.doing[t] == Locking(w.rq)
    case WrCond =>
      && w.co.doing[t] == Waiting(w.wq, w.mx) && w.co.owner[w.rq] == t && w.writer == t
      && (w.co.status[t] == Blocked <==> w.readers > 0)
    case Writing => Foreign(w, w.co.doing[t]) && w.co.owner[w.rq] == t && w.writer == t && w.readers == 0
  }

  ghost predicate WriterOk(w: Rw)
    requires Ids(w)
  {
    w.writer == Nil || (0 <= w.writer < |w.phase| && (w.phase[w.writer] == WrCond || w.phase[w.writer] == Writing))
  }

  ghost predicate RwInv(w: Rw) {
    && Ids(w) && Inv(w.co) && w.co.owner[w.mx] == Nil && w.readers == Sum(w.holds) && WriterOk(w)
    && forall t :: 0 <= t < |w.phase| ==> RwLocal(w, t)
  }

  /** The current thread has taken the reader queue and is about to go on. */
  ghost predicate Inside(w: Rw) {
    && Ids(w) && Inv(w.co) && w.co.owner[w.mx] == Nil && w.readers == Sum(w.holds) && w.writer == Nil
    && w.co.owner[w.rq] == w.co.current && w.co.doing[w.co.current] == User
    && forall t :: 0 <= t < |w.phase| && t != w.co.current ==> RwLocal(w, t)
  }

  // ---------------------------------------------------------------- the operations

  ghost function Enter(w: Rw, p: Phase): Rw
    requires Ids(w)
  {
    w.(phase := w.phase[w.co.current := p])
  }

  /** The end of coro_rwlock_rdlock: the reader queue is released and the reader counted. */
  ghost function RdFinish(w: Rw): (Rw, Code)
    requires Ids(w)
  {
    var (co, code) := UnlockStep(w.co, w.rq);
    if code != Ok then (w.(co := co), code)
    else
      var t := w.co.current;
      (Enter(w, Outside).(co := co, readers := w.readers + 1, holds := w.holds[t := w.holds[t] + 1]), Ok)
  }

  /** coro_rwlock_rdlock. */
  ghost function RdStep(w: Rw): (Rw, Code)
    requires Ids(w)
  {
    var (co, code) := LockStep(w.co, w.rq);
    if code == Switched then (Enter(w, RdWait).(co := co), code)
    else if code != Ok then (w, code)
    else RdFinish(w.(co := co))
  }

  /** coro_rwlock_wrlock with the reader queue in hand. */
  ghost function WrFinish(w: Rw): (Rw, Code)
    requires Ids(w)
  {
    var v := w.(writer := w.co.current);
    if w.readers == 0 then (Enter(v, Writing), Ok)
    else
      var (locked, code) := LockStep(w.co, w.mx);
      if code != Ok then (v.(co := locked), code)
      else
        var (co, waited) := WaitStep(locked, w.wq, w.mx, Waiting(w.wq, w.mx));
        (Enter(v, WrCond).(co := co), waited)
  }

  /** coro_rwlock_wrlock. */
  ghost function WrStep(w: Rw): (Rw, Code)
    requires Ids(w)
  {
    var (co, code) := LockStep(w.co, w.rq);
    if code == Switched then (Enter(w, WrWait).(co := co), code)
    else if code != Ok then (w, code)
    else WrFinish(w.(co := co))
  }

  /** The rest of a request in which the scheduled thread was suspended. */
  ghost function GoStep(w: Rw): (Rw, Code)
    requires Ids(w) && Resumable(w.co)
  {
    var (co, code) := ResumeStep(w.co);
    match w.phase[w.co.current]
    case RdWait => RdFinish(w.(co := co))
    case WrWait => WrFinish(w.(co := co))
    case WrCond =>
      if code != Ok then (w.(co := co), code)
      else
        var (left, released) := UnlockStep(co, w.mx);
        (Enter(w, Writing).(co := left), released)
    case _ => (w, code)
  }

  /** The last reader wakes the waiting writer, under the mutex. */
  ghost function WakeWriter(w: Rw): (Rw, Code)
    requires Ids(w)
  {
    var (locked, code) := LockStep(w.co, w.mx);
    if code != Ok then (w.(co := locked), code)
    else
      var (co, released) := UnlockStep(SignalStep(locked, w.wq), w.mx);
      (w.(co := co), released)
  }

  /** coro_rwlock_unlock. */
  ghost function UnStep(w: Rw): (Rw, Code)
    requires Ids(w) && (w.readers > 0 && w.writer != w.co.current ==> w.holds[w.co.current] > 0)
  {
    var t := w.co.current;
    if w.writer == t then
      var (co, code) := UnlockStep(w.co, w.rq);
      (Enter(w, Outside).(writer := Nil, co := co), code)
    else if w.readers == 0 then (w, Perm)
    else
      var v := w.(readers := w.readers - 1, holds := w.holds[t := w.holds[t] - 1]);
      if v.readers == 0 && v.writer != Nil then WakeWriter(v) else (v, Ok)
  }

  /** Any other step of the thread library; new threads start outside. */
  ghost function OtherStep(w: Rw, op: Op): (Rw, Code)
    requires Ids(w) && Enabled(w.co, op)
  {
    var (co, code) := Next(w.co, op);
    (Grown(w, co), code)
  }

  ghost function Grown(w: Rw, co: State): Rw {
    var more := if |co.status| > |w.phase| then |co.status| - |w.phase| else 0;
    w.(co := co, phase := w.phase + seq(more, _ => Outside), holds := w.holds + seq(more, _ => 0))
  }

  // ---------------------------------------------------------------- read and write requests

  lemma ReleaseRq(w: Rw)
    requires Inside(w)
    ensures var (co, code) := UnlockStep(w.co, w.rq); code == Ok && RwInv(Enter(w, Outside).(co := co))
  {
    var co, t := UnlockStep(w.co, w.rq).0, w.co.current;
    var v := Enter(w, Outside).(co := co);
    UnlockInv(w.co, w.rq);
    UnlockFrame(w.co, w.rq, w.mx);
    var h := co.owner[w.rq];
    if h != Nil { assert h in w.co.queues[w.rq] && Local(w.co, h); }
    forall u | 0 <= u < |v.phase| ensures RwLocal(v, u) { assert u != t ==> RwLocal(w, u); }
  }

  lemma RdFinishInv(w: Rw)
    requires Inside(w)
    ensures RdFinish(w).1 == Ok && RwInv(RdFinish(w).0)
  {
    ReleaseRq(w);
    var t := w.co.current;
    SumUpdate(w.holds, t, w.holds[t] + 1);
    var (co, code) := UnlockStep(w.co, w.rq);
    var mid, v := Enter(w, Outside).(co := co), RdFinish(w).0;
    forall u | 0 <= u < |v.phase| ensures RwLocal(v, u) { assert RwLocal(mid, u); }
  }

  lemma WrParkInv(w: Rw)
    requires Inside(w) && w.readers > 0 && w.co.current != MAIN
    ensures WrFinish(w).1 == Switched && RwInv(WrFinish(w).0)
  {
    var v, t := WrFinish(w).0, w.co.current;
    TakeAndGive(w.co, w.mx);
    var parked := Parked(w.co, w.wq, Blocked, Waiting(w.wq, w.mx));
    WaitBetween(w.co, w.wq, w.mx);
    ScheduleInv(parked);
    ScheduleFrame(parked, w.rq);
    ScheduleFrame(parked, w.mx);
    assert v.co == Schedule(parked);
    forall u | 0 <= u < |v.phase| ensures RwLocal(v, u) { assert u != t ==> RwLocal(w, u); }
  }

  lemma WrFinishInv(w: Rw)
    requires Inside(w) && (w.co.current == MAIN ==> w.readers == 0)
    ensures RwInv(WrFinish(w).0) && (WrFinish(w).1 == Ok || WrFinish(w).1 == Switched)
  {
    if w.readers > 0 {
      WrParkInv(w);
    } else {
      var v, t := WrFinish(w).0, w.co.current;
      forall u | 0 <= u < |v.phase| ensures RwLocal(v, u) { assert u != t ==> RwLocal(w, u); }
    }
  }

  /** The current thread outside takes the free reader queue. */
  lemma TakenInside(w: Rw)
    requires RwInv(w) && w.co.doing[w.co.current] == User && LockStep(w.co, w.rq).1 == Ok
    ensures Inside(w.(co := LockStep(w.co, w.rq).0))
  {
    var v := w.(co := LockStep(w.co, w.rq).0);
    TryLockInv(w.co, w.rq);
    assert w.writer != Nil ==> RwLocal(w, w.writer);
    forall u | 0 <= u < |v.phase| && u != w.co.current ensures RwLocal(v, u) { assert RwLocal(w, u); }
  }

  /** The current thread outside queues for the reader queue. */
  lemma QueuedInv(w: Rw, p: Phase)
    requires RwInv(w) && w.co.doing[w.co.current] == User && w.co.current != MAIN && LockStep(w.co, w.rq).1 == Switched
    requires p == RdWait || p == WrWait
    ensures RwInv(Enter(w, p).(co := LockStep(w.co, w.rq).0))
  {
    var v, t := Enter(w, p).(co := LockStep(w.co, w.rq).0), w.co.current;
    LockInv(w.co, w.rq);
    ScheduleFrame(Asking(w.co, w.rq), w.rq);
    ScheduleFrame(Asking(w.co, w.rq), w.mx);
    assert RwLocal(w, t) && v.co.doing == w.co.doing[t := Locking(w.rq)] && v.co.owner == w.co.owner;
    forall u | 0 <= u < |v.phase| ensures RwLocal(v, u) { assert u != t ==> RwLocal(w, u); }
  }

  /** What the callers promise: the main thread asks only when it need not wait. */
  ghost predicate MayAsk(w: Rw, write: bool)
    requires Ids(w)
  {
    && w.co.doing[w.co.current] == User
    && (w.co.current == MAIN ==> (w.co.owner[w.rq] == Nil && (write ==> w.readers == 0)) || w.co.owner[w.rq] == MAIN)
  }

  lemma RdInv(w: Rw)
    requires RwInv(w) && MayAsk(w, false)
    ensures RwInv(RdStep(w).0)
  {
    var (co, code) := LockStep(w.co, w.rq);
    if code == Switched {
      QueuedInv(w, RdWait);
    } else if code == Ok {
      TakenInside(w);
      RdFinishInv(w.(co := co));
    }
  }

  lemma WrInv(w: Rw)
    requires RwInv(w) && MayAsk(w, true)
    ensures RwInv(WrStep(w).0)
  {
    var (co, code) := LockStep(w.co, w.rq);
    if code == Switched {
      QueuedInv(w, WrWait);
    } else if code == Ok {
      TakenInside(w);
      WrFinishInv(w.(co := co));
    }
  }

  // ---------------------------------------------------------------- after a suspension

  /** A thread handed the reader queue is inside. */
  lemma HandedInside(w: Rw)
    requires RwInv(w) && (w.phase[w.co.current] == RdWait || w.phase[w.co.current] == WrWait)
    ensures Resumable(w.co) && w.co.current != MAIN && ResumeStep(w.co).0.current == w.co.current
    ensures Inside(w.(co := ResumeStep(w.co).0))
  {
    var t := w.co.current;
    assert RwLocal(w, t) && Local(w.co, t);
    BackInv(w.co);
    var v := w.(co := ResumeStep(w.co).0);
    assert w.writer != Nil ==> RwLocal(w, w.writer);
    forall u | 0 <= u < |v.phase| && u != t ensures RwLocal(v, u) { assert RwLocal(w, u); }
  }

  /** A writer that is scheduled again finds no reader left. */
  lemma WokenWriterInv(w: Rw)
    requires RwInv(w) && w.phase[w.co.current] == WrCond
    ensures Resumable(w.co) && GoStep(w).1 == Ok && RwInv(GoStep(w).0) && GoStep(w).0.phase[w.co.current] == Writing
  {
    var t, back := w.co.current, w.co.(doing := w.co.doing[w.co.current := User]);
    assert RwLocal(w, t) && Local(w.co, t);
    BackInv(w.co);
    TakeAndGive(back, w.mx);
    var v := GoStep(w).0;
    assert v == Enter(w, Writing).(co := back);
    forall u | 0 <= u < |v.phase| ensures RwLocal(v, u) { assert RwLocal(w, u); }
  }

  lemma GoInv(w: Rw)
    requires RwInv(w) && w.phase[w.co.current] != Outside && w.phase[w.co.current] != Writing
    ensures Resumable(w.co) && RwInv(GoStep(w).0)
    ensures w.phase[w.co.current] == RdWait ==> GoStep(w).1 == Ok
  {
    match w.phase[w.co.current]
    case RdWait =>
      HandedInside(w);
      RdFinishInv(w.(co := ResumeStep(w.co).0));
    case WrWait =>
      HandedInside(w);
      WrFinishInv(w.(co := ResumeStep(w.co).0));
    case WrCond => WokenWriterInv(w);
  }

  // ---------------------------------------------------------------- unlocking

  lemma WriterLeavesInv(w: Rw)
    requires RwInv(w) && w.co.doing[w.co.current] == User && w.writer == w.co.current
    ensures UnStep(w).1 == Ok && RwInv(UnStep(w).0)
  {
    var v, t := w.(writer := Nil), w.co.current;
    assert RwLocal(w, t);
    forall u | 0 <= u < |v.phase| && u != t ensures RwLocal(v, u) { assert RwLocal(w, u); }
    ReleaseRq(v);
  }

  /** A waiting writer is alone on the writer queue while there are readers. */
  lemma WriterQueue(w: Rw)
    requires RwInv(w) && w.readers > 0 && w.writer != Nil
    ensures w.phase[w.writer] == WrCond && w.co.status[w.writer] == Blocked && w.co.queues[w.wq] == [w.writer]
  {
    var u, q := w.writer, w.co.queues[w.wq];
    assert RwLocal(w, u) && Local(w.co, u);
    assert u in q;
    forall i | 0 <= i < |q| ensures q[i] == u { assert q[i] in q && RwLocal(w, q[i]) && Local(w.co, q[i]); }
    AllSame(q, u);
  }

  lemma AllSame(q: seq<nat>, u: nat)
    requires forall i :: 0 <= i < |q| ==> q[i] == u
    ensures NoDup(q) ==> |q| <= 1
  {
    if |q| > 1 { assert q[0] == q[1]; }
  }

  lemma LastReaderInv(w: Rw)
    requires RwInv(w) && w.readers == 1 && w.writer != Nil && w.holds[w.co.current] > 0 && w.writer != w.co.current
    ensures UnStep(w).1 == Ok && RwInv(UnStep(w).0)
  {
    var t, u := w.co.current, w.writer;
    WriterQueue(w);
    SumUpdate(w.holds, t, w.holds[t] - 1);
    TakeAndGive(w.co, w.mx);
    SignalInv(w.co, w.wq);
    SignalUnderMutex(w.co, w.wq, w.mx);
    var v := UnStep(w).0;
    assert v.co == SignalStep(w.co, w.wq) && v.co.status == w.co.status[u := Runnable];
    forall x | 0 <= x < |v.phase| ensures RwLocal(v, x) { assert RwLocal(w, x); }
  }

  lemma ReaderLeavesInv(w: Rw)
    requires RwInv(w) && w.readers > 0 && w.holds[w.co.current] > 0 && w.writer != w.co.current
    requires w.readers > 1 || w.writer == Nil
    ensures UnStep(w).1 == Ok && RwInv(UnStep(w).0)
  {
    var v, t := UnStep(w).0, w.co.current;
    SumUpdate(w.holds, t, w.holds[t] - 1);
    forall u | 0 <= u < |v.phase| ensures RwLocal(v, u) { assert RwLocal(w, u); }
  }

  /** What the callers promise: only a holder unlocks, or there is no reader and the call fails. */
  ghost predicate MayUnlock(w: Rw)
    requires Ids(w)
  {
    && w.co.doing[w.co.current] == User
    && (w.readers > 0 && w.writer != w.co.current ==> w.holds[w.co.current] > 0)
  }

  lemma UnInv(w: Rw)
    requires RwInv(w) && MayUnlock(w)
    ensures RwInv(UnStep(w).0)
    ensures UnStep(w).1 == Ok <==> w.phase[w.co.current] == Writing || w.readers > 0
  {
    assert RwLocal(w, w.co.current);
    if w.writer == w.co.current {
      WriterLeavesInv(w);
    } else if w.readers > 0 {
      if w.readers == 1 && w.writer != Nil { LastReaderInv(w); } else { ReaderLeavesInv(w); }
    }
  }

  // ---------------------------------------------------------------- other steps

  /** The rest of the program leaves the three embedded objects to the lock. */
  ghost predicate MayStep(w: Rw, op: Op)
    requires Ids(w)
  {
    && Enabled(w.co, op) && (w.phase[w.co.current] == Outside || w.phase[w.co.current] == Writing)
    && (op.OpTryLock? ==> op.m != w.rq && op.m != w.mx) && (op.OpLock? ==> op.m != w.rq && op.m != w.mx)
    && (op.OpUnlock? ==> op.m != w.rq && op.m != w.mx)
    && (op.OpWait? ==> op.c != w.wq && op.mutex != w.rq && op.mutex != w.mx)
    && (op.OpSignal? ==> op.c != w.wq) && (op.OpBroadcast? ==> op.c != w.wq)
  }

  lemma GrownLocal(w: Rw, op: Op, co: State, d: Doing, t: nat)
    requires RwInv(w) && MayStep(w, op) && Inv(co) && SameAt(w.co, co, w.rq) && SameAt(w.co, co, w.wq)
    requires CallerDoing(w.co, op, d) && OnlyCaller(w.co, co, d) && t < |Grown(w, co).phase|
    ensures Ids(Grown(w, co)) && RwLocal(Grown(w, co), t)
  {
    assert RwLocal(w, w.co.current);
    if t < |w.phase| {
      assert RwLocal(w, t);
      if w.phase[t] == WrCond {
        WaitingBlocked(w.co, t, w.wq, w.mx);
        WaitingBlocked(co, t, w.wq, w.mx);
      }
    } else {
      assert MutexOk(w.co, w.rq);
    }
  }

  lemma GrownInv(w: Rw, op: Op, co: State, d: Doing)
    requires RwInv(w) && MayStep(w, op) && Inv(co) && SameAt(w.co, co, w.rq) && SameAt(w.co, co, w.mx)
    requires SameAt(w.co, co, w.wq)
    requires CallerDoing(w.co, op, d) && OnlyCaller(w.co, co, d)
    ensures RwInv(Grown(w, co))
  {
    SumPad(w.holds, |co.status| - |w.phase|);
    forall t | 0 <= t < |Grown(w, co).phase| ensures Ids(Grown(w, co)) && RwLocal(Grown(w, co), t) {
      GrownLocal(w, op, co, d, t);
    }
  }

  lemma Untouched(w: Rw, op: Op)
    requires RwInv(w) && MayStep(w, op)
    ensures !Touches(w.co, op, w.rq) && !Touches(w.co, op, w.mx) && !Touches(w.co, op, w.wq)
  {
    assert RwLocal(w, w.co.current) && Local(w.co, w.co.current);
  }

  lemma OtherFrame(w: Rw, op: Op)
    requires RwInv(w) && MayStep(w, op)
    ensures var co := Next(w.co, op).0;
      SameAt(w.co, co, w.rq) && SameAt(w.co, co, w.mx) && SameAt(w.co, co, w.wq) && Inv(co)
  {
    Untouched(w, op);
    NextInv(w.co, op);
    StepFrame(w.co, op, w.rq);
    StepFrame(w.co, op, w.mx);
    StepFrame(w.co, op, w.wq);
  }

  lemma OtherInv(w: Rw, op: Op)
    requires RwInv(w) && MayStep(w, op)
    ensures RwInv(OtherStep(w, op).0)
  {
    OtherFrame(w, op);
    var d := StepDoing(w.co, op);
    GrownInv(w, op, Next(w.co, op).0, d);
  }

  // ---------------------------------------------------------------- runs

  datatype RwOp = RdLock | WrLock | Unlock | Go | Other(op: Op)

  ghost predicate RwEnabled(w: Rw, op: RwOp)
    requires Ids(w)
  {
    match op
    case RdLock => MayAsk(w, false)
    case WrLock => MayAsk(w, true)
    case Unlock => MayUnlock(w)
    case Go => Resumable(w.co) && w.phase[w.co.current] != Outside && w.phase[w.co.current] != Writing
    case Other(o) => MayStep(w, o)
  }

  ghost function RwNext(w: Rw, op: RwOp): (Rw, Code)
    requires Ids(w) && RwEnabled(w, op)
  {
    match op
    case RdLock => RdStep(w)
    case WrLock => WrStep(w)
    case Unlock => UnStep(w)
    case Go => GoStep(w)
    case Other(o) => OtherStep(w, o)
  }

  /** The lock after coro_rwlock_init, with some threads outside. */
  ghost predicate RwInitial(w: Rw) {
    && Ids(w) && Inv(w.co) && w.co.owner[w.rq] == Nil && w.co.owner[w.mx] == Nil && w.readers == 0 && w.writer == Nil
    && (forall t :: 0 <= t < |w.phase| ==> w.phase[t] == Outside && w.holds[t] == 0 && Foreign(w, w.co.doing[t]))
  }

  ghost predicate RwRun(run: seq<Rw>, ops: seq<RwOp>) {
    && |run| == |ops| + 1 && RwInitial(run[0])
    && forall i :: 0 <= i < |ops| ==> RwFollows(run[i], ops[i], run[i + 1])
  }

  ghost predicate RwFollows(w: Rw, op: RwOp, v: Rw) {
    Ids(w) && RwEnabled(w, op) && v == RwNext(w, op).0
  }

  lemma RwNextInv(w: Rw, op: RwOp)
    requires RwInv(w) && RwEnabled(w, op)
    ensures RwInv(RwNext(w, op).0)
  {
    match op
    case RdLock => RdInv(w);
    case WrLock => WrInv(w);
    case Unlock => UnInv(w);
    case Go => GoInv(w);
    case Other(o) => OtherInv(w, o);
  }

  lemma {:induction false} RwRunInv(run: seq<Rw>, ops: seq<RwOp>, i: nat)
    requires RwRun(run, ops) && i < |run|
    ensures RwInv(run[i])
  {
    if i == 0 {
      SumPositive(run[0].holds);
    } else {
      RwRunInv(run, ops, i - 1);
      FollowsInv(run[i - 1], ops[i - 1], run[i]);
    }
  }

  lemma FollowsInv(w: Rw, op: RwOp, v: Rw)
    requires RwInv(w) && RwFollows(w, op, v)
    ensures RwInv(v)
  {
    RwNextInv(w, op);
  }

  /** A writer that has the lock excludes every reader and every other writer, and the number of
      readers is always the number of read locks held. */
  lemma WriterExcludes(run: seq<Rw>, ops: seq<RwOp>, i: nat, t: nat, u: nat)
    requires RwRun(run, ops) && i < |run| && t < |run[i].phase| && u < |run[i].phase|
    requires |run[i].holds| == |run[i].phase|
    ensures run[i].readers == Sum(run[i].holds)
    ensures run[i].phase[t] == Writing ==> run[i].holds[u] == 0 && (u != t ==> run[i].phase[u] != Writing)
  {
    RwRunInv(run, ops, i);
    var w := run[i];
    assert RwLocal(w, t) && RwLocal(w, u);
    SumPositive(w.holds);
  }

  /** A writer parked on the writer queue is the only one there, and the lock is held for reading,
      perhaps by the writer itself. */
  lemma ParkedWriter(run: seq<Rw>, ops: seq<RwOp>, i: nat, t: nat)
    requires RwRun(run, ops) && i < |run| && run[i].wq < |run[i].co.queues| && t in run[i].co.queues[run[i].wq]
    ensures run[i].readers > 0 && run[i].writer == t && run[i].co.queues[run[i].wq] == [t]
    ensures exists u :: 0 <= u < |run[i].holds| && run[i].holds[u] > 0
  {
    RwRunInv(run, ops, i);
    var w := run[i];
    assert RwLocal(w, t) && Local(w.co, t);
    WriterQueue(w);
    SumPositive(w.holds);
  }

  /** The lock is not idle while a thread is suspended in it: some thread, perhaps the same one, holds
      it, or one that was let in has yet to run. */
  lemma NotIdle(run: seq<Rw>, ops: seq<RwOp>, i: nat, t: nat) returns (u: nat)
    requires RwRun(run, ops) && i < |run| && Ids(run[i]) && t < |run[i].phase|
    requires run[i].co.status[t] == Blocked && run[i].phase[t] != Outside && run[i].phase[t] != Writing
    ensures u < |run[i].phase|
    ensures var w := run[i];
      w.holds[u] > 0 || w.phase[u] == Writing || (w.phase[u] != Outside && w.co.status[u] == Runnable)
  {
    RwRunInv(run, ops, i);
    var w := run[i];
    assert RwLocal(w, t) && Local(w.co, t) && MutexOk(w.co, w.rq);
    SumPositive(w.holds);
    if w.readers > 0 {
      u :| 0 <= u < |w.holds| && w.holds[u] > 0;
    } else {
      assert t in w.co.queues[w.rq] <==> PlaceOf(w.co, w.co.current, t) == w.rq;
      u := w.co.owner[w.rq];
      assert RwLocal(w, u) && Local(w.co, u);
    }
  }
}
