/** Who waits in vain for the readers/writer lock (lib/libcoro/rwlock.c): exactly the threads that ask
    for it while they hold it for reading, and have a write request in front of them or are one. */
module RwProgress {
  import opened CoroState
  import opened CoroInvariant
  import opened CoroFrame
  import opened CoroThreads
  import opened RwLock

  /** The part of the lock that decides who is let in: the owner and the queue of the reader queue,
      the phases and the read locks. */
  datatype Line = Line(owner: int, q: seq<nat>, phase: seq<Phase>, holds: seq<nat>)

  ghost function LineOf(w: Rw): Line
    requires Ids(w)
  {
    Line(w.co.owner[w.rq], w.co.queues[w.rq], w.phase, w.holds)
  }

  ghost predicate NoReader(l: Line) {
    forall t :: 0 <= t < |l.holds| ==> l.holds[t] == 0
  }

  ghost predicate LineShape(l: Line) {
    && |l.phase| == |l.holds| && -1 <= l.owner < |l.phase| && NoDup(l.q)
    && (forall i :: 0 <= i < |l.q| ==> l.q[i] < |l.phase| && l.q[i] != l.owner)
    && (l.owner == Nil ==> l.q == [])
  }

  ghost predicate PhaseOk(l: Line, t: nat)
    requires LineShape(l) && t < |l.phase|
  {
    match l.phase[t]
    case Outside => t != l.owner && t !in l.q
    case RdWait => t == l.owner || t in l.q
    case WrWait => t == l.owner || t in l.q
    case WrCond => t == l.owner
    case Writing => t == l.owner && NoReader(l)
  }

  ghost predicate LineOk(l: Line) {
    LineShape(l) && forall t :: 0 <= t < |l.phase| ==> PhaseOk(l, t)
  }

  lemma LineInv(w: Rw)
    requires RwInv(w)
    ensures LineOk(LineOf(w)) && (w.readers == 0 <==> NoReader(LineOf(w)))
  {
    var l := LineOf(w);
    assert MutexOk(w.co, w.rq);
    SumPositive(w.holds);
    forall t | 0 <= t < |l.phase|
      ensures t in l.q ==> t != l.owner && (l.phase[t] == RdWait || l.phase[t] == WrWait)
      ensures l.phase[t] == RdWait || l.phase[t] == WrWait ==> t == l.owner || t in l.q
    {
      assert RwLocal(w, t) && Local(w.co, t);
      assert t in l.q <==> PlaceOf(w.co, w.co.current, t) == w.rq;
    }
    forall i | 0 <= i < |l.q| ensures l.q[i] < |l.phase| && l.q[i] != l.owner { assert l.q[i] in l.q; }
    forall t | 0 <= t < |l.phase| ensures PhaseOk(l, t) { assert RwLocal(w, t); }
  }

  // ---------------------------------------------------------------- waiting in vain

  /** A write request has the reader queue, or is one of the first n waiting for it. */
  ghost predicate WriterAmong(l: Line, n: nat)
    requires LineShape(l) && n <= |l.q|
  {
    || (l.owner != Nil && (l.phase[l.owner] == WrWait || l.phase[l.owner] == WrCond))
    || exists a :: 0 <= a < n && l.phase[l.q[a]] == WrWait
  }

  /** The thread has a read lock and waits in a request that can only succeed without it. */
  ghost predicate StrandedIn(l: Line, h: nat)
    requires LineShape(l)
  {
    && h < |l.phase| && l.holds[h] > 0
    && match l.phase[h]
       case WrWait => true
       case WrCond => true
       case RdWait => exists b :: 0 <= b < |l.q| && l.q[b] == h && WriterAmong(l, b)
       case _ => false
  }

  ghost predicate Stranded(w: Rw, h: nat) {
    Ids(w) && LineShape(LineOf(w)) && StrandedIn(LineOf(w), h)
  }

  /** The call that does it: the caller holds the lock for reading, and asks for writing or behind
      a write request. The caller can tell before it asks. */
  ghost predicate SelfAsk(w: Rw, op: RwOp) {
    && Ids(w) && LineShape(LineOf(w)) && w.holds[w.co.current] > 0
    && (op == WrLock || (op == RdLock && WriterAmong(LineOf(w), |LineOf(w).q|)))
  }

  // ---------------------------------------------------------------- the moves of the line

  /** Nothing but the read locks of a thread outside changes, and threads are added outside. */
  ghost predicate Stays(l: Line, m: Line, t: nat) {
    && m.owner == l.owner && m.q == l.q && |l.phase| <= |m.phase| && |l.holds| <= |m.holds|
    && (forall x :: 0 <= x < |l.phase| ==> m.phase[x] == l.phase[x])
    && (forall x :: 0 <= x < |l.holds| && x != t ==> m.holds[x] == l.holds[x])
    && (forall x :: |l.phase| <= x < |m.phase| ==> m.phase[x] == Outside)
    && (forall x :: |l.holds| <= x < |m.holds| ==> m.holds[x] == 0)
    && t < |l.phase| && l.phase[t] != RdWait && l.phase[t] != WrWait && l.phase[t] != WrCond
  }

  ghost predicate Joins(l: Line, m: Line, t: nat, p: Phase) {
    && t < |l.phase| && l.owner != Nil && (p == RdWait || p == WrWait) && l.phase[t] == Outside
    && m == l.(q := l.q + [t], phase := l.phase[t := p])
  }

  /** The owner of the reader queue waits for the readers, or has the lock when there are none. */
  ghost predicate Advances(l: Line, m: Line, t: nat) {
    && t < |l.phase| && (l.owner == t || l.owner == Nil) && m.owner == t && m.q == l.q && m.holds == l.holds
    && (if NoReader(l) then m.phase == l.phase[t := Writing]
        else l.phase[t] != WrCond && m.phase == l.phase[t := WrCond])
    && l.phase[t] != RdWait && l.phase[t] != Writing && (l.owner == t || l.phase[t] == Outside)
  }

  /** The owner leaves, and the first in the queue is let in. */
  ghost predicate Leaves(l: Line, m: Line, t: nat) {
    && t < |l.phase| == |l.holds| == |m.holds| && l.owner == t && (l.phase[t] == Writing || l.phase[t] == RdWait)
    && m.phase == l.phase[t := Outside] && (forall x :: 0 <= x < |l.holds| && x != t ==> m.holds[x] == l.holds[x])
    && (if l.q == [] then m.owner == Nil && m.q == [] else m.owner == l.q[0] && m.q == l.q[1..])
  }

  lemma StaysStranded(l: Line, m: Line, t: nat, h: nat)
    requires LineOk(l) && LineOk(m) && Stays(l, m, t)
    ensures StrandedIn(m, h) <==> StrandedIn(l, h)
  {
    var n := |l.q|;
    forall b | 0 <= b < n ensures WriterAmong(m, b) <==> WriterAmong(l, b) {}
  }

  lemma JoinsStranded(l: Line, m: Line, t: nat, p: Phase, h: nat)
    requires LineOk(l) && LineOk(m) && Joins(l, m, t, p)
    ensures StrandedIn(m, h) <==>
            StrandedIn(l, h) || (h == t && l.holds[t] > 0 && (p == WrWait || WriterAmong(l, |l.q|)))
  {
    assert PhaseOk(l, t) && m.q[|l.q|] == t;
    forall b | 0 <= b <= |l.q| ensures WriterAmong(m, b) <==> WriterAmong(l, b) {
      forall a | 0 <= a < b ensures m.q[a] == l.q[a] && m.phase[m.q[a]] == l.phase[l.q[a]] { assert l.q[a] in l.q; }
    }
    assert StrandedIn(l, h) ==> h != t;
    if h != t {
      forall b | 0 <= b < |m.q| && m.q[b] == h ensures b < |l.q| && l.q[b] == h {}
      forall b | 0 <= b < |l.q| && l.q[b] == h ensures m.q[b] == h {}
    } else {
      forall b | 0 <= b < |m.q| && m.q[b] == t ensures b == |l.q| {}
    }
  }

  lemma AdvancesStranded(l: Line, m: Line, t: nat, h: nat)
    requires LineOk(l) && LineOk(m) && Advances(l, m, t)
    ensures StrandedIn(m, h) <==> StrandedIn(l, h) || (h == t && l.owner == Nil && l.holds[t] > 0)
  {
    assert PhaseOk(l, t);
    if h < |l.phase| && l.holds[h] > 0 {
      forall b | 0 <= b < |l.q| ensures WriterAmong(m, b) && l.owner == t && WriterAmong(l, b) {}
    }
  }

  lemma LeavesStranded(l: Line, m: Line, t: nat, h: nat)
    requires LineOk(l) && LineOk(m) && Leaves(l, m, t)
    ensures StrandedIn(m, h) <==> StrandedIn(l, h)
  {
    assert PhaseOk(l, t);
    if l.q != [] && h < |l.phase| && h != t {
      var o := l.q[0];
      assert o in l.q && PhaseOk(l, o);
      forall b | 0 < b < |l.q| ensures WriterAmong(m, b - 1) <==> WriterAmong(l, b) {
        forall a | 0 <= a < b - 1 ensures m.q[a] == l.q[a + 1] {}
        if exists a :: 0 <= a < b && l.phase[l.q[a]] == WrWait {
          var a :| 0 <= a < b && l.phase[l.q[a]] == WrWait;
          assert a > 0 ==> m.q[a - 1] == l.q[a];
        }
        if exists a :: 0 <= a < b - 1 && m.phase[m.q[a]] == WrWait {
          var a :| 0 <= a < b - 1 && m.phase[m.q[a]] == WrWait;
          assert l.q[a + 1] in l.q && l.phase[l.q[a + 1]] == WrWait;
        }
      }
      forall b | 0 < b < |l.q| ensures m.q[b - 1] == l.q[b] {}
      assert !WriterAmong(l, 0);
    }
  }

  // ---------------------------------------------------------------- what each step does to the line

  /** Releasing the reader queue lets the first waiter in. */
  lemma ReleasedLine(w: Rw)
    requires Inside(w)
    ensures var co, q := UnlockStep(w.co, w.rq).0, w.co.queues[w.rq];
      co.queues[w.rq] == (if q == [] then [] else q[1..]) && co.owner[w.rq] == (if q == [] then Nil else q[0])
  {
  }

  lemma TakenLine(w: Rw)
    requires RwInv(w) && w.co.doing[w.co.current] == User && LockStep(w.co, w.rq).1 == Ok
    ensures w.co.queues[w.rq] == [] && w.co.owner[w.rq] == Nil && w.phase[w.co.current] == Outside
  {
    assert RwLocal(w, w.co.current) && MutexOk(w.co, w.rq);
  }

  lemma ParkedLine(w: Rw)
    requires Inside(w) && (w.co.current == MAIN ==> w.readers == 0)
    ensures var v := WrFinish(w).0;
      && Ids(v) && v.co.owner[w.rq] == w.co.current && v.co.queues[w.rq] == w.co.queues[w.rq]
      && v.phase == w.phase[w.co.current := if w.readers == 0 then Writing else WrCond]
      && v.holds == w.holds && v.rq == w.rq
  {
    WrFinishInv(w);
    if w.readers > 0 {
      TakeAndGive(w.co, w.mx);
      ScheduleFrame(Parked(w.co, w.wq, Blocked, Waiting(w.wq, w.mx)), w.rq);
    }
  }

  lemma AskLine(w: Rw, write: bool)
    requires RwInv(w) && MayAsk(w, write) && LockStep(w.co, w.rq).1 == Switched
    ensures var p, v := if write then WrWait else RdWait, if write then WrStep(w).0 else RdStep(w).0;
      Ids(v) && Joins(LineOf(w), LineOf(v), w.co.current, p)
  {
    QueuedInv(w, if write then WrWait else RdWait);
    ScheduleFrame(Asking(w.co, w.rq), w.rq);
    assert RwLocal(w, w.co.current);
  }

  lemma RdLine(w: Rw)
    requires RwInv(w) && MayAsk(w, false) && LockStep(w.co, w.rq).1 != Switched
    ensures var v := RdStep(w).0; Ids(v) && Stays(LineOf(w), LineOf(v), w.co.current)
  {
    RdInv(w);
    assert RwLocal(w, w.co.current);
    if LockStep(w.co, w.rq).1 == Ok {
      TakenLine(w);
      TakenInside(w);
      ReleasedLine(w.(co := LockStep(w.co, w.rq).0));
      RdFinishInv(w.(co := LockStep(w.co, w.rq).0));
    }
  }

  lemma WrLine(w: Rw)
    requires RwInv(w) && MayAsk(w, true) && LockStep(w.co, w.rq).1 == Ok
    ensures var v := WrStep(w).0; Ids(v) && LineOf(w).owner == Nil && Advances(LineOf(w), LineOf(v), w.co.current)
  {
    LineInv(w);
    TakenLine(w);
    TakenInside(w);
    ParkedLine(w.(co := LockStep(w.co, w.rq).0));
  }

  lemma WriterLeavesLine(w: Rw)
    requires RwInv(w) && w.co.doing[w.co.current] == User && w.writer == w.co.current
    ensures var v := UnStep(w).0; Ids(v) && Leaves(LineOf(w), LineOf(v), w.co.current)
  {
    WriterLeavesInv(w);
    assert RwLocal(w, w.co.current);
  }

  lemma LastReaderLine(w: Rw)
    requires RwInv(w) && w.readers == 1 && w.writer != Nil && w.holds[w.co.current] > 0 && w.writer != w.co.current
    requires w.co.doing[w.co.current] == User
    ensures var v := UnStep(w).0; Ids(v) && Stays(LineOf(w), LineOf(v), w.co.current)
  {
    assert RwLocal(w, w.co.current);
    TakeAndGive(w.co, w.mx);
    SignalUnderMutex(w.co, w.wq, w.mx);
    LastReaderInv(w);
    assert UnStep(w).0.co == SignalStep(w.co, w.wq);
  }

  lemma ReaderLeavesLine(w: Rw)
    requires RwInv(w) && MayUnlock(w) && w.writer != w.co.current && (w.readers == 1 ==> w.writer == Nil)
    ensures var v := UnStep(w).0; Ids(v) && Stays(LineOf(w), LineOf(v), w.co.current)
  {
    assert RwLocal(w, w.co.current);
  }

  lemma ReaderInLine(w: Rw)
    requires Inside(w) && w.phase[w.co.current] == RdWait
    ensures var v := RdFinish(w).0; Ids(v) && Leaves(LineOf(w), LineOf(v), w.co.current)
  {
    ReleasedLine(w);
    RdFinishInv(w);
  }

  lemma LetInLine(w: Rw)
    requires RwInv(w) && w.phase[w.co.current] == RdWait
    ensures Resumable(w.co)
    ensures var v := GoStep(w).0; Ids(v) && Leaves(LineOf(w), LineOf(v), w.co.current)
  {
    assert RwLocal(w, w.co.current);
    HandedInside(w);
    ReaderInLine(w.(co := ResumeStep(w.co).0));
  }

  lemma LetInWriterLine(w: Rw)
    requires RwInv(w) && w.phase[w.co.current] == WrWait
    ensures Resumable(w.co)
    ensures var v := GoStep(w).0; Ids(v) && w.co.owner[w.rq] != Nil && Advances(LineOf(w), LineOf(v), w.co.current)
  {
    LineInv(w);
    assert RwLocal(w, w.co.current) && Local(w.co, w.co.current);
    HandedInside(w);
    ParkedLine(w.(co := ResumeStep(w.co).0));
  }

  lemma WokenLine(w: Rw)
    requires RwInv(w) && w.phase[w.co.current] == WrCond
    ensures Resumable(w.co)
    ensures var v := GoStep(w).0; Ids(v) && w.co.owner[w.rq] != Nil && Advances(LineOf(w), LineOf(v), w.co.current)
  {
    LineInv(w);
    var t, back := w.co.current, w.co.(doing := w.co.doing[w.co.current := User]);
    assert RwLocal(w, t) && Local(w.co, t);
    BackInv(w.co);
    TakeAndGive(back, w.mx);
    assert GoStep(w).0 == Enter(w, Writing).(co := back);
  }

  lemma OtherLine(w: Rw, op: Op)
    requires RwInv(w) && MayStep(w, op)
    ensures var v := OtherStep(w, op).0; Ids(v) && Stays(LineOf(w), LineOf(v), w.co.current)
  {
    OtherFrame(w, op);
    OtherInv(w, op);
  }

  // ---------------------------------------------------------------- the exact condition

  /** A move that lets in or suspends nobody who asks. */
  lemma MovedOn(w: Rw, v: Rw, h: nat)
    requires RwInv(w) && RwInv(v)
    requires var l, m, t := LineOf(w), LineOf(v), w.co.current;
      Stays(l, m, t) || Leaves(l, m, t) || (l.owner != Nil && Advances(l, m, t))
    ensures Stranded(v, h) <==> Stranded(w, h)
  {
    var l, m, t := LineOf(w), LineOf(v), w.co.current;
    LineInv(w);
    LineInv(v);
    if Stays(l, m, t) {
      StaysStranded(l, m, t, h);
    } else if Leaves(l, m, t) {
      LeavesStranded(l, m, t, h);
    } else {
      AdvancesStranded(l, m, t, h);
    }
  }

  /** A move in which the caller asks and is suspended, or takes the free reader queue to write. */
  lemma MovedIn(w: Rw, v: Rw, p: Phase, h: nat)
    requires RwInv(w) && RwInv(v) && (p == RdWait || p == WrWait)
    requires var l, m, t := LineOf(w), LineOf(v), w.co.current;
      Joins(l, m, t, p) || (l.owner == Nil && p == WrWait && Advances(l, m, t))
    ensures Stranded(v, h) <==>
            Stranded(w, h) || (h == w.co.current && SelfAsk(w, if p == WrWait then WrLock else RdLock))
  {
    var l, m, t := LineOf(w), LineOf(v), w.co.current;
    LineInv(w);
    LineInv(v);
    if Joins(l, m, t, p) { JoinsStranded(l, m, t, p, h); } else { AdvancesStranded(l, m, t, h); }
  }

  /** A request that does not suspend its caller was not made in vain. */
  lemma NoSelfAsk(w: Rw)
    requires RwInv(w) && w.co.doing[w.co.current] == User
    ensures w.co.owner[w.rq] == Nil || w.co.owner[w.rq] == w.co.current ==> !SelfAsk(w, RdLock)
    ensures w.co.owner[w.rq] == w.co.current ==> !SelfAsk(w, WrLock)
  {
    LineInv(w);
    assert RwLocal(w, w.co.current) && PhaseOk(LineOf(w), w.co.current);
  }

  lemma RdStrands(w: Rw, h: nat)
    requires RwInv(w) && MayAsk(w, false)
    ensures Stranded(RdStep(w).0, h) <==> Stranded(w, h) || (h == w.co.current && SelfAsk(w, RdLock))
  {
    RdInv(w);
    if LockStep(w.co, w.rq).1 == Switched {
      AskLine(w, false);
      MovedIn(w, RdStep(w).0, RdWait, h);
    } else {
      RdLine(w);
      MovedOn(w, RdStep(w).0, h);
      NoSelfAsk(w);
    }
  }

  lemma WrStrands(w: Rw, h: nat)
    requires RwInv(w) && MayAsk(w, true)
    ensures Stranded(WrStep(w).0, h) <==> Stranded(w, h) || (h == w.co.current && SelfAsk(w, WrLock))
  {
    WrInv(w);
    var code := LockStep(w.co, w.rq).1;
    if code == Switched {
      AskLine(w, true);
      MovedIn(w, WrStep(w).0, WrWait, h);
    } else if code == Ok {
      WrLine(w);
      MovedIn(w, WrStep(w).0, WrWait, h);
    } else {
      NoSelfAsk(w);
    }
  }

  lemma UnStrands(w: Rw, h: nat)
    requires RwInv(w) && MayUnlock(w)
    ensures Stranded(UnStep(w).0, h) <==> Stranded(w, h)
  {
    UnInv(w);
    if w.writer == w.co.current {
      WriterLeavesLine(w);
    } else if w.readers == 1 && w.writer != Nil {
      LastReaderLine(w);
    } else {
      ReaderLeavesLine(w);
    }
    MovedOn(w, UnStep(w).0, h);
  }

  lemma GoStrands(w: Rw, h: nat)
    requires RwInv(w) && w.phase[w.co.current] != Outside && w.phase[w.co.current] != Writing
    ensures Resumable(w.co) && (Stranded(GoStep(w).0, h) <==> Stranded(w, h))
  {
    GoInv(w);
    match w.phase[w.co.current] {
      case RdWait => LetInLine(w);
      case WrWait => LetInWriterLine(w);
      case WrCond => WokenLine(w);
    }
    MovedOn(w, GoStep(w).0, h);
  }

  /** One step strands nobody but its caller, and the caller exactly when the call is one of those
      SelfAsk describes. Who is stranded stays so. */
  lemma StrandsExactly(w: Rw, op: RwOp, h: nat)
    requires RwInv(w) && RwEnabled(w, op)
    ensures Stranded(RwNext(w, op).0, h) <==> Stranded(w, h) || (h == w.co.current && SelfAsk(w, op))
  {
    match op
    case RdLock => RdStrands(w, h);
    case WrLock => WrStrands(w, h);
    case Unlock => UnStrands(w, h);
    case Go => GoStrands(w, h);
    case Other(o) =>
      OtherInv(w, o);
      OtherLine(w, o);
      MovedOn(w, OtherStep(w, o).0, h);
  }

  // ---------------------------------------------------------------- runs

  ghost predicate AsksInVain(w: Rw, op: RwOp, h: nat) {
    h == w.co.current && SelfAsk(w, op)
  }

  lemma StepStrands(run: seq<Rw>, ops: seq<RwOp>, i: nat, h: nat)
    requires RwRun(run, ops) && i < |ops|
    ensures Stranded(run[i + 1], h) <==> Stranded(run[i], h) || AsksInVain(run[i], ops[i], h)
  {
    RwRunInv(run, ops, i);
    assert RwFollows(run[i], ops[i], run[i + 1]);
    StrandsExactly(run[i], ops[i], h);
  }

  /** A flag that starts false and is only ever set is true exactly if it was set before. */
  lemma {:induction false} SetBefore(flag: seq<bool>, sets: seq<bool>, i: nat)
    requires |flag| == |sets| + 1 && i < |flag| && !flag[0]
    requires forall k :: 0 <= k < |sets| ==> (flag[k + 1] <==> flag[k] || sets[k])
    ensures flag[i] <==> exists k :: 0 <= k < i && sets[k]
  {
    if i > 0 {
      SetBefore(flag, sets, i - 1);
      assert flag[i - 1 + 1] <==> flag[i - 1] || sets[i - 1];
    }
  }

  /** In every run a thread is stranded exactly if it made such a call before. */
  lemma StrandedExactly(run: seq<Rw>, ops: seq<RwOp>, i: nat, h: nat)
    requires RwRun(run, ops) && i < |run|
    ensures Stranded(run[i], h) <==> exists k :: 0 <= k < i && AsksInVain(run[k], ops[k], h)
  {
    var flag := seq(|run|, k requires 0 <= k < |run| => Stranded(run[k], h));
    var sets := seq(|ops|, k requires 0 <= k < |ops| => AsksInVain(run[k], ops[k], h));
    NoneStranded(run[0], h);
    forall k | 0 <= k < |sets| ensures flag[k + 1] <==> flag[k] || sets[k] { StepStrands(run, ops, k, h); }
    SetBefore(flag, sets, i);
    assert forall k :: 0 <= k < i ==> (sets[k] <==> AsksInVain(run[k], ops[k], h));
  }

  lemma NoneStranded(w: Rw, h: nat)
    requires RwInitial(w)
    ensures !Stranded(w, h)
  {
  }

  /** A stranded thread never gets the lock, whatever the others do. */
  lemma StrandedForever(run: seq<Rw>, ops: seq<RwOp>, i: nat, j: nat, h: nat)
    requires RwRun(run, ops) && i <= j < |run| && Stranded(run[i], h)
    ensures Stranded(run[j], h) && run[j].phase[h] != Outside && run[j].phase[h] != Writing
  {
    StrandedExactly(run, ops, i, h);
    StrandedExactly(run, ops, j, h);
  }

  /** The thread u, not t itself, can still do its part to let t go on. */
  ghost predicate CanHelp(w: Rw, t: nat, u: nat)
    requires Ids(w)
  {
    && u < |w.phase| && u != t
    && ((w.phase[u] == Outside && w.holds[u] > 0) || w.phase[u] == Writing
        || (w.phase[u] != Outside && w.co.status[u] == Runnable))
  }

  lemma HelperThere(w: Rw, t: nat) returns (u: nat)
    requires RwInv(w) && t < |w.phase| && w.co.status[t] == Blocked && w.phase[t] != Outside && w.phase[t] != Writing
    requires forall h :: 0 <= h < |w.phase| ==> !Stranded(w, h)
    ensures CanHelp(w, t, u)
  {
    var l := LineOf(w);
    LineInv(w);
    SumPositive(w.holds);
    assert RwLocal(w, t) && Local(w.co, t) && PhaseOk(l, t) && l.owner != Nil;
    var o := l.owner;
    assert RwLocal(w, o) && Local(w.co, o) && PhaseOk(l, o);
    if w.phase[o] == WrCond && w.readers > 0 {
      u :| 0 <= u < |w.holds| && w.holds[u] > 0;
      assert !Stranded(w, u) && PhaseOk(l, u);
      assert w.phase[u] == RdWait ==> u in l.q;
    } else {
      u := o;
    }
  }

  /** Nobody waits in vain: while no call of the run was one of those SelfAsk describes, a thread
      suspended in the lock has another that holds the lock and is not in it, or was let in and has
      yet to run. */
  lemma NobodyStranded(run: seq<Rw>, ops: seq<RwOp>, i: nat, t: nat) returns (u: nat)
    requires RwRun(run, ops) && i < |run| && Ids(run[i]) && t < |run[i].phase|
    requires forall k :: 0 <= k < i ==> !SelfAsk(run[k], ops[k])
    requires run[i].co.status[t] == Blocked && run[i].phase[t] != Outside && run[i].phase[t] != Writing
    ensures CanHelp(run[i], t, u)
  {
    RwRunInv(run, ops, i);
    forall h | 0 <= h < |run[i].phase| ensures !Stranded(run[i], h) { StrandedExactly(run, ops, i, h); }
    u := HelperThere(run[i], t);
  }

  /** It is enough that no thread asks while it holds the lock. */
  lemma AskEmptyHanded(run: seq<Rw>, ops: seq<RwOp>, i: nat, t: nat) returns (u: nat)
    requires RwRun(run, ops) && i < |run| && Ids(run[i]) && t < |run[i].phase|
    requires forall k :: 0 <= k < i && (ops[k] == RdLock || ops[k] == WrLock) && Ids(run[k]) ==>
                           run[k].holds[run[k].co.current] == 0
    requires run[i].co.status[t] == Blocked && run[i].phase[t] != Outside && run[i].phase[t] != Writing
    ensures CanHelp(run[i], t, u)
  {
    u := NobodyStranded(run, ops, i, t);
  }

  /** Nobody has to do with the lock but thread t, which reads. */
  ghost predicate LoneReader(w: Rw, t: nat) {
    && RwInv(w) && w.co.owner[w.rq] == Nil && t < |w.phase| && w.readers > 0
    && forall u :: 0 <= u < |w.phase| ==> w.phase[u] == Outside && (u != t ==> w.holds[u] == 0)
  }

  lemma FirstReader(w: Rw)
    requires RwInitial(w) && w.co.current != MAIN && w.co.doing[w.co.current] == User
    ensures var v := RdStep(w).0;
      LoneReader(v, w.co.current) && v.co.current == w.co.current && v.co.doing == w.co.doing
  {
    SumPositive(w.holds);
    assert RwInv(w);
    RdInv(w);
    assert MutexOk(w.co, w.rq);
  }

  lemma ReaderTrapped(w: Rw)
    requires LoneReader(w, w.co.current) && w.co.current != MAIN && w.co.doing[w.co.current] == User
    ensures var v, t := WrStep(w).0, w.co.current;
      && Stranded(v, t) && v.phase[t] == WrCond && v.co.status[t] == Blocked
      && forall u :: 0 <= u < |v.phase| ==> !CanHelp(v, t, u)
  {
    SumPositive(w.holds);
    WrInv(w);
    LineInv(w);
    WrLine(w);
    LineInv(WrStep(w).0);
    assert RwLocal(WrStep(w).0, w.co.current);
  }

  lemma ShortRun(w: Rw, w1: Rw, w2: Rw)
    requires RwInitial(w) && RwFollows(w, RdLock, w1) && RwFollows(w1, WrLock, w2)
    ensures RwRun([w, w1, w2], [RdLock, WrLock])
  {
  }

  /** The shortest way into the trap: the only reader asks for writing. It is then suspended for
      good, and nobody else has to do with the lock. */
  lemma LoneReaderStrands(w: Rw)
    requires RwInitial(w) && w.co.current != MAIN && w.co.doing[w.co.current] == User
    ensures var w1, t := RdStep(w).0, w.co.current;
      && Ids(w1) && RwRun([w, w1, WrStep(w1).0], [RdLock, WrLock])
      && var w2 := WrStep(w1).0;
         && Stranded(w2, t) && w2.phase[t] == WrCond && w2.co.status[t] == Blocked
         && forall u :: 0 <= u < |w2.phase| ==> !CanHelp(w2, t, u)
  {
    var w1 := RdStep(w).0;
    FirstReader(w);
    ReaderTrapped(w1);
    ShortRun(w, w1, WrStep(w1).0);
  }
}
