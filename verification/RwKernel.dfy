/** coro_rwlock_t on top of the thread library: the functions of lib/libcoro/rwlock.c, each up to
    its return or the suspension of the caller. */
module RwKernel {
  import opened CoroState
  import opened CoroFrame
  import opened CoroKernel
  import opened RwLock
  import opened RwClients

  class ReadWriteLock {
    const lib: Library
    const rq: nat
    const mx: nat
    const wq: nat
    var readers: nat
    var writer: int
    ghost var phase: seq<Phase>
    ghost var holds: seq<nat>

    ghost function View(): Rw
      reads this, lib
    {
      Rw(lib.st, rq, mx, wq, readers, writer, phase, holds)
    }

    ghost predicate Valid()
      reads this, lib
    {
      lib.Valid() && RwInv(View())
    }

    /** coro_rwlock_init on two mutexes and a condition variable nobody uses yet. */
    constructor (lib: Library, rq: nat, mx: nat, wq: nat)
      requires lib.Valid() && UserMutex(lib.st, rq) && UserMutex(lib.st, mx) && rq != mx && UserCond(lib.st, wq)
      requires lib.owner[rq] == Nil && lib.owner[mx] == Nil
      requires var w := Rw(lib.st, rq, mx, wq, 0, Nil, [], []);
        forall t :: 0 <= t < |lib.st.doing| ==> Foreign(w, lib.st.doing[t])
      ensures Valid() && this.lib == lib && RwInitial(View())
    {
      this.lib, this.rq, this.mx, this.wq := lib, rq, mx, wq;
      readers, writer := 0, Nil;
      phase := seq(|lib.status|, _ => Outside);
      holds := seq(|lib.status|, _ => 0);
      new;
      SumPositive(holds);
    }

    /** The end of coro_rwlock_rdlock. */
    method FinishRead() returns (code: Code)
      requires lib.Valid() && Inside(View())
      modifies this, lib
      ensures lib.Valid() && (View(), code) == RdFinish(old(View()))
    {
      var me := lib.current;
      code := lib.Unlock(rq);
      if code != Ok { return; }
      readers := readers + 1;
      phase, holds := phase[me := Outside], holds[me := holds[me] + 1];
    }

    /** coro_rwlock_rdlock. */
    method RdLock() returns (code: Code)
      requires Valid() && MayAsk(View(), false)
      modifies this, lib
      ensures Valid() && (View(), code) == RdStep(old(View())) && TellsTruth(old(View()), RwOp.RdLock, View(), code)
    {
      RdInv(View());
      RdTells(View());
      ghost var before, me := View(), lib.current;
      code := lib.Lock(rq);
      if code == Switched {
        phase := phase[me := RdWait];
        return;
      }
      if code != Ok { return; }
      TakenInside(before);
      code := FinishRead();
    }

    /** coro_rwlock_wrlock with the reader queue in hand. */
    method FinishWrite() returns (code: Code)
      requires lib.Valid() && Inside(View()) && (lib.current == MAIN ==> readers == 0)
      modifies this, lib
      ensures lib.Valid() && (View(), code) == WrFinish(old(View()))
    {
      ghost var me := lib.current;
      writer := lib.current;
      if readers == 0 {
        phase := phase[me := Writing];
        return Ok;
      }
      TakeAndGive(lib.st, mx);
      code := lib.Lock(mx);
      if code != Ok { return; }
      code := lib.Wait(wq, mx);
      phase := phase[me := WrCond];
    }

    /** coro_rwlock_wrlock. */
    method WrLock() returns (code: Code)
      requires Valid() && MayAsk(View(), true)
      modifies this, lib
      ensures Valid() && (View(), code) == WrStep(old(View())) && TellsTruth(old(View()), RwOp.WrLock, View(), code)
    {
      WrInv(View());
      WrTells(View());
      ghost var before, me := View(), lib.current;
      code := lib.Lock(rq);
      if code == Switched {
        phase := phase[me := WrWait];
        return;
      }
      if code != Ok { return; }
      TakenInside(before);
      code := FinishWrite();
    }

    /** The end of coro_rwlock_wrlock after the wait. */
    method FinishWait() returns (code: Code)
      requires lib.Valid() && Ids(View()) && lib.st.doing[lib.current] == User
      modifies this, lib
      ensures lib.Valid()
      ensures var (left, released) := UnlockStep(old(lib.st), mx);
        (View(), code) == (Enter(old(View()), Writing).(co := left), released)
    {
      ghost var me := lib.current;
      code := lib.Unlock(mx);
      phase := phase[me := Writing];
    }

    method GoReading(doing: Doing) returns (code: Code)
      requires Valid() && lib.current < |phase| && phase[lib.current] == RdWait && doing == lib.st.doing[lib.current]
      modifies this, lib
      ensures lib.Valid() && Resumable(old(lib.st)) && (View(), code) == GoStep(old(View()))
    {
      ghost var before := View();
      HandedInside(before);
      assert RwLocal(before, lib.current);
      code := lib.Resume(doing);
      code := FinishRead();
    }

    method GoWriting(doing: Doing) returns (code: Code)
      requires Valid() && lib.current < |phase| && phase[lib.current] == WrWait && doing == lib.st.doing[lib.current]
      modifies this, lib
      ensures lib.Valid() && Resumable(old(lib.st)) && (View(), code) == GoStep(old(View()))
    {
      ghost var before := View();
      HandedInside(before);
      assert RwLocal(before, lib.current);
      code := lib.Resume(doing);
      code := FinishWrite();
    }

    method GoWoken(doing: Doing) returns (code: Code)
      requires Valid() && lib.current < |phase| && phase[lib.current] == WrCond && doing == lib.st.doing[lib.current]
      modifies this, lib
      ensures lib.Valid() && Resumable(old(lib.st)) && (View(), code) == GoStep(old(View()))
    {
      ghost var before := View();
      WokenBack(before);
      assert RwLocal(before, lib.current);
      code := lib.Resume(doing);
      if code != Ok { return; }
      code := FinishWait();
    }

    /** The scheduled thread goes on in the request in which it was suspended. */
    method GoOn(at: Phase, doing: Doing) returns (code: Code)
      requires Valid() && lib.current < |phase| && at == phase[lib.current] && at != Outside && at != Writing
      requires doing == lib.st.doing[lib.current]
      modifies this, lib
      ensures Valid() && Resumable(old(lib.st)) && (View(), code) == GoStep(old(View()))
      ensures TellsTruth(old(View()), Go, View(), code)
    {
      GoInv(View());
      GoTells(View());
      match at
      case RdWait => code := GoReading(doing);
      case WrWait => code := GoWriting(doing);
      case WrCond => code := GoWoken(doing);
    }

    method LeaveWriting() returns (code: Code)
      requires lib.Valid() && Ids(View()) && lib.st.doing[lib.current] == User
      modifies this, lib
      ensures lib.Valid()
      ensures var (co, released) := UnlockStep(old(lib.st), rq);
        (View(), code) == (Enter(old(View()), Outside).(writer := Nil, co := co), released)
    {
      ghost var me := lib.current;
      writer := Nil;
      code := lib.Unlock(rq);
      phase := phase[me := Outside];
    }

    method WakeParked() returns (code: Code)
      requires lib.Valid() && Ids(View()) && lib.st.doing[lib.current] == User && lib.owner[mx] == Nil
      modifies lib
      ensures lib.Valid() && (View(), code) == WakeWriter(old(View()))
    {
      ghost var st := lib.st;
      TakeAndGive(st, mx);
      code := lib.Lock(mx);
      if code != Ok { return; }
      assert lib.st == st.(owner := st.owner[mx := st.current]);
      lib.Signal(wq);
      code := lib.Unlock(mx);
    }

    /** coro_rwlock_unlock. */
    method Unlock() returns (code: Code)
      requires Valid() && MayUnlock(View())
      modifies this, lib
      ensures Valid() && (View(), code) == UnStep(old(View())) && TellsTruth(old(View()), RwOp.Unlock, View(), code)
    {
      UnInv(View());
      UnTells(View());
      var me := lib.current;
      if writer == me {
        code := LeaveWriting();
      } else if readers == 0 {
        return Perm;
      } else {
        readers := readers - 1;
        holds := holds[me := holds[me] - 1];
        if readers == 0 && writer != Nil {
          code := WakeParked();
        } else {
          code := Ok;
        }
      }
    }
  }

  /** A woken writer takes the mutex at once and is back in its own code. */
  lemma WokenBack(w: Rw)
    requires RwInv(w) && w.phase[w.co.current] == WrCond
    ensures Resumable(w.co)
    ensures var (co, code) := ResumeStep(w.co);
      code == Ok && co.current == w.co.current && co.doing[co.current] == User && Ids(w.(co := co))
  {
    assert RwLocal(w, w.co.current);
  }
}
