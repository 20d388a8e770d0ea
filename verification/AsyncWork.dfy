/** Deferred work items of the asynchronous driver library (lib/libasyncdriver/asyncdriver.c): an
    item is queued through a list node of its own, so its pending flag must keep it from being
    queued twice. Item w has list node w + 1; node 0 is the head of the work queue. */
module AsyncWork {
  import opened KList
  import opened CoroState
  import opened CoroKernel
  import opened WorkerPool
  import opened AsyncDriver

  const QUEUE := 0
  const None := -1

  /** The nodes of a list are those of these items. */
  ghost predicate Items(nodes: seq<nat>, items: seq<nat>) {
    |nodes| == |items| && forall i :: 0 <= i < |nodes| ==> nodes[i] == items[i] + 1
  }

  class WorkQueue {
    const lib: Library
    const lists: Lists
    const wm: nat
    const we: nat
    var pending: seq<bool>
    ghost var items: seq<nat>
    ghost var parked: seq<bool>
    ghost var accepted: seq<nat>
    ghost var handed: seq<nat>

    ghost function View(): Pool<nat>
      reads this, lib
    {
      Pool(lib.st, wm, we, 0, parked, items, accepted, handed)
    }

    /** An item is pending exactly while it is queued. */
    ghost predicate Listed()
      reads this, lists
    {
      && lists.Valid() && |lists.members| == 1 && |lists.home| == |pending| + 1
      && Items(lists.members[QUEUE], items)
      && forall w :: 0 <= w < |pending| ==> (pending[w] <==> lists.home[w + 1] == QUEUE)
    }

    ghost predicate Valid()
      reads this, lib, lists
    {
      lib.Valid() && Listed() && PoolInv(View())
    }

    constructor (lib: Library, works: nat, wm: nat, we: nat)
      requires lib.Valid() && UserMutex(lib.st, wm) && UserCond(lib.st, we) && lib.owner[wm] == CoroState.Nil
      requires forall t :: 0 <= t < |lib.st.doing| ==> Stranger(lib.st.doing[t], wm, we)
      ensures Valid() && this.lib == lib && fresh(lists) && |pending| == works && PoolInitial(View())
    {
      this.lib, this.wm, this.we := lib, wm, we;
      lists := new Lists(1, works + 1);
      pending := seq(works, _ => false);
      items, accepted, handed := [], [], [];
      parked := seq(|lib.status|, _ => false);
      new;
      FreshPool(View());
    }

    method AddItem(w: nat)
      requires Listed() && w < |pending| && !pending[w]
      modifies this`pending, this`items, lists
      ensures Listed() && |pending| == |old(pending)| && items == old(items) + [w]
    {
      pending := pending[w := true];
      lists.AddTail(w + 1, QUEUE);
      items := items + [w];
    }

    /** asyncdrv_enqueue_work: refused exactly while the item is queued. */
    method EnqueueWork(w: nat) returns (ok: bool)
      requires Valid() && w < |pending| && lib.st.doing[lib.current] == User
      modifies this, lib, lists
      ensures Valid() && (ok <==> w !in old(items))
      ensures ok ==> (View(), Done) == PutStep(old(View()), w) && items == old(items) + [w]
      ensures !ok ==> View() == old(View())
    {
      PendingIffQueued(w);
      if pending[w] { return false; }
      PutInv(View(), w);
      SignalUnderIs(lib.st, we, wm);
      AddItem(w);
      SignalEvent(lib, we, wm);
      accepted := accepted + [w];
      return true;
    }

    lemma PendingIffQueued(w: nat)
      requires Listed() && w < |pending|
      ensures pending[w] <==> w in items
    {
      assert pending[w] <==> w + 1 in lists.members[QUEUE];
      if pending[w] {
        var i :| 0 <= i < |lists.members[QUEUE]| && lists.members[QUEUE][i] == w + 1;
        assert items[i] == w;
      }
      if w in items {
        var i :| 0 <= i < |items| && items[i] == w;
        assert lists.members[QUEUE][i] == w + 1;
      }
    }

    /** dequeue_work, and the flag that the work thread clears before it runs the item. */
    method DequeueWork() returns (w: int)
      requires Listed()
      modifies this`pending, this`items, lists
      ensures Listed() && |pending| == |old(pending)| && (w == None <==> old(items) == [])
      ensures w == None ==> items == old(items)
      ensures w != None ==>
                0 <= w < |pending| && [w as int] + items == old(items) && pending == old(pending)[w := false]
    {
      if lists.IsEmpty(QUEUE) { return None; }
      ghost var l := lists.members[QUEUE];
      var e := lists.next[QUEUE];
      assert e == l[0] && l[0] in l;
      ghost var i := lists.Del(e);
      w := e - 1;
      pending := pending[w := false];
      items := items[1..];
    }

    /** The wait in wait_for_work, up to the suspension. */
    method Sleep() returns (r: Result)
      requires lib.Valid() && PoolInv(View()) && items == []
      requires lib.current != MAIN && lib.st.doing[lib.current] == User
      modifies this`parked, lib
      ensures lib.Valid() && (View(), r) == SleepStep(old(View()))
    {
      ghost var me := lib.current;
      var code := SleepOn(lib, we, wm);
      parked := parked[me := true];
      r := if code == Switched then Slept else Failed;
    }

    method TakeOrSleep() returns (r: Result, w: int)
      requires lib.Valid() && Listed() && Ids(View()) && (items == [] ==> PoolInv(View()))
      requires lib.current != MAIN && lib.st.doing[lib.current] == User
      modifies this, lib, lists
      ensures lib.Valid() && Listed() && (View(), r) == PollStep(old(View()))
      ensures r == if old(items) != [] then Done else Slept
      ensures r == Done ==> 0 <= w && [w as nat] + items == old(items) && w !in items
    {
      w := DequeueWork();
      if w != None {
        PendingIffQueued(w);
        handed := handed + [w];
        r := Done;
      } else {
        SleepInv(View());
        r := Sleep();
      }
    }

    /** The head of the loop of async_work_thread: the next item to run, or the wait for one. The
        item may be queued again while it runs. */
    method Poll() returns (r: Result, w: int)
      requires Valid() && lib.current != MAIN && lib.st.doing[lib.current] == User
      modifies this, lib, lists
      ensures Valid() && (View(), r) == PollStep(old(View()))
      ensures r == if old(items) != [] then Done else Slept
      ensures r == Done ==> 0 <= w && [w as nat] + items == old(items) && w !in items
    {
      PollInv(View());
      r, w := TakeOrSleep();
    }

    /** The scheduled work thread leaves the wait in wait_for_work and tries again. */
    method GoOn(doing: Doing) returns (r: Result, w: int)
      requires Valid() && lib.current < |parked| && parked[lib.current] && doing == lib.st.doing[lib.current]
      modifies this, lib, lists
      ensures Valid() && Resumable(old(lib.st)) && (View(), r) == WakeStep(old(View()))
      ensures r == if old(items) != [] then Done else Slept
      ensures r == Done ==> 0 <= w && [w as nat] + items == old(items) && w !in items
    {
      ghost var before, me := View(), lib.current;
      AwakePolls(before);
      LeaveWait(lib, wm, doing);
      parked := parked[me := false];
      assert View() == Awake(before);
      r, w := TakeOrSleep();
    }
  }
}
