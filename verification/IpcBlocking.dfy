/**
  Blocking messages and notifications do not depend on what a sender does to its table: this part of
  the invariant holds in every state of every run, with any stores whatsoever.
*/
module IpcBlocking {
  import opened IpcState
  import opened IpcInvariant
  import opened IpcSteps
  import opened IpcRuns

  // ---------------------------------------------------------------- steps that leave the queues

  ghost predicate SameFlags(r: Proc, r': Proc) {
    && r'.receiving == r.receiving && r'.recvAsync == r.recvAsync && r'.recvFrom == r.recvFrom
    && r'.deliver == r.deliver && r'.deliverMsg == r.deliverMsg
  }

  ghost predicate Wakes(r: Proc, r': Proc) {
    !r.sending && !r'.receiving && !r'.recvAsync && r'.deliver && !r'.deliverMsg.Blank?
  }

  ghost predicate SameSend(r: Proc, r': Proc) {
    r'.sending == r.sending && r'.sendTo == r.sendTo && r'.sendMsg == r.sendMsg
  }

  /** No sender moves, and a process is at most woken with a message. */
  ghost predicate OnlyWakes(st: State, st': State) {
    && Shape(st') && |st'.procs| == |st.procs| && st'.queues == st.queues && |st.log| <= |st'.log|
    && forall x :: 0 <= x < |st.procs| ==>
         && SameSend(st.procs[x], st'.procs[x])
         && (SameFlags(st.procs[x], st'.procs[x]) || Wakes(st.procs[x], st'.procs[x]))
  }

  lemma OnlyWakesKeeps(st: State, st': State)
    requires Blocking(st) && OnlyWakes(st, st')
    ensures Blocking(st')
  {
    forall x | 0 <= x < |st.procs| ensures SyncAt(st', x) {
      assert SyncAt(st, x);
      assert QueueOk(st', x) by { assert forall i :: 0 <= i < |st.queues[x]| ==> Member(st, x, st.queues[x][i]); }
    }
    FewerEdges(st, st');
  }

  // ---------------------------------------------------------------- each call

  lemma SendBlocking(st: State, p: nat, d: int, body: int, nonblock: bool)
    requires Blocking(st) && Runs(st, p)
    ensures Blocking(Send(st, p, d, body, nonblock).0)
  {
    if ValidPeer(st, p, d) && !Reaches(st, d, p) {
      if WaitsFor(st.procs[d], p) {
        OnlyWakesKeeps(st, HandOver(st, p, d, body));
      } else {
        EnqueueSync(st, p, d, body);
        NewEdge(st, p, d, body);
      }
    }
  }

  lemma BookkeepingBlocking(st: State, p: nat, s: nat, on: bool)
    requires Blocking(st) && p < |st.procs| && s < |st.procs|
    ensures Blocking(SetAsyncBit(st, p, s, on)) && Blocking(SetLive(st, s, on))
  {
    OnlyWakesKeeps(st, SetAsyncBit(st, p, s, on));
    OnlyWakesKeeps(st, SetLive(st, s, on));
  }

  lemma ReceiveAsyncFromBlocking(st: State, p: nat, s: nat)
    requires Blocking(st) && Runs(st, p) && s < |st.procs|
    ensures var (st', ret) := ReceiveAsyncFrom(st, p, s); Blocking(st') && (ret != Ok ==> Runs(st', p))
  {
    var table := KernelTable(st.procs[s]);
    var k := FirstFor(table, p, 0);
    if k < |table| {
      var st1 := DeliverEntry(st, s, k, p);
      OnlyWakesKeeps(st, st1);
      BookkeepingBlocking(st1, p, s, true);
    } else {
      BookkeepingBlocking(st, p, s, true);
      BookkeepingBlocking(st, p, s, false);
      BookkeepingBlocking(SetAsyncBit(st, p, s, false), p, s, false);
    }
  }

  lemma {:induction false} ReceiveAsyncAnyBlocking(st: State, p: nat, i: nat)
    requires Blocking(st) && Runs(st, p)
    ensures var (st', ret) := ReceiveAsyncAny(st, p, i); Blocking(st') && (ret != Ok ==> Runs(st', p))
    decreases |st.procs| - i
  {
    if i < |st.procs| {
      if i !in st.procs[p].asyncPending {
        ReceiveAsyncAnyBlocking(st, p, i + 1);
      } else {
        ReceiveAsyncFromBlocking(st, p, i);
        var (st1, ret) := ReceiveAsyncFrom(st, p, i);
        if ret != Ok { ReceiveAsyncAnyBlocking(st1, p, i + 1); }
      }
    }
  }

  lemma BlockBlocking(st: State, p: nat, src: Source, async: bool)
    requires Blocking(st) && p < |st.procs| && !st.procs[p].receiving && !st.procs[p].deliver
    requires if st.procs[p].sending then !async && st.procs[p].sendTo >= 0 && src == From(st.procs[p].sendTo)
             else forall s :: s in st.queues[p] ==> !Accepts(src, s)
    ensures Blocking(Block(st, p, src, async))
  {
    var st' := Block(st, p, src, async);
    assert SyncAt(st, p);
    forall x | 0 <= x < |st.procs| ensures SyncAt(st', x) { assert SyncAt(st, x); }
    FewerEdges(st, st');
  }

  lemma TakeSenderBlocking(st: State, p: nat, s: nat)
    requires Blocking(st) && Runs(st, p) && s in st.queues[p] && s < |st.procs|
    ensures Blocking(TakeSender(st, p, s))
  {
    TakeSenderSync(st, p, s);
    FewerEdges(st, TakeSender(st, p, s));
  }

  lemma ReceiveQueuedBlocking(st: State, p: nat, src: Source, async: bool)
    requires Blocking(st) && Runs(st, p) && ValidSource(st, p, src)
    ensures Blocking(ReceiveQueued(st, p, src, async))
  {
    assert SyncAt(st, p);
    if src == Any && st.queues[p] != [] {
      assert Member(st, p, st.queues[p][0]);
      TakeSenderBlocking(st, p, st.queues[p][0]);
    } else if src.From? && st.procs[src.pid].sending && st.procs[src.pid].sendTo == p {
      assert SyncAt(st, src.pid);
      TakeSenderBlocking(st, p, src.pid);
    } else {
      forall s | s in st.queues[p] ensures !Accepts(src, s) { assert Member(st, p, s); }
      BlockBlocking(st, p, src, async);
    }
  }

  lemma ReceiveBlocking(st: State, p: nat, src: Source, async: bool)
    requires Blocking(st) && p < |st.procs| && ValidSource(st, p, src)
    requires !st.procs[p].receiving && !st.procs[p].deliver
    requires st.procs[p].sending ==> !async && src.From? && src.pid == st.procs[p].sendTo
    ensures Blocking(Receive(st, p, src, async))
  {
    var r := st.procs[p];
    var notice := PendingNotice(r, src, |st.procs|);
    if r.sending {
      BlockBlocking(st, p, src, async);
    } else if notice >= 0 {
      OnlyWakesKeeps(st, TakeNotice(st, p, notice));
    } else if async {
      var (st1, ret) := ReceiveAsync(st, p, src);
      if src == Any {
        ReceiveAsyncAnyBlocking(st, p, 0);
      } else if src.pid in r.asyncPending {
        ReceiveAsyncFromBlocking(st, p, src.pid);
      }
      if ret != Ok { ReceiveQueuedBlocking(st1, p, src, async); }
    } else {
      ReceiveQueuedBlocking(st, p, src, async);
    }
  }

  lemma ScanEntryBlocking(st: State, p: nat, i: nat)
    requires Blocking(st) && p < |st.procs| && i < |st.procs[p].table|
    ensures Blocking(ScanEntry(st, p, i).0)
  {
    OnlyWakesKeeps(st, ScanEntry(st, p, i).0);
  }

  lemma {:induction false} ScanTableBlocking(st: State, p: nat, i: nat, done: bool)
    requires Blocking(st) && p < |st.procs| && i <= |st.procs[p].table|
    ensures Blocking(ScanTable(st, p, i, done))
    decreases |st.procs[p].table| - i
  {
    if i == |st.procs[p].table| {
      OnlyWakesKeeps(st, SetLive(st, p, !done));
    } else {
      var (st1, pending) := ScanEntry(st, p, i);
      ScanEntryBlocking(st, p, i);
      ScanTableBlocking(st1, p, i + 1, done && !pending);
    }
  }

  lemma SendTableBlocking(st: State, p: nat, table: seq<Entry>, letters: seq<Letter>)
    requires Blocking(st) && p < |st.procs|
    ensures Blocking(SendTable(st, p, table, letters).0)
  {
    if st.procs[p].privileged {
      var st1 := PostTable(st, p, table, letters);
      OnlyWakesKeeps(st, st1);
      ScanTableBlocking(st1, p, 0, true);
    }
  }

  lemma DeliverOutBlocking(st: State, p: nat)
    requires Blocking(st) && p < |st.procs| && st.procs[p].deliver
    ensures Blocking(DeliverOut(st, p))
  {
    var st' := DeliverOut(st, p);
    assert SyncAt(st, p);
    forall x | 0 <= x < |st.procs| ensures SyncAt(st', x) { assert SyncAt(st, x); }
    FewerEdges(st, st');
  }

  /** Every call and every store keeps it. */
  lemma NextBlocking(st: State, c: Call)
    requires Blocking(st)
    ensures Blocking(Next(st, c))
  {
    if Enabled(st, c) {
      match c
      case CallSend(p, d, body, nonblock) => SendBlocking(st, p, d, body, nonblock);
      case CallReceive(p, src, async) => if ValidSource(st, p, src) { ReceiveBlocking(st, p, src, async); }
      case CallBoth(p, d, body) =>
        SendBlocking(st, p, d, body, false);
        var (st1, ret) := Send(st, p, d, body, false);
        if ret == Ok { ReceiveBlocking(st1, p, From(d), false); }
      case CallNotify(p, d) => OnlyWakesKeeps(st, Next(st, c));
      case CallSenda(p, table, letters) => SendTableBlocking(st, p, table, letters);
      case SwitchTo(p) => if st.procs[p].deliver { DeliverOutBlocking(st, p); }
      case Store(p, i, e) => OnlyWakesKeeps(st, StoreSlot(st, p, i, e));
    }
  }

  // ---------------------------------------------------------------- every run

  lemma {:induction false} ReachedBlocking(rights: seq<bool>, calls: seq<Call>)
    ensures Blocking(Reached(rights, calls))
    decreases |calls|
  {
    if calls == [] {
      InitialGood(rights);
      InvBlocking(Initial(rights));
    } else {
      var n := |calls| - 1;
      ReachedBlocking(rights, calls[..n]);
      NextBlocking(Reached(rights, calls[..n]), calls[n]);
    }
  }

  /** In every reachable state no chain of blocked senders comes back to where it started. */
  lemma NoDeadlockedSenders(rights: seq<bool>, calls: seq<Call>)
    ensures NoSendCycle(Reached(rights, calls))
  {
    ReachedBlocking(rights, calls);
    AcyclicNoCycle(Reached(rights, calls));
  }

  /** A process parked in the receive half has no queued sender that it would accept. */
  lemma NoMissedSender(rights: seq<bool>, calls: seq<Call>, p: nat, s: nat)
    requires p < |rights| && s < |rights| && WaitsFor(Reached(rights, calls).procs[p], s)
    ensures var r := Reached(rights, calls).procs[s]; !(r.sending && r.sendTo == p)
  {
    var st := Reached(rights, calls);
    ReachedBlocking(rights, calls);
    assert SyncAt(st, p) && SyncAt(st, s);
  }

  /** A receive from anyone takes the sender that has waited longest. */
  lemma OldestFirst(rights: seq<bool>, calls: seq<Call>, p: nat, s: nat)
    requires p < |rights| && s < |rights|
    requires var r := Reached(rights, calls).procs[s]; r.sending && r.sendTo == p
    ensures var st := Reached(rights, calls);
      && st.queues[p] != [] && st.queues[p][0] < |st.procs|
      && st.procs[st.queues[p][0]].sending && st.procs[st.queues[p][0]].sendTo == p
      && st.procs[st.queues[p][0]].sendMsg.Packet? && st.procs[s].sendMsg.Packet?
      && st.procs[st.queues[p][0]].sendMsg.tag <= st.procs[s].sendMsg.tag
  {
    var st := Reached(rights, calls);
    ReachedBlocking(rights, calls);
    assert SyncAt(st, s) && SyncAt(st, p);
    assert Member(st, p, st.queues[p][0]);
  }
}
