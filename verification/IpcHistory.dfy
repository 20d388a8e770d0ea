/**
  History only grows: accepted letters stay in the log, delivered messages stay delivered,
  and a letter only moves forward, from its sender to its receiver's hands to its memory.
*/
module IpcHistory {
  import opened IpcState
  import opened IpcInvariant
  import opened IpcAsync

  /** What may happen to a letter while no table is handed in. */
  ghost predicate Forward(a: Place, b: Place) {
    a == b || ((a.Queued? || a.Posted? || (a.Waiting? && b.Received?)) && !b.Withheld?)
  }

  /** What may happen to a letter at all. */
  ghost predicate Onward(a: Place, b: Place) {
    a == b || a.Queued? || a.Posted? || a.Withheld? || (a.Waiting? && b.Received?)
  }

  ghost predicate Grows(st: State, st': State)
    requires Shape(st)
  {
    && Shape(st') && |st'.procs| == |st.procs|
    && st.log <= st'.log && st.inbox <= st'.inbox
    && forall t :: 0 <= t < |st.log| ==> Forward(st.place[t], st'.place[t])
  }

  ghost predicate Evolves(st: State, st': State)
    requires Shape(st)
  {
    && Shape(st') && |st'.procs| == |st.procs|
    && st.log <= st'.log && st.inbox <= st'.inbox
    && forall t :: 0 <= t < |st.log| ==> Onward(st.place[t], st'.place[t])
  }

  lemma EvolvesTransitive(a: State, b: State, c: State)
    requires Shape(a) && Evolves(a, b) && Evolves(b, c)
    ensures Evolves(a, c)
  {
    forall t | 0 <= t < |a.log| ensures Onward(a.place[t], c.place[t]) {
      assert Onward(a.place[t], b.place[t]) && Onward(b.place[t], c.place[t]);
    }
  }

  lemma GrowsTransitive(a: State, b: State, c: State)
    requires Shape(a) && Grows(a, b) && Grows(b, c)
    ensures Grows(a, c)
  {
    forall t | 0 <= t < |a.log| ensures Forward(a.place[t], c.place[t]) {
      assert Forward(a.place[t], b.place[t]) && Forward(b.place[t], c.place[t]);
    }
  }

  lemma SendGrows(st: State, p: nat, d: int, body: int, nonblock: bool)
    requires Inv(st) && p < |st.procs|
    ensures Grows(st, Send(st, p, d, body, nonblock).0)
  {
  }

  lemma TakeSenderGrows(st: State, p: nat, s: nat)
    requires Inv(st) && p < |st.procs| && s < |st.procs| && st.procs[s].sending
    ensures Grows(st, TakeSender(st, p, s))
  {
    assert LettersAt(st, s);
  }

  lemma DeliverEntryGrows(st: State, s: nat, i: nat, d: nat)
    requires Base(st) && s < |st.procs| && i < |st.procs[s].table| && Open(st.procs[s].table[i]) && d < |st.procs|
    ensures Grows(st, DeliverEntry(st, s, i, d)) && Grows(st, RefuseEntry(st, s, i))
  {
    assert LettersAt(st, s) && EntryOk(st, s, st.procs[s].table[i]);
  }

  lemma ReceiveAsyncFromGrows(st: State, p: nat, s: nat)
    requires Inv(st) && Runs(st, p) && s < |st.procs|
    ensures Grows(st, ReceiveAsyncFrom(st, p, s).0)
  {
    var k := FirstFor(KernelTable(st.procs[s]), p, 0);
    if st.procs[s].privileged && k < |KernelTable(st.procs[s])| { DeliverEntryGrows(st, s, k, p); }
  }

  lemma {:induction false} ReceiveAsyncAnyGrows(st: State, p: nat, i: nat)
    requires Inv(st) && Runs(st, p)
    ensures Grows(st, ReceiveAsyncAny(st, p, i).0)
    decreases |st.procs| - i
  {
    if i >= |st.procs| {
    } else if i !in st.procs[p].asyncPending {
      ReceiveAsyncAnyGrows(st, p, i + 1);
    } else {
      ReceiveAsyncFromKeeps(st, p, i);
      ReceiveAsyncFromGrows(st, p, i);
      var (st1, ret) := ReceiveAsyncFrom(st, p, i);
      if ret != Ok {
        ReceiveAsyncAnyGrows(st1, p, i + 1);
        GrowsTransitive(st, st1, ReceiveAsyncAny(st1, p, i + 1).0);
      }
    }
  }

  lemma ScanEntryGrows(st: State, p: nat, i: nat)
    requires Base(st) && p < |st.procs| && i < |st.procs[p].table|
    ensures Grows(st, ScanEntry(st, p, i).0)
  {
    var e := st.procs[p].table[i];
    if Open(e) { DeliverEntryGrows(st, p, i, if ValidPeer(st, p, e.dest) then e.dest else p); }
  }

  lemma {:induction false} ScanTableGrows(st: State, p: nat, i: nat, done: bool)
    requires Base(st) && p < |st.procs| && i <= |st.procs[p].table| && AsyncExcept(st, p, i)
    ensures Grows(st, ScanTable(st, p, i, done))
    decreases |st.procs[p].table| - i
  {
    if i < |st.procs[p].table| {
      ScanEntryKeeps(st, p, i);
      ScanEntryGrows(st, p, i);
      var (st1, pending) := ScanEntry(st, p, i);
      ScanTableGrows(st1, p, i + 1, done && !pending);
      GrowsTransitive(st, st1, ScanTable(st1, p, i + 1, done && !pending));
    }
  }

  lemma DeliverOutGrows(st: State, p: nat)
    requires Inv(st) && p < |st.procs| && st.procs[p].deliver
    ensures Grows(st, DeliverOut(st, p))
  {
    assert LettersAt(st, p);
  }

  lemma ReceiveQueuedGrows(st: State, p: nat, src: Source, async: bool)
    requires Inv(st) && p < |st.procs| && (src.From? ==> src.pid < |st.procs|)
    ensures Grows(st, ReceiveQueued(st, p, src, async))
  {
    assert SyncAt(st, p);
    if src == Any && st.queues[p] != [] {
      assert Member(st, p, st.queues[p][0]);
      TakeSenderGrows(st, p, st.queues[p][0]);
    } else if src.From? && st.procs[src.pid].sending && st.procs[src.pid].sendTo == p {
      TakeSenderGrows(st, p, src.pid);
    }
  }
}
