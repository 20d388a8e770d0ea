/**
  Notifications: once sent, one is pending at its receiver or in its hands until it has been
  copied out, whatever else happens.
*/
module IpcNotice {
  import opened IpcState
  import opened IpcInvariant
  import opened IpcRuns
  import opened IpcBlocking

  /** A notification of s is pending at d, or is the message d is about to get. */
  ghost predicate Held(st: State, d: nat, s: nat) {
    d < |st.procs| && (s in st.procs[d].notifyPending || (st.procs[d].deliver && st.procs[d].deliverMsg == Notice(s)))
  }

  /** Pending notifications and undelivered messages are as before. */
  ghost predicate Quiet(st: State, st': State) {
    && |st'.procs| == |st.procs| && st'.inbox == st.inbox
    && forall d :: 0 <= d < |st.procs| ==> QuietAt(st.procs[d], st'.procs[d])
  }

  ghost predicate QuietAt(r: Proc, r': Proc) {
    r'.notifyPending == r.notifyPending && (r.deliver ==> r'.deliver && r'.deliverMsg == r.deliverMsg)
  }

  lemma QuietTransitive(a: State, b: State, c: State)
    requires Quiet(a, b) && Quiet(b, c)
    ensures Quiet(a, c)
  {
    forall d | 0 <= d < |a.procs| ensures QuietAt(a.procs[d], c.procs[d]) {
      assert QuietAt(a.procs[d], b.procs[d]) && QuietAt(b.procs[d], c.procs[d]);
    }
  }

  lemma SendQuiet(st: State, p: nat, d: int, body: int, nonblock: bool)
    requires Blocking(st) && p < |st.procs|
    ensures Quiet(st, Send(st, p, d, body, nonblock).0)
  {
    if ValidPeer(st, p, d) { assert SyncAt(st, d); }
  }

  lemma DeliverEntryQuiet(st: State, s: nat, i: nat, d: nat)
    requires s < |st.procs| && i < |st.procs[s].table| && d < |st.procs| && !st.procs[d].deliver
    ensures Quiet(st, DeliverEntry(st, s, i, d)) && Quiet(st, RefuseEntry(st, s, i))
  {
  }

  lemma BookkeepingQuiet(st: State, d: nat, s: nat, on: bool)
    requires d < |st.procs| && s < |st.procs|
    ensures Quiet(st, SetAsyncBit(st, d, s, on)) && Quiet(st, SetLive(st, s, on))
  {
  }

  lemma ReceiveAsyncFromQuiet(st: State, p: nat, s: nat)
    requires Shape(st) && p < |st.procs| && s < |st.procs| && !st.procs[p].deliver
    ensures Quiet(st, ReceiveAsyncFrom(st, p, s).0)
    ensures ReceiveAsyncFrom(st, p, s).1 != Ok ==> !ReceiveAsyncFrom(st, p, s).0.procs[p].deliver
  {
    var k := FirstFor(KernelTable(st.procs[s]), p, 0);
    if k < |KernelTable(st.procs[s])| {
      var st1 := DeliverEntry(st, s, k, p);
      DeliverEntryQuiet(st, s, k, p);
      BookkeepingQuiet(st1, p, s, true);
      QuietTransitive(st, st1, SetAsyncBit(st1, p, s, true));
    } else {
      BookkeepingQuiet(st, p, s, true);
      BookkeepingQuiet(st, p, s, false);
      var st1 := SetAsyncBit(st, p, s, false);
      BookkeepingQuiet(st1, p, s, false);
      QuietTransitive(st, st1, SetLive(st1, s, false));
    }
  }

  lemma {:induction false} ReceiveAsyncAnyQuiet(st: State, p: nat, i: nat)
    requires Shape(st) && p < |st.procs| && !st.procs[p].deliver
    ensures Quiet(st, ReceiveAsyncAny(st, p, i).0)
    decreases |st.procs| - i
  {
    if i >= |st.procs| {
    } else if i !in st.procs[p].asyncPending {
      ReceiveAsyncAnyQuiet(st, p, i + 1);
    } else {
      ReceiveAsyncFromQuiet(st, p, i);
      var (st1, ret) := ReceiveAsyncFrom(st, p, i);
      if ret != Ok {
        ReceiveAsyncAnyQuiet(st1, p, i + 1);
        QuietTransitive(st, st1, ReceiveAsyncAny(st1, p, i + 1).0);
      }
    }
  }

  lemma ReceiveQueuedQuiet(st: State, p: nat, src: Source, async: bool)
    requires Shape(st) && p < |st.procs| && (src.From? ==> src.pid < |st.procs|) && !st.procs[p].deliver
    ensures Quiet(st, ReceiveQueued(st, p, src, async))
  {
  }

  lemma ScanEntryQuiet(st: State, p: nat, i: nat)
    requires Blocking(st) && p < |st.procs| && i < |st.procs[p].table|
    ensures Quiet(st, ScanEntry(st, p, i).0)
  {
    var e := st.procs[p].table[i];
    if ValidPeer(st, p, e.dest) {
      assert SyncAt(st, e.dest);
      BookkeepingQuiet(st, e.dest, p, true);
      if WaitsFor(st.procs[e.dest], p) { DeliverEntryQuiet(st, p, i, e.dest); }
    }
  }

  lemma {:induction false} ScanTableQuiet(st: State, p: nat, i: nat, done: bool)
    requires Blocking(st) && p < |st.procs| && i <= |st.procs[p].table|
    ensures Quiet(st, ScanTable(st, p, i, done))
    decreases |st.procs[p].table| - i
  {
    if i == |st.procs[p].table| {
      BookkeepingQuiet(st, p, p, !done);
    } else {
      ScanEntryBlocking(st, p, i);
      ScanEntryQuiet(st, p, i);
      var (st1, pending) := ScanEntry(st, p, i);
      ScanTableQuiet(st1, p, i + 1, done && !pending);
      QuietTransitive(st, st1, ScanTable(st1, p, i + 1, done && !pending));
    }
  }

  lemma SendTableQuiet(st: State, p: nat, table: seq<Entry>, letters: seq<Letter>)
    requires Blocking(st) && p < |st.procs|
    ensures Quiet(st, SendTable(st, p, table, letters).0)
  {
    if st.procs[p].privileged {
      var st1 := PostTable(st, p, table, letters);
      OnlyWakesKeeps(st, st1);
      ScanTableQuiet(st1, p, 0, true);
      assert Quiet(st, st1);
      QuietTransitive(st, st1, ScanTable(st1, p, 0, true));
    }
  }

  // ---------------------------------------------------------------- a notification is kept

  lemma QuietHolds(st: State, st': State, d: nat, s: nat)
    requires Quiet(st, st') && Held(st, d, s)
    ensures Held(st', d, s)
  {
    assert QuietAt(st.procs[d], st'.procs[d]);
  }

  /** A receive may serve the notification, and then has it in hand. */
  lemma ReceiveHolds(st: State, p: nat, src: Source, async: bool, d: nat, s: nat)
    requires Blocking(st) && p < |st.procs| && ValidSource(st, p, src) && !st.procs[p].receiving && !st.procs[p].deliver
    requires Held(st, d, s)
    ensures Held(Receive(st, p, src, async), d, s) && Receive(st, p, src, async).inbox == st.inbox
  {
    if !st.procs[p].sending && PendingNotice(st.procs[p], src, |st.procs|) < 0 {
      if async {
        var (st1, ret) := ReceiveAsync(st, p, src);
        if src == Any { ReceiveAsyncAnyQuiet(st, p, 0); } else { ReceiveAsyncFromQuiet(st, p, src.pid); }
        QuietHolds(st, st1, d, s);
        if ret != Ok {
          ReceiveAsyncMisses(st, p, src);
          ReceiveQueuedQuiet(st1, p, src, async);
          QuietHolds(st1, ReceiveQueued(st1, p, src, async), d, s);
        }
      } else {
        ReceiveQueuedQuiet(st, p, src, async);
        QuietHolds(st, ReceiveQueued(st, p, src, async), d, s);
      }
    }
  }

  lemma ReceiveAsyncMisses(st: State, p: nat, src: Source)
    requires Shape(st) && p < |st.procs| && (src.From? ==> src.pid < |st.procs|) && !st.procs[p].deliver
    ensures ReceiveAsync(st, p, src).1 != Ok ==> !ReceiveAsync(st, p, src).0.procs[p].deliver
  {
    if src == Any { ReceiveAsyncAnyMisses(st, p, 0); }
    if src.From? { ReceiveAsyncFromQuiet(st, p, src.pid); }
  }

  lemma {:induction false} ReceiveAsyncAnyMisses(st: State, p: nat, i: nat)
    requires Shape(st) && p < |st.procs| && !st.procs[p].deliver
    ensures ReceiveAsyncAny(st, p, i).1 != Ok ==> !ReceiveAsyncAny(st, p, i).0.procs[p].deliver
    decreases |st.procs| - i
  {
    if i < |st.procs| {
      if i !in st.procs[p].asyncPending {
        ReceiveAsyncAnyMisses(st, p, i + 1);
      } else {
        ReceiveAsyncFromQuiet(st, p, i);
        var (st1, ret) := ReceiveAsyncFrom(st, p, i);
        if ret != Ok { ReceiveAsyncAnyMisses(st1, p, i + 1); }
      }
    }
  }

  /** After any call the notification is still held, or this call copied it out. */
  lemma NextHolds(st: State, c: Call, d: nat, s: nat)
    requires Blocking(st) && Held(st, d, s)
    ensures Held(Next(st, c), d, s) || Next(st, c).inbox == st.inbox + [Delivery(d, Notice(s))]
    ensures st.inbox <= Next(st, c).inbox
  {
    if Enabled(st, c) {
      match c
      case CallSend(p, e, body, nonblock) =>
        SendQuiet(st, p, e, body, nonblock);
        QuietHolds(st, Send(st, p, e, body, nonblock).0, d, s);
      case CallReceive(p, src, async) => if ValidSource(st, p, src) { ReceiveHolds(st, p, src, async, d, s); }
      case CallBoth(p, e, body) =>
        SendBlocking(st, p, e, body, false);
        SendQuiet(st, p, e, body, false);
        var (st1, ret) := Send(st, p, e, body, false);
        QuietHolds(st, st1, d, s);
        if ret == Ok { ReceiveHolds(st1, p, From(e), false, d, s); }
      case CallNotify(p, e) =>
        if ValidPeer(st, p, e) { assert SyncAt(st, e); }
      case CallSenda(p, table, letters) =>
        SendTableQuiet(st, p, table, letters);
        QuietHolds(st, SendTable(st, p, table, letters).0, d, s);
      case SwitchTo(p) =>
      case Store(p, i, e) =>
    }
  }

  lemma ReceiveInbox(st: State, p: nat, src: Source, async: bool)
    requires Shape(st) && p < |st.procs| && (src.From? ==> src.pid < |st.procs|)
    ensures Receive(st, p, src, async).inbox == st.inbox
  {
  }

  /** Nothing that was copied out is taken back. */
  lemma InboxGrows(st: State, c: Call)
    requires Shape(st)
    ensures st.inbox <= Next(st, c).inbox
  {
    if Enabled(st, c) {
      match c
      case CallReceive(p, src, async) => if ValidSource(st, p, src) { ReceiveInbox(st, p, src, async); }
      case CallBoth(p, d, body) =>
        var (st1, ret) := Send(st, p, d, body, false);
        if ret == Ok { ReceiveInbox(st1, p, From(d), false); }
      case _ =>
    }
  }

  ghost predicate GotSince(st: State, end: State, d: nat, s: nat) {
    exists k :: |st.inbox| <= k < |end.inbox| && end.inbox[k] == Delivery(d, Notice(s))
  }

  lemma {:induction false} RunHolds(st: State, calls: seq<Call>, d: nat, s: nat)
    requires Blocking(st) && Held(st, d, s)
    ensures var end := Run(st, calls);
      Blocking(end) && |st.inbox| <= |end.inbox| && (Held(end, d, s) || GotSince(st, end, d, s))
    decreases |calls|
  {
    if calls != [] {
      var n := |calls| - 1;
      var st1, end := Run(st, calls[..n]), Run(st, calls);
      RunHolds(st, calls[..n], d, s);
      NextBlocking(st1, calls[n]);
      InboxGrows(st1, calls[n]);
      if Held(st1, d, s) {
        NextHolds(st1, calls[n], d, s);
        assert !Held(end, d, s) ==> end.inbox[|st1.inbox|] == Delivery(d, Notice(s));
      } else {
        var k :| |st.inbox| <= k < |st1.inbox| && st1.inbox[k] == Delivery(d, Notice(s));
        assert end.inbox[k] == st1.inbox[k];
      }
    }
  }

  /** No notification is lost: whatever happened before and happens after it, a notification to
      an existing process is pending, in hand, or copied out since. */
  lemma NotificationKept(rights: seq<bool>, first: seq<Call>, s: nat, d: nat, rest: seq<Call>)
    requires s < |rights| && d < |rights| && s != d
    ensures var before, end := Reached(rights, first), Reached(rights, first + [CallNotify(s, d)] + rest);
      Held(end, d, s) || GotSince(before, end, d, s)
  {
    var st, c := Reached(rights, first), CallNotify(s, d);
    ReachedBlocking(rights, first);
    NextBlocking(st, c);
    RunAppend(Initial(rights), first + [c], rest);
    var st1 := Next(st, c);
    assert (first + [c])[..|first|] == first;
    assert Held(st1, d, s) && st1.inbox == st.inbox;
    RunHolds(st1, rest, d, s);
  }

  // ---------------------------------------------------------------- no notification out of nothing

  /** How many notifications of s process r has: pending, and in hand. */
  ghost function Weight(r: Proc, s: nat): nat {
    (if s in r.notifyPending then 1 else 0) + (if r.deliver && r.deliverMsg == Notice(s) then 1 else 0)
  }

  /** How many notifications of s process d has received. */
  ghost function Got(inbox: seq<Delivery>, d: nat, s: nat): nat {
    if inbox == [] then 0
    else Got(inbox[..|inbox| - 1], d, s) + if inbox[|inbox| - 1] == Delivery(d, Notice(s)) then 1 else 0
  }

  /** How often s has notified d. */
  function Sent(calls: seq<Call>, s: nat, d: nat): nat {
    if calls == [] then 0
    else Sent(calls[..|calls| - 1], s, d) + if calls[|calls| - 1] == CallNotify(s, d) then 1 else 0
  }

  lemma SendWeight(st: State, p: nat, e: int, body: int, nonblock: bool, d: nat, s: nat)
    requires Shape(st) && p < |st.procs| && d < |st.procs|
    ensures Weight(Send(st, p, e, body, nonblock).0.procs[d], s) <= Weight(st.procs[d], s)
  {
  }

  lemma FromWeight(st: State, p: nat, q: nat, d: nat, s: nat)
    requires Shape(st) && p < |st.procs| && q < |st.procs| && d < |st.procs|
    ensures Weight(ReceiveAsyncFrom(st, p, q).0.procs[d], s) <= Weight(st.procs[d], s)
  {
  }

  lemma {:induction false} AnyWeight(st: State, p: nat, i: nat, d: nat, s: nat)
    requires Shape(st) && p < |st.procs| && d < |st.procs|
    ensures Weight(ReceiveAsyncAny(st, p, i).0.procs[d], s) <= Weight(st.procs[d], s)
    decreases |st.procs| - i
  {
    if i < |st.procs| {
      if i in st.procs[p].asyncPending {
        FromWeight(st, p, i, d, s);
        var (st1, ret) := ReceiveAsyncFrom(st, p, i);
        if ret != Ok { AnyWeight(st1, p, i + 1, d, s); }
      } else {
        AnyWeight(st, p, i + 1, d, s);
      }
    }
  }

  lemma QueuedWeight(st: State, p: nat, src: Source, async: bool, d: nat, s: nat)
    requires Blocking(st) && Runs(st, p) && ValidSource(st, p, src) && d < |st.procs|
    ensures Weight(ReceiveQueued(st, p, src, async).procs[d], s) <= Weight(st.procs[d], s)
  {
    assert SyncAt(st, p);
    if src == Any && st.queues[p] != [] { assert Member(st, p, st.queues[p][0]); }
    if src.From? { assert SyncAt(st, src.pid); }
  }

  lemma ReceiveWeight(st: State, p: nat, src: Source, async: bool, d: nat, s: nat)
    requires Blocking(st) && p < |st.procs| && ValidSource(st, p, src) && d < |st.procs|
    requires !st.procs[p].receiving && !st.procs[p].deliver
    ensures Weight(Receive(st, p, src, async).procs[d], s) <= Weight(st.procs[d], s)
  {
    var r := st.procs[p];
    if !r.sending {
      if PendingNotice(r, src, |st.procs|) >= 0 {
        LowestIn(r.notifyPending, 0, |st.procs|);
      } else if async {
        var (st1, ret) := ReceiveAsync(st, p, src);
        if src == Any {
          AnyWeight(st, p, 0, d, s);
          ReceiveAsyncAnyBlocking(st, p, 0);
        } else if src.pid in r.asyncPending {
          FromWeight(st, p, src.pid, d, s);
          ReceiveAsyncFromBlocking(st, p, src.pid);
        }
        if ret != Ok { QueuedWeight(st1, p, src, async, d, s); }
      } else {
        QueuedWeight(st, p, src, async, d, s);
      }
    }
  }

  lemma {:induction false} LowestIn(bits: set<nat>, i: nat, n: nat)
    ensures var u := LowestFrom(bits, i, n); u >= 0 ==> u in bits
    decreases n - i
  {
    if i < n && i !in bits { LowestIn(bits, i + 1, n); }
  }

  lemma EntryWeight(st: State, p: nat, i: nat, d: nat, s: nat)
    requires p < |st.procs| && i < |st.procs[p].table| && d < |st.procs|
    ensures Weight(ScanEntry(st, p, i).0.procs[d], s) <= Weight(st.procs[d], s)
  {
  }

  lemma {:induction false} ScanWeight(st: State, p: nat, i: nat, done: bool, d: nat, s: nat)
    requires p < |st.procs| && i <= |st.procs[p].table| && d < |st.procs|
    ensures Weight(ScanTable(st, p, i, done).procs[d], s) <= Weight(st.procs[d], s)
    decreases |st.procs[p].table| - i
  {
    if i < |st.procs[p].table| {
      var (st1, pending) := ScanEntry(st, p, i);
      EntryWeight(st, p, i, d, s);
      ScanWeight(st1, p, i + 1, done && !pending, d, s);
    }
  }

  lemma GotMore(inbox: seq<Delivery>, a: Delivery, d: nat, s: nat)
    ensures Got(inbox + [a], d, s) == Got(inbox, d, s) + if a == Delivery(d, Notice(s)) then 1 else 0
  {
    assert (inbox + [a])[..|inbox|] == inbox;
  }

  /** A call adds a notification only if it is one. */
  lemma NextWeight(st: State, c: Call, d: nat, s: nat)
    requires Blocking(st) && d < |st.procs|
    ensures var st' := Next(st, c);
      Weight(st'.procs[d], s) + Got(st'.inbox, d, s) <=
      Weight(st.procs[d], s) + Got(st.inbox, d, s) + if c == CallNotify(s, d) then 1 else 0
  {
    if Enabled(st, c) {
      match c
      case CallSend(p, e, body, nonblock) => SendWeight(st, p, e, body, nonblock, d, s);
      case CallReceive(p, src, async) =>
        if ValidSource(st, p, src) {
          ReceiveInbox(st, p, src, async);
          ReceiveWeight(st, p, src, async, d, s);
        }
      case CallBoth(p, e, body) => BothWeight(st, p, e, body, d, s);
      case CallNotify(p, e) =>
      case CallSenda(p, table, letters) => ScanWeight(PostTable(st, p, table, letters), p, 0, true, d, s);
      case SwitchTo(p) => GotMore(st.inbox, Delivery(p, st.procs[p].deliverMsg), d, s);
      case Store(p, i, e) =>
    }
  }

  lemma BothWeight(st: State, p: nat, e: int, body: int, d: nat, s: nat)
    requires Blocking(st) && Runs(st, p) && d < |st.procs|
    ensures var st' := SendReceive(st, p, e, body).0;
      st'.inbox == st.inbox && Weight(st'.procs[d], s) <= Weight(st.procs[d], s)
  {
    SendBlocking(st, p, e, body, false);
    SendWeight(st, p, e, body, false, d, s);
    var (st1, ret) := Send(st, p, e, body, false);
    if ret == Ok {
      ReceiveInbox(st1, p, From(e), false);
      ReceiveWeight(st1, p, From(e), false, d, s);
    }
  }

  /** In every run a process has received, and still has before it, no more notifications from another
      than were sent. */
  lemma {:induction false} NoneFromNothing(rights: seq<bool>, calls: seq<Call>, d: nat, s: nat)
    requires d < |rights|
    ensures var st := Reached(rights, calls); Weight(st.procs[d], s) + Got(st.inbox, d, s) <= Sent(calls, s, d)
    decreases |calls|
  {
    if calls != [] {
      var n := |calls| - 1;
      NoneFromNothing(rights, calls[..n], d, s);
      ReachedBlocking(rights, calls[..n]);
      NextWeight(Reached(rights, calls[..n]), calls[n], d, s);
    }
  }
}
