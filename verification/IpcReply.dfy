/**
  What a receive gets: which of the messages that are there it takes, and that a process which waits,
  for anyone or for the reply to a combined send and receive, makes no further call before it has a
  message from a source it accepts.
*/
module IpcReply {
  import opened IpcState
  import opened IpcInvariant
  import opened IpcAsync
  import opened IpcRuns
  import opened IpcBlocking
  import opened IpcNotice
  import opened IpcCalls

  // ---------------------------------------------------------------- which message is taken

  /** The receive accepts a pending notification of s. */
  ghost predicate NoticeFor(r: Proc, src: Source, s: nat, n: nat) {
    s < n && s in r.notifyPending && Accepts(src, s)
  }

  lemma {:induction false} LowestIs(bits: set<nat>, i: nat, n: nat)
    ensures var u := LowestFrom(bits, i, n);
      && (u == Nil <==> forall s: nat :: i <= s < n ==> s !in bits)
      && (u != Nil ==> i <= u < n && (u as nat) in bits && forall s: nat :: i <= s < u ==> s !in bits)
    decreases n - i
  {
    if i < n && i !in bits { LowestIs(bits, i + 1, n); }
  }

  lemma NoneIs(r: Proc, src: Source, n: nat)
    requires (src == Any || (src.From? && src.pid < n)) && forall u: nat :: u < n ==> !NoticeFor(r, src, u, n)
    ensures PendingNotice(r, src, n) == Nil
  {
    LowestIs(r.notifyPending, 0, n);
    if src == Any {
      forall s: nat | s < n ensures s !in r.notifyPending { assert !NoticeFor(r, src, s, n); }
    } else {
      assert !NoticeFor(r, src, src.pid, n);
    }
  }

  /** A receive by a process that does not send takes a notification it accepts before anything else,
      and of several the one with the lowest number. */
  lemma NoticeFirst(st: State, p: nat, src: Source, async: bool, s: nat)
    requires Shape(st) && p < |st.procs| && !st.procs[p].sending && ValidSource(st, p, src)
    requires NoticeFor(st.procs[p], src, s, |st.procs|)
    ensures var st' := Receive(st, p, src, async); var r := st'.procs[p];
      && r.deliver && !r.receiving && r.deliverMsg.Notice?
      && NoticeFor(st.procs[p], src, r.deliverMsg.source, |st.procs|) && r.deliverMsg.source <= s
      && r.notifyPending == st.procs[p].notifyPending - {r.deliverMsg.source}
      && st' == st.(procs := st.procs[p := r])
  {
    LowestIs(st.procs[p].notifyPending, 0, |st.procs|);
  }

  /** The table of s has an unfinished message for p. */
  ghost predicate EntryFor(st: State, s: nat, p: nat) {
    s < |st.procs| && FirstFor(st.procs[s].table, p, 0) < |st.procs[s].table|
  }

  /** The first unfinished message for p in the table of s, as it is delivered. */
  ghost function FirstEntry(st: State, s: nat, p: nat): Msg
    requires EntryFor(st, s, p)
  {
    var e := st.procs[s].table[FirstFor(st.procs[s].table, p, 0)];
    Packet(e.tag, s, e.body)
  }

  /** Process p now has this message in hand. */
  ghost predicate InHand(st: State, p: nat, m: Msg) {
    p < |st.procs| && st.procs[p].deliver && !st.procs[p].receiving && st.procs[p].deliverMsg == m
  }

  lemma EntryPending(st: State, s: nat, p: nat)
    requires Inv(st) && EntryFor(st, s, p) && p < |st.procs|
    ensures s in st.procs[p].asyncPending && st.procs[s].live && st.procs[s].privileged && s != p
  {
    var e := st.procs[s].table[FirstFor(st.procs[s].table, p, 0)];
    assert PendingOk(st, s, e);
  }

  lemma FromServes(st: State, p: nat, s: nat)
    requires Inv(st) && Runs(st, p) && EntryFor(st, s, p)
    ensures var (st', ret) := ReceiveAsyncFrom(st, p, s); ret == Ok && InHand(st', p, FirstEntry(st, s, p))
  {
    EntryPending(st, s, p);
  }

  /** The scan over the senders takes the first message of the lowest one that has any. */
  lemma {:induction false} AnyServes(st: State, p: nat, i: nat, s: nat)
    requires Inv(st) && Runs(st, p) && i <= s && EntryFor(st, s, p)
    requires forall u :: 0 <= u < s ==> !EntryFor(st, u, p)
    ensures var (st', ret) := ReceiveAsyncAny(st, p, i); ret == Ok && InHand(st', p, FirstEntry(st, s, p))
    decreases |st.procs| - i
  {
    EntryPending(st, s, p);
    if i == s {
      FromServes(st, p, s);
    } else if i in st.procs[p].asyncPending {
      assert i != p;
      ReceiveAsyncFromKeeps(st, p, i);
      ReceiveAsyncFromMisses(st, p, i);
      var (st1, ret) := ReceiveAsyncFrom(st, p, i);
      FailedFrom(st, p, i);
      forall u | 0 <= u < s ensures !EntryFor(st1, u, p) { assert !EntryFor(st, u, p); }
      AnyServes(st1, p, i + 1, s);
    } else {
      AnyServes(st, p, i + 1, s);
    }
  }

  lemma FailedFrom(st: State, p: nat, i: nat)
    requires Shape(st) && p < |st.procs| && i < |st.procs| && !EntryFor(st, i, p)
    ensures ReceiveAsyncFrom(st, p, i).1 != Ok
  {
    var table := st.procs[i].table;
    assert forall j :: 0 <= j < |table| ==> !(Open(table[j]) && table[j].dest == p);
  }

  /** Without a notification, a receive that takes asynchronous messages takes the first one of the
      lowest sender that has any for it, before any queued sender. */
  lemma EntrySecond(st: State, p: nat, src: Source, s: nat)
    requires Inv(st) && Runs(st, p) && ValidSource(st, p, src) && Accepts(src, s) && EntryFor(st, s, p)
    requires forall u: nat :: u < |st.procs| ==> !NoticeFor(st.procs[p], src, u, |st.procs|)
    requires forall u :: 0 <= u < s && Accepts(src, u) ==> !EntryFor(st, u, p)
    ensures InHand(Receive(st, p, src, true), p, FirstEntry(st, s, p))
  {
    NoneIs(st.procs[p], src, |st.procs|);
    EntryPending(st, s, p);
    if src == Any {
      AnyServes(st, p, 0, s);
    } else {
      FromServes(st, p, s);
    }
  }

  /** Process s waits in the queue of p with a message that the receive accepts. */
  ghost predicate QueuedFor(st: State, p: nat, src: Source, s: nat) {
    s < |st.procs| && st.procs[s].sending && st.procs[s].sendTo == p && Accepts(src, s)
  }

  lemma MissesAll(st: State, p: nat, src: Source)
    requires Inv(st) && Runs(st, p) && ValidSource(st, p, src)
    requires forall u :: 0 <= u < |st.procs| && Accepts(src, u) ==> !EntryFor(st, u, p)
    ensures var (st1, ret) := ReceiveAsync(st, p, src);
      && ret != Ok && Runs(st1, p) && Inv(st1) && st1.queues == st.queues && |st1.procs| == |st.procs|
      && forall x :: 0 <= x < |st.procs| ==> SameSend(st.procs[x], st1.procs[x])
  {
    ReceiveAsyncGood(st, p, src);
    if src == Any {
      AnyMisses(st, p, 0);
    } else if src.pid in st.procs[p].asyncPending {
      FailedFrom(st, p, src.pid);
    }
  }

  lemma {:induction false} AnyMisses(st: State, p: nat, i: nat)
    requires Inv(st) && Runs(st, p) && forall u :: 0 <= u < |st.procs| ==> !EntryFor(st, u, p)
    ensures var (st1, ret) := ReceiveAsyncAny(st, p, i);
      && ret != Ok && |st1.procs| == |st.procs|
      && forall x :: 0 <= x < |st.procs| ==> SameSend(st.procs[x], st1.procs[x])
    decreases |st.procs| - i
  {
    if i < |st.procs| {
      if i in st.procs[p].asyncPending {
        FailedFrom(st, p, i);
        ReceiveAsyncFromKeeps(st, p, i);
        ReceiveAsyncFromMisses(st, p, i);
        var st1 := ReceiveAsyncFrom(st, p, i).0;
        forall u | 0 <= u < |st1.procs| ensures !EntryFor(st1, u, p) { assert !EntryFor(st, u, p); }
        AnyMisses(st1, p, i + 1);
      } else {
        AnyMisses(st, p, i + 1);
      }
    }
  }

  /** Without either, a receive takes the queued sender it accepts that asked first, and unblocks it. */
  lemma SenderThird(st: State, p: nat, src: Source, async: bool, s: nat)
    requires Inv(st) && Runs(st, p) && ValidSource(st, p, src) && QueuedFor(st, p, src, s)
    requires forall u: nat :: u < |st.procs| ==> !NoticeFor(st.procs[p], src, u, |st.procs|)
    requires async ==> forall u :: 0 <= u < |st.procs| && Accepts(src, u) ==> !EntryFor(st, u, p)
    ensures var st' := Receive(st, p, src, async);
      exists u: nat :: QueuedFor(st, p, src, u) && InHand(st', p, st.procs[u].sendMsg) && !st'.procs[u].sending
                  && st.procs[u].sendMsg.Packet? && st.procs[s].sendMsg.Packet?
                  && st.procs[u].sendMsg.tag <= st.procs[s].sendMsg.tag
  {
    NoneIs(st.procs[p], src, |st.procs|);
    if async { MissesAll(st, p, src); }
    assert SyncAt(st, s) && SyncAt(st, p);
    assert Member(st, p, s);
    var u := if src == Any then st.queues[p][0] else s;
    assert Member(st, p, u);
    assert QueuedFor(st, p, src, u);
    var st1 := if async then ReceiveAsync(st, p, src).0 else st;
    assert Receive(st, p, src, async) == TakeSender(st1, p, u) && SameSend(st.procs[u], st1.procs[u]);
  }

  lemma HeadQueued(st: State, p: nat)
    requires Shape(st) && p < |st.procs| && SyncAt(st, p)
    ensures st.queues[p] != [] ==> QueuedFor(st, p, Any, st.queues[p][0])
  {
    if st.queues[p] != [] { assert Member(st, p, st.queues[p][0]); }
  }

  /** If there is nothing it accepts, a receive parks its caller for that source. */
  lemma ParkedLast(st: State, p: nat, src: Source, async: bool)
    requires Inv(st) && Runs(st, p) && ValidSource(st, p, src)
    requires forall u: nat :: u < |st.procs| ==> !NoticeFor(st.procs[p], src, u, |st.procs|)
    requires forall u: nat :: u < |st.procs| ==> !QueuedFor(st, p, src, u)
    requires async ==> forall u :: 0 <= u < |st.procs| && Accepts(src, u) ==> !EntryFor(st, u, p)
    ensures var r := Receive(st, p, src, async).procs[p];
      r.receiving && r.recvFrom == src && r.recvAsync == async && !r.deliver && !r.sending
  {
    NoneIs(st.procs[p], src, |st.procs|);
    assert SyncAt(st, p);
    if async { MissesAll(st, p, src); }
    var st1 := if async then ReceiveAsync(st, p, src).0 else st;
    assert SyncAt(st1, p);
    HeadQueued(st, p);
    if src.From? { assert !QueuedFor(st, p, src, src.pid) && SameSend(st.procs[src.pid], st1.procs[src.pid]); }
  }

  // ---------------------------------------------------------------- waiting for it

  /** The message comes from a source that is accepted. */
  ghost predicate Fits(m: Msg, src: Source) {
    !m.Blank? && Accepts(src, m.source)
  }

  /** The process is parked for this source, or has a message from it in hand. */
  ghost predicate Awaits(r: Proc, src: Source, async: bool) {
    || (r.receiving && !r.deliver && r.recvFrom == src && r.recvAsync == async)
    || (!r.receiving && !r.sending && r.deliver && Fits(r.deliverMsg, src))
  }

  lemma FromAwaits(st: State, p: nat, s: nat)
    requires Blocking(st) && Runs(st, p) && s < |st.procs|
    ensures var (st1, ret) := ReceiveAsyncFrom(st, p, s); ret == Ok ==> Awaits(st1.procs[p], From(s), true)
  {
  }

  lemma {:induction false} AnyAwaits(st: State, p: nat, i: nat)
    requires Blocking(st) && Runs(st, p)
    ensures var (st1, ret) := ReceiveAsyncAny(st, p, i); ret == Ok ==> Awaits(st1.procs[p], Any, true)
    decreases |st.procs| - i
  {
    if i < |st.procs| {
      if i in st.procs[p].asyncPending {
        FromAwaits(st, p, i);
        ReceiveAsyncFromBlocking(st, p, i);
        var (st1, ret) := ReceiveAsyncFrom(st, p, i);
        if ret != Ok { AnyAwaits(st1, p, i + 1); }
      } else {
        AnyAwaits(st, p, i + 1);
      }
    }
  }

  lemma QueuedAwaits(st: State, p: nat, src: Source, async: bool)
    requires Blocking(st) && Runs(st, p) && ValidSource(st, p, src)
    ensures Awaits(ReceiveQueued(st, p, src, async).procs[p], src, async)
  {
    assert SyncAt(st, p);
    if src == Any && st.queues[p] != [] { assert Member(st, p, st.queues[p][0]); }
    if src.From? { assert SyncAt(st, src.pid); }
  }

  /** A receive leaves its caller parked for the source, or with a message from it. */
  lemma ReceiveAwaits(st: State, p: nat, src: Source, async: bool)
    requires Blocking(st) && p < |st.procs| && ValidSource(st, p, src)
    requires !st.procs[p].receiving && !st.procs[p].deliver
    ensures Awaits(Receive(st, p, src, async).procs[p], src, async)
  {
    var r := st.procs[p];
    assert SyncAt(st, p);
    LowestIs(r.notifyPending, 0, |st.procs|);
    if !r.sending && PendingNotice(r, src, |st.procs|) < 0 {
      if async {
        var (st1, ret) := ReceiveAsync(st, p, src);
        if src == Any {
          AnyAwaits(st, p, 0);
          ReceiveAsyncAnyBlocking(st, p, 0);
        } else if src.pid in r.asyncPending {
          FromAwaits(st, p, src.pid);
          ReceiveAsyncFromBlocking(st, p, src.pid);
        }
        if ret != Ok { QueuedAwaits(st1, p, src, async); }
      } else {
        QueuedAwaits(st, p, src, async);
      }
    }
  }

  /** So does a combined send and receive that is accepted, whether the message was handed over at
      once or the caller is queued with it: it is parked for its peer, or has a message of it. */
  lemma BothAwaits(st: State, p: nat, d: int, body: int)
    requires Blocking(st) && Runs(st, p) && Sendable(st, p, d, false)
    ensures SendReceive(st, p, d, body).1 == Ok && Awaits(SendReceive(st, p, d, body).0.procs[p], From(d), false)
  {
    SendOutcome(st, p, d, body, false);
    SendBlocking(st, p, d, body, false);
    ReceiveAwaits(Send(st, p, d, body, false).0, p, From(d), false);
  }

  // ---------------------------------------------------------------- steps of others

  lemma SendKeeps(st: State, q: nat, d: int, body: int, nonblock: bool, p: nat, src: Source, async: bool)
    requires Blocking(st) && Runs(st, q) && p < |st.procs| && p != q && Awaits(st.procs[p], src, async)
    ensures Awaits(Send(st, q, d, body, nonblock).0.procs[p], src, async)
  {
  }

  lemma FromKeeps(st: State, q: nat, s: nat, p: nat, src: Source, async: bool)
    requires Shape(st) && q < |st.procs| && s < |st.procs| && p < |st.procs| && p != q
    requires Awaits(st.procs[p], src, async)
    ensures Awaits(ReceiveAsyncFrom(st, q, s).0.procs[p], src, async)
  {
  }

  lemma {:induction false} AnyKeeps(st: State, q: nat, i: nat, p: nat, src: Source, async: bool)
    requires Shape(st) && q < |st.procs| && p < |st.procs| && p != q && Awaits(st.procs[p], src, async)
    ensures Awaits(ReceiveAsyncAny(st, q, i).0.procs[p], src, async)
    decreases |st.procs| - i
  {
    if i < |st.procs| {
      if i in st.procs[q].asyncPending {
        FromKeeps(st, q, i, p, src, async);
        var (st1, ret) := ReceiveAsyncFrom(st, q, i);
        if ret != Ok { AnyKeeps(st1, q, i + 1, p, src, async); }
      } else {
        AnyKeeps(st, q, i + 1, p, src, async);
      }
    }
  }

  lemma QueuedKeeps(st: State, q: nat, from: Source, both: bool, p: nat, src: Source, async: bool)
    requires Shape(st) && q < |st.procs| && p < |st.procs| && p != q && (from.From? ==> from.pid < |st.procs|)
    requires Awaits(st.procs[p], src, async)
    ensures Awaits(ReceiveQueued(st, q, from, both).procs[p], src, async)
  {
  }

  lemma ReceiveKeeps(st: State, q: nat, from: Source, both: bool, p: nat, src: Source, async: bool)
    requires Shape(st) && q < |st.procs| && p < |st.procs| && p != q && (from.From? ==> from.pid < |st.procs|)
    requires Awaits(st.procs[p], src, async)
    ensures Awaits(Receive(st, q, from, both).procs[p], src, async)
  {
    var st1 := ReceiveAsync(st, q, from).0;
    if from == Any { AnyKeeps(st, q, 0, p, src, async); }
    if from.From? { FromKeeps(st, q, from.pid, p, src, async); }
    QueuedKeeps(st, q, from, both, p, src, async);
    QueuedKeeps(st1, q, from, both, p, src, async);
  }

  lemma EntryKeeps(st: State, q: nat, i: nat, p: nat, src: Source, async: bool)
    requires q < |st.procs| && i < |st.procs[q].table| && p < |st.procs| && p != q
    requires Awaits(st.procs[p], src, async)
    ensures Awaits(ScanEntry(st, q, i).0.procs[p], src, async)
  {
  }

  lemma {:induction false} ScanKeeps(st: State, q: nat, i: nat, done: bool, p: nat, src: Source, async: bool)
    requires q < |st.procs| && i <= |st.procs[q].table| && p < |st.procs| && p != q
    requires Awaits(st.procs[p], src, async)
    ensures Awaits(ScanTable(st, q, i, done).procs[p], src, async)
    decreases |st.procs[q].table| - i
  {
    if i < |st.procs[q].table| {
      var (st1, pending) := ScanEntry(st, q, i);
      EntryKeeps(st, q, i, p, src, async);
      ScanKeeps(st1, q, i + 1, done && !pending, p, src, async);
    }
  }

  /** Process p has received a message that fits. */
  ghost predicate Answered(st: State, end: State, p: nat, src: Source) {
    exists k :: |st.inbox| <= k < |end.inbox| && end.inbox[k].to == p && Fits(end.inbox[k].msg, src)
  }

  /** Whatever happens next, the process goes on waiting, or it is resumed with a message that fits. */
  lemma NextAwaits(st: State, c: Call, p: nat, src: Source, async: bool)
    requires Blocking(st) && p < |st.procs| && Awaits(st.procs[p], src, async)
    ensures Awaits(Next(st, c).procs[p], src, async) || Answered(st, Next(st, c), p, src)
  {
    if Enabled(st, c) {
      match c
      case CallSend(q, d, body, nonblock) => SendKeeps(st, q, d, body, nonblock, p, src, async);
      case CallReceive(q, from, both) =>
        if ValidSource(st, q, from) { ReceiveKeeps(st, q, from, both, p, src, async); }
      case CallBoth(q, d, body) =>
        SendKeeps(st, q, d, body, false, p, src, async);
        var (st1, ret) := Send(st, q, d, body, false);
        if ret == Ok { ReceiveKeeps(st1, q, From(d), false, p, src, async); }
      case CallNotify(q, d) =>
      case CallSenda(q, table, letters) => ScanKeeps(PostTable(st, q, table, letters), q, 0, true, p, src, async);
      case SwitchTo(q) => if q == p { assert Next(st, c).inbox[|st.inbox|] == Delivery(p, st.procs[p].deliverMsg); }
      case Store(q, i, e) =>
    }
  }

  // ---------------------------------------------------------------- whole runs

  lemma {:induction false} RunAwaits(st: State, calls: seq<Call>, p: nat, src: Source, async: bool)
    requires Blocking(st) && p < |st.procs| && Awaits(st.procs[p], src, async)
    ensures var end := Run(st, calls);
      Blocking(end) && st.inbox <= end.inbox && (Awaits(end.procs[p], src, async) || Answered(st, end, p, src))
    decreases |calls|
  {
    if calls != [] {
      var n := |calls| - 1;
      var st1, end := Run(st, calls[..n]), Run(st, calls);
      RunAwaits(st, calls[..n], p, src, async);
      NextBlocking(st1, calls[n]);
      InboxGrows(st1, calls[n]);
      if Answered(st, st1, p, src) {
        var k :| |st.inbox| <= k < |st1.inbox| && st1.inbox[k].to == p && Fits(st1.inbox[k].msg, src);
        assert end.inbox[k] == st1.inbox[k];
      } else {
        NextAwaits(st1, calls[n], p, src, async);
        if Answered(st1, end, p, src) {
          var k :| |st1.inbox| <= k < |end.inbox| && end.inbox[k].to == p && Fits(end.inbox[k].msg, src);
          assert |st.inbox| <= k;
        }
      }
    }
  }

  lemma AfterCall(rights: seq<bool>, first: seq<Call>, c: Call, rest: seq<Call>, p: nat, src: Source, async: bool)
    requires p < |rights| && Next(Reached(rights, first), c).inbox == Reached(rights, first).inbox
    requires Awaits(Next(Reached(rights, first), c).procs[p], src, async)
    ensures var before, end := Reached(rights, first), Reached(rights, first + [c] + rest);
      Awaits(end.procs[p], src, async) || Answered(before, end, p, src)
  {
    var st := Reached(rights, first);
    ReachedBlocking(rights, first);
    NextBlocking(st, c);
    RunOn(Initial(rights), first, c);
    RunAppend(Initial(rights), first + [c], rest);
    RunAwaits(Next(st, c), rest, p, src, async);
  }

  /** BOTH waits for the reply: in every run, a process whose combined send and receive was accepted is
      not back in its own code before it has received, after the call, a message or a notification of
      the process it sent to. */
  lemma ReplyFirst(rights: seq<bool>, first: seq<Call>, p: nat, d: int, body: int, rest: seq<Call>)
    requires var st := Reached(rights, first); Enabled(st, CallBoth(p, d, body)) && Sendable(st, p, d, false)
    ensures var before, end := Reached(rights, first), Reached(rights, first + [CallBoth(p, d, body)] + rest);
      Runs(end, p) ==> Answered(before, end, p, From(d))
  {
    var st, c := Reached(rights, first), CallBoth(p, d, body);
    ReachedBlocking(rights, first);
    BothAwaits(st, p, d, body);
    BothInbox(st, p, d, body);
    AfterCall(rights, first, c, rest, p, From(d), false);
  }

  lemma BothInbox(st: State, p: nat, d: int, body: int)
    requires Shape(st) && p < |st.procs|
    ensures SendReceive(st, p, d, body).0.inbox == st.inbox
  {
    var (st1, ret) := Send(st, p, d, body, false);
    if ret == Ok { ReceiveInbox(st1, p, From(d), false); }
  }

  /** The same for every receive: its caller is not back before it has received a message from a source
      it asked for. */
  lemma MessageFirst(rights: seq<bool>, first: seq<Call>, p: nat, src: Source, async: bool, rest: seq<Call>)
    requires var st := Reached(rights, first); Enabled(st, CallReceive(p, src, async)) && ValidSource(st, p, src)
    ensures var before, end := Reached(rights, first), Reached(rights, first + [CallReceive(p, src, async)] + rest);
      Runs(end, p) ==> Answered(before, end, p, src)
  {
    var st, c := Reached(rights, first), CallReceive(p, src, async);
    ReachedBlocking(rights, first);
    ReceiveAwaits(st, p, src, async);
    ReceiveInbox(st, p, src, async);
    AfterCall(rights, first, c, rest, p, src, async);
  }
}
