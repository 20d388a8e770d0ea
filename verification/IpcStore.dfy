/**
  The table of asynchronous messages lies in its sender's memory, and the sender and the kernel both
  write to it (lib/liblyos/asyncsend.c, kernel/proc.c). What the kernel does to it between two calls
  of the sender, and what a store of the sender can do to the kernel.
*/
module IpcStore {
  import opened IpcState
  import opened IpcInvariant
  import opened IpcAsync
  import opened IpcRuns

  // ---------------------------------------------------------------- what the kernel writes

  /** Some entries have been marked done, and nothing else was written. */
  predicate Marked(before: seq<Entry>, after: seq<Entry>) {
    && |after| == |before|
    && forall i :: 0 <= i < |before| ==> after[i] == before[i] || after[i] == before[i].(done := true)
  }

  /** The kernel may mark entries and drop the table, and does no more. */
  predicate Fades(r: Proc, r': Proc) {
    Marked(r.table, r'.table) && (r'.live ==> r.live) && r'.privileged == r.privileged
  }

  ghost predicate FadesAt(st: State, st': State, p: nat) {
    |st'.procs| == |st.procs| && p < |st.procs| && Fades(st.procs[p], st'.procs[p])
  }

  /** The call is one of p about its own table. */
  predicate OwnTable(c: Call, p: nat) {
    (c.CallSenda? || c.Store?) && c.p == p
  }

  lemma FadesOn(a: State, b: State, c: State, p: nat)
    requires FadesAt(a, b, p) && FadesAt(b, c, p)
    ensures FadesAt(a, c, p)
  {
  }

  lemma DeliverMarks(st: State, q: nat, s: nat, k: nat, p: nat)
    requires q < |st.procs| && s < |st.procs| && k < |st.procs[s].table| && p < |st.procs|
    ensures FadesAt(st, DeliverEntry(st, s, k, q), p)
  {
    assert Marked(st.procs[s].table, MarkDone(st, s, k).procs[s].table);
  }

  lemma ReceiveAsyncFromMarks(st: State, q: nat, s: nat, p: nat)
    requires Shape(st) && q < |st.procs| && s < |st.procs| && p < |st.procs|
    ensures FadesAt(st, ReceiveAsyncFrom(st, q, s).0, p)
  {
    var table := KernelTable(st.procs[s]);
    var k := FirstFor(table, q, 0);
    if k < |table| {
      DeliverMarks(st, q, s, k, p);
      FadesOn(st, DeliverEntry(st, s, k, q), SetAsyncBit(DeliverEntry(st, s, k, q), q, s, true), p);
    }
  }

  lemma {:induction false} ReceiveAsyncAnyMarks(st: State, q: nat, i: nat, p: nat)
    requires Shape(st) && q < |st.procs| && p < |st.procs|
    ensures FadesAt(st, ReceiveAsyncAny(st, q, i).0, p)
    decreases |st.procs| - i
  {
    if i < |st.procs| {
      if i in st.procs[q].asyncPending {
        ReceiveAsyncFromMarks(st, q, i, p);
        var (st1, ret) := ReceiveAsyncFrom(st, q, i);
        if ret != Ok {
          ReceiveAsyncAnyMarks(st1, q, i + 1, p);
          FadesOn(st, st1, ReceiveAsyncAny(st1, q, i + 1).0, p);
        }
      } else {
        ReceiveAsyncAnyMarks(st, q, i + 1, p);
      }
    }
  }

  lemma ReceiveAsyncMarks(st: State, q: nat, src: Source, p: nat)
    requires Shape(st) && q < |st.procs| && p < |st.procs| && (src.From? ==> src.pid < |st.procs|)
    ensures FadesAt(st, ReceiveAsync(st, q, src).0, p)
  {
    if src == Any { ReceiveAsyncAnyMarks(st, q, 0, p); }
    if src.From? { ReceiveAsyncFromMarks(st, q, src.pid, p); }
  }

  lemma ReceiveQueuedMarks(st: State, q: nat, src: Source, async: bool, p: nat)
    requires Shape(st) && q < |st.procs| && p < |st.procs| && (src.From? ==> src.pid < |st.procs|)
    ensures FadesAt(st, ReceiveQueued(st, q, src, async), p)
  {
  }

  lemma ReceiveMarks(st: State, q: nat, src: Source, async: bool, p: nat)
    requires Shape(st) && q < |st.procs| && p < |st.procs| && (src.From? ==> src.pid < |st.procs|)
    ensures FadesAt(st, Receive(st, q, src, async), p)
  {
    if async {
      var st1 := ReceiveAsync(st, q, src).0;
      ReceiveAsyncMarks(st, q, src, p);
      ReceiveQueuedMarks(st1, q, src, async, p);
      FadesOn(st, st1, ReceiveQueued(st1, q, src, async), p);
    } else {
      ReceiveQueuedMarks(st, q, src, async, p);
    }
  }

  lemma ScanEntryMarks(st: State, q: nat, i: nat, p: nat)
    requires q < |st.procs| && i < |st.procs[q].table| && p < |st.procs|
    ensures FadesAt(st, ScanEntry(st, q, i).0, p)
  {
    var e := st.procs[q].table[i];
    if Open(e) && ValidPeer(st, q, e.dest) { DeliverMarks(st, e.dest, q, i, p); }
  }

  lemma {:induction false} ScanTableMarks(st: State, q: nat, i: nat, done: bool, p: nat)
    requires q < |st.procs| && i <= |st.procs[q].table| && p < |st.procs| && p != q
    ensures FadesAt(st, ScanTable(st, q, i, done), p)
    decreases |st.procs[q].table| - i
  {
    if i < |st.procs[q].table| {
      var (st1, pending) := ScanEntry(st, q, i);
      ScanEntryMarks(st, q, i, p);
      ScanTableMarks(st1, q, i + 1, done && !pending, p);
      FadesOn(st, st1, ScanTable(st, q, i, done), p);
    }
  }

  lemma BothMarks(st: State, q: nat, d: int, body: int, p: nat)
    requires Shape(st) && Runs(st, q) && p < |st.procs|
    ensures FadesAt(st, SendReceive(st, q, d, body).0, p)
  {
    var (st1, ret) := Send(st, q, d, body, false);
    if ret == Ok {
      ReceiveMarks(st1, q, From(d), false, p);
      FadesOn(st, st1, Receive(st1, q, From(d), false), p);
    }
  }

  lemma SendTableMarks(st: State, q: nat, table: seq<Entry>, letters: seq<Letter>, p: nat)
    requires q < |st.procs| && p < |st.procs| && p != q
    ensures FadesAt(st, SendTable(st, q, table, letters).0, p)
  {
    var st1 := PostTable(st, q, table, letters);
    ScanTableMarks(st1, q, 0, true, p);
    FadesOn(st, st1, ScanTable(st1, q, 0, true), p);
  }

  /** Whatever another process does, and whatever p does other than about its table, only marks
      entries of the table of p done, or drops it. */
  lemma NextMarks(st: State, c: Call, p: nat)
    requires Shape(st) && p < |st.procs| && !OwnTable(c, p)
    ensures FadesAt(st, Next(st, c), p)
  {
    if Enabled(st, c) {
      match c
      case CallReceive(q, src, async) => if ValidSource(st, q, src) { ReceiveMarks(st, q, src, async, p); }
      case CallBoth(q, d, body) => BothMarks(st, q, d, body, p);
      case CallSenda(q, table, letters) => SendTableMarks(st, q, table, letters, p);
      case _ =>
    }
  }

  lemma {:induction false} RunMarks(st: State, calls: seq<Call>, p: nat)
    requires Shape(st) && p < |st.procs| && forall c :: c in calls ==> !OwnTable(c, p)
    ensures FadesAt(st, Run(st, calls), p)
    decreases |calls|
  {
    if calls != [] {
      var n := |calls| - 1;
      RunMarks(st, calls[..n], p);
      NextMarks(Run(st, calls[..n]), calls[n], p);
      FadesOn(st, Run(st, calls[..n]), Run(st, calls), p);
    }
  }

  // ---------------------------------------------------------------- how long the kernel keeps it

  lemma ScanEntryOwn(st: State, p: nat, i: nat)
    requires p < |st.procs| && i < |st.procs[p].table|
    ensures var (st1, pending) := ScanEntry(st, p, i); var e := st.procs[p].table[i];
      && st1.procs[p].table == st.procs[p].table[i := if pending || !Open(e) then e else e.(done := true)]
      && (pending <==> Open(st1.procs[p].table[i]))
  {
  }

  lemma {:induction false} ScanLive(st: State, p: nat, i: nat, done: bool)
    requires p < |st.procs| && i <= |st.procs[p].table|
    requires done <==> forall j :: 0 <= j < i ==> !Open(st.procs[p].table[j])
    ensures var r := ScanTable(st, p, i, done).procs[p]; r.live <==> !AllDone(r.table)
    decreases |st.procs[p].table| - i
  {
    if i < |st.procs[p].table| {
      var (st1, pending) := ScanEntry(st, p, i);
      ScanEntryOwn(st, p, i);
      assert forall j :: 0 <= j < i ==> st1.procs[p].table[j] == st.procs[p].table[j];
      ScanLive(st1, p, i + 1, done && !pending);
    }
  }

  /** A table call is refused exactly without privilege. The kernel keeps the table exactly if something
      in it is left unfinished. */
  lemma TableKept(st: State, p: nat, table: seq<Entry>, letters: seq<Letter>)
    requires p < |st.procs|
    ensures var (st', ret) := SendTable(st, p, table, letters);
      && ret == (if st.procs[p].privileged then Ok else EPerm) && (ret != Ok ==> st' == st)
      && (ret == Ok ==> (st'.procs[p].live <==> !AllDone(st'.procs[p].table)))
  {
    if st.procs[p].privileged { ScanLive(PostTable(st, p, table, letters), p, 0, true); }
  }

  /** A receiver that looks drops the table exactly if it finds everything finished. */
  lemma TableDropped(st: State, p: nat, s: nat)
    requires Shape(st) && p < |st.procs| && s < |st.procs| && p != s && st.procs[s].privileged && st.procs[s].live
    ensures var (st', ret) := ReceiveAsyncFrom(st, p, s);
      && (st'.procs[s].live <==> !AllDone(st.procs[s].table))
      && (s in st'.procs[p].asyncPending <==> !AllDone(st.procs[s].table))
      && (ret == Ok <==> exists i :: 0 <= i < |st.procs[s].table| && Open(st.procs[s].table[i])
                                     && st.procs[s].table[i].dest == p)
  {
    var table := st.procs[s].table;
    var k := FirstFor(table, p, 0);
    assert k < |table| ==> Open(table[k]) && table[k].dest == p;
  }

  // ---------------------------------------------------------------- stores that do no harm

  /** Slot i is not, or no longer, in the table that the kernel has of process p. */
  ghost predicate OutOfReach(st: State, p: nat, i: int) {
    p < |st.procs| && (!st.procs[p].live || i < 0 || i >= |st.procs[p].table|)
  }

  /** A slot the kernel does not look at stays so whatever others do, and a store to it is no event. */
  lemma StoreUnseen(st: State, p: nat, i: nat, others: seq<Call>, e: Entry)
    requires Shape(st) && OutOfReach(st, p, i) && forall c :: c in others ==> !OwnTable(c, p)
    ensures var end := Run(st, others); OutOfReach(end, p, i) && Next(end, Store(p, i, e)) == end
  {
    RunMarks(st, others, p);
  }

  /** A store to a finished entry is forgotten if the sender hands a table in before anyone looks. */
  lemma StoreForgotten(st: State, p: nat, i: nat, e: Entry, table: seq<Entry>, letters: seq<Letter>)
    requires Inv(st) && p < |st.procs| && (i < |st.procs[p].table| ==> !Open(st.procs[p].table[i]))
    ensures SendTable(StoreSlot(st, p, i, e), p, table, letters).1 == SendTable(st, p, table, letters).1
    ensures st.procs[p].privileged ==>
              SendTable(StoreSlot(st, p, i, e), p, table, letters) == SendTable(st, p, table, letters)
  {
    var st' := StoreSlot(st, p, i, e);
    if st.procs[p].privileged {
      assert PostTable(st', p, table, letters).procs == PostTable(st, p, table, letters).procs;
      assert PostTable(st', p, table, letters) == PostTable(st, p, table, letters);
    }
  }

  // ---------------------------------------------------------------- a store that does

  /** The store of the flags alone: the slot is in use again, with the message it had. */
  function InUse(e: Entry): Entry {
    e.(used := true, done := false)
  }

  /** Process q has received entry i of the table of p, every entry is finished, and nobody has told
      the kernel yet. */
  ghost predicate Spent(st: State, p: nat, i: nat, q: nat, k: nat) {
    && Runs(st, p) && Runs(st, q) && q != p
    && st.procs[p].privileged && st.procs[p].live && AllDone(st.procs[p].table)
    && i < |st.procs[p].table| && st.procs[p].table[i].dest == q && st.procs[p].table[i].tag < |st.place|
    && st.place[st.procs[p].table[i].tag] == Received(k)
    && p in st.procs[q].asyncPending && p !in st.procs[q].notifyPending
  }

  lemma ReceiveAgain(st: State, p: nat, i: nat, q: nat, e: Entry)
    requires Shape(st) && Runs(st, p) && Runs(st, q) && q != p && st.procs[p].privileged && st.procs[p].live
    requires i < |st.procs[p].table| && e == st.procs[p].table[i] && Open(e) && e.dest == q
    requires forall j :: 0 <= j < |st.procs[p].table| && j != i ==> !Open(st.procs[p].table[j])
    requires p in st.procs[q].asyncPending && p !in st.procs[q].notifyPending
    ensures Next(st, CallReceive(q, From(p), true)) == SetAsyncBit(DeliverEntry(st, p, i, q), q, p, true)
  {
    assert FirstFor(st.procs[p].table, q, 0) == i;
  }

  lemma StoreFlags(st: State, p: nat, i: nat, q: nat, k: nat)
    requires Inv(st) && Spent(st, p, i, q, k)
    ensures var e := st.procs[p].table[i]; var st1 := Next(st, Store(p, i, InUse(e)));
      && Careless(st, Store(p, i, InUse(e)))
      && st1 == st.(procs := st.procs[p := st.procs[p].(table := st.procs[p].table[i := InUse(e)])])
      && Next(st1, CallReceive(q, From(p), true)) == SetAsyncBit(DeliverEntry(st1, p, i, q), q, p, true)
  {
    var e := st.procs[p].table[i];
    ReceiveAgain(Next(st, Store(p, i, InUse(e))), p, i, q, InUse(e));
  }

  lemma TakenOut(st: State, p: nat, i: nat, q: nat)
    requires Shape(st) && Runs(st, q) && p < |st.procs| && q != p && i < |st.procs[p].table|
    ensures var e, st2 := st.procs[p].table[i], SetAsyncBit(DeliverEntry(st, p, i, q), q, p, true);
      Shape(st2) && var end := Next(st2, SwitchTo(q));
      && end.inbox == st.inbox + [Delivery(q, Packet(e.tag, p, e.body))] && end.log == st.log
      && end.procs[p] == st.procs[p].(table := st.procs[p].table[i := e.(done := true)])
  {
  }

  lemma RunThree(st: State, a: Call, b: Call, c: Call)
    requires Shape(st)
    ensures Run(st, [a, b, c]) == Next(Next(Next(st, a), b), c)
  {
    RunOn(st, [], a);
    RunOn(st, [a], b);
    RunOn(st, [a, b], c);
    assert [] + [a] == [a] && [a] + [b] == [a, b] && [a, b] + [c] == [a, b, c];
  }

  /** While the sender has stored the flags and not yet the message, the receiver can run. It receives
      the message of the slot once more, and the kernel marks the slot done. */
  lemma ReceivedTwice(st: State, p: nat, i: nat, q: nat, k: nat)
    requires Inv(st) && Spent(st, p, i, q, k)
    ensures var e := st.procs[p].table[i];
      var store, receive := Store(p, i, InUse(e)), CallReceive(q, From(p), true);
      var end := Run(st, [store, receive, SwitchTo(q)]);
      && Careless(st, store)
      && end.inbox == st.inbox + [Delivery(q, Packet(e.tag, p, e.body))] && end.log == st.log
      && k < |st.inbox| && st.inbox[k].msg.Packet? && st.inbox[k].msg.tag == e.tag
      && end.procs[p] == st.procs[p].(table := st.procs[p].table[i := InUse(e).(done := true)])
  {
    var e := st.procs[p].table[i];
    var store, receive := Store(p, i, InUse(e)), CallReceive(q, From(p), true);
    assert PlaceOk(st, e.tag);
    StoreFlags(st, p, i, q, k);
    TakenOut(Next(st, store), p, i, q);
    RunThree(st, store, receive, SwitchTo(q));
  }

  lemma {:induction false} ScanDone(st: State, p: nat, i: nat)
    requires p < |st.procs| && i <= |st.procs[p].table| && AllDone(st.procs[p].table)
    ensures ScanTable(st, p, i, true) == SetLive(st, p, false)
    decreases |st.procs[p].table| - i
  {
    if i < |st.procs[p].table| { ScanDone(st, p, i + 1); }
  }

  /** The sender stores the message and the destination next, which leaves the mark, and hands the slot
      in. The kernel finds nothing to do: the new message is not accepted. */
  lemma MarkedNotTaken(st: State, p: nat, i: nat, e: Entry)
    requires Shape(st) && Runs(st, p) && st.procs[p].privileged
    requires AllDone(st.procs[p].table) && i < |st.procs[p].table| && e.done
    ensures var end := Next(Next(st, Store(p, i, e)), CallSenda(p, [e], []));
      end.log == st.log && end.inbox == st.inbox && end.procs[p].table == [e] && !end.procs[p].live
  {
    var st1 := Next(st, Store(p, i, e));
    ScanDone(PostTable(st1, p, [e], []), p, 0);
  }

  // ---------------------------------------------------------------- the run

  const TWO := [true, true]

  function OneEntry(body: int): Entry {
    Entry(0, 1, body, true, false)
  }

  function OnePending(body: int): State {
    State([Idle(true).(table := [OneEntry(body)], live := true), Idle(true).(asyncPending := {0})], [[], []],
          [Letter(0, 1, body, true)], [Posted(0)], [])
  }

  lemma OnePosted(body: int)
    ensures Next(Initial(TWO), CallSenda(0, [OneEntry(body)], [Letter(0, 1, body, true)])) == OnePending(body)
  {
    var e, st := OneEntry(body), Initial(TWO);
    assert Open([e][0]);
    assert Repost(st, 0, [e], [Letter(0, 1, body, true)]);
    var st1 := PostTable(st, 0, [e], [Letter(0, 1, body, true)]);
    assert st1.place == [Posted(0)];
    assert ScanEntry(st1, 0, 0) == (SetAsyncBit(st1, 1, 0, true), true);
    assert ScanTable(SetAsyncBit(st1, 1, 0, true), 0, 1, false) == SetLive(SetAsyncBit(st1, 1, 0, true), 0, true);
    var end := Next(st, CallSenda(0, [e], [Letter(0, 1, body, true)]));
    assert end.procs[0] == Idle(true).(table := [e], live := true) && end.procs[1].asyncPending == {0};
  }

  /** Process 0 posts a message, and process 1 receives it. */
  ghost function OneReceived(body: int): State {
    var e := OneEntry(body).(done := true);
    State([Idle(true).(table := [e], live := true), Idle(true).(asyncPending := {0})], [[], []],
          [Letter(0, 1, body, true)], [Received(0)], [Delivery(1, Packet(0, 0, body))])
  }

  function FirstCalls(body: int): seq<Call> {
    [CallSenda(0, [OneEntry(body)], [Letter(0, 1, body, true)]), CallReceive(1, From(0), true), SwitchTo(1)]
  }

  lemma OneTaken(body: int)
    ensures Next(Next(OnePending(body), CallReceive(1, From(0), true)), SwitchTo(1)) == OneReceived(body)
  {
    var st := OnePending(body);
    ReceiveAgain(st, 0, 0, 1, OneEntry(body));
    var end := Next(Next(st, CallReceive(1, From(0), true)), SwitchTo(1));
    assert end.procs[0] == OneReceived(body).procs[0] && end.procs[1] == OneReceived(body).procs[1];
  }

  lemma FirstRun(body: int)
    ensures Reached(TWO, FirstCalls(body)) == OneReceived(body)
    ensures Inv(OneReceived(body)) && Spent(OneReceived(body), 0, 0, 1, 0)
  {
    var c := FirstCalls(body);
    OnePosted(body);
    OneTaken(body);
    RunThree(Initial(TWO), c[0], c[1], c[2]);
    ReachedInv(TWO, c);
  }

  /** asyncsend3 restarts at slot 0 while the kernel still has the finished table, and process 1
      receives between its stores: the first message is received twice, and the second, which is in the
      slot by the time of the call, not at all. */
  lemma StoreRace(body: int, other: int)
    ensures var again := [Store(0, 0, OneEntry(body)), CallReceive(1, From(0), true), SwitchTo(1)];
      var last := Entry(1, 1, other, true, true);
      var calls := FirstCalls(body) + again + [Store(0, 0, last)] + [CallSenda(0, [last], [])];
      var d, end := Delivery(1, Packet(0, 0, body)), Reached(TWO, calls);
      && end.inbox == [d, d] && end.log == [Letter(0, 1, body, true)] && !end.procs[0].live
      && Careless(Reached(TWO, FirstCalls(body)), again[0])
  {
    var again := [Store(0, 0, OneEntry(body)), CallReceive(1, From(0), true), SwitchTo(1)];
    var last := Entry(1, 1, other, true, true);
    var st, init, first := OneReceived(body), Initial(TWO), FirstCalls(body);
    FirstRun(body);
    ReceivedTwice(st, 0, 0, 1, 0);
    RunAppend(init, first, again);
    var mid := Run(st, again);
    RunOn(init, first + again, Store(0, 0, last));
    RunOn(init, first + again + [Store(0, 0, last)], CallSenda(0, [last], []));
    MarkedNotTaken(mid, 0, 0, last);
  }
}
