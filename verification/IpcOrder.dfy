/**
  The order in which messages from one process to another arrive, on each of the two channels: the
  blocking one and the asynchronous one. Two letters of a channel can change their order in one way
  only: the later one is delivered while the sender withholds the earlier one.
*/
module IpcOrder {
  import opened IpcState
  import opened IpcInvariant
  import opened IpcAsync

  ghost predicate SameChannel(a: Letter, b: Letter) {
    a.src == b.src && a.dst == b.dst && a.async == b.async
  }

  /** `a` is where an earlier letter of the channel of `b` should be. */
  ghost predicate Ahead(a: Place, b: Place) {
    match b
    case Received(k) => a.Received? && a.index < k
    case Waiting(_) => a.Received?
    case Queued(_) => a.Received? || a.Waiting?
    case _ => true
  }

  ghost predicate Pair(st: State, t: nat, u: nat) {
    Shape(st) && t < u < |st.log| && SameChannel(st.log[t], st.log[u])
  }

  ghost predicate InOrder(st: State, t: nat, u: nat) {
    Pair(st, t, u) ==> Ahead(st.place[t], st.place[u])
  }

  ghost predicate Overtaken(st: State, t: nat, u: nat) {
    Pair(st, t, u) && st.place[t].Withheld? && st.place[u].Waiting?
  }

  ghost predicate WaitsAt(r: Proc, t: nat) {
    r.deliver && r.deliverMsg.Packet? && r.deliverMsg.tag == t
  }

  /** A letter that has not been received is held by the process its log entry names. */
  lemma PlaceOwner(st: State, t: nat)
    requires Base(st) && t < |st.log|
    ensures st.place[t].Queued? ==>
              && st.place[t] == Queued(st.log[t].src) && st.log[t].src < |st.procs|
              && st.procs[st.log[t].src].sending && !st.log[t].async
    ensures st.place[t].Waiting? ==> ValidPeer(st, st.log[t].src, st.log[t].dst) && WaitsAt(st.procs[st.log[t].dst], t)
    ensures st.place[t].Posted? ==> st.log[t].async && st.log[t].src < |st.procs| &&
                                    HasOpenFor(st.procs[st.log[t].src].table, t, st.log[t].dst)
    ensures st.place[t].Withheld? ==> st.log[t].async && st.place[t] == Withheld(st.log[t].src)
    ensures st.place[t].Refused? ==> !ValidPeer(st, st.log[t].src, st.log[t].dst)
  {
    assert PlaceOk(st, t);
    match st.place[t] {
      case Queued(x) => assert LettersAt(st, x);
      case Posted(x) =>
        assert LettersAt(st, x);
        var i :| 0 <= i < |st.procs[x].table| && Open(st.procs[x].table[i]) && st.procs[x].table[i].tag == t;
        assert EntryOk(st, x, st.procs[x].table[i]);
      case Waiting(x) => assert LettersAt(st, x);
      case _ =>
    }
  }

  ghost predicate HasOpenFor(table: seq<Entry>, tag: nat, d: int) {
    exists i :: 0 <= i < |table| && Open(table[i]) && table[i].tag == tag && table[i].dest == d
  }

  /** In order, or out of order as of now. */
  ghost predicate Settled(st: State, t: nat, u: nat) {
    InOrder(st, t, u) || Overtaken(st, t, u)
  }

  // ---------------------------------------------------------------- blocking messages

  lemma SendOrder(st: State, p: nat, d: int, body: int, nonblock: bool, t: nat, u: nat)
    requires Inv(st) && Runs(st, p) && InOrder(st, t, u)
    ensures InOrder(Send(st, p, d, body, nonblock).0, t, u)
  {
    var st' := Send(st, p, d, body, nonblock).0;
    if st' != st && Pair(st', t, u) && u == |st.log| {
      assert SyncAt(st, d);
      PlaceOwner(st, t);
    }
  }

  lemma TakeSenderOrder(st: State, p: nat, s: nat, t: nat, u: nat)
    requires Inv(st) && Runs(st, p) && s in st.queues[p] && s < |st.procs| && Settled(st, t, u)
    ensures Settled(TakeSender(st, p, s), t, u)
  {
    assert SyncAt(st, p) && LettersAt(st, s);
    if Pair(st, t, u) { PlaceOwner(st, t); }
  }

  lemma DeliverOutOrder(st: State, p: nat, t: nat, u: nat)
    requires Inv(st) && p < |st.procs| && st.procs[p].deliver && InOrder(st, t, u)
    ensures InOrder(DeliverOut(st, p), t, u)
  {
    assert LettersAt(st, p);
    if Pair(st, t, u) { assert PlaceOk(st, t) && PlaceOk(st, u); }
  }

  // ---------------------------------------------------------------- asynchronous tables

  lemma DeliverEntryOrder(st: State, s: nat, i: nat, d: nat, t: nat, u: nat)
    requires Base(st) && s < |st.procs| && i < |st.procs[s].table| && ValidPeer(st, s, d) && Settled(st, t, u)
    requires Open(st.procs[s].table[i]) && st.procs[s].table[i].dest == d && !st.procs[d].deliver
    requires forall j :: 0 <= j < i ==> !(Open(st.procs[s].table[j]) && st.procs[s].table[j].dest == d)
    ensures Settled(DeliverEntry(st, s, i, d), t, u)
  {
    assert LettersAt(st, s) && EntryOk(st, s, st.procs[s].table[i]);
    if Pair(st, t, u) { PlaceOwner(st, t); }
  }

  lemma RefuseEntryOrder(st: State, s: nat, i: nat, t: nat, u: nat)
    requires Base(st) && s < |st.procs| && i < |st.procs[s].table| && Open(st.procs[s].table[i]) && Settled(st, t, u)
    ensures Settled(RefuseEntry(st, s, i), t, u)
  {
    assert LettersAt(st, s) && EntryOk(st, s, st.procs[s].table[i]);
  }

  lemma ReceiveAsyncFromOrder(st: State, p: nat, s: nat, t: nat, u: nat)
    requires Inv(st) && Runs(st, p) && s < |st.procs| && s != p && Settled(st, t, u)
    ensures Settled(ReceiveAsyncFrom(st, p, s).0, t, u)
  {
    var k := FirstFor(KernelTable(st.procs[s]), p, 0);
    if st.procs[s].privileged && k < |KernelTable(st.procs[s])| { DeliverEntryOrder(st, s, k, p, t, u); }
  }

  lemma {:induction false} ReceiveAsyncAnyOrder(st: State, p: nat, i: nat, t: nat, u: nat)
    requires Inv(st) && Runs(st, p) && Settled(st, t, u)
    ensures Settled(ReceiveAsyncAny(st, p, i).0, t, u)
    decreases |st.procs| - i
  {
    if i >= |st.procs| {
    } else if i !in st.procs[p].asyncPending {
      ReceiveAsyncAnyOrder(st, p, i + 1, t, u);
    } else {
      ReceiveAsyncFromKeeps(st, p, i);
      ReceiveAsyncFromOrder(st, p, i, t, u);
      var (st1, ret) := ReceiveAsyncFrom(st, p, i);
      if ret != Ok { ReceiveAsyncAnyOrder(st1, p, i + 1, t, u); }
    }
  }

  lemma ScanEntryOrder(st: State, p: nat, i: nat, t: nat, u: nat)
    requires Base(st) && p < |st.procs| && i < |st.procs[p].table| && AsyncExcept(st, p, i) && Settled(st, t, u)
    ensures Settled(ScanEntry(st, p, i).0, t, u)
  {
    var table := st.procs[p].table;
    var (st1, pending) := ScanEntry(st, p, i);
    if !Open(table[i]) {
    } else if !ValidPeer(st, p, table[i].dest) {
      RefuseEntryOrder(st, p, i, t, u);
    } else if !pending {
      assert SyncAt(st, table[i].dest);
      forall j | 0 <= j < i ensures !(Open(table[j]) && table[j].dest == table[i].dest) {
        assert PendingOk(st, p, table[j]);
      }
      DeliverEntryOrder(st, p, i, table[i].dest, t, u);
    }
  }

  lemma {:induction false} ScanTableOrder(st: State, p: nat, i: nat, done: bool, t: nat, u: nat)
    requires Base(st) && p < |st.procs| && i <= |st.procs[p].table| && AsyncExcept(st, p, i) && Settled(st, t, u)
    ensures Settled(ScanTable(st, p, i, done), t, u)
    decreases |st.procs[p].table| - i
  {
    if i < |st.procs[p].table| {
      ScanEntryKeeps(st, p, i);
      ScanEntryOrder(st, p, i, t, u);
      var (st1, pending) := ScanEntry(st, p, i);
      ScanTableOrder(st1, p, i + 1, done && !pending, t, u);
    }
  }

  /** Handing in a table moves letters between the kernel and the sender only. */
  lemma PostTableOrder(st: State, p: nat, table: seq<Entry>, letters: seq<Letter>, t: nat, u: nat)
    requires Shape(st) && p < |st.procs| && InOrder(st, t, u)
    ensures InOrder(PostTable(st, p, table, letters), t, u)
  {
  }

  /** So does a store of the sender. */
  lemma StoreOrder(st: State, p: nat, i: nat, e: Entry, t: nat, u: nat)
    requires Inv(st) && p < |st.procs| && InOrder(st, t, u)
    ensures InOrder(StoreSlot(st, p, i, e), t, u)
  {
    assert LettersAt(st, p);
    if i < |st.procs[p].table| { assert EntryOk(st, p, st.procs[p].table[i]); }
  }

  lemma SendTableOrder(st: State, p: nat, table: seq<Entry>, letters: seq<Letter>, t: nat, u: nat)
    requires Inv(st) && p < |st.procs| && InOrder(st, t, u)
    requires st.procs[p].privileged ==> Repost(st, p, table, letters)
    ensures Settled(SendTable(st, p, table, letters).0, t, u)
  {
    if st.procs[p].privileged {
      PostTableKeeps(st, p, table, letters);
      PostTableOrder(st, p, table, letters, t, u);
      ScanTableOrder(PostTable(st, p, table, letters), p, 0, true, t, u);
    }
  }
}
