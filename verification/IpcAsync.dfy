/**
  Asynchronous tables: msg_senda, receive_async_from and receive_async keep the invariant,
  so an unfinished entry is never forgotten and a finished one never delivered again.
*/
module IpcAsync {
  import opened IpcState
  import opened IpcInvariant
  import opened IpcSteps

  ghost predicate Base(st: State) {
    Shape(st) && Sync(st) && Letters(st) && Acyclic(st)
  }

  /** Finishing one entry leaves the other letters of the table findable. */
  lemma OthersStayOpen(table: seq<Entry>, i: nat, tag: nat)
    requires i < |table| && HasOpen(table, tag) && table[i].tag != tag
    ensures HasOpen(table[i := table[i].(done := true)], tag)
  {
    var j :| 0 <= j < |table| && Open(table[j]) && table[j].tag == tag;
    assert Open(table[i := table[i].(done := true)][j]);
  }

  lemma FinishedLetters(st: State, st': State, s: nat, i: nat, to: Place)
    requires Shape(st) && Letters(st) && s < |st.procs| && i < |st.procs[s].table| && Open(st.procs[s].table[i])
    requires st'.log == st.log && st'.inbox == st.inbox && |st'.procs| == |st.procs|
    requires st.procs[s].table[i].tag < |st.place| && st'.place == st.place[st.procs[s].table[i].tag := to]
    requires st'.queues == st.queues
    requires forall x :: 0 <= x < |st.procs| ==>
               st'.procs[x].table == if x != s then st.procs[x].table
                                     else st.procs[s].table[i := st.procs[s].table[i].(done := true)]
    requires forall x :: 0 <= x < |st.procs| ==>
               && st'.procs[x].sending == st.procs[x].sending && st'.procs[x].sendTo == st.procs[x].sendTo
               && st'.procs[x].sendMsg == st.procs[x].sendMsg
    requires match to
             case Waiting(d) =>
               && ValidPeer(st, s, d) && !st.procs[d].deliver
               && st'.procs[d].deliver && st.procs[s].table[i].dest == d
               && st'.procs[d].deliverMsg == Packet(st.procs[s].table[i].tag, s, st.procs[s].table[i].body)
               && forall x :: 0 <= x < |st.procs| && x != d ==>
                    st'.procs[x].deliver == st.procs[x].deliver && st'.procs[x].deliverMsg == st.procs[x].deliverMsg
             case Refused =>
               && !ValidPeer(st, s, st.procs[s].table[i].dest)
               && forall x :: 0 <= x < |st.procs| ==>
                    st'.procs[x].deliver == st.procs[x].deliver && st'.procs[x].deliverMsg == st.procs[x].deliverMsg
             case _ => false
    ensures Letters(st')
  {
    var e := st.procs[s].table[i];
    assert LettersAt(st, s);
    assert EntryOk(st, s, e);
    forall x | 0 <= x < |st.procs| ensures LettersAt(st', x) {
      assert LettersAt(st, x);
      forall j | 0 <= j < |st.procs[x].table| ensures EntryOk(st', x, st'.procs[x].table[j]) {
        assert EntryOk(st, x, st.procs[x].table[j]);
      }
    }
    forall t | 0 <= t < |st.log| ensures PlaceOk(st', t) {
      assert PlaceOk(st, t);
      if st.place[t] == Posted(s) && t != e.tag { OthersStayOpen(st.procs[s].table, i, t); }
    }
    forall k | 0 <= k < |st.inbox| ensures InboxOk(st', k) { assert InboxOk(st, k); }
  }

  lemma DeliverEntryBase(st: State, s: nat, i: nat, d: nat)
    requires Base(st) && s < |st.procs| && i < |st.procs[s].table| && ValidPeer(st, s, d)
    requires Open(st.procs[s].table[i]) && st.procs[s].table[i].dest == d
    requires !st.procs[d].sending && !st.procs[d].deliver
    ensures Base(DeliverEntry(st, s, i, d))
  {
    var st' := DeliverEntry(st, s, i, d);
    assert LettersAt(st, s) && EntryOk(st, s, st.procs[s].table[i]);
    FinishedLetters(st, st', s, i, Waiting(d));
    forall x | 0 <= x < |st.procs| ensures SyncAt(st', x) { assert SyncAt(st, x); }
    FewerEdges(st, st');
  }

  lemma DeliverEntryKeeps(st: State, s: nat, i: nat, d: nat, s0: int, i0: nat)
    requires Base(st) && AsyncExcept(st, s0, i0)
    requires s < |st.procs| && i < |st.procs[s].table| && ValidPeer(st, s, d)
    requires Open(st.procs[s].table[i]) && st.procs[s].table[i].dest == d
    requires !st.procs[d].sending && !st.procs[d].deliver
    ensures Base(DeliverEntry(st, s, i, d)) && AsyncExcept(DeliverEntry(st, s, i, d), s0, i0)
  {
    DeliverEntryBase(st, s, i, d);
  }

  lemma RefuseEntryKeeps(st: State, s: nat, i: nat, s0: int, i0: nat)
    requires Base(st) && AsyncExcept(st, s0, i0)
    requires s < |st.procs| && i < |st.procs[s].table| && Open(st.procs[s].table[i])
    requires !ValidPeer(st, s, st.procs[s].table[i].dest)
    ensures Base(RefuseEntry(st, s, i)) && AsyncExcept(RefuseEntry(st, s, i), s0, i0)
  {
    var st' := RefuseEntry(st, s, i);
    assert LettersAt(st, s) && EntryOk(st, s, st.procs[s].table[i]);
    FinishedLetters(st, st', s, i, Refused);
    forall x | 0 <= x < |st.procs| ensures SyncAt(st', x) { assert SyncAt(st, x); }
    FewerEdges(st, st');
  }

  /** Pending bits and the saved-table flag take no part in queues and letters. */
  lemma BookkeepingBase(st: State, st': State)
    requires Base(st) && |st'.procs| == |st.procs|
    requires st' == st.(procs := st'.procs)
    requires forall x :: 0 <= x < |st.procs| ==>
               st'.procs[x] == st.procs[x].(asyncPending := st'.procs[x].asyncPending, live := st'.procs[x].live)
    ensures Base(st')
  {
    forall x | 0 <= x < |st.procs| ensures SyncAt(st', x) { assert SyncAt(st, x); }
    SameLetters(st, st');
    FewerEdges(st, st');
  }

  /** An entry that is finished, or now has its pending bit, is no longer an exception. */
  lemma Scanned(st: State, p: nat, i: nat)
    requires p < |st.procs| && i < |st.procs[p].table| && AsyncExcept(st, p, i)
    requires PendingOk(st, p, st.procs[p].table[i])
    ensures AsyncExcept(st, p, i + 1)
  {
  }

  lemma SetBitKeeps(st: State, d: nat, s: nat, s0: int, i0: nat)
    requires Base(st) && AsyncExcept(st, s0, i0) && d < |st.procs| && d != s
    ensures Base(SetAsyncBit(st, d, s, true)) && AsyncExcept(SetAsyncBit(st, d, s, true), s0, i0)
  {
    BookkeepingBase(st, SetAsyncBit(st, d, s, true));
  }

  lemma SetLiveKeeps(st: State, p: nat, live: bool)
    requires Base(st) && p < |st.procs| && AsyncExcept(st, p, |st.procs[p].table|)
    requires live || AllDone(st.procs[p].table)
    ensures Inv(SetLive(st, p, live))
  {
    BookkeepingBase(st, SetLive(st, p, live));
  }

  lemma DropTableKeeps(st: State, d: nat, s: nat)
    requires Inv(st) && d < |st.procs| && s < |st.procs| && d != s && AllDone(st.procs[s].table)
    ensures Inv(SetLive(SetAsyncBit(st, d, s, false), s, false))
  {
    var st1 := SetAsyncBit(st, d, s, false);
    BookkeepingBase(st, st1);
    assert st1.procs[s].table == st.procs[s].table;
    forall x, i | 0 <= x < |st.procs| && 0 <= i < |st1.procs[x].table|
      ensures PendingOk(st1, x, st1.procs[x].table[i]) && (Open(st1.procs[x].table[i]) ==> st1.procs[x].live)
    {
      assert PendingOk(st, x, st.procs[x].table[i]);
    }
    SetLiveKeeps(st1, s, false);
  }

  // ---------------------------------------------------------------- receiving

  lemma ReceiveAsyncFromKeeps(st: State, p: nat, s: nat)
    requires Inv(st) && Runs(st, p) && s < |st.procs| && s != p
    ensures var (st', ret) := ReceiveAsyncFrom(st, p, s);
      Inv(st') && (ret != Ok ==> Runs(st', p) && st'.queues == st.queues)
  {
    var r := st.procs[s];
    var table := KernelTable(r);
    var k := FirstFor(table, p, 0);
    if !r.privileged {
    } else if k < |table| {
      DeliverEntryKeeps(st, s, k, p, Nil, 0);
      SetBitKeeps(DeliverEntry(st, s, k, p), p, s, Nil, 0);
    } else if !AllDone(table) {
      SetBitKeeps(st, p, s, Nil, 0);
    } else {
      DropTableKeeps(st, p, s);
    }
  }

  /** A failed scan means the sender has nothing unfinished for p, and changes only
      pending bits and saved-table flags. */
  lemma ReceiveAsyncFromFails(st: State, p: nat, s: nat)
    requires Inv(st) && Runs(st, p) && s < |st.procs| && s != p && st.procs[s].privileged
    requires ReceiveAsyncFrom(st, p, s).1 != Ok
    ensures FirstFor(st.procs[s].table, p, 0) == |st.procs[s].table|
  {
    var table := st.procs[s].table;
    if !st.procs[s].live {
      assert forall i :: 0 <= i < |table| ==> !Open(table[i]);
    }
  }

  ghost predicate SameTables(st: State, st': State) {
    && |st'.procs| == |st.procs| && st'.queues == st.queues
    && forall x :: 0 <= x < |st.procs| ==>
         st'.procs[x].table == st.procs[x].table && st'.procs[x].privileged == st.procs[x].privileged
  }

  /** A sender whose bit is not set has nothing unfinished for p. */
  lemma NotPending(st: State, p: nat, i: nat)
    requires Inv(st) && p < |st.procs| && i < |st.procs| && i !in st.procs[p].asyncPending
    ensures FirstFor(st.procs[i].table, p, 0) == |st.procs[i].table|
  {
    forall j | 0 <= j < |st.procs[i].table|
      ensures !(Open(st.procs[i].table[j]) && st.procs[i].table[j].dest == p)
    {
      assert PendingOk(st, i, st.procs[i].table[j]);
    }
  }

  lemma ReceiveAsyncFromMisses(st: State, p: nat, i: nat)
    requires Inv(st) && Runs(st, p) && i < |st.procs| && i != p
    ensures ReceiveAsyncFrom(st, p, i).1 != Ok ==>
              SameTables(st, ReceiveAsyncFrom(st, p, i).0) && FirstFor(st.procs[i].table, p, 0) == |st.procs[i].table|
  {
    if ReceiveAsyncFrom(st, p, i).1 != Ok && st.procs[i].privileged { ReceiveAsyncFromFails(st, p, i); }
  }

  lemma {:induction false} ReceiveAsyncAnyKeeps(st: State, p: nat, i: nat)
    requires Inv(st) && Runs(st, p) && i <= |st.procs|
    requires forall s :: 0 <= s < i ==> FirstFor(st.procs[s].table, p, 0) == |st.procs[s].table|
    ensures var (st', ret) := ReceiveAsyncAny(st, p, i);
      && Inv(st')
      && (ret != Ok ==> Runs(st', p) && SameTables(st, st'))
      && (ret != Ok ==> forall s :: 0 <= s < |st.procs| ==> FirstFor(st.procs[s].table, p, 0) == |st.procs[s].table|)
    decreases |st.procs| - i
  {
    if i < |st.procs| {
      if i !in st.procs[p].asyncPending {
        NotPending(st, p, i);
        ReceiveAsyncAnyKeeps(st, p, i + 1);
      } else {
        ReceiveAsyncFromKeeps(st, p, i);
        ReceiveAsyncFromMisses(st, p, i);
        var (st1, ret) := ReceiveAsyncFrom(st, p, i);
        if ret != Ok { ReceiveAsyncAnyKeeps(st1, p, i + 1); }
      }
    }
  }

  // ---------------------------------------------------------------- posting

  /** How the messages in the table of a caller of msg_senda are numbered: one that the caller has
      unfinished may keep its number, the others take the next numbers of the log, and the numbers
      ascend. This restricts the numbers and not the messages: see AnyTable. */
  ghost predicate Repost(st: State, p: nat, table: seq<Entry>, letters: seq<Letter>)
    requires Shape(st)
  {
    && Ascending(table)
    && (forall i :: 0 <= i < |table| && Open(table[i]) ==>
                      AgainEntry(st, p, table[i]) || FreshEntry(st, p, table[i], letters))
    && (forall t :: |st.log| <= t < |st.log| + |letters| ==> HasOpen(table, t))
  }

  ghost predicate AgainEntry(st: State, p: nat, e: Entry)
    requires Shape(st)
  {
    e.tag < |st.log| && Unfinished(st.place[e.tag], p) && st.log[e.tag] == Letter(p, e.dest, e.body, true)
  }

  ghost predicate FreshEntry(st: State, p: nat, e: Entry, letters: seq<Letter>) {
    |st.log| <= e.tag < |st.log| + |letters| && letters[e.tag - |st.log|] == Letter(p, e.dest, e.body, true)
  }

  lemma PostTableLetters(st: State, p: nat, table: seq<Entry>, letters: seq<Letter>)
    requires Shape(st) && Letters(st) && Async(st) && p < |st.procs| && Repost(st, p, table, letters)
    ensures Letters(PostTable(st, p, table, letters))
  {
    var st' := PostTable(st, p, table, letters);
    var before := st.procs[p].table;
    assert LettersAt(st, p);
    forall i | 0 <= i < |table| ensures EntryOk(st', p, table[i]) {
      assert Open(table[i]) ==> HasOpen(table, table[i].tag);
    }
    forall x | 0 <= x < |st.procs| ensures LettersAt(st', x) {
      assert LettersAt(st, x);
      forall i | 0 <= i < |st'.procs[x].table| ensures EntryOk(st', x, st'.procs[x].table[i]) {
        assert x != p ==> EntryOk(st, x, st.procs[x].table[i]);
      }
    }
    forall t | 0 <= t < |st'.log| ensures PlaceOk(st', t) {
      if t < |st.log| {
        assert PlaceOk(st, t);
        if st.place[t] == Posted(p) {
          var i :| 0 <= i < |before| && Open(before[i]) && before[i].tag == t;
          assert EntryOk(st, p, before[i]) && PendingOk(st, p, before[i]);
        }
      } else {
        assert HasOpen(table, t);
      }
    }
    forall k | 0 <= k < |st.inbox| ensures InboxOk(st', k) { assert InboxOk(st, k); }
  }

  lemma PostTableKeeps(st: State, p: nat, table: seq<Entry>, letters: seq<Letter>)
    requires Inv(st) && p < |st.procs| && st.procs[p].privileged && Repost(st, p, table, letters)
    ensures Base(PostTable(st, p, table, letters)) && AsyncExcept(PostTable(st, p, table, letters), p, 0)
  {
    var st' := PostTable(st, p, table, letters);
    forall x | 0 <= x < |st.procs| ensures SyncAt(st', x) { assert SyncAt(st, x); }
    PostTableLetters(st, p, table, letters);
    FewerEdges(st, st');
  }

  lemma ScanEntryKeeps(st: State, p: nat, i: nat)
    requires Base(st) && p < |st.procs| && i < |st.procs[p].table| && AsyncExcept(st, p, i)
    ensures var (st1, pending) := ScanEntry(st, p, i);
      && Base(st1) && AsyncExcept(st1, p, i + 1)
      && (!pending ==> !Open(st1.procs[p].table[i]))
      && (forall j :: 0 <= j < i ==> st1.procs[p].table[j] == st.procs[p].table[j])
  {
    var e := st.procs[p].table[i];
    var (st1, pending) := ScanEntry(st, p, i);
    if !Open(e) {
    } else if !ValidPeer(st, p, e.dest) {
      RefuseEntryKeeps(st, p, i, p, i);
    } else if !pending {
      assert SyncAt(st, e.dest);
      DeliverEntryKeeps(st, p, i, e.dest, p, i);
    } else {
      SetBitKeeps(st, e.dest, p, p, i);
    }
    Scanned(st1, p, i);
  }

  /** The scan of msg_senda: entries before i are finished or pending, `done` says no entry
      is pending. */
  lemma {:induction false} ScanTableKeeps(st: State, p: nat, i: nat, done: bool)
    requires Base(st) && p < |st.procs| && i <= |st.procs[p].table| && AsyncExcept(st, p, i)
    requires done ==> forall j :: 0 <= j < i ==> !Open(st.procs[p].table[j])
    ensures Inv(ScanTable(st, p, i, done))
    decreases |st.procs[p].table| - i
  {
    if i == |st.procs[p].table| {
      SetLiveKeeps(st, p, !done);
    } else {
      ScanEntryKeeps(st, p, i);
      var (st1, pending) := ScanEntry(st, p, i);
      ScanTableKeeps(st1, p, i + 1, done && !pending);
    }
  }

  lemma SendTableInv(st: State, p: nat, table: seq<Entry>, letters: seq<Letter>)
    requires Inv(st) && p < |st.procs| && (st.procs[p].privileged ==> Repost(st, p, table, letters))
    ensures Inv(SendTable(st, p, table, letters).0)
  {
    if st.procs[p].privileged {
      PostTableKeeps(st, p, table, letters);
      ScanTableKeeps(PostTable(st, p, table, letters), p, 0, true);
    }
  }

  // ---------------------------------------------------------------- stores of the sender

  /** The store opens, or changes, an unfinished entry of the table the kernel has. */
  ghost predicate Reopens(st: State, p: nat, i: nat, e: Entry) {
    && p < |st.procs| && st.procs[p].live && i < |st.procs[p].table|
    && Open(e) && e != st.procs[p].table[i]
  }

  /** The store takes letter t out of the table the kernel has. */
  ghost predicate TakesOut(st: State, p: nat, i: nat, e: Entry, t: nat) {
    && p < |st.procs| && st.procs[p].live && i < |st.procs[p].table|
    && Open(st.procs[p].table[i]) && st.procs[p].table[i].tag == t && e != st.procs[p].table[i]
  }

  lemma StoreLetters(st: State, p: nat, i: nat, e: Entry)
    requires Inv(st) && p < |st.procs| && st.procs[p].live && i < |st.procs[p].table| && !Open(e)
    requires e != st.procs[p].table[i]
    ensures Letters(StoreSlot(st, p, i, e))
  {
    var st', table := StoreSlot(st, p, i, e), st.procs[p].table;
    assert LettersAt(st, p) && EntryOk(st, p, table[i]) && PendingOk(st, p, table[i]);
    forall x | 0 <= x < |st.procs| ensures LettersAt(st', x) {
      assert LettersAt(st, x);
      forall j | 0 <= j < |st'.procs[x].table| ensures EntryOk(st', x, st'.procs[x].table[j]) {
        assert EntryOk(st, x, st.procs[x].table[j]);
      }
    }
    forall t | 0 <= t < |st.log| ensures PlaceOk(st', t) {
      assert PlaceOk(st, t);
      if st.place[t] == Posted(p) && st'.place[t] == Posted(p) { StoreKeepsOpen(table, i, e, t); }
    }
    forall k | 0 <= k < |st.inbox| ensures InboxOk(st', k) { assert InboxOk(st, k); }
  }

  lemma StoreKeepsOpen(table: seq<Entry>, i: nat, e: Entry, t: nat)
    requires i < |table| && HasOpen(table, t) && !(Open(table[i]) && table[i].tag == t)
    ensures HasOpen(table[i := e], t)
  {
    var j :| 0 <= j < |table| && Open(table[j]) && table[j].tag == t;
    assert table[i := e][j] == table[j];
  }

  lemma StoreInv(st: State, p: nat, i: nat, e: Entry)
    requires Inv(st) && p < |st.procs| && !Reopens(st, p, i, e)
    ensures Inv(StoreSlot(st, p, i, e))
  {
    var st' := StoreSlot(st, p, i, e);
    if st' != st {
      StoreLetters(st, p, i, e);
      forall x | 0 <= x < |st.procs| ensures SyncAt(st', x) { assert SyncAt(st, x); }
      FewerEdges(st, st');
      forall x, j | 0 <= x < |st.procs| && 0 <= j < |st'.procs[x].table|
        ensures PendingOk(st', x, st'.procs[x].table[j]) && (Open(st'.procs[x].table[j]) ==> st'.procs[x].live)
      {
        assert PendingOk(st, x, st.procs[x].table[j]);
      }
    }
  }

  /** The exact condition: a store keeps the invariant if and only if it opens nothing in the table
      the kernel has. */
  lemma StoreExactly(st: State, p: nat, i: nat, e: Entry)
    requires Inv(st) && p < |st.procs|
    ensures Shape(StoreSlot(st, p, i, e)) && (Inv(StoreSlot(st, p, i, e)) <==> !Reopens(st, p, i, e))
  {
    var st', table := StoreSlot(st, p, i, e), st.procs[p].table;
    if !Reopens(st, p, i, e) {
      StoreInv(st, p, i, e);
    } else {
      assert LettersAt(st, p) && EntryOk(st, p, table[i]);
      if e.tag < |st.log| { assert PlaceOk(st, e.tag); }
      TwiceOpen(table, i, e);
      assert Letters(st') ==> LettersAt(st', p) && EntryOk(st', p, st'.procs[p].table[i]);
    }
  }

  /** No entry can be given the number of another one. */
  lemma TwiceOpen(table: seq<Entry>, i: nat, e: Entry)
    requires i < |table| && Open(e)
    ensures HasOpen(table, e.tag) && !(Open(table[i]) && table[i].tag == e.tag) ==> !Ascending(table[i := e])
  {
    if HasOpen(table, e.tag) && !(Open(table[i]) && table[i].tag == e.tag) {
      var j :| 0 <= j < |table| && Open(table[j]) && table[j].tag == e.tag;
      assert table[i := e][j] == table[j] && table[i := e][i] == e;
    }
  }
}
