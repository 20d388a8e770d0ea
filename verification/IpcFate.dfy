/**
  What becomes of a letter over a whole run: which ones are lost, and which ones arrive out of
  order. Both depend only on the tables that senders hand in.
*/
module IpcFate {
  import opened IpcState
  import opened IpcInvariant
  import opened IpcAsync
  import opened IpcOrder
  import opened IpcHistory
  import opened IpcRuns

  // ---------------------------------------------------------------- any table can be handed in

  function OpenCount(table: seq<Entry>): nat {
    if table == [] then 0
    else OpenCount(table[..|table| - 1]) + if Open(table[|table| - 1]) then 1 else 0
  }

  /** The table with its unfinished messages numbered from n on. */
  function Numbered(table: seq<Entry>, n: nat): (r: seq<Entry>)
    ensures |r| == |table|
  {
    if table == [] then []
    else
      var front, last := table[..|table| - 1], table[|table| - 1];
      Numbered(front, n) + [last.(tag := n + OpenCount(front))]
  }

  function NewLetters(p: nat, table: seq<Entry>): (r: seq<Letter>)
    ensures |r| == OpenCount(table)
  {
    if table == [] then []
    else
      var front, last := table[..|table| - 1], table[|table| - 1];
      NewLetters(p, front) + if Open(last) then [Letter(p, last.dest, last.body, true)] else []
  }

  lemma {:induction false} NumberedEntries(p: nat, table: seq<Entry>, n: nat)
    ensures forall i :: 0 <= i < |table| ==> Numbered(table, n)[i] == table[i].(tag := Numbered(table, n)[i].tag)
    ensures forall i :: 0 <= i < |table| && Open(table[i]) ==>
                          var e := Numbered(table, n)[i];
                          n <= e.tag < n + OpenCount(table)
                          && NewLetters(p, table)[e.tag - n] == Letter(p, e.dest, e.body, true)
    ensures Ascending(Numbered(table, n))
    ensures forall t :: n <= t < n + OpenCount(table) ==> HasOpen(Numbered(table, n), t)
  {
    if table != [] {
      var front, last := table[..|table| - 1], table[|table| - 1];
      NumberedEntries(p, front, n);
      var kept, all := Numbered(front, n), Numbered(table, n);
      assert forall i :: 0 <= i < |front| ==> all[i] == kept[i] && front[i] == table[i];
      assert Open(last) ==> Open(all[|front|]) && all[|front|].tag == n + OpenCount(front);
      forall t | n <= t < n + OpenCount(table) ensures HasOpen(all, t) {
        if t < n + OpenCount(front) {
          assert HasOpen(kept, t);
          var i :| 0 <= i < |kept| && Open(kept[i]) && kept[i].tag == t;
          assert all[i] == kept[i];
        }
      }
    }
  }

  /** Every table whatsoever can be handed in: its messages can always be numbered. */
  lemma AnyTable(st: State, p: nat, table: seq<Entry>)
    requires Shape(st)
    ensures var named := Numbered(table, |st.log|);
      && Repost(st, p, named, NewLetters(p, table))
      && forall i :: 0 <= i < |table| ==> named[i] == table[i].(tag := named[i].tag)
  {
    NumberedEntries(p, table, |st.log|);
  }

  // ---------------------------------------------------------------- one call

  /** Process s hands a table to the kernel. */
  ghost predicate TableCall(st: State, c: Call, s: nat)
    requires Shape(st)
  {
    c.CallSenda? && c.p == s && Enabled(st, c) && st.procs[s].privileged
  }

  /** The call leaves letter t, which its sender has unfinished, out of the table. */
  ghost predicate LeavesOut(st: State, c: Call, t: nat)
    requires Shape(st)
  {
    t < |st.log| && Unfinished(st.place[t], st.log[t].src) && TableCall(st, c, st.log[t].src) && !HasOpen(c.table, t)
  }

  /** The call is a store that takes letter t out of the table the kernel has. */
  ghost predicate Removes(st: State, c: Call, t: nat)
    requires Shape(st)
  {
    t < |st.log| && c.Store? && Enabled(st, c) && TakesOut(st, c.p, c.i, c.e, t)
  }

  /** The sender takes letter t back, one way or the other. */
  ghost predicate TakesBack(st: State, c: Call, t: nat)
    requires Shape(st)
  {
    LeavesOut(st, c, t) || Removes(st, c, t)
  }

  ghost predicate Includes(st: State, c: Call, t: nat)
    requires Shape(st)
  {
    t < |st.log| && TableCall(st, c, st.log[t].src) && HasOpen(c.table, t)
  }

  /** An unfinished letter is unfinished with its own sender. */
  lemma UnfinishedSender(st: State, t: nat, p: nat)
    requires Inv(st) && t < |st.log| && Unfinished(st.place[t], p)
    ensures st.log[t].async && st.log[t].src == p
  {
    assert PlaceOk(st, t);
    if st.place[t] == Posted(p) {
      var i :| 0 <= i < |st.procs[p].table| && Open(st.procs[p].table[i]) && st.procs[p].table[i].tag == t;
      assert LettersAt(st, p) && EntryOk(st, p, st.procs[p].table[i]);
    }
  }

  /** A letter is withheld after a call exactly if the call takes it back, or it was withheld and
      the call does not put it in again. */
  lemma NextWithheld(st: State, c: Call, t: nat)
    requires Inv(st) && !Careless(st, c) && t < |Next(st, c).place|
    ensures Next(st, c).place[t].Withheld? <==>
            TakesBack(st, c, t) || (t < |st.log| && st.place[t].Withheld? && !Includes(st, c, t))
  {
    NextEvolves(st, c);
    if c.Store? {
      if Enabled(st, c) && c.i < |st.procs[c.p].table| {
        assert LettersAt(st, c.p) && EntryOk(st, c.p, st.procs[c.p].table[c.i]);
      }
    } else if !c.CallSenda? {
      NextGrows(st, c);
      if t >= |st.log| { NewSettled(st, c, t); }
    } else if Enabled(st, c) && st.procs[c.p].privileged {
      TableGrows(st, c.p, c.table, c.letters);
      var st1 := PostTable(st, c.p, c.table, c.letters);
      TableLog(st, c);
      assert Forward(st1.place[t], Next(st, c).place[t]);
      if t < |st.log| && Unfinished(st.place[t], c.p) { UnfinishedSender(st, t, c.p); }
      if t < |st.log| && st.place[t].Withheld? { UnfinishedSender(st, t, st.place[t].pid); }
    }
  }

  lemma QueuedRecord(st: State, p: nat, src: Source, async: bool)
    requires Shape(st) && p < |st.procs| && (src.From? ==> src.pid < |st.procs|)
    ensures ReceiveQueued(st, p, src, async).log == st.log && ReceiveQueued(st, p, src, async).inbox == st.inbox
  {
  }

  /** A receive accepts nothing and copies nothing out. */
  lemma ReceiveRecord(st: State, p: nat, src: Source, async: bool)
    requires Shape(st) && p < |st.procs| && (src.From? ==> src.pid < |st.procs|)
    ensures Receive(st, p, src, async).log == st.log && Receive(st, p, src, async).inbox == st.inbox
  {
    QueuedRecord(if async then ReceiveAsync(st, p, src).0 else st, p, src, async);
  }

  /** Other calls than table calls accept at most one letter, a blocking one. */
  lemma NextRecord(st: State, c: Call)
    requires Inv(st) && !c.CallSenda?
    ensures !c.SwitchTo? ==> Next(st, c).inbox == st.inbox
    ensures forall t :: |st.log| <= t < |Next(st, c).log| ==> !Next(st, c).log[t].async
  {
    if Enabled(st, c) {
      match c
      case CallReceive(p, src, async) => if ValidSource(st, p, src) { ReceiveRecord(st, p, src, async); }
      case CallBoth(p, d, body) =>
        var (st1, ret) := Send(st, p, d, body, false);
        if ret == Ok { ReceiveRecord(st1, p, From(d), false); }
      case _ =>
    }
  }

  /** A letter accepted by another call than a table call is not withheld. */
  lemma NewSettled(st: State, c: Call, t: nat)
    requires Inv(st) && !c.CallSenda? && !c.Store? && |st.log| <= t < |Next(st, c).log| == |Next(st, c).place|
    ensures !Next(st, c).place[t].Withheld? && !Next(st, c).log[t].async
  {
    NextGood(st, c);
    NextRecord(st, c);
    assert PlaceOk(Next(st, c), t);
  }

  lemma TableLog(st: State, c: Call)
    requires Inv(st) && c.CallSenda? && Enabled(st, c) && st.procs[c.p].privileged
    ensures Next(st, c).log == st.log + c.letters
  {
  }

  // ---------------------------------------------------------------- the states of a run

  /** The state after the first j calls. */
  ghost function After(rights: seq<bool>, calls: seq<Call>, j: nat): (st: State)
    requires j <= |calls|
    ensures Shape(st) && |st.procs| == |rights|
  {
    Reached(rights, calls[..j])
  }

  lemma AfterNext(rights: seq<bool>, calls: seq<Call>, j: nat)
    requires Careful(rights, calls) && j < |calls|
    ensures Inv(After(rights, calls, j)) && !Careless(After(rights, calls, j), calls[j])
    ensures After(rights, calls, j + 1) == Next(After(rights, calls, j), calls[j])
  {
    AfterInv(rights, calls, j);
    assert calls[..j + 1][..j] == calls[..j];
  }

  lemma AfterInv(rights: seq<bool>, calls: seq<Call>, j: nat)
    requires Careful(rights, calls) && j <= |calls|
    ensures Inv(After(rights, calls, j))
  {
    CarefulFront(Initial(rights), calls, j);
    ReachedInv(rights, calls[..j]);
  }

  lemma AfterEvolves(rights: seq<bool>, calls: seq<Call>, j: nat)
    requires Careful(rights, calls) && j < |calls|
    ensures Evolves(After(rights, calls, j), After(rights, calls, j + 1))
  {
    AfterNext(rights, calls, j);
    NextEvolves(After(rights, calls, j), calls[j]);
  }

  lemma {:induction false} ChainEvolves(states: seq<State>, j: nat, n: nat)
    requires j <= n < |states| && forall i :: 0 <= i < |states| ==> Shape(states[i])
    requires forall i :: 0 <= i < |states| - 1 ==> Evolves(states[i], states[i + 1])
    ensures Evolves(states[j], states[n])
    decreases n - j
  {
    if j < n {
      ChainEvolves(states, j, n - 1);
      assert Evolves(states[n - 1], states[n - 1 + 1]);
      EvolvesTransitive(states[j], states[n - 1], states[n]);
    }
  }

  lemma AfterGrows(rights: seq<bool>, calls: seq<Call>, j: nat, n: nat)
    requires Careful(rights, calls) && j <= n <= |calls|
    ensures Evolves(After(rights, calls, j), After(rights, calls, n))
  {
    var m := |calls|;
    var states := seq(m + 1, i requires 0 <= i <= m => After(rights, calls, i));
    forall i | 0 <= i < m ensures Evolves(states[i], states[i + 1]) { AfterEvolves(rights, calls, i); }
    ChainEvolves(states, j, n);
  }

  // ---------------------------------------------------------------- letters that are lost

  ghost predicate TakenBackAt(rights: seq<bool>, calls: seq<Call>, j: nat, t: nat)
    requires j < |calls|
  {
    TakesBack(After(rights, calls, j), calls[j], t)
  }

  ghost predicate IncludedAt(rights: seq<bool>, calls: seq<Call>, j: nat, t: nat)
    requires j < |calls|
  {
    Includes(After(rights, calls, j), calls[j], t)
  }

  ghost predicate WithheldAt(rights: seq<bool>, calls: seq<Call>, j: nat, t: nat)
    requires j <= |calls|
  {
    t < |After(rights, calls, j).log| && After(rights, calls, j).place[t].Withheld?
  }

  lemma WithheldNext(rights: seq<bool>, calls: seq<Call>, j: nat, t: nat)
    requires Careful(rights, calls) && j < |calls|
    ensures WithheldAt(rights, calls, j + 1, t) <==>
            TakenBackAt(rights, calls, j, t) || (WithheldAt(rights, calls, j, t) && !IncludedAt(rights, calls, j, t))
  {
    var st := After(rights, calls, j);
    AfterNext(rights, calls, j);
    NextEvolves(st, calls[j]);
    if t < |After(rights, calls, j + 1).log| { NextWithheld(st, calls[j], t); }
  }

  /** A flag that `up` sets and `down` clears is set exactly if some `up` was not followed by a
      `down`. */
  lemma {:induction false} SetSince(flag: seq<bool>, up: seq<bool>, down: seq<bool>, n: nat)
    requires |flag| == |up| + 1 == |down| + 1 && n < |flag| && !flag[0]
    requires forall j :: 0 <= j < |up| ==> (flag[j + 1] <==> up[j] || (flag[j] && !down[j]))
    ensures flag[n] <==> exists j :: 0 <= j < n && up[j] && forall k :: j < k < n ==> !down[k]
  {
    if n > 0 {
      SetSince(flag, up, down, n - 1);
      assert flag[n - 1 + 1] <==> up[n - 1] || (flag[n - 1] && !down[n - 1]);
    }
  }

  /** The kernel loses an accepted letter exactly if a table call of its sender leaves it out while
      it is unfinished, or a store takes it out of the table, and no later table of the sender has it. */
  lemma LostExactly(rights: seq<bool>, calls: seq<Call>, n: nat, t: nat)
    requires Careful(rights, calls) && n <= |calls|
    ensures WithheldAt(rights, calls, n, t) <==>
            exists j :: 0 <= j < n && TakenBackAt(rights, calls, j, t) &&
                        forall k :: j < k < n ==> !IncludedAt(rights, calls, k, t)
  {
    var m := |calls|;
    var flag := seq(m + 1, j requires 0 <= j <= m => WithheldAt(rights, calls, j, t));
    var up := seq(m, j requires 0 <= j < m => TakenBackAt(rights, calls, j, t));
    var down := seq(m, j requires 0 <= j < m => IncludedAt(rights, calls, j, t));
    assert After(rights, calls, 0).log == [];
    forall j | 0 <= j < m ensures flag[j + 1] <==> up[j] || (flag[j] && !down[j]) {
      WithheldNext(rights, calls, j, t);
    }
    SetSince(flag, up, down, n);
    assert forall j :: 0 <= j < n ==> (up[j] <==> TakenBackAt(rights, calls, j, t));
    assert forall j :: 0 <= j < n ==> (down[j] <==> IncludedAt(rights, calls, j, t));
  }

  // ---------------------------------------------------------------- letters out of order

  lemma ReceiveQueuedOrder(st: State, p: nat, src: Source, async: bool, t: nat, u: nat)
    requires Inv(st) && Runs(st, p) && ValidSource(st, p, src) && Settled(st, t, u)
    ensures Settled(ReceiveQueued(st, p, src, async), t, u)
  {
    assert SyncAt(st, p);
    if src == Any && st.queues[p] != [] {
      assert Member(st, p, st.queues[p][0]);
      TakeSenderOrder(st, p, st.queues[p][0], t, u);
    } else if src.From? && st.procs[src.pid].sending && st.procs[src.pid].sendTo == p {
      assert SyncAt(st, src.pid);
      TakeSenderOrder(st, p, src.pid, t, u);
    }
  }

  lemma ReceiveAsyncOrder(st: State, p: nat, src: Source, t: nat, u: nat)
    requires Inv(st) && Runs(st, p) && ValidSource(st, p, src) && Settled(st, t, u)
    ensures Settled(ReceiveAsync(st, p, src).0, t, u)
  {
    if src == Any {
      ReceiveAsyncAnyOrder(st, p, 0, t, u);
    } else {
      ReceiveAsyncFromOrder(st, p, src.pid, t, u);
    }
  }

  lemma ReceiveOrder(st: State, p: nat, src: Source, async: bool, t: nat, u: nat)
    requires Inv(st) && p < |st.procs| && ValidSource(st, p, src) && !st.procs[p].receiving && !st.procs[p].deliver
    requires Settled(st, t, u)
    ensures Settled(Receive(st, p, src, async), t, u)
  {
    if !st.procs[p].sending && PendingNotice(st.procs[p], src, |st.procs|) < 0 {
      if async {
        ReceiveAsyncGood(st, p, src);
        ReceiveAsyncOrder(st, p, src, t, u);
        var (st1, ret) := ReceiveAsync(st, p, src);
        if ret != Ok { ReceiveQueuedOrder(st1, p, src, async, t, u); }
      } else {
        ReceiveQueuedOrder(st, p, src, async, t, u);
      }
    }
  }

  /** A pair in order stays so, unless now the later letter overtakes the earlier one. */
  lemma NextSettled(st: State, c: Call, t: nat, u: nat)
    requires Inv(st) && InOrder(st, t, u)
    ensures Settled(Next(st, c), t, u)
  {
    if Enabled(st, c) {
      match c
      case CallSend(p, d, body, nonblock) => SendOrder(st, p, d, body, nonblock, t, u);
      case CallReceive(p, src, async) => if ValidSource(st, p, src) { ReceiveOrder(st, p, src, async, t, u); }
      case CallBoth(p, d, body) =>
        SendGood(st, p, d, body, false);
        SendOrder(st, p, d, body, false, t, u);
        var (st1, ret) := Send(st, p, d, body, false);
        if ret == Ok { ReceiveOrder(st1, p, From(d), false, t, u); }
      case CallNotify(p, d) =>
      case CallSenda(p, table, letters) => SendTableOrder(st, p, table, letters, t, u);
      case SwitchTo(p) => if st.procs[p].deliver { DeliverOutOrder(st, p, t, u); }
      case Store(p, i, e) => StoreOrder(st, p, i, e, t, u);
    }
  }

  /** Only a switch to a process copies a message out. */
  lemma NextInbox(st: State, c: Call)
    requires Inv(st) && !c.SwitchTo?
    ensures Next(st, c).inbox == st.inbox
  {
    if !c.CallSenda? { NextRecord(st, c); }
  }

  /** While nothing is copied out, what is received does not change. */
  lemma ReceivedStays(st: State, st': State, t: nat)
    requires Inv(st) && Inv(st') && st'.inbox == st.inbox && t < |st.log| <= |st'.log|
    ensures st'.place[t].Received? ==> st.place[t] == st'.place[t]
  {
    assert PlaceOk(st', t);
    if st'.place[t].Received? { assert InboxOk(st, st'.place[t].index); }
  }

  lemma DeliverOutBroken(st: State, p: nat, t: nat, u: nat)
    requires Inv(st) && p < |st.procs| && st.procs[p].deliver && !InOrder(st, t, u)
    ensures !InOrder(DeliverOut(st, p), t, u)
  {
    assert LettersAt(st, p) && PlaceOk(st, t) && PlaceOk(st, u);
    PlaceOwner(st, t);
    PlaceOwner(st, u);
  }

  /** A pair out of order stays so. */
  lemma NextBroken(st: State, c: Call, t: nat, u: nat)
    requires Inv(st) && !Careless(st, c) && !InOrder(st, t, u)
    ensures !InOrder(Next(st, c), t, u)
  {
    var st' := Next(st, c);
    NextGood(st, c);
    NextEvolves(st, c);
    PlaceOwner(st, t);
    PlaceOwner(st, u);
    assert PlaceOk(st, u) && PlaceOk(st, t);
    if c.SwitchTo? {
      if Enabled(st, c) && st.procs[c.p].deliver { DeliverOutBroken(st, c.p, t, u); }
    } else {
      NextInbox(st, c);
      ReceivedStays(st, st', t);
      ReceivedStays(st, st', u);
      assert Onward(st.place[u], st'.place[u]) && Onward(st.place[t], st'.place[t]);
    }
  }

  ghost predicate OvertakenAt(rights: seq<bool>, calls: seq<Call>, j: nat, t: nat, u: nat)
    requires j <= |calls|
  {
    Overtaken(After(rights, calls, j), t, u)
  }

  lemma OrderNext(rights: seq<bool>, calls: seq<Call>, j: nat, t: nat, u: nat)
    requires Careful(rights, calls) && j < |calls|
    ensures InOrder(After(rights, calls, j + 1), t, u) <==>
            InOrder(After(rights, calls, j), t, u) && !OvertakenAt(rights, calls, j + 1, t, u)
  {
    var st := After(rights, calls, j);
    AfterNext(rights, calls, j);
    if InOrder(st, t, u) { NextSettled(st, calls[j], t, u); } else { NextBroken(st, calls[j], t, u); }
  }

  /** A flag that `down` clears for good is set exactly if there was no `down`. */
  lemma {:induction false} SetUntil(flag: seq<bool>, down: seq<bool>, n: nat)
    requires |flag| == |down| && n < |flag| && flag[0] && !down[0]
    requires forall j :: 0 <= j < |flag| - 1 ==> (flag[j + 1] <==> flag[j] && !down[j + 1])
    ensures flag[n] <==> forall j :: 0 <= j <= n ==> !down[j]
  {
    if n > 0 {
      SetUntil(flag, down, n - 1);
      assert flag[n - 1 + 1] <==> flag[n - 1] && !down[n - 1 + 1];
    }
  }

  /** Two letters of one channel are out of order exactly if at some time the later one was in its
      receiver's hands while the sender withheld the earlier one. */
  lemma OrderExactly(rights: seq<bool>, calls: seq<Call>, n: nat, t: nat, u: nat)
    requires Careful(rights, calls) && n <= |calls|
    ensures InOrder(After(rights, calls, n), t, u) <==>
            forall j :: 0 <= j <= n ==> !OvertakenAt(rights, calls, j, t, u)
  {
    var m := |calls|;
    var flag := seq(m + 1, j requires 0 <= j <= m => InOrder(After(rights, calls, j), t, u));
    var down := seq(m + 1, j requires 0 <= j <= m => OvertakenAt(rights, calls, j, t, u));
    assert After(rights, calls, 0).log == [];
    forall j | 0 <= j < m ensures flag[j + 1] <==> flag[j] && !down[j + 1] { OrderNext(rights, calls, j, t, u); }
    SetUntil(flag, down, n);
    assert forall j :: 0 <= j <= n ==> (down[j] <==> OvertakenAt(rights, calls, j, t, u));
  }

  /** Blocking messages always arrive in order. */
  lemma BlockingInOrder(rights: seq<bool>, calls: seq<Call>, n: nat, t: nat, u: nat)
    requires Careful(rights, calls) && n <= |calls|
    requires Pair(After(rights, calls, n), t, u) && !After(rights, calls, n).log[t].async
    ensures Ahead(After(rights, calls, n).place[t], After(rights, calls, n).place[u])
  {
    forall j | 0 <= j <= n ensures !OvertakenAt(rights, calls, j, t, u) {
      var st := After(rights, calls, j);
      AfterInv(rights, calls, j);
      AfterGrows(rights, calls, j, n);
      if t < |st.log| { PlaceOwner(st, t); }
    }
    OrderExactly(rights, calls, n, t, u);
  }

  /** The sender takes back the earlier letter of a pair and leaves the later one with the kernel. */
  ghost predicate Skips(st: State, c: Call, t: nat, u: nat)
    requires Shape(st)
  {
    || (LeavesOut(st, c, t) && HasOpen(c.table, u))
    || (Removes(st, c, t) && u < |st.log| && st.place[u].Posted?)
  }

  /** The kernel has the later letter of a pair and the sender the earlier one. */
  ghost predicate Split(st: State, t: nat, u: nat) {
    Pair(st, t, u) && st.place[t].Withheld? && st.place[u].Posted?
  }

  /** A letter that is posted, or waits, after a table call of its sender and was not before, is in
      the table. */
  lemma FromTable(st: State, c: Call, u: nat)
    requires Inv(st) && c.CallSenda? && Enabled(st, c) && st.procs[c.p].privileged
    requires u < |Next(st, c).log| == |Next(st, c).place|
    requires Next(st, c).place[u].Posted? || Next(st, c).place[u].Waiting?
    requires Next(st, c).log[u].src == c.p && Next(st, c).log[u].async
    ensures HasOpen(c.table, u) || (u < |st.log| && st.place[u].Waiting?)
  {
    var st1 := PostTable(st, c.p, c.table, c.letters);
    TableGrows(st, c.p, c.table, c.letters);
    TableLog(st, c);
    assert Forward(st1.place[u], Next(st, c).place[u]);
    PostTableKeeps(st, c.p, c.table, c.letters);
    PlaceOwner(st1, u);
  }

  lemma NextSplit(st: State, c: Call, t: nat, u: nat)
    requires Inv(st) && !Careless(st, c) && InOrder(st, t, u) && !Split(st, t, u) && !Skips(st, c, t, u)
    ensures !Split(Next(st, c), t, u) && !Overtaken(Next(st, c), t, u)
  {
    var st' := Next(st, c);
    NextGood(st, c);
    NextEvolves(st, c);
    if Pair(st', t, u) && st'.place[t].Withheld? {
      NextWithheld(st, c, t);
      PlaceOwner(st', t);
      PlaceOwner(st, t);
      if TableCall(st, c, st'.log[t].src) {
        if st'.place[u].Posted? || st'.place[u].Waiting? { FromTable(st, c, u); }
      } else {
        NotNew(st, c, u);
        LaterStays(st, c, u);
      }
    }
  }

  lemma NewSender(st: State, c: Call, u: nat)
    requires Inv(st) && c.CallSenda? && Enabled(st, c) && st.procs[c.p].privileged
    requires |st.log| <= u < |Next(st, c).log|
    ensures Next(st, c).log[u].src == c.p
  {
    TableLog(st, c);
    assert HasOpen(c.table, u);
  }

  /** Only its sender's table call brings an asynchronous letter. */
  lemma NotNew(st: State, c: Call, u: nat)
    requires Inv(st) && u < |Next(st, c).log| == |Next(st, c).place|
    requires Next(st, c).log[u].async && !TableCall(st, c, Next(st, c).log[u].src)
    ensures u < |st.log|
  {
    if u >= |st.log| {
      if !c.CallSenda? {
        NewSettled(st, c, u);
      } else if Enabled(st, c) && st.procs[c.p].privileged {
        NewSender(st, c, u);
      }
    }
  }

  lemma LaterStays(st: State, c: Call, u: nat)
    requires Inv(st) && !Careless(st, c) && u < |st.log| && st.log[u].async && !TableCall(st, c, st.log[u].src)
    requires |st.log| <= |Next(st, c).place|
    ensures Next(st, c).place[u].Posted? ==> st.place[u].Posted?
    ensures Next(st, c).place[u].Waiting? ==> st.place[u].Posted? || st.place[u].Waiting?
  {
    PlaceOwner(st, u);
    if c.Store? {
    } else if !c.CallSenda? {
      NextGrows(st, c);
      assert Forward(st.place[u], Next(st, c).place[u]);
    } else if Enabled(st, c) && st.procs[c.p].privileged {
      TableGrows(st, c.p, c.table, c.letters);
      var st1 := PostTable(st, c.p, c.table, c.letters);
      if Unfinished(st.place[u], c.p) { UnfinishedSender(st, u, c.p); }
      assert Forward(st1.place[u], Next(st, c).place[u]);
    }
  }

  /** While the sender never takes back the earlier letter of a pair and leaves the later one with the
      kernel, the two are in order. The sender can check that before the call. */
  lemma {:induction false} CompleteTablesInOrder(rights: seq<bool>, calls: seq<Call>, n: nat, t: nat, u: nat)
    requires Careful(rights, calls) && n <= |calls|
    requires forall j :: 0 <= j < n ==> !Skips(After(rights, calls, j), calls[j], t, u)
    ensures InOrder(After(rights, calls, n), t, u) && !Split(After(rights, calls, n), t, u)
    decreases n
  {
    if n == 0 {
      assert After(rights, calls, 0).log == [];
    } else {
      CompleteTablesInOrder(rights, calls, n - 1, t, u);
      AfterNext(rights, calls, n - 1);
      NextSplit(After(rights, calls, n - 1), calls[n - 1], t, u);
      OrderNext(rights, calls, n - 1, t, u);
    }
  }
}
