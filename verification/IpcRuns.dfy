/**
  Runs of the kernel: any sequence of calls from any processes, and of stores to their tables, in any
  order. Every state of every run in which no store opens an entry of the table the kernel has satisfies
  the invariant, and with it the properties the kernel is relied on for.
*/
module IpcRuns {
  import opened IpcState
  import opened IpcInvariant
  import opened IpcSteps
  import opened IpcAsync
  import opened IpcOrder
  import opened IpcHistory

  datatype Call =
    | CallSend(p: nat, d: int, body: int, nonblock: bool)  // SEND, SEND_NONBLOCK, and a page fault reported to MM
    | CallReceive(p: nat, src: Source, async: bool)        // RECEIVE, RECEIVE_ASYNC
    | CallBoth(p: nat, d: int, body: int)                  // BOTH
    | CallNotify(p: nat, d: int)                           // NOTIFY, also by kernel tasks
    | CallSenda(p: nat, table: seq<Entry>, letters: seq<Letter>)  // SEND_ASYNC
    | SwitchTo(p: nat)                                     // the scheduler resumes p
    | Store(p: nat, i: nat, e: Entry)                      // p writes to slot i of the table it last handed in

  /** Who can make the call: a process is resumed only when nothing blocks it, and it is back
      in user mode only after its message has been copied out (switch_to_user). */
  ghost predicate Enabled(st: State, c: Call)
    requires Shape(st)
  {
    match c
    case CallSend(p, _, _, _) => Runs(st, p)
    case CallReceive(p, src, _) => Runs(st, p) && src != Nobody
    case CallBoth(p, _, _) => Runs(st, p)
    case CallNotify(p, _) => p < |st.procs|
    case CallSenda(p, table, letters) => Runs(st, p) && (st.procs[p].privileged ==> Repost(st, p, table, letters))
    case SwitchTo(p) => p < |st.procs| && !st.procs[p].sending && !st.procs[p].receiving
    case Store(p, _, _) => Runs(st, p)
  }

  /** sys_sendrec refuses unknown peers and the caller itself. */
  ghost predicate ValidSource(st: State, p: nat, src: Source) {
    src == Any || (src.From? && ValidPeer(st, p, src.pid))
  }

  ghost function Next(st: State, c: Call): (st': State)
    requires Shape(st)
    ensures Shape(st') && |st'.procs| == |st.procs|
  {
    if !Enabled(st, c) then st else
    match c
    case CallSend(p, d, body, nonblock) => Send(st, p, d, body, nonblock).0
    case CallReceive(p, src, async) => if ValidSource(st, p, src) then Receive(st, p, src, async) else st
    case CallBoth(p, d, body) => SendReceive(st, p, d, body).0
    case CallNotify(p, d) => Notify(st, p, d).0
    case CallSenda(p, table, letters) => SendTable(st, p, table, letters).0
    case SwitchTo(p) => if st.procs[p].deliver then DeliverOut(st, p) else st
    case Store(p, i, e) => StoreSlot(st, p, i, e)
  }

  /** The call is a store that opens an entry of the table the kernel has. A sender can avoid it: such an
      entry lies in the table of its last call. */
  ghost predicate Careless(st: State, c: Call)
    requires Shape(st)
  {
    c.Store? && Enabled(st, c) && Reopens(st, c.p, c.i, c.e)
  }

  function Idle(privileged: bool): Proc {
    Proc(false, false, false, false, Nil, Nobody, Blank, Blank, {}, {}, privileged, [], false)
  }

  /** init_proc: nobody blocked, nothing queued. */
  function Initial(rights: seq<bool>): State {
    State(seq(|rights|, i requires 0 <= i < |rights| => Idle(rights[i])), seq(|rights|, _ => []), [], [], [])
  }

  lemma InitialGood(rights: seq<bool>)
    ensures Inv(Initial(rights))
  {
    var st := Initial(rights);
    assert Ranked(st, seq(|rights|, _ => 0));
    forall p | 0 <= p < |rights| ensures SyncAt(st, p) && LettersAt(st, p) {}
  }

  // ---------------------------------------------------------------- one call

  lemma SendGood(st: State, p: nat, d: int, body: int, nonblock: bool)
    requires Inv(st) && Runs(st, p)
    ensures Inv(Send(st, p, d, body, nonblock).0)
  {
    if ValidPeer(st, p, d) && !Reaches(st, d, p) {
      if WaitsFor(st.procs[d], p) {
        HandOverSync(st, p, d, body);
        HandOverLetters(st, p, d, body);
        HandOverAsync(st, p, d, body);
        FewerEdges(st, HandOver(st, p, d, body));
      } else {
        InvBlocking(st);
        EnqueueSync(st, p, d, body);
        EnqueueLetters(st, p, d, body);
        EnqueueAsync(st, p, d, body);
        NewEdge(st, p, d, body);
      }
    }
  }

  lemma ReceiveQueuedGood(st: State, p: nat, src: Source, async: bool)
    requires Inv(st) && Runs(st, p) && ValidSource(st, p, src)
    requires async ==> forall s, i :: 0 <= s < |st.procs| && Accepts(src, s) && 0 <= i < |st.procs[s].table| ==>
                                        !(Open(st.procs[s].table[i]) && st.procs[s].table[i].dest == p)
    ensures Inv(ReceiveQueued(st, p, src, async))
  {
    assert SyncAt(st, p);
    if src == Any && st.queues[p] != [] {
      assert Member(st, p, st.queues[p][0]);
      TakeSenderInv(st, p, st.queues[p][0]);
    } else if src.From? && st.procs[src.pid].sending && st.procs[src.pid].sendTo == p {
      assert SyncAt(st, src.pid);
      TakeSenderInv(st, p, src.pid);
    } else {
      forall s | s in st.queues[p] ensures !Accepts(src, s) { assert Member(st, p, s); }
      BlockInv(st, p, src, async);
    }
  }

  /** A failed asynchronous receive leaves nothing unfinished for the caller behind. */
  lemma ReceiveAsyncGood(st: State, p: nat, src: Source)
    requires Inv(st) && Runs(st, p) && ValidSource(st, p, src)
    ensures var (st', ret) := ReceiveAsync(st, p, src);
      && Inv(st')
      && (ret != Ok ==> Runs(st', p) && ValidSource(st', p, src))
      && (ret != Ok ==> forall s, i :: 0 <= s < |st'.procs| && Accepts(src, s) && 0 <= i < |st'.procs[s].table| ==>
                                         !(Open(st'.procs[s].table[i]) && st'.procs[s].table[i].dest == p))
  {
    if src == Any {
      ReceiveAsyncAnyKeeps(st, p, 0);
    } else if src.pid in st.procs[p].asyncPending {
      ReceiveAsyncFromKeeps(st, p, src.pid);
      var (st', ret) := ReceiveAsyncFrom(st, p, src.pid);
      if ret != Ok && st.procs[src.pid].privileged { ReceiveAsyncFromFails(st, p, src.pid); }
    } else {
      forall i | 0 <= i < |st.procs[src.pid].table|
        ensures !(Open(st.procs[src.pid].table[i]) && st.procs[src.pid].table[i].dest == p)
      {
        assert PendingOk(st, src.pid, st.procs[src.pid].table[i]);
      }
    }
  }

  lemma ReceiveGood(st: State, p: nat, src: Source, async: bool)
    requires Inv(st) && p < |st.procs| && ValidSource(st, p, src) && !st.procs[p].receiving && !st.procs[p].deliver
    requires st.procs[p].sending ==> !async && src.From? && src.pid == st.procs[p].sendTo
    ensures Inv(Receive(st, p, src, async))
  {
    var r := st.procs[p];
    var notice := PendingNotice(r, src, |st.procs|);
    if r.sending {
      BlockInv(st, p, src, async);
    } else if notice >= 0 {
      NoticeInv(st, p, r.(notifyPending := r.notifyPending - {notice}), notice);
    } else if async {
      ReceiveAsyncGood(st, p, src);
      var (st1, ret) := ReceiveAsync(st, p, src);
      if ret != Ok { ReceiveQueuedGood(st1, p, src, async); }
    } else {
      ReceiveQueuedGood(st, p, src, async);
    }
  }

  /** Every call by every process keeps the invariant. */
  lemma NextGood(st: State, c: Call)
    requires Inv(st) && !Careless(st, c)
    ensures Inv(Next(st, c))
  {
    if Enabled(st, c) {
      match c
      case CallSend(p, d, body, nonblock) => SendGood(st, p, d, body, nonblock);
      case CallReceive(p, src, async) => if ValidSource(st, p, src) { ReceiveGood(st, p, src, async); }
      case CallBoth(p, d, body) =>
        SendGood(st, p, d, body, false);
        var (st1, ret) := Send(st, p, d, body, false);
        if ret == Ok { ReceiveGood(st1, p, From(d), false); }
      case CallNotify(p, d) =>
        if ValidPeer(st, p, d) {
          assert SyncAt(st, d);
          if WaitsFor(st.procs[d], p) { NoticeInv(st, d, st.procs[d], p); }
          else { NotifyBitInv(st, d, st.procs[d].notifyPending + {p}); }
        }
      case CallSenda(p, table, letters) => SendTableInv(st, p, table, letters);
      case SwitchTo(p) => if st.procs[p].deliver { DeliverOutInv(st, p); }
      case Store(p, i, e) => StoreInv(st, p, i, e);
    }
  }

  lemma ReceiveGrows(st: State, p: nat, src: Source, async: bool)
    requires Inv(st) && p < |st.procs| && ValidSource(st, p, src) && !st.procs[p].receiving && !st.procs[p].deliver
    ensures Grows(st, Receive(st, p, src, async))
  {
    if !st.procs[p].sending && PendingNotice(st.procs[p], src, |st.procs|) < 0 {
      if async {
        var (st1, ret) := ReceiveAsync(st, p, src);
        if src == Any { ReceiveAsyncAnyGrows(st, p, 0); } else { ReceiveAsyncFromGrows(st, p, src.pid); }
        ReceiveAsyncGood(st, p, src);
        if ret != Ok {
          ReceiveQueuedGrows(st1, p, src, async);
          GrowsTransitive(st, st1, ReceiveQueued(st1, p, src, async));
        }
      } else {
        ReceiveQueuedGrows(st, p, src, async);
      }
    }
  }

  lemma NextGrows(st: State, c: Call)
    requires Inv(st) && !c.CallSenda? && !c.Store?
    ensures Grows(st, Next(st, c))
  {
    if Enabled(st, c) {
      match c
      case CallSend(p, d, body, nonblock) => SendGrows(st, p, d, body, nonblock);
      case CallReceive(p, src, async) => if ValidSource(st, p, src) { ReceiveGrows(st, p, src, async); }
      case CallBoth(p, d, body) =>
        SendGood(st, p, d, body, false);
        SendGrows(st, p, d, body, false);
        var (st1, ret) := Send(st, p, d, body, false);
        if ret == Ok {
          ReceiveGrows(st1, p, From(d), false);
          GrowsTransitive(st, st1, Receive(st1, p, From(d), false));
        }
      case CallNotify(p, d) =>
      case SwitchTo(p) => if st.procs[p].deliver { DeliverOutGrows(st, p); }
    }
  }

  /** A table call moves letters between the kernel and the sender, and then only forward. */
  lemma TableGrows(st: State, p: nat, table: seq<Entry>, letters: seq<Letter>)
    requires Inv(st) && p < |st.procs| && Repost(st, p, table, letters) && st.procs[p].privileged
    ensures var st1 := PostTable(st, p, table, letters);
      Shape(st1) && Evolves(st, st1) && Grows(st1, SendTable(st, p, table, letters).0)
  {
    PostTableKeeps(st, p, table, letters);
    ScanTableGrows(PostTable(st, p, table, letters), p, 0, true);
  }

  lemma StoreEvolves(st: State, p: nat, i: nat, e: Entry)
    requires Inv(st) && p < |st.procs|
    ensures Evolves(st, StoreSlot(st, p, i, e))
  {
    assert LettersAt(st, p);
    if i < |st.procs[p].table| { assert EntryOk(st, p, st.procs[p].table[i]); }
  }

  lemma NextEvolves(st: State, c: Call)
    requires Inv(st)
    ensures Evolves(st, Next(st, c))
  {
    if c.Store? {
      if Enabled(st, c) { StoreEvolves(st, c.p, c.i, c.e); }
    } else if !c.CallSenda? {
      NextGrows(st, c);
    } else if Enabled(st, c) && st.procs[c.p].privileged {
      TableGrows(st, c.p, c.table, c.letters);
      EvolvesTransitive(st, PostTable(st, c.p, c.table, c.letters), Next(st, c));
    }
  }

  // ---------------------------------------------------------------- whole runs

  ghost function Run(st: State, calls: seq<Call>): (end: State)
    requires Shape(st)
    ensures Shape(end) && |end.procs| == |st.procs|
    decreases |calls|
  {
    if calls == [] then st else Next(Run(st, calls[..|calls| - 1]), calls[|calls| - 1])
  }

  ghost function Reached(rights: seq<bool>, calls: seq<Call>): (st: State)
    ensures Shape(st) && |st.procs| == |rights|
  {
    Run(Initial(rights), calls)
  }

  /** No sender of the run opens an entry of the table the kernel has, other than by a call. */
  ghost predicate CarefulFrom(st: State, calls: seq<Call>)
    requires Shape(st)
  {
    forall j :: 0 <= j < |calls| ==> !Careless(Run(st, calls[..j]), calls[j])
  }

  ghost predicate Careful(rights: seq<bool>, calls: seq<Call>) {
    CarefulFrom(Initial(rights), calls)
  }

  lemma CarefulFront(st: State, calls: seq<Call>, n: nat)
    requires Shape(st) && CarefulFrom(st, calls) && n <= |calls|
    ensures CarefulFrom(st, calls[..n])
  {
    forall j | 0 <= j < n ensures !Careless(Run(st, calls[..n][..j]), calls[..n][j]) {
      assert calls[..n][..j] == calls[..j];
    }
  }

  lemma {:induction false} RunInv(st: State, calls: seq<Call>)
    requires Inv(st) && CarefulFrom(st, calls)
    ensures Inv(Run(st, calls))
    decreases |calls|
  {
    if calls != [] {
      var n := |calls| - 1;
      CarefulFront(st, calls, n);
      RunInv(st, calls[..n]);
      NextGood(Run(st, calls[..n]), calls[n]);
    }
  }

  lemma ReachedInv(rights: seq<bool>, calls: seq<Call>)
    requires Careful(rights, calls)
    ensures Inv(Reached(rights, calls))
  {
    InitialGood(rights);
    RunInv(Initial(rights), calls);
  }

  /** No missed rendezvous: in every reachable state, a process parked in the receive half
      has neither a queued sender nor, if it takes asynchronous messages, an unfinished
      asynchronous entry that it would accept. */
  lemma NoMissedRendezvous(rights: seq<bool>, calls: seq<Call>, p: nat, s: nat)
    requires Careful(rights, calls) && p < |rights| && s < |rights|
    requires WaitsFor(Reached(rights, calls).procs[p], s)
    ensures var st := Reached(rights, calls);
      && !(st.procs[s].sending && st.procs[s].sendTo == p)
      && (st.procs[p].recvAsync ==> forall e :: e in st.procs[s].table ==> !(Open(e) && e.dest == p))
  {
    var st := Reached(rights, calls);
    ReachedInv(rights, calls);
    assert SyncAt(st, p) && SyncAt(st, s);
    forall i | 0 <= i < |st.procs[s].table| ensures PendingOk(st, s, st.procs[s].table[i]) {}
  }

  lemma RunOn(st: State, calls: seq<Call>, c: Call)
    requires Shape(st)
    ensures Run(st, calls + [c]) == Next(Run(st, calls), c)
  {
    assert (calls + [c])[..|calls|] == calls;
  }

  lemma {:induction false} RunAppend(st: State, first: seq<Call>, rest: seq<Call>)
    requires Shape(st)
    ensures Run(st, first + rest) == Run(Run(st, first), rest)
    decreases |rest|
  {
    if rest == [] {
      assert first + rest == first;
    } else {
      var front, c := rest[..|rest| - 1], rest[|rest| - 1];
      RunAppend(st, first, front);
      RunOn(st, first + front, c);
      RunOn(Run(st, first), front, c);
      assert rest == front + [c] && first + rest == first + front + [c];
    }
  }

  lemma {:induction false} RunEvolves(st: State, calls: seq<Call>)
    requires Inv(st) && CarefulFrom(st, calls)
    ensures Evolves(st, Run(st, calls))
    decreases |calls|
  {
    if calls != [] {
      var n := |calls| - 1;
      var st1 := Run(st, calls[..n]);
      CarefulFront(st, calls, n);
      RunInv(st, calls[..n]);
      RunEvolves(st, calls[..n]);
      NextEvolves(st1, calls[n]);
      EvolvesTransitive(st, st1, Run(st, calls));
    }
  }

  lemma CarefulBack(st: State, first: seq<Call>, rest: seq<Call>)
    requires Shape(st) && CarefulFrom(st, first + rest)
    ensures CarefulFrom(st, first) && CarefulFrom(Run(st, first), rest)
  {
    var calls := first + rest;
    CarefulFront(st, calls, |first|);
    assert calls[..|first|] == first;
    forall j | 0 <= j < |rest| ensures !Careless(Run(Run(st, first), rest[..j]), rest[j]) {
      assert calls[..|first| + j] == first + rest[..j] && calls[|first| + j] == rest[j];
      RunAppend(st, first, rest[..j]);
    }
  }

  /** What it is for letter t to be at a place, read off the processes and not off `place`. */
  ghost predicate Holds(st: State, t: nat, at: Place) {
    match at
    case Queued(p) =>
      && p < |st.procs| && st.procs[p].sending && st.procs[p].sendMsg.Packet? && st.procs[p].sendMsg.tag == t
    case Posted(p) => p < |st.procs| && HasOpen(st.procs[p].table, t)
    case Waiting(p) =>
      && p < |st.procs| && st.procs[p].deliver && st.procs[p].deliverMsg.Packet? && st.procs[p].deliverMsg.tag == t
    case Withheld(p) =>
      && t < |st.log| && st.log[t].async && st.log[t].src == p && ValidPeer(st, p, st.log[t].dst) && Nowhere(st, t)
    case Received(k) => k < |st.inbox| && st.inbox[k].msg.Packet? && st.inbox[k].msg.tag == t
    case Refused =>
      && t < |st.log| && st.log[t].async && !ValidPeer(st, st.log[t].src, st.log[t].dst)
      && !HasOpen(TableOf(st, st.log[t].src), t)
  }

  /** The kernel has the letter in no table and no buffer, and has not delivered it. */
  ghost predicate Nowhere(st: State, t: nat) {
    && (forall p :: 0 <= p < |st.procs| ==> !HasOpen(st.procs[p].table, t) && !WaitsAt(st.procs[p], t))
    && (forall k :: 0 <= k < |st.inbox| ==> !(st.inbox[k].msg.Packet? && st.inbox[k].msg.tag == t))
  }

  function TableOf(st: State, s: nat): seq<Entry> {
    if s < |st.procs| then st.procs[s].table else []
  }

  lemma SeenAt(st: State, t: nat, at: Place)
    requires Inv(st) && t < |st.log| && Holds(st, t, at) && !at.Refused? && !at.Withheld?
    ensures at == st.place[t]
  {
    match at
    case Queued(p) => assert LettersAt(st, p);
    case Posted(p) =>
      assert LettersAt(st, p);
      var i :| 0 <= i < |st.procs[p].table| && Open(st.procs[p].table[i]) && st.procs[p].table[i].tag == t;
      assert EntryOk(st, p, st.procs[p].table[i]);
    case Waiting(p) => assert LettersAt(st, p);
    case Received(k) => assert InboxOk(st, k);
  }

  lemma PlaceSeen(st: State, t: nat)
    requires Inv(st) && t < |st.log|
    ensures Holds(st, t, st.place[t])
  {
    assert PlaceOk(st, t);
    PlaceOwner(st, t);
    var at, src := st.place[t], st.log[t].src;
    if at.Refused? && HasOpen(TableOf(st, src), t) { SeenAt(st, t, Posted(src)); }
    if at.Withheld? {
      forall p | 0 <= p < |st.procs| ensures !HasOpen(st.procs[p].table, t) && !WaitsAt(st.procs[p], t) {
        if HasOpen(st.procs[p].table, t) { SeenAt(st, t, Posted(p)); }
        if WaitsAt(st.procs[p], t) { SeenAt(st, t, Waiting(p)); }
      }
      forall k | 0 <= k < |st.inbox| ensures !(st.inbox[k].msg.Packet? && st.inbox[k].msg.tag == t) {
        assert InboxOk(st, k);
      }
    }
  }

  lemma OnlyPlace(st: State, t: nat, at: Place)
    requires Inv(st) && t < |st.log| && Holds(st, t, at)
    ensures at == st.place[t]
  {
    if at.Refused? || at.Withheld? {
      assert PlaceOk(st, t);
      PlaceOwner(st, t);
    } else {
      SeenAt(st, t, at);
    }
  }

  /** In every reachable state every accepted letter is at one place and one only, so none is
      duplicated, and the only letters the kernel no longer has and never delivered are those it
      refused and those their sender withholds: see IpcFate.LostExactly. */
  lemma EachLetterOnePlace(rights: seq<bool>, calls: seq<Call>, t: nat)
    requires Careful(rights, calls) && t < |Reached(rights, calls).log|
    ensures var st := Reached(rights, calls); forall at :: Holds(st, t, at) <==> at == st.place[t]
  {
    var st := Reached(rights, calls);
    ReachedInv(rights, calls);
    PlaceSeen(st, t);
    forall at | Holds(st, t, at) ensures at == st.place[t] { OnlyPlace(st, t, at); }
  }

  /** Every message handed to a process is an accepted letter for that process, unchanged and
      with its true sender, and no letter is handed over twice. */
  lemma DeliveredRight(rights: seq<bool>, calls: seq<Call>, k: nat)
    requires Careful(rights, calls)
    requires k < |Reached(rights, calls).inbox| && Reached(rights, calls).inbox[k].msg.Packet?
    ensures var st := Reached(rights, calls); var a := st.inbox[k];
      && a.msg.tag < |st.log|
      && st.log[a.msg.tag] == Letter(a.msg.source, a.to, a.msg.body, st.log[a.msg.tag].async)
      && forall l :: 0 <= l < |st.inbox| && l != k && st.inbox[l].msg.Packet? ==> st.inbox[l].msg.tag != a.msg.tag
  {
    var st := Reached(rights, calls);
    ReachedInv(rights, calls);
    assert InboxOk(st, k) && PlaceOk(st, st.inbox[k].msg.tag);
    forall l | 0 <= l < |st.inbox| && l != k && st.inbox[l].msg.Packet?
      ensures st.inbox[l].msg.tag != st.inbox[k].msg.tag
    {
      assert InboxOk(st, l);
    }
  }

  /** Between any two points of a run the history only grows: nothing accepted is forgotten,
      nothing delivered is taken back, and a received letter is never received again. Only an
      unfinished asynchronous letter can go back to its sender. */
  lemma HistoryGrows(rights: seq<bool>, first: seq<Call>, rest: seq<Call>)
    requires Careful(rights, first + rest)
    ensures Evolves(Reached(rights, first), Reached(rights, first + rest))
  {
    CarefulBack(Initial(rights), first, rest);
    ReachedInv(rights, first);
    RunAppend(Initial(rights), first, rest);
    RunEvolves(Reached(rights, first), rest);
  }
}
