/**
  The kernel's message-passing state and what each kernel entry does to it
  (kernel/proc.c).

  A process is named by its slot. Pointers of the C program become slots, and
  NULL or NO_TASK becomes `Nil`. The functions below give, for every entry point,
  the state it leaves behind; `IpcKernel.dfy` holds the loops and linked lists that
  compute it.
*/
module IpcState {

  const Nil := -1

  datatype Source = Any | Nobody | From(pid: nat)

  /** A message as it lies in `send_msg` or `deliver_msg`. `tag` is its number in the log. */
  datatype Msg = Blank | Packet(tag: nat, source: nat, body: int) | Notice(source: nat)

  /** One slot of an asynchronous message table, kept in the sender's memory. */
  datatype Entry = Entry(tag: nat, dest: int, body: int, used: bool, done: bool)

  datatype Proc = Proc(
    sending: bool,            // PST_SENDING
    receiving: bool,          // PST_RECEIVING
    recvAsync: bool,          // PF_RECV_ASYNC
    deliver: bool,            // PF_DELIVER_MSG
    sendTo: int,
    recvFrom: Source,
    sendMsg: Msg,
    deliverMsg: Msg,
    notifyPending: set<nat>,  // bit s: s has notified this process
    asyncPending: set<nat>,   // bit s: rescan the table of s
    privileged: bool,         // PRF_PRIV_PROC
    table: seq<Entry>,        // the table last given to the kernel, as it lies in user memory
    live: bool)               // priv->async_table is set

  datatype Letter = Letter(src: nat, dst: int, body: int, async: bool)

  datatype Delivery = Delivery(to: nat, msg: Msg)

  /** Where a letter of the log is now. */
  datatype Place =
    | Queued(pid: nat)      // in send_msg of a blocked sender
    | Posted(pid: nat)      // unfinished in the asynchronous table of pid
    | Withheld(pid: nat)    // unfinished, and pid has taken it back from the kernel
    | Waiting(pid: nat)     // in deliver_msg of its receiver
    | Received(index: nat)  // copied to the receiver's memory
    | Refused               // asynchronous, destination did not exist

  /** `log`, `place` and `inbox` record the history: every accepted letter in order of
      acceptance, where each of them is, and every message copied out to a process. */
  datatype State = State(
    procs: seq<Proc>,
    queues: seq<seq<nat>>,    // q_sending lists
    log: seq<Letter>,
    place: seq<Place>,
    inbox: seq<Delivery>)

  datatype Outcome = Ok | EInval | EDeadlk | EBusy | EPerm | ESrch

  ghost predicate Shape(st: State) {
    |st.queues| == |st.procs| && |st.place| == |st.log|
  }

  ghost predicate Accepts(src: Source, s: nat) {
    src == Any || src == From(s)
  }

  /** The receiver is parked in the receive half and would take a message of s now. */
  ghost predicate WaitsFor(r: Proc, s: nat) {
    !r.sending && r.receiving && Accepts(r.recvFrom, s)
  }

  predicate Open(e: Entry) { e.used && !e.done }

  predicate HasOpen(table: seq<Entry>, tag: nat) {
    exists i :: 0 <= i < |table| && Open(table[i]) && table[i].tag == tag
  }

  // ---------------------------------------------------------------- the send graph

  ghost predicate SendEdge(st: State, x: nat, y: nat) {
    x < |st.procs| && y < |st.procs| && st.procs[x].sending && st.procs[x].sendTo == y
  }

  ghost predicate SendPath(st: State, path: seq<nat>) {
    path != [] && path[0] < |st.procs| &&
    forall i :: 0 <= i < |path| - 1 ==> SendEdge(st, path[i], path[i + 1])
  }

  ghost predicate Reaches(st: State, x: nat, y: nat) {
    exists path :: SendPath(st, path) && path[0] == x && path[|path| - 1] == y
  }

  /** No process waits, through a chain of blocked senders, for itself. */
  ghost predicate NoSendCycle(st: State) {
    forall path :: SendPath(st, path) && |path| > 1 ==> path[0] != path[|path| - 1]
  }

  // ---------------------------------------------------------------- elementary effects

  function Woken(r: Proc, m: Msg): Proc {
    r.(receiving := false, recvAsync := false, deliver := true, deliverMsg := m)
  }

  /** A receiver parked for the sender gets the message at once. */
  function HandOver(st: State, p: nat, d: nat, body: int): State
    requires Shape(st) && d < |st.procs|
  {
    st.(procs := st.procs[d := Woken(st.procs[d], Packet(|st.log|, p, body))],
    log := st.log + [Letter(p, d, body, false)],
    place := st.place + [Waiting(d)])
  }

  /** The sender blocks at the end of the receiver's queue. */
  function Enqueue(st: State, p: nat, d: nat, body: int): State
    requires Shape(st) && p < |st.procs| && d < |st.procs|
  {
    st.(procs := st.procs[p := st.procs[p].(sending := true, sendTo := d, sendMsg := Packet(|st.log|, p, body))],
    queues := st.queues[d := st.queues[d] + [p]],
    log := st.log + [Letter(p, d, body, false)],
    place := st.place + [Queued(p)])
  }

  function Without(q: seq<nat>, s: nat): (r: seq<nat>)
    ensures s !in q ==> r == q
  {
    if q == [] then [] else if q[0] == s then q[1..] else [q[0]] + Without(q[1..], s)
  }

  function Moved(place: seq<Place>, m: Msg, to: Place): seq<Place> {
    if m.Packet? && m.tag < |place| then place[m.tag := to] else place
  }

  /** The receiver takes the message of a sender blocked in its queue and unblocks it. */
  function TakeSender(st: State, p: nat, s: nat): State
    requires Shape(st) && p < |st.procs| && s < |st.procs|
  {
    var m := st.procs[s].sendMsg;
    var procs := st.procs[s := st.procs[s].(sending := false, sendTo := Nil, sendMsg := Blank)];
    st.(procs := procs[p := procs[p].(deliver := true, deliverMsg := m)],
    queues := st.queues[p := Without(st.queues[p], s)],
    place := Moved(st.place, m, Waiting(p)))
  }

  function TakeNotice(st: State, p: nat, s: nat): State
    requires p < |st.procs|
  {
    var r := st.procs[p];
    st.(procs := st.procs[p := Woken(r.(notifyPending := r.notifyPending - {s}), Notice(s))])
  }

  function Block(st: State, p: nat, src: Source, async: bool): State
    requires p < |st.procs|
  {
    var r := st.procs[p];
    st.(procs := st.procs[p := r.(receiving := true, recvAsync := r.recvAsync || async, recvFrom := src)])
  }

  function MarkDone(st: State, s: nat, i: nat): State
    requires s < |st.procs| && i < |st.procs[s].table|
  {
    var r := st.procs[s];
    st.(procs := st.procs[s := r.(table := r.table[i := r.table[i].(done := true)])])
  }

  /** Entry i of the table of s is delivered to d and finished. */
  function DeliverEntry(st: State, s: nat, i: nat, d: nat): State
    requires s < |st.procs| && i < |st.procs[s].table| && d < |st.procs|
  {
    var e := st.procs[s].table[i];
    var m := Packet(e.tag, s, e.body);
    var st1 := MarkDone(st, s, i);
    st1.(procs := st1.procs[d := Woken(st1.procs[d], m)], place := Moved(st.place, m, Waiting(d)))
  }

  /** Entry i of the table of s names no other live process: finished with an error. */
  function RefuseEntry(st: State, s: nat, i: nat): State
    requires s < |st.procs| && i < |st.procs[s].table|
  {
    var e := st.procs[s].table[i];
    MarkDone(st, s, i).(place := Moved(st.place, Packet(e.tag, s, e.body), Refused))
  }

  function SetAsyncBit(st: State, d: nat, s: nat, on: bool): State
    requires d < |st.procs|
  {
    var r := st.procs[d];
    st.(procs := st.procs[d := r.(asyncPending := if on then r.asyncPending + {s} else r.asyncPending - {s})])
  }

  function SetLive(st: State, s: nat, live: bool): State
    requires s < |st.procs|
  {
    st.(procs := st.procs[s := st.procs[s].(live := live)])
  }

  // ---------------------------------------------------------------- kernel entries

  ghost predicate ValidPeer(st: State, p: nat, d: int) {
    0 <= d < |st.procs| && d != p
  }

  /** msg_send, after the endpoint check of sys_sendrec. */
  ghost function Send(st: State, p: nat, d: int, body: int, nonblock: bool): (res: (State, Outcome))
    requires Shape(st) && p < |st.procs|
    ensures Shape(res.0) && |res.0.procs| == |st.procs|
  {
    if !ValidPeer(st, p, d) then (st, EInval)
    else if Reaches(st, d, p) then (st, EDeadlk)
    else if WaitsFor(st.procs[d], p) then (HandOver(st, p, d, body), Ok)
    else if nonblock then (st, EBusy)
    else (Enqueue(st, p, d, body), Ok)
  }

  /** The lowest pending notification a receive accepts, or Nil. */
  function PendingNotice(r: Proc, src: Source, n: nat): int {
    match src
    case From(s) => if s in r.notifyPending then s else Nil
    case Any => LowestFrom(r.notifyPending, 0, n)
    case Nobody => Nil
  }

  function LowestFrom(bits: set<nat>, i: nat, n: nat): int
    decreases n - i
  {
    if i >= n then Nil else if i in bits then i else LowestFrom(bits, i + 1, n)
  }

  /** First unfinished entry for d at or after i, or the length of the table. */
  function FirstFor(table: seq<Entry>, d: nat, i: nat): (k: nat)
    requires i <= |table|
    ensures i <= k <= |table|
    ensures k < |table| ==> Open(table[k]) && table[k].dest == d
    ensures forall j :: i <= j < k ==> !(Open(table[j]) && table[j].dest == d)
    decreases |table| - i
  {
    if i == |table| || (Open(table[i]) && table[i].dest == d) then i else FirstFor(table, d, i + 1)
  }

  predicate AllDone(table: seq<Entry>) {
    forall i :: 0 <= i < |table| ==> !Open(table[i])
  }

  function KernelTable(r: Proc): seq<Entry> {
    if r.live then r.table else []
  }

  /** No sender moves in a queue, and nothing is accepted or copied out. */
  predicate SameRecord(st: State, st': State) {
    st'.queues == st.queues && st'.log == st.log && st'.inbox == st.inbox
  }

  /** receive_async_from. */
  function ReceiveAsyncFrom(st: State, p: nat, s: nat): (res: (State, Outcome))
    requires Shape(st) && p < |st.procs| && s < |st.procs|
  {
    var table := KernelTable(st.procs[s]);
    var k := FirstFor(table, p, 0);
    if !st.procs[s].privileged then (st, EPerm)
    else if k < |table| then (SetAsyncBit(DeliverEntry(st, s, k, p), p, s, true), Ok)
    else if !AllDone(table) then (SetAsyncBit(st, p, s, true), ESrch)
    else (SetLive(SetAsyncBit(st, p, s, false), s, false), ESrch)
  }

  /** receive_async: try every sender whose bit is set, from i upwards. */
  function ReceiveAsyncAny(st: State, p: nat, i: nat): (res: (State, Outcome))
    requires Shape(st) && p < |st.procs|
    ensures Shape(res.0) && |res.0.procs| == |st.procs| && SameRecord(st, res.0)
    decreases |st.procs| - i
  {
    if i >= |st.procs| then (st, ESrch)
    else if i !in st.procs[p].asyncPending then ReceiveAsyncAny(st, p, i + 1)
    else
      var (st1, ret) := ReceiveAsyncFrom(st, p, i);
      if ret == Ok then (st1, Ok) else ReceiveAsyncAny(st1, p, i + 1)
  }

  /** The asynchronous part of msg_receive. */
  function ReceiveAsync(st: State, p: nat, src: Source): (res: (State, Outcome))
    requires Shape(st) && p < |st.procs|
    requires src.From? ==> src.pid < |st.procs|
    ensures Shape(res.0) && |res.0.procs| == |st.procs| && SameRecord(st, res.0)
  {
    match src
    case Any => ReceiveAsyncAny(st, p, 0)
    case From(s) => if s in st.procs[p].asyncPending then ReceiveAsyncFrom(st, p, s) else (st, ESrch)
    case Nobody => (st, ESrch)
  }

  /** The synchronous part of msg_receive: take a queued sender or block. */
  function ReceiveQueued(st: State, p: nat, src: Source, async: bool): (res: State)
    requires Shape(st) && p < |st.procs|
    requires src.From? ==> src.pid < |st.procs|
    ensures Shape(res) && |res.procs| == |st.procs|
  {
    if src == Any && st.queues[p] != [] && st.queues[p][0] < |st.procs| then TakeSender(st, p, st.queues[p][0])
    else if src.From? && st.procs[src.pid].sending && st.procs[src.pid].sendTo == p then TakeSender(st, p, src.pid)
    else Block(st, p, src, async)
  }

  /** msg_receive. */
  function Receive(st: State, p: nat, src: Source, async: bool): (res: State)
    requires Shape(st) && p < |st.procs|
    requires src.From? ==> src.pid < |st.procs|
    ensures Shape(res) && |res.procs| == |st.procs|
  {
    var r := st.procs[p];
    var notice := PendingNotice(r, src, |st.procs|);
    if r.sending then Block(st, p, src, async)
    else if notice >= 0 then TakeNotice(st, p, notice)
    else if async then
      var (st1, ret) := ReceiveAsync(st, p, src);
      if ret == Ok then st1 else ReceiveQueued(st1, p, src, async)
    else ReceiveQueued(st, p, src, async)
  }

  /** sendrec(BOTH): send, then receive the reply from the same process. */
  ghost function SendReceive(st: State, p: nat, d: int, body: int): (res: (State, Outcome))
    requires Shape(st) && p < |st.procs|
    ensures Shape(res.0) && |res.0.procs| == |st.procs|
  {
    var (st1, ret) := Send(st, p, d, body, false);
    if ret == Ok then (Receive(st1, p, From(d), false), Ok) else (st1, ret)
  }

  /** msg_notify. */
  ghost function Notify(st: State, p: nat, d: int): (State, Outcome)
    requires p < |st.procs|
  {
    if !ValidPeer(st, p, d) then (st, EInval)
    else if WaitsFor(st.procs[d], p) then (st.(procs := st.procs[d := Woken(st.procs[d], Notice(p))]), Ok)
    else
      var r := st.procs[d];
      (st.(procs := st.procs[d := r.(notifyPending := r.notifyPending + {p})]), Ok)
  }

  /** One round of the loop of msg_senda: the new state, and whether entry i stays unfinished. */
  ghost function ScanEntry(st: State, p: nat, i: nat): (res: (State, bool))
    requires p < |st.procs| && i < |st.procs[p].table|
    ensures |res.0.procs| == |st.procs| && |res.0.procs[p].table| == |st.procs[p].table| && SameRecord(st, res.0)
    ensures |res.0.place| == |st.place|
  {
    var e := st.procs[p].table[i];
    if !Open(e) then (st, false)
    else if !ValidPeer(st, p, e.dest) then (RefuseEntry(st, p, i), false)
    else if st.procs[e.dest].recvAsync && WaitsFor(st.procs[e.dest], p) then (DeliverEntry(st, p, i, e.dest), false)
    else (SetAsyncBit(st, e.dest, p, true), true)
  }

  /** The loop of msg_senda from entry i on; the table is saved unless everything is done. */
  ghost function ScanTable(st: State, p: nat, i: nat, done: bool): (res: State)
    requires p < |st.procs| && i <= |st.procs[p].table|
    ensures SameRecord(st, res) && |res.procs| == |st.procs| && |res.place| == |st.place|
    decreases |st.procs[p].table| - i
  {
    if i == |st.procs[p].table| then SetLive(st, p, !done)
    else
      var (st1, pending) := ScanEntry(st, p, i);
      ScanTable(st1, p, i + 1, done && !pending)
  }

  predicate Unfinished(at: Place, p: nat) {
    at == Posted(p) || at == Withheld(p)
  }

  /** The unfinished letters of p are with the kernel exactly if they are in its table. */
  function Resubmitted(place: seq<Place>, p: nat, table: seq<Entry>): (r: seq<Place>)
    ensures |r| == |place|
  {
    seq(|place|, t requires 0 <= t < |place| =>
      if !Unfinished(place[t], p) then place[t] else if HasOpen(table, t) then Posted(p) else Withheld(p))
  }

  /** The kernel forgets the table it had and looks at `table`, whose new letters enter the log.
      Letters the old table had unfinished and the new one leaves out go back to the sender. */
  function PostTable(st: State, p: nat, table: seq<Entry>, letters: seq<Letter>): State
    requires p < |st.procs|
  {
    st.(procs := st.procs[p := st.procs[p].(table := table, live := false)],
    log := st.log + letters,
    place := Resubmitted(st.place, p, table) + seq(|letters|, _ => Posted(p)))
  }

  /** msg_senda. With an empty table it is the call that takes everything back. */
  ghost function SendTable(st: State, p: nat, table: seq<Entry>, letters: seq<Letter>): (State, Outcome)
    requires p < |st.procs|
  {
    if !st.procs[p].privileged then (st, EPerm)
    else (ScanTable(PostTable(st, p, table, letters), p, 0, true), Ok)
  }

  /** The sender stores to a slot of the table it has handed in, which is its own memory. That matters
      while the kernel has the table. A letter it takes out goes back to it. */
  function StoreSlot(st: State, p: nat, i: nat, e: Entry): State
    requires p < |st.procs|
  {
    var r := st.procs[p];
    if !r.live || i >= |r.table| || e == r.table[i] then st
    else
      var was := r.table[i];
      st.(procs := st.procs[p := r.(table := r.table[i := e])],
      place := if Open(was) then Moved(st.place, Packet(was.tag, p, was.body), Withheld(p)) else st.place)
  }

  /** deliver_msg: copy the message out when the process is about to run. */
  function DeliverOut(st: State, p: nat): State
    requires p < |st.procs|
  {
    var r := st.procs[p];
    st.(procs := st.procs[p := r.(deliver := false, deliverMsg := Blank, recvFrom := Nobody)],
    place := Moved(st.place, r.deliverMsg, Received(|st.inbox|)),
    inbox := st.inbox + [Delivery(p, r.deliverMsg)])
  }
}
