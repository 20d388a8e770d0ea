/**
  The invariant of the message-passing state. It ties the blocked flags of every process
  to the sending queues, every letter to exactly one place, and every unfinished
  asynchronous entry to the pending bit that makes its receiver look for it.
*/
module IpcInvariant {
  import opened IpcState

  // ---------------------------------------------------------------- queues and flags

  ghost predicate Member(st: State, d: nat, x: nat)
    requires d < |st.procs|
  {
    x < |st.procs| && x != d && st.procs[x].sending && st.procs[x].sendTo == d && st.procs[x].sendMsg.Packet?
  }

  /** Everyone queued at d is sending to d, and they stand in order of arrival. */
  ghost predicate QueueOk(st: State, d: nat)
    requires Shape(st) && d < |st.procs|
  {
    var q := st.queues[d];
    && (forall i :: 0 <= i < |q| ==> Member(st, d, q[i]))
    && (forall i, j :: 0 <= i < j < |q| ==> st.procs[q[i]].sendMsg.tag < st.procs[q[j]].sendMsg.tag)
  }

  /** A blocked sender stands in the queue of its destination. */
  ghost predicate SenderOk(st: State, p: nat)
    requires Shape(st) && p < |st.procs|
  {
    var r := st.procs[p];
    r.sending ==> ValidPeer(st, p, r.sendTo) && p in st.queues[r.sendTo]
  }

  ghost predicate FlagsOk(st: State, p: nat)
    requires p < |st.procs|
  {
    var r := st.procs[p];
    && (r.sending || r.receiving ==> !r.deliver)
    && (r.sending && r.receiving ==> r.sendTo >= 0 && r.recvFrom == From(r.sendTo))
    && (r.recvAsync ==> r.receiving && !r.sending)
    && (r.deliver ==> !r.deliverMsg.Blank?)
  }

  /** No missed rendezvous: a parked receiver has no queued sender it would accept. */
  ghost predicate RendezvousOk(st: State, p: nat)
    requires Shape(st) && p < |st.procs|
  {
    forall s :: s in st.queues[p] ==> !WaitsFor(st.procs[p], s)
  }

  ghost predicate SyncAt(st: State, p: nat)
    requires Shape(st) && p < |st.procs|
  {
    QueueOk(st, p) && SenderOk(st, p) && FlagsOk(st, p) && RendezvousOk(st, p)
  }

  ghost predicate Sync(st: State)
    requires Shape(st)
  {
    forall p :: 0 <= p < |st.procs| ==> SyncAt(st, p)
  }

  // ---------------------------------------------------------------- letters

  ghost predicate SendLetterOk(st: State, p: nat)
    requires Shape(st) && p < |st.procs|
  {
    var r := st.procs[p];
    r.sending ==>
      && r.sendMsg.Packet? && r.sendMsg.source == p && r.sendMsg.tag < |st.log|
      && st.place[r.sendMsg.tag] == Queued(p)
      && st.log[r.sendMsg.tag] == Letter(p, r.sendTo, r.sendMsg.body, false)
  }

  ghost predicate DeliverLetterOk(st: State, p: nat)
    requires Shape(st) && p < |st.procs|
  {
    var r := st.procs[p];
    r.deliver && r.deliverMsg.Packet? ==>
      && r.deliverMsg.tag < |st.log|
      && st.place[r.deliverMsg.tag] == Waiting(p)
      && st.log[r.deliverMsg.tag] == Letter(r.deliverMsg.source, p, r.deliverMsg.body, st.log[r.deliverMsg.tag].async)
  }

  ghost predicate EntryOk(st: State, s: nat, e: Entry)
    requires Shape(st)
  {
    Open(e) ==> e.tag < |st.log| && st.place[e.tag] == Posted(s) && st.log[e.tag] == Letter(s, e.dest, e.body, true)
  }

  ghost predicate TableOk(st: State, s: nat)
    requires Shape(st) && s < |st.procs|
  {
    var table := st.procs[s].table;
    && (forall i :: 0 <= i < |table| ==> EntryOk(st, s, table[i]))
    && Ascending(table)
  }

  ghost predicate Ascending(table: seq<Entry>) {
    forall i, j :: 0 <= i < j < |table| && Open(table[i]) && Open(table[j]) ==> table[i].tag < table[j].tag
  }

  /** Every letter is where `place` says. With the three predicates above, and only there. */
  ghost predicate PlaceOk(st: State, t: nat)
    requires Shape(st) && t < |st.log|
  {
    match st.place[t]
    case Queued(p) =>
      && p < |st.procs| && st.procs[p].sending && st.procs[p].sendMsg.Packet? && st.procs[p].sendMsg.tag == t
    case Posted(p) => p < |st.procs| && HasOpen(st.procs[p].table, t)
    case Withheld(p) => p < |st.procs| && st.log[t].async && st.log[t].src == p && ValidPeer(st, p, st.log[t].dst)
    case Waiting(p) =>
      && p < |st.procs| && st.procs[p].deliver && st.procs[p].deliverMsg.Packet? && st.procs[p].deliverMsg.tag == t
      && ValidPeer(st, st.log[t].src, p)
    case Received(k) =>
      && k < |st.inbox| && ValidPeer(st, st.log[t].src, st.log[t].dst)
      && st.inbox[k] == Delivery(st.log[t].dst, Packet(t, st.log[t].src, st.log[t].body))
    case Refused => st.log[t].async && !ValidPeer(st, st.log[t].src, st.log[t].dst)
  }

  ghost predicate InboxOk(st: State, k: nat)
    requires Shape(st) && k < |st.inbox|
  {
    var m := st.inbox[k].msg;
    m.Packet? ==> m.tag < |st.log| && st.place[m.tag] == Received(k)
  }

  ghost predicate LettersAt(st: State, p: nat)
    requires Shape(st) && p < |st.procs|
  {
    SendLetterOk(st, p) && DeliverLetterOk(st, p) && TableOk(st, p)
  }

  ghost predicate Letters(st: State)
    requires Shape(st)
  {
    && (forall p :: 0 <= p < |st.procs| ==> LettersAt(st, p))
    && (forall t :: 0 <= t < |st.log| ==> PlaceOk(st, t))
    && (forall k :: 0 <= k < |st.inbox| ==> InboxOk(st, k))
  }

  // ---------------------------------------------------------------- asynchronous tables

  /** An unfinished entry will be found: its receiver has the pending bit and is not
      already parked for it. */
  ghost predicate PendingOk(st: State, s: nat, e: Entry) {
    Open(e) ==>
      && ValidPeer(st, s, e.dest)
      && s in st.procs[e.dest].asyncPending
      && !(st.procs[e.dest].recvAsync && WaitsFor(st.procs[e.dest], s))
  }

  /** Holds of every entry but those of `s0` from index `i0` on, which msg_senda has yet to scan.
      Nobody is its own pending sender, and only privileged processes have a table. */
  ghost predicate AsyncExcept(st: State, s0: int, i0: nat) {
    && (forall s :: 0 <= s < |st.procs| ==>
          s !in st.procs[s].asyncPending && (!st.procs[s].privileged ==> st.procs[s].table == []))
    && forall s, i :: 0 <= s < |st.procs| && 0 <= i < |st.procs[s].table| && (s != s0 || i < i0) ==>
      && PendingOk(st, s, st.procs[s].table[i])
      && (s != s0 && Open(st.procs[s].table[i]) ==> st.procs[s].live)
  }

  ghost predicate Async(st: State) {
    AsyncExcept(st, Nil, 0)
  }

  // ---------------------------------------------------------------- the send graph

  ghost predicate Ranked(st: State, rank: seq<nat>) {
    && |rank| == |st.procs|
    && forall x: nat, y: nat :: SendEdge(st, x, y) ==> rank[y] < rank[x]
  }

  ghost predicate Acyclic(st: State) {
    exists rank :: Ranked(st, rank)
  }

  ghost predicate Inv(st: State) {
    Shape(st) && Sync(st) && Letters(st) && Async(st) && Acyclic(st)
  }

  /** A blocked sender holds a message of its own, with a number that has been given out. */
  ghost predicate NumbersOk(st: State)
    requires Shape(st)
  {
    forall p :: 0 <= p < |st.procs| && st.procs[p].sending ==>
      st.procs[p].sendMsg.Packet? && st.procs[p].sendMsg.source == p && st.procs[p].sendMsg.tag < |st.log|
  }

  /** The part of the invariant that speaks of blocking messages. */
  ghost predicate Blocking(st: State) {
    Shape(st) && Sync(st) && NumbersOk(st) && Acyclic(st)
  }

  lemma InvBlocking(st: State)
    requires Inv(st)
    ensures Blocking(st)
  {
    forall p | 0 <= p < |st.procs| && st.procs[p].sending
      ensures st.procs[p].sendMsg.Packet? && st.procs[p].sendMsg.source == p && st.procs[p].sendMsg.tag < |st.log|
    {
      assert LettersAt(st, p);
    }
  }

  /** The caller of a kernel entry runs: it is not blocked and has no message left to copy. */
  ghost predicate Runs(st: State, p: nat) {
    p < |st.procs| && !st.procs[p].sending && !st.procs[p].receiving && !st.procs[p].deliver
  }
}
