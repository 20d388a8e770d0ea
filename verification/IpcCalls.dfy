/**
  The kernel as its callers see it: which calls are accepted, what they put on record, and that what
  a process receives is what another process passed in a call.
*/
module IpcCalls {
  import opened IpcState
  import opened IpcAsync
  import opened IpcRuns

  // ---------------------------------------------------------------- a send

  /** The send is accepted: the peer exists, no cycle would close, and the caller may wait or need not. */
  ghost predicate Sendable(st: State, p: nat, d: int, nonblock: bool)
    requires Shape(st)
  {
    ValidPeer(st, p, d) && !Reaches(st, d, p) && (nonblock ==> WaitsFor(st.procs[d], p))
  }

  /** Each result of a send is decided by the state before it. */
  lemma SendOutcome(st: State, p: nat, d: int, body: int, nonblock: bool)
    requires Shape(st) && p < |st.procs|
    ensures var ret := Send(st, p, d, body, nonblock).1;
      && (ret == EInval <==> !ValidPeer(st, p, d))
      && (ret == EDeadlk <==> ValidPeer(st, p, d) && Reaches(st, d, p))
      && (ret == EBusy <==> ValidPeer(st, p, d) && !Reaches(st, d, p) && !WaitsFor(st.procs[d], p) && nonblock)
      && (ret == Ok <==> Sendable(st, p, d, nonblock))
  {
  }

  /** A send that is accepted puts exactly its message on record, in the hands of a receiver that waits
      for it or behind the senders already queued, and any other leaves everything as it was. */
  lemma SendEffect(st: State, p: nat, d: int, body: int, nonblock: bool)
    requires Shape(st) && p < |st.procs|
    ensures var st' := Send(st, p, d, body, nonblock).0; var m := Packet(|st.log|, p, body);
      if !Sendable(st, p, d, nonblock) then st' == st
      else
        && st'.log == st.log + [Letter(p, d, body, false)] && st'.inbox == st.inbox
        && (if WaitsFor(st.procs[d], p) then
              && st'.procs[d].deliver && st'.procs[d].deliverMsg == m && !st'.procs[d].receiving
              && st'.queues == st.queues && forall x :: 0 <= x < |st.procs| && x != d ==> st'.procs[x] == st.procs[x]
            else
              && st'.procs[p].sending && st'.procs[p].sendTo == d && st'.procs[p].sendMsg == m
              && st'.queues == st.queues[d := st.queues[d] + [p]]
              && forall x :: 0 <= x < |st.procs| && x != p ==> st'.procs[x] == st.procs[x])
  {
  }

  /** Each result of a notification, and its effect. */
  lemma NotifyEffect(st: State, p: nat, d: int)
    requires Shape(st) && p < |st.procs|
    ensures var (st', ret) := Notify(st, p, d);
      && (ret == EInval <==> !ValidPeer(st, p, d)) && (ret == Ok <==> ValidPeer(st, p, d))
      && (ret != Ok ==> st' == st)
      && (ret == Ok ==>
            if WaitsFor(st.procs[d], p) then
              && st'.procs[d].deliver && st'.procs[d].deliverMsg == Notice(p) && !st'.procs[d].receiving
              && st'.procs[d].notifyPending == st.procs[d].notifyPending
            else st'.procs[d] == st.procs[d].(notifyPending := st.procs[d].notifyPending + {p}))
      && (forall x :: 0 <= x < |st.procs| && x != d ==> st'.procs[x] == st.procs[x])
      && st'.queues == st.queues && st'.log == st.log && st'.place == st.place && st'.inbox == st.inbox
  {
  }

  // ---------------------------------------------------------------- the record

  /** The messages that the kernel accepts by a call, from the arguments of the call. */
  ghost function Newly(st: State, c: Call): seq<Letter>
    requires Shape(st)
  {
    if !Enabled(st, c) then []
    else
      match c
      case CallSend(p, d, body, nonblock) => if Sendable(st, p, d, nonblock) then [Letter(p, d, body, false)] else []
      case CallBoth(p, d, body) => if Sendable(st, p, d, false) then [Letter(p, d, body, false)] else []
      case CallSenda(p, table, letters) => if st.procs[p].privileged then letters else []
      case _ => []
  }

  lemma ReceiveLog(st: State, p: nat, src: Source, async: bool)
    requires Shape(st) && p < |st.procs| && (src.From? ==> src.pid < |st.procs|)
    ensures Receive(st, p, src, async).log == st.log
  {
  }

  lemma NextLog(st: State, c: Call)
    requires Shape(st)
    ensures Next(st, c).log == st.log + Newly(st, c)
  {
    if Enabled(st, c) {
      match c
      case CallSend(p, d, body, nonblock) => SendEffect(st, p, d, body, nonblock);
      case CallReceive(p, src, async) => if ValidSource(st, p, src) { ReceiveLog(st, p, src, async); }
      case CallBoth(p, d, body) =>
        SendEffect(st, p, d, body, false);
        SendOutcome(st, p, d, body, false);
        if Sendable(st, p, d, false) { ReceiveLog(Send(st, p, d, body, false).0, p, From(d), false); }
      case _ =>
    }
  }

  /** Everything accepted in a run, call by call. */
  ghost function Accepted(rights: seq<bool>, calls: seq<Call>): seq<Letter>
    decreases |calls|
  {
    if calls == [] then []
    else
      var n := |calls| - 1;
      Accepted(rights, calls[..n]) + Newly(Reached(rights, calls[..n]), calls[n])
  }

  /** In every run, whatever stores it has, the record is what the calls passed and the kernel accepted,
      in order, and nothing else. */
  lemma {:induction false} RecordIsCalls(rights: seq<bool>, calls: seq<Call>)
    ensures Reached(rights, calls).log == Accepted(rights, calls)
    decreases |calls|
  {
    if calls != [] {
      var n := |calls| - 1;
      RecordIsCalls(rights, calls[..n]);
      NextLog(Reached(rights, calls[..n]), calls[n]);
    }
  }

  /** The call passes, as number t of the record, this message of s for d. */
  ghost predicate Passes(st: State, c: Call, t: nat, s: nat, d: nat, body: int)
    requires Shape(st)
  {
    Enabled(st, c) &&
    match c
    case CallSend(p, to, b, nonblock) => (p, to, b) == (s, d, body) && Sendable(st, p, to, nonblock) && t == |st.log|
    case CallBoth(p, to, b) => (p, to, b) == (s, d, body) && Sendable(st, p, to, false) && t == |st.log|
    case CallSenda(p, table, letters) =>
      && p == s && st.procs[p].privileged && |st.log| <= t < |st.log| + |letters|
      && exists i :: 0 <= i < |table| && Open(table[i]) && (table[i].tag, table[i].dest, table[i].body) == (t, d, body)
    case _ => false
  }

  lemma NewlyPasses(st: State, c: Call, t: nat)
    requires Shape(st) && |st.log| <= t < |st.log| + |Newly(st, c)| && Newly(st, c)[t - |st.log|].dst >= 0
    ensures var l := Newly(st, c)[t - |st.log|]; Passes(st, c, t, l.src, l.dst, l.body)
  {
    if c.CallSenda? {
      assert HasOpen(c.table, t);
      var i :| 0 <= i < |c.table| && Open(c.table[i]) && c.table[i].tag == t;
      assert FreshEntry(st, c.p, c.table[i], c.letters);
    }
  }

  ghost predicate PassedBefore(rights: seq<bool>, calls: seq<Call>, t: nat, s: nat, d: nat, body: int) {
    exists j :: 0 <= j < |calls| && Passes(Reached(rights, calls[..j]), calls[j], t, s, d, body)
  }

  lemma PassedLater(rights: seq<bool>, calls: seq<Call>, n: nat, t: nat, s: nat, d: nat, body: int)
    requires n <= |calls| && PassedBefore(rights, calls[..n], t, s, d, body)
    ensures PassedBefore(rights, calls, t, s, d, body)
  {
    var j :| 0 <= j < n && Passes(Reached(rights, calls[..n][..j]), calls[..n][j], t, s, d, body);
    assert calls[..n][..j] == calls[..j] && calls[..n][j] == calls[j];
  }

  lemma {:induction false} RecordPassed(rights: seq<bool>, calls: seq<Call>, t: nat)
    requires t < |Reached(rights, calls).log| && Reached(rights, calls).log[t].dst >= 0
    ensures var l := Reached(rights, calls).log[t]; PassedBefore(rights, calls, t, l.src, l.dst, l.body)
    decreases |calls|
  {
    if calls != [] {
      var n := |calls| - 1;
      var st := Reached(rights, calls[..n]);
      NextLog(st, calls[n]);
      var l := Reached(rights, calls).log[t];
      if t < |st.log| {
        RecordPassed(rights, calls[..n], t);
        PassedLater(rights, calls, n, t, l.src, l.dst, l.body);
      } else {
        NewlyPasses(st, calls[n], t);
      }
    }
  }

  /** Every message that a process has received was passed by its source, to that process and with that
      body, in an earlier call that was accepted; different messages received were passed as different
      numbers of the record, so each accepted message is received at most once. */
  lemma ReceivedWasPassed(rights: seq<bool>, calls: seq<Call>, k: nat)
    requires Careful(rights, calls)
    requires k < |Reached(rights, calls).inbox| && Reached(rights, calls).inbox[k].msg.Packet?
    ensures var st := Reached(rights, calls); var a := st.inbox[k];
      && PassedBefore(rights, calls, a.msg.tag, a.msg.source, a.to, a.msg.body)
      && forall l :: 0 <= l < |st.inbox| && l != k && st.inbox[l].msg.Packet? ==> st.inbox[l].msg.tag != a.msg.tag
  {
    DeliveredRight(rights, calls, k);
    RecordPassed(rights, calls, Reached(rights, calls).inbox[k].msg.tag);
  }
}
