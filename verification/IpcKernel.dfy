/**
  The kernel entries themselves (kernel/proc.c): the process table as an array, the sending
  queues threaded through `q_sending` and `next_sending`, and the loops that walk them. Each
  method is proved to compute the state the functions of `IpcState` give.
*/
module IpcKernel {
  import opened IpcState
  import opened IpcInvariant
  import opened IpcSteps
  import opened IpcAsync
  import opened IpcRuns
  import opened IpcCalls
  import opened IpcReply

  // ---------------------------------------------------------------- linked queues

  function After(q: seq<nat>, i: int): int
    requires -1 <= i < |q|
  {
    if i + 1 < |q| then q[i + 1] else Nil
  }

  /** `q` is the list that starts at h. */
  ghost predicate IsList(h: int, link: seq<int>, q: seq<nat>) {
    && h == After(q, -1)
    && (forall i :: 0 <= i < |q| ==> q[i] < |link|)
    && (forall i {:trigger link[q[i]]} :: 0 <= i < |q| ==> link[q[i]] == After(q, i))
  }

  ghost predicate Lists(head: seq<int>, link: seq<int>, queues: seq<seq<nat>>) {
    |head| == |link| == |queues| && forall d :: 0 <= d < |queues| ==> IsList(head[d], link, queues[d])
  }

  ghost predicate Distinct(q: seq<nat>) {
    forall i, j :: 0 <= i < j < |q| ==> q[i] != q[j]
  }

  /** Nobody stands in two places: `owner` says in whose queue a process may be. */
  ghost predicate Exclusive(queues: seq<seq<nat>>, owner: seq<int>) {
    forall d :: 0 <= d < |queues| ==>
      Distinct(queues[d]) && forall i :: 0 <= i < |queues[d]| ==> queues[d][i] < |owner| && owner[queues[d][i]] == d
  }

  ghost function Owners(st: State): seq<int> {
    seq(|st.procs|, x requires 0 <= x < |st.procs| => if st.procs[x].sending then st.procs[x].sendTo else Nil)
  }

  lemma QueuesExclusive(st: State)
    requires Shape(st) && Sync(st)
    ensures Exclusive(st.queues, Owners(st))
  {
    forall d | 0 <= d < |st.queues|
      ensures Distinct(st.queues[d])
      ensures forall i :: 0 <= i < |st.queues[d]| ==> st.queues[d][i] < |st.procs| && Owners(st)[st.queues[d][i]] == d
    {
      assert SyncAt(st, d);
      QueueDistinct(st, d);
    }
  }

  /** The queue that gets a new last element. */
  lemma AppendList(head: int, link: seq<int>, q: seq<nat>, p: nat)
    requires IsList(head, link, q) && p < |link| && p !in q && forall i, j :: 0 <= i < j < |q| ==> q[i] != q[j]
    ensures q != [] ==> q[|q| - 1] < |link| && IsList(head, link[q[|q| - 1] := p][p := Nil], q + [p])
    ensures q == [] ==> IsList(p, link[p := Nil], q + [p])
  {
    if q != [] {
      var q', link' := q + [p], link[q[|q| - 1] := p][p := Nil];
      forall i | 0 <= i < |q'| ensures link'[q'[i]] == After(q', i) {
        if i < |q| { assert q'[i] == q[i] && link[q[i]] == After(q, i); }
      }
    }
  }

  /** The other queues, which the change does not reach. */
  lemma OtherList(head: int, link: seq<int>, link': seq<int>, q: seq<nat>)
    requires IsList(head, link, q) && |link'| == |link| && forall i :: 0 <= i < |q| ==> link'[q[i]] == link[q[i]]
    ensures IsList(head, link', q)
  {
  }

  lemma AppendLists(head: seq<int>, link: seq<int>, queues: seq<seq<nat>>, owner: seq<int>, d: nat, p: nat)
    requires Lists(head, link, queues) && Exclusive(queues, owner)
    requires d < |queues| && p < |queues| && p < |owner| && owner[p] == Nil
    ensures var q := queues[d];
      && (q != [] ==> q[|q| - 1] < |link|)
      && Lists(if q == [] then head[d := p] else head,
               (if q == [] then link else link[q[|q| - 1] := p])[p := Nil],
               queues[d := q + [p]])
  {
    var q := queues[d];
    assert IsList(head[d], link, q);
    var head' := if q == [] then head[d := p] else head;
    var link' := (if q == [] then link else link[q[|q| - 1] := p])[p := Nil];
    assert forall i :: 0 <= i < |q| ==> q[i] in q;
    AppendList(head[d], link, q, p);
    forall e | 0 <= e < |queues| && e != d ensures IsList(head'[e], link', queues[e]) {
      assert IsList(head[e], link, queues[e]);
      forall i | 0 <= i < |queues[e]| ensures link'[queues[e][i]] == link[queues[e][i]] {
        assert queues[e][i] in queues[e];
      }
      OtherList(head[e], link, link', queues[e]);
    }
  }

  /** q' is q without position k. */
  ghost predicate Dropped(q: seq<nat>, q': seq<nat>, k: nat) {
    k < |q| == |q'| + 1 && forall i :: 0 <= i < |q'| ==> q'[i] == q[Skip(i, k)]
  }

  lemma DroppedAt(q: seq<nat>, q': seq<nat>, k: nat, i: nat)
    requires Distinct(q) && Dropped(q, q', k) && i < |q'|
    ensures q'[i] == q[Skip(i, k)] && q'[i] != q[k] && (k > 0 && i != k - 1 ==> q'[i] != q[k - 1])
    ensures After(q', i) == (if i == k - 1 then After(q, k) else After(q, Skip(i, k)))
  {
  }

  lemma UnlinkOne(h: int, link: seq<int>, q: seq<nat>, q': seq<nat>, k: nat)
    requires IsList(h, link, q) && Distinct(q) && Dropped(q, q', k)
    ensures q[k] < |link| && (k > 0 ==> q[k - 1] < |link|)
    ensures k == 0 ==> IsList(link[q[k]], link[q[k] := Nil], q')
    ensures k > 0 ==> IsList(h, link[q[k - 1] := link[q[k]]][q[k] := Nil], q')
  {
    var link' := if k == 0 then link[q[k] := Nil] else link[q[k - 1] := link[q[k]]][q[k] := Nil];
    forall i | 0 <= i < |q'| ensures q'[i] < |link| && link'[q'[i]] == After(q', i) {
      DroppedAt(q, q', k, i);
      assert link[q[Skip(i, k)]] == After(q, Skip(i, k));
      assert link[q[k]] == After(q, k);
    }
    assert k == 0 ==> link[q[0]] == After(q, 0) == After(q', -1);
  }

  lemma UnlinkLists(head: seq<int>, link: seq<int>, queues: seq<seq<nat>>, owner: seq<int>, d: nat,
                    q': seq<nat>, k: nat)
    requires Lists(head, link, queues) && Exclusive(queues, owner) && d < |queues| && Dropped(queues[d], q', k)
    ensures var q := queues[d];
      && q[k] < |link| && (k > 0 ==> q[k - 1] < |link|)
      && Lists(if k == 0 then head[d := link[q[k]]] else head,
               (if k == 0 then link else link[q[k - 1] := link[q[k]]])[q[k] := Nil],
               queues[d := q'])
  {
    var q := queues[d];
    UnlinkOne(head[d], link, q, q', k);
    var head' := if k == 0 then head[d := link[q[k]]] else head;
    var link' := (if k == 0 then link else link[q[k - 1] := link[q[k]]])[q[k] := Nil];
    forall e | 0 <= e < |queues| ensures IsList(head'[e], link', queues[d := q'][e]) {
      if e != d {
        assert IsList(head[e], link, queues[e]);
        forall i | 0 <= i < |queues[e]| ensures link'[queues[e][i]] == link[queues[e][i]] {
          assert owner[queues[e][i]] == e;
        }
      }
    }
  }

  /** The last process in the non-empty queue of d. */
  method FindLast(head: array<int>, link: array<int>, d: nat, ghost queues: seq<seq<nat>>) returns (last: nat)
    requires Lists(head[..], link[..], queues) && d < |queues| && queues[d] != []
    ensures last == queues[d][|queues[d]| - 1]
  {
    ghost var q := queues[d];
    assert IsList(head[..][d], link[..], q);
    last := head[d];
    ghost var k := 0;
    while link[last] != Nil
      invariant 0 <= k < |q| && last == q[k]
      decreases |q| - k
    {
      assert link[..][q[k]] == After(q, k);
      last := link[last];
      k := k + 1;
    }
    assert link[..][q[k]] == After(q, k);
  }

  /** Append p to the queue of d. */
  method Append(head: array<int>, link: array<int>, d: nat, p: nat, ghost queues: seq<seq<nat>>, ghost owner: seq<int>)
    requires head != link && Lists(head[..], link[..], queues) && Exclusive(queues, owner)
    requires d < |queues| && p < |queues| && p < |owner| && owner[p] == Nil
    modifies head, link
    ensures Lists(head[..], link[..], queues[d := queues[d] + [p]])
  {
    assert IsList(head[..][d], link[..], queues[d]);
    if head[d] != Nil {
      AppendLast(head, link, d, p, queues, owner);
    } else {
      AppendFirst(head, link, d, p, queues, owner);
    }
  }

  method AppendLast(head: array<int>, link: array<int>, d: nat, p: nat, ghost queues: seq<seq<nat>>,
                    ghost owner: seq<int>)
    requires head != link && Lists(head[..], link[..], queues) && Exclusive(queues, owner)
    requires d < |queues| && p < |queues| && p < |owner| && owner[p] == Nil && queues[d] != []
    modifies link
    ensures Lists(head[..], link[..], queues[d := queues[d] + [p]])
  {
    ghost var q, l0 := queues[d], link[..];
    AppendLists(head[..], l0, queues, owner, d, p);
    assert IsList(head[..][d], l0, q);
    var last := FindLast(head, link, d, queues);
    link[last] := p;
    link[p] := Nil;
    assert link[..] == l0[q[|q| - 1] := p][p := Nil];
  }

  method AppendFirst(head: array<int>, link: array<int>, d: nat, p: nat, ghost queues: seq<seq<nat>>,
                     ghost owner: seq<int>)
    requires head != link && Lists(head[..], link[..], queues) && Exclusive(queues, owner)
    requires d < |queues| && p < |queues| && p < |owner| && owner[p] == Nil && queues[d] == []
    modifies head, link
    ensures Lists(head[..], link[..], queues[d := queues[d] + [p]])
  {
    ghost var h0, l0 := head[..], link[..];
    AppendLists(h0, l0, queues, owner, d, p);
    head[d] := p;
    link[p] := Nil;
    assert head[..] == h0[d := p] && link[..] == l0[p := Nil];
  }

  /** Walk the queue of d up to s; `prev` is the one before it, or Nil. */
  method Find(head: array<int>, link: array<int>, d: nat, s: nat,
              ghost queues: seq<seq<nat>>) returns (prev: int, ghost k: nat)
    requires Lists(head[..], link[..], queues) && d < |queues| && s in queues[d]
    ensures k < |queues[d]| && queues[d][k] == s && s !in queues[d][..k]
    ensures prev == if k == 0 then Nil else queues[d][k - 1]
  {
    ghost var q := queues[d];
    assert IsList(head[..][d], link[..], q);
    var p := head[d];
    prev := Nil;
    k := 0;
    while p != s
      invariant 0 <= k < |q| && p == q[k] && s !in q[..k]
      invariant prev == if k == 0 then Nil else q[k - 1]
      decreases |q| - k
    {
      assert link[..][q[k]] == After(q, k);
      assert s in q[k + 1..] by { assert q == q[..k] + [q[k]] + q[k + 1..]; }
      prev := p;
      p := link[p];
      k := k + 1;
    }
  }

  /** Take s, found at position k behind `prev`, out of the queue of d. */
  method Unlink(head: array<int>, link: array<int>, d: nat, s: nat, prev: int, ghost k: nat,
                ghost queues: seq<seq<nat>>, ghost owner: seq<int>)
    requires head != link && Lists(head[..], link[..], queues) && Exclusive(queues, owner)
    requires d < |queues| && k < |queues[d]| && queues[d][k] == s
    requires prev == if k == 0 then Nil else queues[d][k - 1]
    modifies head, link
    ensures Lists(head[..], link[..], queues[d := Without(queues[d], s)])
  {
    ghost var q := queues[d];
    WithoutAt(q, s, k);
    UnlinkLists(head[..], link[..], queues, owner, d, Without(q, s), k);
    assert IsList(head[..][d], link[..], q);
    assert head[d] == q[0];
    if s == head[d] {
      assert prev == Nil;
      head[d] := link[s];
      link[s] := Nil;
    } else {
      assert prev != Nil;
      link[prev] := link[s];
      link[s] := Nil;
    }
    assert head[..] == if k == 0 then old(head[..])[d := old(link[s])] else old(head[..]);
    assert link[..] == (if k == 0 then old(link[..]) else old(link[..])[q[k - 1] := old(link[s])])[s := Nil];
  }

  // ---------------------------------------------------------------- walking the send graph

  lemma ReachesStep(st: State, x: nat, y: nat, p: nat)
    requires SendEdge(st, x, y) && x != p
    ensures Reaches(st, x, p) <==> Reaches(st, y, p)
  {
    if Reaches(st, y, p) { ReachesVia(st, x, y, p); }
    if Reaches(st, x, p) {
      var path :| SendPath(st, path) && path[0] == x && path[|path| - 1] == p;
      assert SendEdge(st, path[0], path[1]);
      assert SendPath(st, path[1..]) && path[1..][|path| - 2] == p;
    }
  }

  lemma RootReaches(st: State, x: nat, p: nat)
    requires x < |st.procs| && !st.procs[x].sending && x != p
    ensures !Reaches(st, x, p)
  {
    forall path | SendPath(st, path) && path[0] == x ensures path[|path| - 1] != p {
      assert |path| > 1 ==> SendEdge(st, path[0], path[1]);
    }
  }

  /** What receive_async_from does to the receiver and the sender, who has a table. */
  method Serve(recv: Proc, send: Proc, p: nat, s: nat) returns (recv': Proc, send': Proc, ret: Outcome)
    ensures var table := KernelTable(send); var k := FirstFor(table, p, 0);
      if k < |table| then
        && ret == Ok && send' == send.(table := table[k := table[k].(done := true)])
        && recv' == Woken(recv, Packet(table[k].tag, s, table[k].body)).(asyncPending := recv.asyncPending + {s})
      else if AllDone(table) then
        ret == ESrch && send' == send.(live := false) && recv' == recv.(asyncPending := recv.asyncPending - {s})
      else
        ret == ESrch && send' == send && recv' == recv.(asyncPending := recv.asyncPending + {s})
  {
    recv', send', ret := recv.(asyncPending := recv.asyncPending - {s}), send, ESrch;
    var table := if send.live then send.table else [];
    var i, done := ScanFor(table, p);
    if i < |table| {
      ret := Ok;
      recv' := Woken(recv', Packet(table[i].tag, s, table[i].body));
      send' := send.(table := table[i := table[i].(done := true)]);
    }
    if done {
      send' := send'.(live := false);
    } else {
      recv' := recv'.(asyncPending := recv'.asyncPending + {s});
      assert recv.asyncPending - {s} + {s} == recv.asyncPending + {s};
    }
  }

  class Kernel {
    const procs: array<Proc>
    const head: array<int>   // q_sending
    const link: array<int>   // next_sending
    ghost var queues: seq<seq<nat>>
    var accepted: nat        // how many letters were accepted; numbers the next one
    ghost var log: seq<Letter>
    ghost var place: seq<Place>
    ghost var inbox: seq<Delivery>

    ghost function View(): State
      reads this, procs
    {
      State(procs[..], queues, log, place, inbox)
    }

    /** The state is good and the linked queues hold it. */
    ghost predicate Valid()
      reads this, procs, head, link
    {
      && head != link && head.Length == link.Length == procs.Length
      && accepted == |log| && Inv(View()) && Lists(head[..], link[..], queues)
    }

    constructor (rights: seq<bool>)
      ensures Valid() && View() == Initial(rights)
      ensures fresh(procs) && fresh(head) && fresh(link)
    {
      procs := new Proc[|rights|](i requires 0 <= i < |rights| => Idle(rights[i]));
      head := new int[|rights|](_ => Nil);
      link := new int[|rights|](_ => Nil);
      queues := seq(|rights|, _ => []);
      accepted, log, place, inbox := 0, [], [], [];
      InitialGood(rights);
      new;
      assert procs[..] == Initial(rights).procs;
    }

    ghost method Record(st: State)
      modifies this`queues, this`log, this`place, this`inbox
      ensures queues == st.queues && log == st.log && place == st.place && inbox == st.inbox
    {
      queues, log, place, inbox := st.queues, st.log, st.place, st.inbox;
    }

    /** deadlock(): follow the blocked senders from `dest`; `chain` is what it prints. */
    method Deadlock(src: nat, dest: nat) returns (found: bool, chain: seq<nat>)
      requires Valid() && src < procs.Length && dest < procs.Length && src != dest
      ensures found == Reaches(View(), dest, src)
      ensures found ==> SendPath(View(), chain) && chain[0] == dest && chain[|chain| - 1] == src
    {
      ghost var st := View();
      ghost var rank :| Ranked(st, rank);
      var p: nat := dest;
      chain := [];
      while procs[p].sending
        invariant p < procs.Length && p != src
        invariant Reaches(st, dest, src) <==> Reaches(st, p, src)
        decreases rank[p]
      {
        assert SyncAt(st, p);
        assert SendEdge(st, p, procs[p].sendTo);
        ReachesStep(st, p, procs[p].sendTo, src);
        if procs[p].sendTo == src {
          ReachesSelf(st, src);
          chain := PrintChain(src, dest);
          return true, chain;
        }
        p := procs[p].sendTo;
      }
      RootReaches(st, p, src);
      return false, [];
    }

    /** The inner loop of deadlock(), which walks the chain once more to print it. */
    method PrintChain(src: nat, dest: nat) returns (chain: seq<nat>)
      requires Valid() && src < procs.Length && dest < procs.Length && src != dest && Reaches(View(), dest, src)
      ensures SendPath(View(), chain) && chain[0] == dest && chain[|chain| - 1] == src
    {
      ghost var st := View();
      ghost var rank :| Ranked(st, rank);
      var p: nat := dest;
      chain := [dest];
      while p != src
        invariant p < procs.Length && Reaches(st, p, src)
        invariant SendPath(st, chain) && chain[0] == dest && chain[|chain| - 1] == p
        decreases rank[p]
      {
        if !procs[p].sending { RootReaches(st, p, src); }
        assert SyncAt(st, p);
        assert SendEdge(st, p, procs[p].sendTo);
        ReachesStep(st, p, procs[p].sendTo, src);
        p := procs[p].sendTo;
        chain := chain + [p];
      }
    }

    predicate Parked(r: Proc, s: nat) {
      !r.sending && r.receiving && (r.recvFrom == Any || r.recvFrom == From(s))
    }

    /** msg_send. */
    method MsgSend(p: nat, d: int, body: int, nonblock: bool) returns (ret: Outcome)
      requires Valid() && Runs(View(), p)
      modifies this, procs, head, link
      ensures Valid() && (View(), ret) == Send(old(View()), p, d, body, nonblock)
      ensures ret == Ok <==> Sendable(old(View()), p, d, nonblock)
      ensures log == old(log) + if ret == Ok then [Letter(p, d, body, false)] else []
    {
      ghost var st := View();
      SendGood(st, p, d, body, nonblock);
      SendOutcome(st, p, d, body, nonblock);
      SendEffect(st, p, d, body, nonblock);
      if !(0 <= d < procs.Length) || d == p { return EInval; }
      var cycle, _ := Deadlock(p, d);
      if cycle { return EDeadlk; }
      if Parked(procs[d], p) {
        assert !procs[d].deliver by { assert SyncAt(st, d); }
        procs[d] := Woken(procs[d], Packet(accepted, p, body));
        accepted := accepted + 1;
        Record(HandOver(st, p, d, body));
        assert procs[..] == HandOver(st, p, d, body).procs;
        return Ok;
      }
      if nonblock { return EBusy; }
      QueuesExclusive(st);
      procs[p] := procs[p].(sending := true, sendTo := d, sendMsg := Packet(accepted, p, body));
      Append(head, link, d, p, st.queues, Owners(st));
      accepted := accepted + 1;
      Record(Enqueue(st, p, d, body));
      assert procs[..] == Enqueue(st, p, d, body).procs;
      return Ok;
    }

    /** msg_notify. */
    method MsgNotify(p: nat, d: int) returns (ret: Outcome)
      requires Valid() && p < procs.Length
      modifies procs
      ensures Valid() && (View(), ret) == Notify(old(View()), p, d)
    {
      ghost var st := View();
      NextGood(st, CallNotify(p, d));
      if !(0 <= d < procs.Length) || d == p { return EInval; }
      if Parked(procs[d], p) {
        procs[d] := Woken(procs[d], Notice(p));
      } else {
        procs[d] := procs[d].(notifyPending := procs[d].notifyPending + {p});
      }
      assert procs[..] == Notify(st, p, d).0.procs;
      return Ok;
    }

    /** deliver_msg, when the scheduler resumes p with a message to copy out. */
    method DeliverMsg(p: nat)
      requires Valid() && p < procs.Length && procs[p].deliver
      modifies procs, this`queues, this`log, this`place, this`inbox
      ensures Valid() && View() == DeliverOut(old(View()), p)
    {
      ghost var st := View();
      DeliverOutInv(st, p);
      procs[p] := procs[p].(deliver := false, deliverMsg := Blank, recvFrom := Nobody);
      Record(DeliverOut(st, p));
      assert procs[..] == DeliverOut(st, p).procs;
    }

    /** receive_async_from: deliver the first unfinished entry of s for p, if there is one. */
    method RecvAsyncFrom(p: nat, s: nat) returns (ret: Outcome)
      requires Valid() && Runs(View(), p) && s < procs.Length && s != p
      modifies procs, this`queues, this`log, this`place, this`inbox
      ensures Valid() && (View(), ret) == ReceiveAsyncFrom(old(View()), p, s)
    {
      ghost var st := View();
      ReceiveAsyncFromKeeps(st, p, s);
      if !procs[s].privileged { return EPerm; }
      var recv, send;
      recv, send, ret := Serve(procs[p], procs[s], p, s);
      procs[s], procs[p] := send, recv;
      Record(ReceiveAsyncFrom(st, p, s).0);
      assert procs[..] == ReceiveAsyncFrom(st, p, s).0.procs;
    }

    /** receive_async: try the senders whose bit is set, lowest first. */
    method RecvAsync(p: nat) returns (ret: Outcome)
      requires Valid() && Runs(View(), p)
      modifies procs, this`queues, this`log, this`place, this`inbox
      ensures Valid() && (View(), ret) == ReceiveAsyncAny(old(View()), p, 0)
    {
      var i := 0;
      while i < procs.Length
        invariant 0 <= i <= procs.Length && Valid() && Runs(View(), p)
        invariant ReceiveAsyncAny(View(), p, i) == ReceiveAsyncAny(old(View()), p, 0)
      {
        if i in procs[p].asyncPending {
          ghost var st := View();
          assert i != p;
          ReceiveAsyncFromKeeps(st, p, i);
          ret := RecvAsyncFrom(p, i);
          if ret == Ok { return; }
        }
        i := i + 1;
      }
      return ESrch;
    }

    /** The queue part of msg_receive: take a queued sender out and unblock it, or block. */
    method TakeQueued(p: nat, src: Source, async: bool)
      requires Valid() && Runs(View(), p) && ValidSource(View(), p, src)
      requires Inv(ReceiveQueued(View(), p, src, async))
      modifies this, procs, head, link
      ensures Valid() && View() == ReceiveQueued(old(View()), p, src, async)
    {
      ghost var st := View();
      QueuesExclusive(st);
      assert SyncAt(st, p) && IsList(head[..][p], link[..], queues[p]);
      var from, prev := Nil, Nil;
      ghost var k := 0;
      if src == Any {
        if head[p] != Nil { from := head[p]; }
      } else if procs[src.pid].sending && procs[src.pid].sendTo == p {
        assert SyncAt(st, src.pid);
        assert head[p] != Nil;
        from := src.pid;
        prev, k := Find(head, link, p, from, queues);
      }
      if from != Nil {
        assert Member(st, p, from);
        Unlink(head, link, p, from, prev, k, st.queues, Owners(st));
        var m := procs[from].sendMsg;
        procs[from] := procs[from].(sending := false, sendTo := Nil, sendMsg := Blank);
        procs[p] := procs[p].(deliver := true, deliverMsg := m);
        assert procs[..] == TakeSender(st, p, from).procs;
        Record(TakeSender(st, p, from));
      } else {
        procs[p] := procs[p].(receiving := true, recvAsync := procs[p].recvAsync || async, recvFrom := src);
        assert procs[..] == Block(st, p, src, async).procs;
      }
    }

    /** has_pending_notify. */
    method FindNotice(p: nat, src: Source) returns (id: int)
      requires p < procs.Length
      ensures id == PendingNotice(procs[p], src, procs.Length)
    {
      match src
      case From(s) => return if s in procs[p].notifyPending then s else Nil;
      case Nobody => return Nil;
      case Any =>
        id := 0;
        while id < procs.Length && id !in procs[p].notifyPending
          invariant 0 <= id <= procs.Length
          invariant var bits, n := procs[p].notifyPending, procs.Length;
            LowestFrom(bits, id, n) == LowestFrom(bits, 0, n)
        {
          id := id + 1;
        }
        if id >= procs.Length { id := Nil; }
    }

    /** msg_receive. */
    method MsgReceive(p: nat, src: Source, async: bool)
      requires Valid() && p < procs.Length && ValidSource(View(), p, src) && !procs[p].receiving && !procs[p].deliver
      requires procs[p].sending ==> !async && src.From? && src.pid == procs[p].sendTo
      modifies this, procs, head, link
      ensures Valid() && View() == Receive(old(View()), p, src, async)
    {
      ghost var st := View();
      ReceiveGood(st, p, src, async);
      if procs[p].sending {
        procs[p] := procs[p].(receiving := true, recvAsync := procs[p].recvAsync || async, recvFrom := src);
        assert procs[..] == Block(st, p, src, async).procs;
        return;
      }
      var id := FindNotice(p, src);
      if id >= 0 {
        procs[p] := Woken(procs[p].(notifyPending := procs[p].notifyPending - {id}), Notice(id));
        assert procs[..] == TakeNotice(st, p, id).procs;
        return;
      }
      if async {
        ReceiveAsyncGood(st, p, src);
        var ret := ESrch;
        if src == Any {
          ret := RecvAsync(p);
        } else if src.pid in procs[p].asyncPending {
          ret := RecvAsyncFrom(p, src.pid);
        }
        if ret == Ok { return; }
      }
      TakeQueued(p, src, async);
    }

    /** sendrec(BOTH) of sys_sendrec. */
    method SendRec(p: nat, d: int, body: int) returns (ret: Outcome)
      requires Valid() && Runs(View(), p)
      modifies this, procs, head, link
      ensures Valid() && (View(), ret) == SendReceive(old(View()), p, d, body)
      ensures ret == Ok <==> Sendable(old(View()), p, d, false)
      ensures log == old(log) + if ret == Ok then [Letter(p, d, body, false)] else []
      ensures ret == Ok ==> Awaits(procs[p], From(d), false)
    {
      ghost var st := View();
      InvBlocking(st);
      if Sendable(st, p, d, false) { BothAwaits(st, p, d, body); }
      ret := MsgSend(p, d, body, false);
      if ret != Ok { return; }
      MsgReceive(p, From(d), false);
    }

    /** One round of the loop of msg_senda. */
    method SendEntry(p: nat, i: nat) returns (pending: bool)
      requires p < procs.Length && i < |procs[p].table| && |place| == |log|
      modifies procs, this`queues, this`log, this`place, this`inbox
      ensures (View(), pending) == ScanEntry(old(View()), p, i)
    {
      ghost var st := View();
      var e := procs[p].table[i];
      if !Open(e) { return false; }
      if !(0 <= e.dest < procs.Length) || e.dest == p {
        procs[p] := procs[p].(table := procs[p].table[i := e.(done := true)]);
        Record(RefuseEntry(st, p, i));
        assert procs[..] == RefuseEntry(st, p, i).procs;
        return false;
      }
      if procs[e.dest].recvAsync && Parked(procs[e.dest], p) {
        procs[p] := procs[p].(table := procs[p].table[i := e.(done := true)]);
        procs[e.dest] := Woken(procs[e.dest], Packet(e.tag, p, e.body));
        Record(DeliverEntry(st, p, i, e.dest));
        assert procs[..] == DeliverEntry(st, p, i, e.dest).procs;
        return false;
      }
      procs[e.dest] := procs[e.dest].(asyncPending := procs[e.dest].asyncPending + {p});
      assert procs[..] == SetAsyncBit(st, e.dest, p, true).procs;
      return true;
    }

    /** msg_senda: `table` is what the caller's memory holds, `letters` its new messages. The table
        the kernel had is forgotten, and an empty one is not looked at. */
    method MsgSenda(p: nat, table: seq<Entry>, letters: seq<Letter>) returns (ret: Outcome)
      requires Valid() && Runs(View(), p) && (procs[p].privileged ==> Repost(View(), p, table, letters))
      modifies this, procs
      ensures Valid() && (View(), ret) == SendTable(old(View()), p, table, letters)
    {
      ghost var st := View();
      NextGood(st, CallSenda(p, table, letters));
      if !procs[p].privileged { return EPerm; }
      procs[p] := procs[p].(table := table, live := false);
      accepted := accepted + |letters|;
      ghost var posted := PostTable(st, p, table, letters);
      Record(posted);
      assert procs[..] == posted.procs;
      if |table| == 0 {
        assert SetLive(posted, p, false).procs == posted.procs;
        return Ok;
      }
      ScanLoop(p);
      ret := Ok;
    }

    method ScanLoop(p: nat)
      requires p < procs.Length && |place| == |log|
      modifies procs, this`queues, this`log, this`place, this`inbox
      ensures View() == ScanTable(old(View()), p, 0, true)
    {
      var i, done := 0, true;
      while i < |procs[p].table|
        invariant 0 <= i <= |procs[p].table| && |place| == |log|
        invariant ScanTable(View(), p, i, done) == ScanTable(old(View()), p, 0, true)
      {
        var pending := SendEntry(p, i);
        done := done && !pending;
        i := i + 1;
      }
      ghost var st := View();
      procs[p] := procs[p].(live := !done);
      assert procs[..] == SetLive(st, p, !done).procs;
    }
  }

  /** The loop of receive_async_from over the table: the first unfinished entry for p, and
      whether no unfinished entry was met on the way, that one included. */
  method ScanFor(table: seq<Entry>, p: nat) returns (i: nat, done: bool)
    ensures i == FirstFor(table, p, 0)
    ensures done <==> i == |table| && AllDone(table)
  {
    i, done := 0, true;
    while i < |table|
      invariant 0 <= i <= |table|
      invariant forall j :: 0 <= j < i ==> !(Open(table[j]) && table[j].dest == p)
      invariant done == forall j :: 0 <= j < i ==> !Open(table[j])
    {
      if Open(table[i]) {
        done := false;
        if table[i].dest == p { return; }
      }
      i := i + 1;
    }
  }
}
