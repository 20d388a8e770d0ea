/**
  Every elementary effect keeps the invariant. One lemma per effect and per part of the
  invariant; the conditions are what the kernel entry has established when it applies it.
*/
module IpcSteps {
  import opened IpcState
  import opened IpcInvariant

  // ---------------------------------------------------------------- queues

  lemma {:induction false} WithoutAt(q: seq<nat>, s: nat, k: nat)
    requires k < |q| && q[k] == s && s !in q[..k]
    ensures Without(q, s) == q[..k] + q[k + 1..]
  {
    if k > 0 {
      assert q[1..][..k - 1] == q[1..k];
      WithoutAt(q[1..], s, k - 1);
    }
  }

  /** A queue in order of arrival holds nobody twice. */
  lemma QueueDistinct(st: State, d: nat)
    requires Shape(st) && d < |st.procs| && QueueOk(st, d)
    ensures forall i, j :: 0 <= i < j < |st.queues[d]| ==> st.queues[d][i] != st.queues[d][j]
  {
  }

  function Skip(i: nat, k: nat): nat { if i < k then i else i + 1 }

  /** Taking s out of a duplicate-free queue removes position k and nothing else. */
  lemma WithoutFrom(q: seq<nat>, s: nat) returns (k: nat)
    requires s in q && forall i, j :: 0 <= i < j < |q| ==> q[i] != q[j]
    ensures k < |q| && q[k] == s && |Without(q, s)| == |q| - 1
    ensures Without(q, s) == q[..k] + q[k + 1..]
    ensures forall i :: 0 <= i < |q| - 1 ==> Without(q, s)[i] == q[Skip(i, k)]
    ensures forall x :: x in Without(q, s) <==> x in q && x != s
  {
    k :| 0 <= k < |q| && q[k] == s;
    WithoutAt(q, s, k);
    var r := Without(q, s);
    forall x | x in q && x != s ensures x in r {
      var i :| 0 <= i < |q| && q[i] == x;
      assert r[if i < k then i else i - 1] == x;
    }
  }

  // ---------------------------------------------------------------- msg_send

  lemma HandOverSync(st: State, p: nat, d: nat, body: int)
    requires Shape(st) && Sync(st) && d < |st.procs| && WaitsFor(st.procs[d], p)
    ensures Sync(HandOver(st, p, d, body))
  {
    var st' := HandOver(st, p, d, body);
    forall x | 0 <= x < |st.procs| ensures SyncAt(st', x) { assert SyncAt(st, x); }
  }

  lemma HandOverLetters(st: State, p: nat, d: nat, body: int)
    requires Shape(st) && Sync(st) && Letters(st) && ValidPeer(st, p, d) && WaitsFor(st.procs[d], p)
    ensures Letters(HandOver(st, p, d, body))
  {
    var st' := HandOver(st, p, d, body);
    assert SyncAt(st, d);
    forall x | 0 <= x < |st.procs| ensures LettersAt(st', x) { assert LettersAt(st, x); }
    forall t | 0 <= t < |st'.log| ensures PlaceOk(st', t) { assert t < |st.log| ==> PlaceOk(st, t); }
    forall k | 0 <= k < |st.inbox| ensures InboxOk(st', k) { assert InboxOk(st, k); }
  }

  lemma HandOverAsync(st: State, p: nat, d: nat, body: int)
    requires Shape(st) && Async(st) && d < |st.procs| && WaitsFor(st.procs[d], p)
    ensures Async(HandOver(st, p, d, body))
  {
  }

  lemma EnqueueSync(st: State, p: nat, d: nat, body: int)
    requires Shape(st) && Sync(st) && NumbersOk(st) && Runs(st, p) && ValidPeer(st, p, d)
    requires !WaitsFor(st.procs[d], p)
    ensures Sync(Enqueue(st, p, d, body))
  {
    var st' := Enqueue(st, p, d, body);
    forall x | 0 <= x < |st.procs| ensures SyncAt(st', x) {
      assert SyncAt(st, x);
      var q := st.queues[x];
      assert forall i :: 0 <= i < |q| ==> Member(st, x, q[i]);
    }
  }

  lemma EnqueueLetters(st: State, p: nat, d: nat, body: int)
    requires Shape(st) && Letters(st) && Runs(st, p) && ValidPeer(st, p, d)
    ensures Letters(Enqueue(st, p, d, body))
  {
    var st' := Enqueue(st, p, d, body);
    forall x | 0 <= x < |st.procs| ensures LettersAt(st', x) { assert LettersAt(st, x); }
    forall t | 0 <= t < |st'.log| ensures PlaceOk(st', t) { assert t < |st.log| ==> PlaceOk(st, t); }
    forall k | 0 <= k < |st.inbox| ensures InboxOk(st', k) { assert InboxOk(st, k); }
  }

  lemma EnqueueAsync(st: State, p: nat, d: nat, body: int)
    requires Shape(st) && Async(st) && Runs(st, p) && ValidPeer(st, p, d)
    ensures Async(Enqueue(st, p, d, body))
  {
  }

  // ---------------------------------------------------------------- the send graph

  lemma FewerEdges(st: State, st': State)
    requires Acyclic(st) && |st'.procs| == |st.procs|
    requires forall x :: 0 <= x < |st.procs| && st'.procs[x].sending ==>
               st.procs[x].sending && st'.procs[x].sendTo == st.procs[x].sendTo
    ensures Acyclic(st')
  {
    var rank :| Ranked(st, rank);
    forall x: nat, y: nat | SendEdge(st', x, y) ensures rank[y] < rank[x] { assert SendEdge(st, x, y); }
    assert Ranked(st', rank);
  }

  lemma ReachesSelf(st: State, p: nat)
    requires p < |st.procs|
    ensures Reaches(st, p, p)
  {
    assert SendPath(st, [p]);
  }

  lemma ReachesVia(st: State, x: nat, y: nat, p: nat)
    requires SendEdge(st, x, y) && Reaches(st, y, p)
    ensures Reaches(st, x, p)
  {
    var path :| SendPath(st, path) && path[0] == y && path[|path| - 1] == p;
    assert SendPath(st, [x] + path);
    assert ([x] + path)[|path|] == p;
  }

  /** The check of deadlock() is what keeps the send graph free of cycles. */
  lemma NewEdge(st: State, p: nat, d: nat, body: int)
    requires Shape(st) && Acyclic(st) && p < |st.procs| && d < |st.procs| && !Reaches(st, d, p)
    requires !st.procs[p].sending
    ensures Acyclic(Enqueue(st, p, d, body))
  {
    var st' := Enqueue(st, p, d, body);
    var rank :| Ranked(st, rank);
    var rank' := seq(|rank|, x requires 0 <= x < |rank| =>
      if Reaches(st, x, p) then rank[x] + rank[d] + 1 else rank[x]);
    ReachesSelf(st, p);
    forall x: nat, y: nat | SendEdge(st', x, y) ensures rank'[y] < rank'[x] {
      if x != p {
        assert SendEdge(st, x, y);
        if Reaches(st, y, p) { ReachesVia(st, x, y, p); }
      }
    }
    assert Ranked(st', rank');
  }

  lemma {:induction false} RankAlong(st: State, rank: seq<nat>, path: seq<nat>)
    requires Ranked(st, rank) && SendPath(st, path) && |path| > 1
    ensures path[|path| - 1] < |st.procs| && rank[path[|path| - 1]] < rank[path[0]]
  {
    assert SendEdge(st, path[|path| - 2], path[|path| - 1]);
    if |path| > 2 { RankAlong(st, rank, path[..|path| - 1]); }
  }

  lemma AcyclicNoCycle(st: State)
    requires Acyclic(st)
    ensures NoSendCycle(st)
  {
    var rank :| Ranked(st, rank);
    forall path | SendPath(st, path) && |path| > 1 ensures path[0] != path[|path| - 1] { RankAlong(st, rank, path); }
  }

  // ---------------------------------------------------------------- msg_receive

  /** A queue from which one sender has left, in a state where only that sender and the
      receiver changed. */
  lemma ShorterQueue(st: State, st': State, p: nat, s: nat, k: nat)
    requires Shape(st) && Shape(st') && |st'.procs| == |st.procs| && p < |st.procs| && QueueOk(st, p)
    requires forall x :: 0 <= x < |st.procs| && x != s && x != p ==> st'.procs[x] == st.procs[x]
    requires |st'.queues[p]| == |st.queues[p]| - 1
    requires forall i :: 0 <= i < |st'.queues[p]| ==>
               st'.queues[p][i] == st.queues[p][Skip(i, k)] && st'.queues[p][i] != s
    ensures QueueOk(st', p)
  {
    var q, q' := st.queues[p], st'.queues[p];
    forall i | 0 <= i < |q'| ensures Member(st', p, q'[i]) { assert Member(st, p, q[Skip(i, k)]); }
    forall i, j | 0 <= i < j < |q'| ensures st'.procs[q'[i]].sendMsg.tag < st'.procs[q'[j]].sendMsg.tag {
      assert Member(st, p, q[Skip(i, k)]) && Member(st, p, q[Skip(j, k)]);
    }
  }

  lemma TakeSenderSync(st: State, p: nat, s: nat)
    requires Shape(st) && Sync(st) && Runs(st, p) && s in st.queues[p] && s < |st.procs|
    ensures Sync(TakeSender(st, p, s))
  {
    var st' := TakeSender(st, p, s);
    assert SyncAt(st, p) && SyncAt(st, s);
    QueueDistinct(st, p);
    var k := WithoutFrom(st.queues[p], s);
    ShorterQueue(st, st', p, s, k);
    assert SyncAt(st', p);
    forall x | 0 <= x < |st.procs| && x != p ensures SyncAt(st', x) { TakeSenderElsewhere(st, p, s, x); }
  }

  lemma TakeSenderElsewhere(st: State, p: nat, s: nat, x: nat)
    requires Shape(st) && Sync(st) && Runs(st, p) && s in st.queues[p] && s < |st.procs| && x < |st.procs| && x != p
    ensures SyncAt(TakeSender(st, p, s), x)
  {
    assert SyncAt(st, p) && SyncAt(st, s) && SyncAt(st, x);
    assert Member(st, p, s);
    QueueDistinct(st, p);
    var k := WithoutFrom(st.queues[p], s);
    assert QueueOk(TakeSender(st, p, s), x) by {
      assert forall i :: 0 <= i < |st.queues[x]| ==> Member(st, x, st.queues[x][i]);
    }
  }

  lemma TakeSenderLetters(st: State, p: nat, s: nat)
    requires Shape(st) && Sync(st) && Letters(st) && Runs(st, p) && s in st.queues[p] && s < |st.procs|
    ensures Letters(TakeSender(st, p, s))
  {
    var st' := TakeSender(st, p, s);
    assert SyncAt(st, p);
    assert LettersAt(st, s);
    forall x | 0 <= x < |st.procs| ensures LettersAt(st', x) { assert LettersAt(st, x); }
    forall t | 0 <= t < |st.log| ensures PlaceOk(st', t) { assert PlaceOk(st, t); }
    forall j | 0 <= j < |st.inbox| ensures InboxOk(st', j) { assert InboxOk(st, j); }
  }

  lemma TakeSenderAsync(st: State, p: nat, s: nat)
    requires Shape(st) && Sync(st) && Async(st) && Runs(st, p) && s in st.queues[p] && s < |st.procs|
    ensures Async(TakeSender(st, p, s))
  {
    assert SyncAt(st, p);
    assert SyncAt(st, s);
  }

  lemma TakeSenderInv(st: State, p: nat, s: nat)
    requires Inv(st) && Runs(st, p) && s in st.queues[p] && s < |st.procs|
    ensures Inv(TakeSender(st, p, s))
  {
    TakeSenderSync(st, p, s);
    TakeSenderLetters(st, p, s);
    TakeSenderAsync(st, p, s);
    FewerEdges(st, TakeSender(st, p, s));
  }

  /** Letters stay where they are when no message moves, except for a notification. */
  lemma SameLetters(st: State, st': State)
    requires Shape(st) && Letters(st) && |st'.procs| == |st.procs| && st' == st.(procs := st'.procs)
    requires forall x :: 0 <= x < |st.procs| ==>
               && st'.procs[x].sending == st.procs[x].sending && st'.procs[x].sendTo == st.procs[x].sendTo
               && st'.procs[x].sendMsg == st.procs[x].sendMsg && st'.procs[x].table == st.procs[x].table
    requires forall x :: 0 <= x < |st.procs| ==>
               || (st'.procs[x].deliver == st.procs[x].deliver && st'.procs[x].deliverMsg == st.procs[x].deliverMsg)
               || (!st.procs[x].deliver && st'.procs[x].deliverMsg.Notice?)
    ensures Letters(st')
  {
    forall x | 0 <= x < |st.procs| ensures LettersAt(st', x) {
      assert LettersAt(st, x);
      assert forall i :: 0 <= i < |st.procs[x].table| ==> EntryOk(st, x, st.procs[x].table[i]);
    }
    forall t | 0 <= t < |st.log| ensures PlaceOk(st', t) { assert PlaceOk(st, t); }
    forall k | 0 <= k < |st.inbox| ensures InboxOk(st', k) { assert InboxOk(st, k); }
  }

  /** A process gets a notification: either parked for it or running. */
  lemma NoticeInv(st: State, d: nat, r: Proc, s: nat)
    requires Inv(st) && d < |st.procs| && !st.procs[d].sending && !st.procs[d].deliver
    requires r == st.procs[d].(notifyPending := r.notifyPending)
    ensures Inv(st.(procs := st.procs[d := Woken(r, Notice(s))]))
  {
    var st' := st.(procs := st.procs[d := Woken(r, Notice(s))]);
    forall x | 0 <= x < |st.procs| ensures SyncAt(st', x) { assert SyncAt(st, x); }
    SameLetters(st, st');
    FewerEdges(st, st');
  }

  lemma NotifyBitInv(st: State, d: nat, bits: set<nat>)
    requires Inv(st) && d < |st.procs|
    ensures Inv(st.(procs := st.procs[d := st.procs[d].(notifyPending := bits)]))
  {
    var st' := st.(procs := st.procs[d := st.procs[d].(notifyPending := bits)]);
    forall x | 0 <= x < |st.procs| ensures SyncAt(st', x) { assert SyncAt(st, x); }
    SameLetters(st, st');
    FewerEdges(st, st');
  }

  /** Nothing the receive could take is there. */
  ghost predicate NothingFor(st: State, p: nat, src: Source, async: bool)
    requires Shape(st) && p < |st.procs|
  {
    && (forall s :: s in st.queues[p] ==> !Accepts(src, s))
    && (async ==> forall s, i :: 0 <= s < |st.procs| && Accepts(src, s) && 0 <= i < |st.procs[s].table| ==>
                                   !(Open(st.procs[s].table[i]) && st.procs[s].table[i].dest == p))
  }

  lemma BlockInv(st: State, p: nat, src: Source, async: bool)
    requires Inv(st) && p < |st.procs| && !st.procs[p].receiving && !st.procs[p].deliver
    requires if st.procs[p].sending then !async && st.procs[p].sendTo >= 0 && src == From(st.procs[p].sendTo)
             else NothingFor(st, p, src, async)
    ensures Inv(Block(st, p, src, async))
  {
    var st' := Block(st, p, src, async);
    forall x | 0 <= x < |st.procs| ensures SyncAt(st', x) { assert SyncAt(st, x); }
    SameLetters(st, st');
    assert SyncAt(st, p);
    FewerEdges(st, st');
  }

  lemma DeliverOutLetters(st: State, p: nat)
    requires Shape(st) && Letters(st) && p < |st.procs| && st.procs[p].deliver
    ensures Letters(DeliverOut(st, p))
  {
    var st' := DeliverOut(st, p);
    assert LettersAt(st, p);
    forall x | 0 <= x < |st.procs| ensures LettersAt(st', x) { assert LettersAt(st, x); }
    forall t | 0 <= t < |st.log| ensures PlaceOk(st', t) { assert PlaceOk(st, t); }
    forall k | 0 <= k < |st'.inbox| ensures InboxOk(st', k) { assert k < |st.inbox| ==> InboxOk(st, k); }
  }

  lemma DeliverOutInv(st: State, p: nat)
    requires Inv(st) && p < |st.procs| && st.procs[p].deliver
    ensures Inv(DeliverOut(st, p))
  {
    var st' := DeliverOut(st, p);
    assert SyncAt(st, p);
    forall x | 0 <= x < |st.procs| ensures SyncAt(st', x) { assert SyncAt(st, x); }
    DeliverOutLetters(st, p);
    FewerEdges(st, st');
  }
}
