/** The run queues of one processor (kernel/sched.c) and the process state macros that keep them
    (include/kernel/proc.h). Process p has list node SCHED_QUEUES + p; its scheduling policy and
    priority are fixed. A process state is the set of its flag bits, so state 0 is the empty set. */
module RunQueue {
  import opened Bits
  import opened KList

  const SCHED_RUNTIME := 1
  const SCHED_RUNTIME_QUEUES := 100
  const SCHED_QUEUES := 103
  const CHUNK_BITS := 64
  const CHUNKS := 2
  const UNSET_DEADLINE := 0xffff_ffff_ffff_ffff
  const PST_NO_QUANTUM := 4
  const PST_FREE_SLOT := 8

  datatype Class = Class(policy: nat, priority: nat)

  predicate ClassOk(c: Class) {
    if c.policy == SCHED_RUNTIME then c.priority < SCHED_RUNTIME_QUEUES else 2 <= c.policy <= 4
  }

  /** proc_queue. */
  function ProcQueue(c: Class): (q: nat)
    requires ClassOk(c)
    ensures q < SCHED_QUEUES
  {
    if c.policy == SCHED_RUNTIME then c.priority else SCHED_RUNTIME_QUEUES - 2 + c.policy
  }

  /** Real-time processes come before all others and among themselves by priority; the others by
      policy. */
  predicate Sooner(a: Class, b: Class) {
    if a.policy == SCHED_RUNTIME && b.policy == SCHED_RUNTIME then a.priority < b.priority
    else a.policy < b.policy
  }

  lemma QueuesInOrder(a: Class, b: Class)
    requires ClassOk(a) && ClassOk(b)
    ensures ProcQueue(a) < ProcQueue(b) <==> Sooner(a, b)
  {
  }

  // ---------------------------------------------------------------- the bitmap

  predicate BitOf(bits: seq<nat>, q: nat)
    requires |bits| == CHUNKS && q < CHUNKS * CHUNK_BITS
  {
    Bit(bits[q / 64], q % 64)
  }

  ghost predicate MapOk(bits: seq<nat>, lists: seq<seq<nat>>) {
    && |bits| == CHUNKS && |lists| == SCHED_QUEUES
    && (forall i :: 0 <= i < CHUNKS ==> bits[i] <= WORD_MAX)
    && (forall q: nat :: q < CHUNKS * CHUNK_BITS ==> (BitOf(bits, q) <==> q < SCHED_QUEUES && lists[q] != []))
  }

  /** SET_BIT. */
  function SetBit(bits: seq<nat>, q: nat): seq<nat>
    requires |bits| == CHUNKS && q < CHUNKS * CHUNK_BITS
  {
    bits[q / 64 := WithBit(bits[q / 64], q % 64)]
  }

  /** UNSET_BIT. */
  function UnsetBit(bits: seq<nat>, q: nat): seq<nat>
    requires |bits| == CHUNKS && q < CHUNKS * CHUNK_BITS
  {
    bits[q / 64 := WithoutBit(bits[q / 64], q % 64)]
  }

  lemma {:induction false} WithoutBitFits(k: nat, i: nat)
    ensures WithoutBit(k, i) <= k
  {
    if i > 0 { WithoutBitFits(k / 2, i - 1); }
  }

  lemma SetBitMap(bits: seq<nat>, lists: seq<seq<nat>>, q: nat, l: seq<nat>)
    requires MapOk(bits, lists) && q < SCHED_QUEUES && l != []
    ensures MapOk(SetBit(bits, q), lists[q := l])
  {
    WordWithBit(bits[q / 64], q % 64, CHUNK_BITS);
    forall r: nat | r < CHUNKS * CHUNK_BITS
      ensures BitOf(SetBit(bits, q), r) <==> r < SCHED_QUEUES && lists[q := l][r] != []
    {
      assert BitOf(bits, r) <==> r < SCHED_QUEUES && lists[r] != [];
      WithBitAt(bits[q / 64], q % 64, r % 64);
    }
  }

  lemma UnsetBitMap(bits: seq<nat>, lists: seq<seq<nat>>, q: nat)
    requires MapOk(bits, lists) && q < SCHED_QUEUES
    ensures MapOk(UnsetBit(bits, q), lists[q := []])
  {
    WithoutBitFits(bits[q / 64], q % 64);
    forall r: nat | r < CHUNKS * CHUNK_BITS
      ensures BitOf(UnsetBit(bits, q), r) <==> r < SCHED_QUEUES && lists[q := []][r] != []
    {
      assert BitOf(bits, r) <==> r < SCHED_QUEUES && lists[r] != [];
      WithoutBitAt(bits[q / 64], q % 64, r % 64);
    }
  }

  lemma SameMap(bits: seq<nat>, lists: seq<seq<nat>>, q: nat, l: seq<nat>)
    requires MapOk(bits, lists) && q < SCHED_QUEUES && (l == [] <==> lists[q] == [])
    ensures MapOk(bits, lists[q := l])
  {
    forall r: nat | r < CHUNKS * CHUNK_BITS ensures BitOf(bits, r) <==> r < SCHED_QUEUES && lists[q := l][r] != [] {
      assert BitOf(bits, r) <==> r < SCHED_QUEUES && lists[r] != [];
    }
  }

  /** The first bit of a word that is not zero. */
  method FirstBit(chunk: nat) returns (j: nat)
    requires 0 < chunk <= WORD_MAX
    ensures j < CHUNK_BITS && Bit(chunk, j) && forall k :: 0 <= k < j ==> !Bit(chunk, k)
  {
    ghost var some := WordSomeBit(chunk, CHUNK_BITS);
    j := 0;
    while j < CHUNK_BITS
      invariant 0 <= j <= some && forall k :: 0 <= k < j ==> !Bit(chunk, k)
    {
      if Bit(chunk, j) { break; }
      j := j + 1;
    }
  }

  lemma EmptyChunk(bits: seq<nat>, lists: seq<seq<nat>>, i: nat, r: nat)
    requires MapOk(bits, lists) && i < CHUNKS && bits[i] == 0 && i * 64 <= r < i * 64 + 64 && r < SCHED_QUEUES
    ensures lists[r] == []
  {
    ZeroHasNoBit(r % 64);
    assert !BitOf(bits, r);
  }

  lemma FirstOfChunk(bits: seq<nat>, lists: seq<seq<nat>>, i: nat, j: nat)
    requires MapOk(bits, lists) && i < CHUNKS && j < CHUNK_BITS
    requires Bit(bits[i], j) && forall k :: 0 <= k < j ==> !Bit(bits[i], k)
    ensures i * 64 + j < SCHED_QUEUES && lists[i * 64 + j] != []
    ensures forall r :: i * 64 <= r < i * 64 + j ==> lists[r] == []
  {
    assert BitOf(bits, i * 64 + j);
    forall r | i * 64 <= r < i * 64 + j ensures lists[r] == [] { assert !BitOf(bits, r); }
  }

  /** The bitmap scan of pick_proc: the lowest queue that is not empty. */
  method LowestQueue(bits: seq<nat>, ghost lists: seq<seq<nat>>) returns (q: int)
    requires MapOk(bits, lists)
    ensures -1 <= q < SCHED_QUEUES && (q >= 0 ==> lists[q] != [])
    ensures forall r :: 0 <= r < (if q >= 0 then q else SCHED_QUEUES) ==> lists[r] == []
  {
    var i := 0;
    while i < CHUNKS
      invariant 0 <= i <= CHUNKS
      invariant forall r :: 0 <= r < i * 64 && r < SCHED_QUEUES ==> lists[r] == []
    {
      if bits[i] != 0 {
        var j := FirstBit(bits[i]);
        FirstOfChunk(bits, lists, i, j);
        return i * 64 + j;
      }
      forall r | i * 64 <= r < i * 64 + 64 && r < SCHED_QUEUES ensures lists[r] == [] {
        EmptyChunk(bits, lists, i, r);
      }
      i := i + 1;
    }
    return -1;
  }

  // ---------------------------------------------------------------- the choice within a queue

  /** Entry i is the first one whose deadline has passed; or none has passed, and no entry has an
      earlier deadline, nor an equal one sooner in the list unless that is the largest value. */
  ghost predicate Chosen(l: seq<nat>, deadline: seq<nat>, i: nat, now: nat)
    requires Procs(l, |deadline|)
  {
    && i < |l|
    && var d := deadline[l[i] - SCHED_QUEUES];
       if d < now then forall k :: 0 <= k < i ==> deadline[l[k] - SCHED_QUEUES] >= now
       else
         && (forall k :: 0 <= k < |l| ==> deadline[l[k] - SCHED_QUEUES] >= now)
         && (forall k :: 0 <= k < |l| ==> d <= deadline[l[k] - SCHED_QUEUES])
         && (forall k :: 0 <= k < i ==> d < deadline[l[k] - SCHED_QUEUES] || d == UNSET_DEADLINE)
  }

  /** Every list entry is the node of some process. */
  ghost predicate Procs(l: seq<nat>, n: nat) {
    forall k :: 0 <= k < |l| ==> SCHED_QUEUES <= l[k] < SCHED_QUEUES + n
  }

  /** The list walk of pick_proc. */
  method Select(next: seq<nat>, deadline: seq<nat>, q: nat, now: nat, ghost l: seq<nat>) returns (p: nat, ghost i: nat)
    requires Forward(next, q, l) && l != [] && Procs(l, |deadline|) && q < SCHED_QUEUES
    requires forall r :: 0 <= r < |deadline| ==> deadline[r] <= UNSET_DEADLINE
    ensures Chosen(l, deadline, i, now) && l[i] == SCHED_QUEUES + p && p < |deadline|
  {
    var smallest := UNSET_DEADLINE;
    var node := next[q];
    ghost var k := 0;
    p, i := 0, 0;
    while node != q
      invariant 0 <= k <= |l| && node == At(l, k, q)
      invariant forall j :: 0 <= j < k ==> deadline[l[j] - SCHED_QUEUES] >= now
      invariant k == 0 ==> smallest == UNSET_DEADLINE
      invariant k > 0 ==> 0 <= i < k && p < |deadline| && l[i] == SCHED_QUEUES + p && smallest == deadline[p]
      invariant k > 0 ==> forall j :: 0 <= j < k ==> smallest <= deadline[l[j] - SCHED_QUEUES]
      invariant k > 0 ==> forall j :: 0 <= j < i ==>
                  smallest < deadline[l[j] - SCHED_QUEUES] || smallest == UNSET_DEADLINE
      decreases |l| - k
    {
      var r := node - SCHED_QUEUES;
      if deadline[r] < now { return r, k; }
      if smallest == UNSET_DEADLINE || smallest > deadline[r] {
        smallest, p, i := deadline[r], r, k;
      }
      assert next[l[k]] == At(l, k + 1, q);
      node, k := next[node], k + 1;
    }
  }

  /** The processes on a list are runnable and on the list of their class. */
  ghost predicate Queued(classes: seq<Class>, state: seq<set<nat>>, home: seq<int>, p: nat)
    requires |state| == |classes| && |home| == SCHED_QUEUES + |classes| && p < |classes|
  {
    home[SCHED_QUEUES + p] != Nil ==>
      state[p] == {} && ClassOk(classes[p]) && home[SCHED_QUEUES + p] == ProcQueue(classes[p])
  }

  /** No process that could run is forgotten: it is the current one or on a list. */
  ghost predicate Remembered(state: seq<set<nat>>, home: seq<int>, current: int) {
    |home| == SCHED_QUEUES + |state| &&
    forall p :: 0 <= p < |state| && state[p] == {} ==> home[SCHED_QUEUES + p] != Nil || p == current
  }

  /** Every input at which PST_SETFLAGS fails: a process that is blocked and not the current one gets
      state 0 while the lists stay. */
  lemma ClearingForgets(classes: seq<Class>, state: seq<set<nat>>, home: seq<int>, current: int, p: nat)
    requires |state| == |classes| && |home| == SCHED_QUEUES + |classes| && p < |classes|
    requires Queued(classes, state, home, p) && state[p] != {} && p != current
    ensures !Remembered(state[p := {}], home, current)
  {
    assert state[p := {}][p] == {};
  }

  /** The node is gone from list q. */
  ghost predicate Left(before: seq<seq<nat>>, after: seq<seq<nat>>, q: nat, node: nat) {
    exists i: nat :: TakenOut(before, after, q, i, node)
  }

  /** Process p is taken off the lowest list that is not empty, being the choice within it; or p is -1
      and there is none. */
  ghost predicate Picked(classes: seq<Class>, before: seq<seq<nat>>, after: seq<seq<nat>>, deadline: seq<nat>, p: int,
    now: nat)
    requires |before| == |after| == SCHED_QUEUES
  {
    if p < 0 then p == -1 && after == before && forall q :: 0 <= q < SCHED_QUEUES ==> before[q] == []
    else
      && p < |classes| && ClassOk(classes[p])
      && var q := ProcQueue(classes[p]);
         && (forall r :: 0 <= r < q ==> before[r] == []) && Procs(before[q], |deadline|)
         && exists i: nat :: Chosen(before[q], deadline, i, now) && TakenOut(before, after, q, i, SCHED_QUEUES + p)
  }

  /** Process p is put first on its list, after it was taken off it if it was there. */
  ghost predicate PutFirst(classes: seq<Class>, before: seq<seq<nat>>, after: seq<seq<nat>>, p: nat)
    requires p < |classes| && ClassOk(classes[p]) && |before| == SCHED_QUEUES
  {
    var q := ProcQueue(classes[p]);
    && |after| == SCHED_QUEUES && after[q] != [] && after[q][0] == SCHED_QUEUES + p
    && var mid := after[q := after[q][1..]]; mid == before || Left(before, mid, q, SCHED_QUEUES + p)
  }

  lemma PickedIs(classes: seq<Class>, before: seq<seq<nat>>, after: seq<seq<nat>>, deadline: seq<nat>, p: nat, i: nat,
    now: nat)
    requires |before| == |after| == SCHED_QUEUES && p < |classes| && ClassOk(classes[p])
    requires forall r :: 0 <= r < ProcQueue(classes[p]) ==> before[r] == []
    requires var l := before[ProcQueue(classes[p])];
      Procs(l, |deadline|) && Chosen(l, deadline, i, now)
    requires TakenOut(before, after, ProcQueue(classes[p]), i, SCHED_QUEUES + p)
    ensures Picked(classes, before, after, deadline, p, now)
  {
  }

  lemma PutFirstIs(classes: seq<Class>, before: seq<seq<nat>>, mid: seq<seq<nat>>, p: nat)
    requires p < |classes| && ClassOk(classes[p]) && |before| == |mid| == SCHED_QUEUES
    requires mid == before || Left(before, mid, ProcQueue(classes[p]), SCHED_QUEUES + p)
    ensures var q := ProcQueue(classes[p]); PutFirst(classes, before, mid[q := [SCHED_QUEUES + p] + mid[q]], p)
  {
    var q := ProcQueue(classes[p]);
    var after := mid[q := [SCHED_QUEUES + p] + mid[q]];
    assert after[q := after[q][1..]] == mid;
  }

  /** The current process is on a list, and another is taken off to become current. */
  lemma RememberedPicked(state: seq<set<nat>>, home: seq<int>, current: nat, p: nat)
    requires Remembered(state, home, current) && current < |state| && home[SCHED_QUEUES + current] != Nil
    requires p < |state|
    ensures Remembered(state, home[SCHED_QUEUES + p := Nil], p)
  {
  }

  class Scheduler {
    const classes: seq<Class>
    const lists: Lists
    var state: seq<set<nat>>
    var deadline: seq<nat>
    var bitmap: seq<nat>
    var current: int

    ghost predicate Shape()
      reads `state, `deadline, `bitmap, `current, lists
    {
      && (forall p :: 0 <= p < |classes| ==> ClassOk(classes[p]))
      && |state| == |deadline| == |classes| && -1 <= current < |classes|
      && (forall p :: 0 <= p < |deadline| ==> deadline[p] <= UNSET_DEADLINE)
      && lists.Valid() && |lists.members| == SCHED_QUEUES && |lists.home| == SCHED_QUEUES + |classes|
      && MapOk(bitmap, lists.members)
    }

    ghost predicate Valid()
      reads `state, `deadline, `bitmap, `current, lists
    {
      Shape() && forall p :: 0 <= p < |classes| ==> Queued(classes, state, lists.home, p)
    }

    ghost predicate OnList(p: nat)
      reads lists
    {
      SCHED_QUEUES + p < |lists.home| && lists.home[SCHED_QUEUES + p] != Nil
    }

    ghost predicate NoneLost()
      reads `state, `current, lists
    {
      Remembered(state, lists.home, current)
    }

    /** init_sched, with every process in the given state. */
    constructor (classes: seq<Class>, state: seq<set<nat>>)
      requires (forall p :: 0 <= p < |classes| ==> ClassOk(classes[p])) && |state| == |classes|
      ensures Valid() && this.classes == classes && this.state == state && current == -1 && fresh(lists)
      ensures forall p :: 0 <= p < |classes| ==> !OnList(p)
    {
      this.classes, this.state, current := classes, state, -1;
      lists := new Lists(SCHED_QUEUES, SCHED_QUEUES + |classes|);
      deadline := seq(|classes|, _ => 0);
      bitmap := [0, 0];
      new;
      forall q: nat | q < CHUNKS * CHUNK_BITS ensures !BitOf(bitmap, q) { ZeroHasNoBit(q % 64); }
    }

    /** enqueue_proc. */
    method EnqueueProc(p: nat)
      requires Valid() && p < |classes| && state[p] == {} && !OnList(p)
      modifies this`bitmap, lists
      ensures Valid() && lists.home == old(lists.home)[SCHED_QUEUES + p := ProcQueue(classes[p])]
      ensures var q := ProcQueue(classes[p]);
        lists.members == old(lists.members)[q := [SCHED_QUEUES + p] + old(lists.members)[q]]
    {
      var q := ProcQueue(classes[p]);
      SetBitMap(bitmap, lists.members, q, [SCHED_QUEUES + p] + lists.members[q]);
      lists.Add(SCHED_QUEUES + p, q);
      bitmap := SetBit(bitmap, q);
      forall r | 0 <= r < |classes| ensures Queued(classes, state, lists.home, r) {
        assert Queued(classes, state, old(lists.home), r);
      }
    }

    /** dequeue_proc: the state of p may already say that it is not runnable. A process on no list
        is left alone. */
    method DequeueProc(p: nat) returns (ghost i: int)
      requires Shape() && p < |classes| && (OnList(p) ==> lists.home[SCHED_QUEUES + p] == ProcQueue(classes[p]))
      modifies this`bitmap, lists
      ensures Shape() && lists.home == old(lists.home)[SCHED_QUEUES + p := Nil]
      ensures !old(OnList(p)) ==> lists.members == old(lists.members)
      ensures old(OnList(p)) ==> TakenOut(old(lists.members), lists.members, ProcQueue(classes[p]), i, SCHED_QUEUES + p)
    {
      var q := ProcQueue(classes[p]);
      ghost var before := lists.members;
      i := lists.Del(SCHED_QUEUES + p);
      assert lists.members == before[q := lists.members[q]];
      if lists.IsEmpty(q) {
        UnsetBitMap(bitmap, before, q);
        bitmap := UnsetBit(bitmap, q);
      } else {
        assert before[q] != [];
        SameMap(bitmap, before, q, lists.members[q]);
      }
    }

    /** PST_SET. */
    method PstSet(p: nat, flags: set<nat>)
      requires Valid() && p < |classes|
      modifies this`state, this`bitmap, lists
      ensures Valid() && state == old(state)[p := old(state)[p] + flags]
      ensures old(NoneLost()) ==> NoneLost()
      ensures forall r :: 0 <= r < |classes| && r != p ==> OnList(r) == old(OnList(r))
      ensures lists.members == old(lists.members) ||
              Left(old(lists.members), lists.members, ProcQueue(classes[p]), SCHED_QUEUES + p)
    {
      assert Queued(classes, state, lists.home, p);
      var was := state[p];
      state := state[p := was + flags];
      if was == {} && state[p] != {} {
        ghost var i := DequeueProc(p);
      }
      forall r | 0 <= r < |classes| ensures Queued(classes, state, lists.home, r) {
        assert Queued(classes, old(state), old(lists.home), r);
      }
    }

    /** PST_SETFLAGS. It never puts a process on a list, so it forgets p exactly when it makes
        runnable a process that was not and is not the current one. */
    method PstSetFlags(p: nat, flags: set<nat>)
      requires Valid() && p < |classes|
      modifies this`state, this`bitmap, lists
      ensures Valid() && state == old(state)[p := flags]
      ensures old(NoneLost()) ==> (NoneLost() <==> flags != {} || old(state)[p] == {} || p == current)
    {
      assert Queued(classes, state, lists.home, p);
      var was := state[p];
      state := state[p := flags];
      if was == {} && state[p] != {} {
        ghost var i := DequeueProc(p);
      }
      forall r | 0 <= r < |classes| ensures Queued(classes, state, lists.home, r) {
        assert Queued(classes, old(state), old(lists.home), r);
      }
      if flags == {} && was != {} && p != current {
        ClearingForgets(classes, old(state), lists.home, current, p);
      }
    }

    /** The one use of PST_SETFLAGS, in sys_clear. */
    method FreeSlot(p: nat)
      requires Valid() && p < |classes|
      modifies this`state, this`bitmap, lists
      ensures Valid() && state == old(state)[p := {PST_FREE_SLOT}] && !OnList(p)
      ensures old(NoneLost()) ==> NoneLost()
    {
      PstSetFlags(p, {PST_FREE_SLOT});
      assert Queued(classes, state, lists.home, p);
    }

    /** PST_UNSET. */
    method PstUnset(p: nat, flags: set<nat>)
      requires Valid() && p < |classes|
      modifies this`state, this`bitmap, lists
      ensures Valid() && state == old(state)[p := old(state)[p] - flags]
      ensures old(NoneLost()) ==> NoneLost()
      ensures old(state)[p] != {} && state[p] == {} ==> OnList(p)
      ensures var q := ProcQueue(classes[p]);
        lists.members == if old(state)[p] != {} && state[p] == {}
                         then old(lists.members)[q := [SCHED_QUEUES + p] + old(lists.members)[q]]
                         else old(lists.members)
    {
      assert Queued(classes, state, lists.home, p);
      var was := state[p];
      state := state[p := was - flags];
      forall r | 0 <= r < |classes| ensures Queued(classes, state, lists.home, r) {
        assert Queued(classes, old(state), old(lists.home), r);
      }
      if was != {} && state[p] == {} {
        EnqueueProc(p);
      }
    }

    lemma ListOfProcs(q: nat)
      requires Shape() && q < SCHED_QUEUES
      ensures forall k {:trigger lists.members[q][k]} :: 0 <= k < |lists.members[q]| ==>
        SCHED_QUEUES <= lists.members[q][k] < SCHED_QUEUES + |classes| && lists.home[lists.members[q][k]] == q
    {
      forall k | 0 <= k < |lists.members[q]|
        ensures SCHED_QUEUES <= lists.members[q][k] < SCHED_QUEUES + |classes| && lists.home[lists.members[q][k]] == q
      {
        assert lists.members[q][k] in lists.members[q];
      }
    }

    lemma OnSomeList(p: nat)
      requires Shape() && p < |classes|
      ensures OnList(p) ==>
                0 <= lists.home[SCHED_QUEUES + p] < SCHED_QUEUES && lists.members[lists.home[SCHED_QUEUES + p]] != []
    {
      if OnList(p) { assert SCHED_QUEUES + p in lists.members[lists.home[SCHED_QUEUES + p]]; }
    }

    /** pick_proc: nobody only when all queues are empty; otherwise the choice within the lowest
        queue that is not, which is taken off its list. */
    method PickProc(now: nat) returns (p: int)
      requires Valid()
      modifies this`bitmap, lists
      ensures Valid() && -1 <= p < |classes|
      ensures p < 0 ==> lists.home == old(lists.home)
      ensures p >= 0 ==> lists.home == old(lists.home)[SCHED_QUEUES + p := Nil] && state[p] == {}
      ensures Picked(classes, old(lists.members), lists.members, deadline, p, now)
    {
      var q := LowestQueue(bitmap, lists.members);
      if q == -1 { return -1; }
      p := PickFrom(q, now);
    }

    /** The walk over the lowest list that is not empty. */
    method PickFrom(q: nat, now: nat) returns (p: nat)
      requires Valid() && q < SCHED_QUEUES && lists.members[q] != []
      requires forall r :: 0 <= r < q ==> lists.members[r] == []
      modifies this`bitmap, lists
      ensures Valid() && p < |classes| && state[p] == {}
      ensures lists.home == old(lists.home)[SCHED_QUEUES + p := Nil]
      ensures Picked(classes, old(lists.members), lists.members, deadline, p, now)
    {
      ListOfProcs(q);
      ghost var i;
      p, i := Select(lists.next, deadline, q, now, lists.members[q]);
      assert Queued(classes, state, lists.home, p);
      ghost var before := lists.members;
      TakeOff(p, i);
      PickedIs(classes, before, lists.members, deadline, p, i, now);
    }

    /** dequeue_proc for a process that is on its list. */
    method TakeOff(p: nat, ghost i: nat)
      requires Valid() && p < |classes| && OnList(p)
      requires var l := lists.members[ProcQueue(classes[p])]; i < |l| && l[i] == SCHED_QUEUES + p
      modifies this`bitmap, lists
      ensures Valid() && lists.home == old(lists.home)[SCHED_QUEUES + p := Nil]
      ensures TakenOut(old(lists.members), lists.members, ProcQueue(classes[p]), i, SCHED_QUEUES + p)
    {
      assert Queued(classes, state, lists.home, p);
      ghost var j := DequeueProc(p);
      forall r | 0 <= r < |classes| ensures Queued(classes, state, lists.home, r) {
        assert Queued(classes, state, old(lists.home), r);
      }
    }

    /** The scheduling part of switch_to_user: the current process goes on while it can run;
        otherwise one is picked, and the processor idles while there is none. */
    method Switch(now: nat) returns (running: bool)
      requires Valid() && NoneLost()
      modifies this`bitmap, this`current, lists
      ensures Valid() && NoneLost()
      ensures running <==> exists p :: 0 <= p < |classes| && state[p] == {}
      ensures running ==> 0 <= current < |classes| && state[current] == {}
      ensures if old(current) >= 0 && state[old(current)] == {} then
                running && current == old(current) && lists.members == old(lists.members)
              else
                && Picked(classes, old(lists.members), lists.members, deadline, if running then current else -1, now)
                && (!running ==> current == old(current))
    {
      if current >= 0 && state[current] == {} { return true; }
      var p := PickProc(now);
      if p < 0 {
        forall r | 0 <= r < |classes| ensures state[r] != {} { OnSomeList(r); }
        return false;
      }
      current := p;
      return true;
    }

    /** The current process goes back to its list with a new deadline. */
    method Requeue(newDeadline: nat)
      requires Valid() && NoneLost() && current >= 0 && state[current] == {} && newDeadline <= UNSET_DEADLINE
      modifies this`state, this`bitmap, this`deadline, lists
      ensures Valid() && NoneLost() && state == old(state) && OnList(current)
      ensures deadline == old(deadline)[current := newDeadline]
      ensures PutFirst(classes, old(lists.members), lists.members, current)
    {
      ghost var before := lists.members;
      Spend(newDeadline);
      Regain(before);
      assert state == old(state);
    }

    /** The current process is given time again. */
    method Regain(ghost before: seq<seq<nat>>)
      requires Valid() && NoneLost() && current >= 0 && state[current] == {PST_NO_QUANTUM} && |before| == SCHED_QUEUES
      requires lists.members == before ||
               Left(before, lists.members, ProcQueue(classes[current]), SCHED_QUEUES + current)
      modifies this`state, this`bitmap, lists
      ensures Valid() && NoneLost() && state == old(state)[current := {}] && OnList(current)
      ensures PutFirst(classes, before, lists.members, current)
    {
      PutFirstIs(classes, before, lists.members, current);
      assert state[current] - {PST_NO_QUANTUM} == {};
      PstUnset(current, {PST_NO_QUANTUM});
    }

    /** The current process is out of time. */
    method Spend(newDeadline: nat)
      requires Valid() && NoneLost() && current >= 0 && state[current] == {} && newDeadline <= UNSET_DEADLINE
      modifies this`state, this`bitmap, this`deadline, lists
      ensures Valid() && NoneLost() && state == old(state)[current := {PST_NO_QUANTUM}]
      ensures deadline == old(deadline)[current := newDeadline]
      ensures lists.members == old(lists.members) ||
              Left(old(lists.members), lists.members, ProcQueue(classes[current]), SCHED_QUEUES + current)
    {
      assert state[current] + {PST_NO_QUANTUM} == {PST_NO_QUANTUM};
      PstSet(current, {PST_NO_QUANTUM});
      deadline := deadline[current := newDeadline];
    }

    /** A process that used up its time: it is marked, gets a new deadline, is queued again, and
        the next one is picked. */
    method Expire(now: nat, newDeadline: nat) returns (ghost queued: seq<seq<nat>>)
      requires Valid() && NoneLost() && current >= 0 && state[current] == {} && newDeadline <= UNSET_DEADLINE
      modifies `state, `bitmap, `deadline, `current, lists
      ensures Valid() && NoneLost() && current >= 0 && state == old(state)
      ensures deadline == old(deadline)[old(current) := newDeadline]
      ensures PutFirst(classes, old(lists.members), queued, old(current)) && |queued| == |lists.members| == SCHED_QUEUES
      ensures Picked(classes, queued, lists.members, deadline, current, now)
    {
      Requeue(newDeadline);
      queued := lists.members;
      OnSomeList(current);
      ghost var home := lists.home;
      assert queued[home[SCHED_QUEUES + current]] != [];
      var r := PickProc(now);
      assert r >= 0;
      RememberedPicked(state, home, current, r);
      current := r;
    }
  }
}
