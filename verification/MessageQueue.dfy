/** The bounded message queue of the asynchronous driver library (lib/libasyncdriver/mq.c): a
    fixed array of entries that move between a queue and a free list. */
module MessageQueue {
  import opened KList

  const MQ_SIZE := 128
  const QUEUE := 0
  const FREE := 1
  const HEADS := 2

  /** The messages of a queue whose newest entry comes first, oldest message first. */
  ghost predicate Holds<T>(q: seq<nat>, msgs: seq<T>, contents: seq<T>) {
    && |contents| == |q| && (forall i :: 0 <= i < |q| ==> HEADS <= q[i] < HEADS + |msgs|)
    && (forall i :: 0 <= i < |q| ==> msgs[q[i] - HEADS] == contents[|q| - 1 - i])
  }

  lemma HoldsPush<T>(q: seq<nat>, msgs: seq<T>, contents: seq<T>, e: nat, msg: T)
    requires Holds(q, msgs, contents) && HEADS <= e < HEADS + |msgs| && e !in q
    ensures Holds([e] + q, msgs[e - HEADS := msg], contents + [msg])
  {
    var q', msgs', contents' := [e] + q, msgs[e - HEADS := msg], contents + [msg];
    forall i | 0 <= i < |q'| ensures msgs'[q'[i] - HEADS] == contents'[|q'| - 1 - i] {
      if i > 0 { assert q'[i] == q[i - 1] && q[i - 1] in q; }
    }
  }

  class Mq<T> {
    const lists: Lists
    var msgs: seq<T>
    ghost var contents: seq<T>

    ghost predicate Valid()
      reads this, lists
    {
      && lists.Valid() && |lists.members| == HEADS && |lists.home| == HEADS + MQ_SIZE && |msgs| == MQ_SIZE
      && |lists.members[QUEUE]| + |lists.members[FREE]| == MQ_SIZE
      && Holds(lists.members[QUEUE], msgs, contents)
    }

    /** mq_init: all entries are free. */
    constructor (blank: T)
      ensures Valid() && contents == [] && fresh(lists)
    {
      lists := new Lists(HEADS, HEADS + MQ_SIZE);
      msgs := seq(MQ_SIZE, _ => blank);
      contents := [];
      new;
      var i := 0;
      while i < MQ_SIZE
        invariant 0 <= i <= MQ_SIZE && lists.Valid() && |lists.members| == HEADS && |lists.home| == HEADS + MQ_SIZE
        invariant lists.members[QUEUE] == [] && |lists.members[FREE]| == i
        invariant forall x :: HEADS + i <= x < HEADS + MQ_SIZE ==> lists.home[x] == Nil
        invariant msgs == seq(MQ_SIZE, _ => blank) && contents == []
      {
        lists.Add(HEADS + i, FREE);
        i := i + 1;
      }
    }

    /** mq_enqueue: refused exactly when all entries are queued. */
    method Enqueue(msg: T) returns (ok: bool)
      requires Valid()
      modifies this, lists
      ensures Valid() && (ok <==> |old(contents)| < MQ_SIZE)
      ensures contents == if ok then old(contents) + [msg] else old(contents)
    {
      if lists.IsEmpty(FREE) { return false; }
      ghost var q, f := lists.members[QUEUE], lists.members[FREE];
      var e := lists.next[FREE];
      assert e == f[0] && f[0] in f && lists.home[e] == FREE;
      assert e !in q;
      HoldsPush(q, msgs, contents, e, msg);
      ghost var i := lists.Del(e);
      assert |lists.members[FREE]| == |f| - 1 && lists.members[QUEUE] == q;
      msgs := msgs[e - HEADS := msg];
      lists.Add(e, QUEUE);
      contents := contents + [msg];
      return true;
    }

    /** mq_dequeue: hands out the oldest message. */
    method Dequeue(blank: T) returns (ok: bool, msg: T)
      requires Valid()
      modifies this, lists
      ensures Valid() && (ok <==> old(contents) != [])
      ensures ok ==> [msg] + contents == old(contents)
      ensures !ok ==> contents == old(contents)
    {
      if lists.IsEmpty(QUEUE) { return false, blank; }
      ghost var q, f := lists.members[QUEUE], lists.members[FREE];
      var e := lists.prev[QUEUE];
      assert e == q[|q| - 1] && q[|q| - 1] in q && lists.home[e] == QUEUE;
      ghost var i := lists.Del(e);
      assert i == |q| - 1;
      assert lists.members[QUEUE] == q[..|q| - 1] && lists.members[FREE] == f;
      msg := msgs[e - HEADS];
      lists.Add(e, FREE);
      contents := contents[1..];
      ok := true;
    }
  }
}
