/**
  The sender's side of asynchronous messages: the table a process keeps in its own memory and
  hands to the kernel (lib/liblyos/asyncsend.c).
*/
module IpcClient {
  import opened IpcState
  import opened IpcInvariant
  import opened IpcAsync
  import opened IpcOrder
  import opened IpcRuns
  import opened IpcFate
  import opened IpcStore
  import opened IpcKernel

  const ASYNC_SIZE := 200

  /** The unfinished entries of a table, in order. */
  function Opens(table: seq<Entry>): (r: seq<Entry>)
    ensures |r| <= |table|
  {
    if table == [] then [] else
    var last := table[|table| - 1];
    if Open(last) then Opens(table[..|table| - 1]) + [last] else Opens(table[..|table| - 1])
  }

  lemma OpensNext(table: seq<Entry>, k: nat)
    requires k < |table|
    ensures Opens(table[..k + 1]) == Opens(table[..k]) + if Open(table[k]) then [table[k]] else []
  {
    assert table[..k + 1][..k] == table[..k];
  }

  lemma {:induction false} OpensMembers(table: seq<Entry>)
    ensures forall e :: e in Opens(table) <==> e in table && Open(e)
  {
    if table != [] {
      OpensMembers(table[..|table| - 1]);
      assert table == table[..|table| - 1] + [table[|table| - 1]];
    }
  }

  lemma {:induction false} OpensSkip(table: seq<Entry>)
    requires table != [] && !Open(table[0])
    ensures Opens(table[1..]) == Opens(table)
  {
    if |table| > 1 {
      assert table[1..][..|table| - 2] == table[..|table| - 1][1..];
      OpensSkip(table[..|table| - 1]);
    }
  }

  ghost predicate Increasing(s: seq<Entry>) {
    forall i, j :: 0 <= i < j < |s| ==> s[i].tag < s[j].tag
  }

  lemma {:induction false} OpensIncrease(table: seq<Entry>)
    requires Ascending(table)
    ensures Increasing(Opens(table))
  {
    if table != [] {
      var front, last := table[..|table| - 1], table[|table| - 1];
      OpensIncrease(front);
      OpensMembers(front);
      if Open(last) {
        forall e | e in Opens(front) ensures e.tag < last.tag { var i :| 0 <= i < |front| && front[i] == e; }
      }
    }
  }

  lemma {:induction false} OpensAscend(table: seq<Entry>)
    requires Increasing(Opens(table))
    ensures Ascending(table)
  {
    if table != [] {
      var front, last := table[..|table| - 1], table[|table| - 1];
      OpensMembers(front);
      assert forall i :: 0 <= i < |Opens(front)| ==> Opens(table)[i] == Opens(front)[i];
      OpensAscend(front);
      forall i | 0 <= i < |front| && Open(front[i]) && Open(last) ensures front[i].tag < last.tag {
        assert front[i] in Opens(front);
        assert Opens(table)[|Opens(front)|] == last;
      }
    }
  }

  /** The table holds every letter that process p has unfinished, and one new one behind them. */
  lemma RepostAll(st: State, p: nat, before: seq<Entry>, table: seq<Entry>, e: Entry)
    requires Inv(st) && p < |st.procs| && Opens(table) == Opens(before) + [e] && Ascending(before)
    requires Open(e) && e.tag == |st.log| && forall x :: x in before && Open(x) ==> AgainEntry(st, p, x)
    ensures Repost(st, p, table, [Letter(p, e.dest, e.body, true)])
    ensures forall x :: x in before && Open(x) ==> HasOpen(table, x.tag)
  {
    OpensMembers(before);
    OpensMembers(table);
    OpensIncrease(before);
    assert Opens(table)[|Opens(before)|] == e;
    OpensAscend(table);
    forall x | x in before && Open(x) ensures HasOpen(table, x.tag) { assert x in Opens(table); }
    assert e in Opens(table);
  }

  /** What asyncsend3 hands to the kernel when its array is not full: what is unfinished again, and
      the new message. Nothing is left out. */
  lemma ResubmitReposts(st: State, p: nat, table: seq<Entry>, e: Entry)
    requires Inv(st) && p < |st.procs| && Opens(table) == Opens(st.procs[p].table) + [e]
    requires Open(e) && e.tag == |st.log|
    ensures Repost(st, p, table, [Letter(p, e.dest, e.body, true)])
    ensures forall t :: 0 <= t < |st.log| && st.place[t] == Posted(p) ==> HasOpen(table, t)
  {
    var before := st.procs[p].table;
    assert LettersAt(st, p);
    forall x | x in before && Open(x) ensures AgainEntry(st, p, x) { assert EntryOk(st, p, x); }
    RepostAll(st, p, before, table, e);
    forall t | 0 <= t < |st.log| && st.place[t] == Posted(p) ensures HasOpen(table, t) {
      assert PlaceOk(st, t);
      var i :| 0 <= i < |before| && Open(before[i]) && before[i].tag == t;
      assert before[i] in before;
    }
  }

  // ---------------------------------------------------------------- a full array

  /** While its sender hands in no table, a letter that is withheld stays so. */
  lemma {:induction false} StaysWithheld(st: State, calls: seq<Call>, t: nat, p: nat)
    requires Inv(st) && CarefulFrom(st, calls) && t < |st.log| && st.place[t] == Withheld(p)
    requires forall c :: c in calls ==> !(c.CallSenda? && c.p == p)
    ensures var end := Run(st, calls); t < |end.log| && end.place[t] == Withheld(p) && end.log[t] == st.log[t]
    decreases |calls|
  {
    if calls != [] {
      var n := |calls| - 1;
      CarefulFront(st, calls, n);
      StaysWithheld(st, calls[..n], t, p);
      RunInv(st, calls[..n]);
      WithheldOnce(Run(st, calls[..n]), calls[n], t, p);
    }
  }

  lemma WithheldOnce(st: State, c: Call, t: nat, p: nat)
    requires Inv(st) && !Careless(st, c) && t < |st.log| && st.place[t] == Withheld(p) && !(c.CallSenda? && c.p == p)
    ensures var end := Next(st, c); t < |end.log| && end.place[t] == Withheld(p) && end.log[t] == st.log[t]
  {
    NextGood(st, c);
    NextEvolves(st, c);
    NextWithheld(st, c, t);
    PlaceOwner(st, t);
    PlaceOwner(Next(st, c), t);
  }

  /** The first call of asyncsend3 at a full array takes every unfinished message back. */
  lemma WithdrawAll(st: State, p: nat, t: nat)
    requires Inv(st) && Runs(st, p) && st.procs[p].privileged && t < |st.log| && Unfinished(st.place[t], p)
    ensures var st1 := Next(st, CallSenda(p, [], []));
      st1.log == st.log && |st1.place| == |st.log| && st1.place[t] == Withheld(p)
  {
    var c := CallSenda(p, [], []);
    NextGood(st, c);
    TableLog(st, c);
    UnfinishedSender(st, t, p);
    NextWithheld(st, c, t);
    PlaceOwner(Next(st, c), t);
  }

  /** Whatever the other processes do in between, the second call puts every message back: none is
      lost. */
  lemma FullArrayReposts(st: State, p: nat, others: seq<Call>, table: seq<Entry>, e: Entry)
    requires Inv(st) && Runs(st, p) && st.procs[p].privileged
    requires forall c :: c in others ==> !(c.CallSenda? && c.p == p)
    requires Opens(table) == Opens(st.procs[p].table) + [e] && Open(e)
    ensures Inv(Next(st, CallSenda(p, [], [])))
    ensures var st1 := Next(st, CallSenda(p, [], [])); var end := Run(st1, others);
      CarefulFrom(st1, others) && e.tag == |end.log| ==>
        && Repost(end, p, table, [Letter(p, e.dest, e.body, true)])
        && forall t :: 0 <= t < |st.log| && st.place[t] == Posted(p) ==> HasOpen(table, t)
  {
    var before, c := st.procs[p].table, CallSenda(p, [], []);
    NextGood(st, c);
    var end := Run(Next(st, c), others);
    if CarefulFrom(Next(st, c), others) && e.tag == |end.log| {
      RunInv(Next(st, c), others);
      assert LettersAt(st, p);
      forall x | x in before && Open(x) ensures AgainEntry(end, p, x) {
        assert EntryOk(st, p, x);
        WithdrawAll(st, p, x.tag);
        StaysWithheld(Next(st, c), others, x.tag, p);
      }
      RepostAll(end, p, before, table, e);
      forall t | 0 <= t < |st.log| && st.place[t] == Posted(p) ensures HasOpen(table, t) {
        assert PlaceOk(st, t);
        var i :| 0 <= i < |before| && Open(before[i]) && before[i].tag == t;
        assert before[i] in before;
      }
    }
  }

  /** The loop that moves the unfinished entries to the front of the array. */
  method Gather(slots: array<Entry>, first: nat, next: nat, ghost all: seq<Entry>) returns (dest: nat)
    requires first <= next <= slots.Length && |all| == next - first
    requires forall i :: first <= i < next ==> slots[i] == all[i - first]
    modifies slots
    ensures dest <= next - first && slots[..dest] == Opens(all)
  {
    var src := first;
    ghost var moved: seq<Entry> := [];
    dest := 0;
    while src < next
      invariant |moved| == dest <= src - first && first <= src <= next && moved == Opens(all[..src - first])
      invariant forall i :: src <= i < next ==> slots[i] == all[i - first]
      invariant forall i :: 0 <= i < dest ==> slots[i] == moved[i]
    {
      OpensNext(all, src - first);
      var e := slots[src];
      if Open(e) {
        slots[dest] := e;
        dest := dest + 1;
        moved := moved + [e];
      }
      src := src + 1;
    }
    assert all[..src - first] == all && slots[..dest] == moved;
  }

  /** The loop that marks the remaining slots unused. */
  method ClearFrom(slots: array<Entry>, from: nat)
    requires from <= slots.Length
    modifies slots
    ensures slots[..from] == old(slots[..from]) && forall i :: from <= i < slots.Length ==> !slots[i].used
  {
    var i := from;
    while i < slots.Length
      invariant from <= i <= slots.Length && (forall k :: 0 <= k < from ==> slots[k] == old(slots[k]))
      invariant forall k :: from <= k < i ==> !slots[k].used
    {
      slots[i] := slots[i].(used := false);
      i := i + 1;
    }
  }

  /** Everything is finished, the kernel still has the table, and it starts at slot 0. */
  ghost predicate InDanger(r: Proc, first: nat) {
    r.privileged && r.live && AllDone(r.table) && r.table != [] && first == 0
  }

  class Outbox {
    const slots: array<Entry>
    var first: nat
    var next: nat

    constructor ()
      ensures Valid() && fresh(slots) && Table() == [] && forall r: Proc :: r.table == [] ==> Linked(r)
    {
      slots := new Entry[ASYNC_SIZE](_ => Entry(0, 0, 0, false, false));
      first, next := 0, 0;
    }

    ghost predicate Valid()
      reads this, slots
    {
      slots.Length == ASYNC_SIZE && first <= next <= slots.Length
    }

    ghost function Table(): seq<Entry>
      requires Valid()
      reads this, slots
    {
      slots[first..next]
    }

    /** The table as it lies in memory, with the marks of the kernel. Only a privileged process has one
        with the kernel. */
    ghost function Memory(r: Proc): seq<Entry>
      requires Valid()
      reads this, slots
    {
      if r.privileged then r.table else Table()
    }

    /** Since the last call the kernel has at most marked entries done. */
    ghost predicate Linked(r: Proc)
      requires Valid()
      reads this, slots
    {
      if r.privileged then Marked(Table(), r.table) else r.table == []
    }

    /** Whatever the other processes do, the link holds until the next call. */
    lemma StaysLinked(st: State, p: nat, others: seq<Call>)
      requires Valid() && Shape(st) && p < |st.procs| && Linked(st.procs[p])
      requires forall c :: c in others ==> !OwnTable(c, p)
      ensures Linked(Run(st, others).procs[p])
    {
      RunMarks(st, others, p);
    }

    /** The marks of the kernel, which writes them to the sender's memory itself. */
    method Refresh(k: Kernel, p: nat)
      requires Valid() && k.Valid() && p < k.procs.Length && Linked(k.procs[p])
      modifies slots
      ensures Valid() && Table() == old(Memory(k.procs[p]))
    {
      var table, i := k.procs[p].table, 0;
      while i < |table|
        invariant i <= |table| && first + |table| <= slots.Length
        invariant forall j :: first <= j < next ==>
                                slots[j] == if j - first < i then table[j - first] else old(slots[j])
      {
        if table[i].done { slots[first + i] := slots[first + i].(done := true); }
        i := i + 1;
      }
    }

    /** Skip the finished entries at the front. */
    method SkipFinished()
      requires Valid()
      modifies this
      ensures Valid() && Opens(Table()) == Opens(old(Table()))
      ensures next == if Opens(old(Table())) == [] then 0 else old(next)
    {
      while first < next && !Open(slots[first])
        invariant Valid() && Opens(Table()) == Opens(old(Table())) && next == old(next)
        decreases next - first
      {
        ghost var table := Table();
        OpensSkip(table);
        first := first + 1;
        assert Table() == table[1..];
      }
      OpensMembers(Table());
      if first >= next { first, next := 0, 0; } else { assert slots[first] in Table(); }
    }

    /** Move the unfinished entries to the front of a full table. */
    method Compact()
      requires Valid()
      modifies this, slots
      ensures Valid() && first == 0 && Table() == Opens(old(Table()))
    {
      ghost var all := Table();
      var dest := Gather(slots, first, next, all);
      ClearFrom(slots, dest);
      first, next := 0, dest;
    }

    method PutLast(e: Entry)
      requires Valid() && next < ASYNC_SIZE
      modifies this`next, slots
      ensures Valid() && Table() == old(Table()) + [e] && next == old(next) + 1
    {
      slots[next] := e;
      next := next + 1;
    }

    /** A full array: take the table back from the kernel and close the gaps. */
    method Reclaim(k: Kernel, p: nat)
      requires Valid() && k.Valid() && Runs(k.View(), p)
      modifies this, slots, k, k.procs
      ensures Valid() && first == 0 && Table() == Opens(old(Table()))
      ensures k.Valid() && k.View() == SendTable(old(k.View()), p, [], []).0
    {
      var _ := k.MsgSenda(p, [], []);
      Compact();
    }

    /** Add the message and hand the table in. */
    method Submit(k: Kernel, p: nat, e: Entry) returns (ret: Outcome)
      requires Valid() && k.Valid() && Runs(k.View(), p) && next < ASYNC_SIZE
      requires if k.procs[p].privileged then Repost(k.View(), p, Table() + [e], [Letter(p, e.dest, e.body, true)])
               else k.procs[p].table == []
      modifies this, slots, k, k.procs
      ensures Valid() && Table() == old(Table()) + [e] && next == old(next) + 1
      ensures k.Valid() && (k.View(), ret) == SendTable(old(k.View()), p, Table(), [Letter(p, e.dest, e.body, true)])
      ensures Linked(k.procs[p])
    {
      PutLast(e);
      SubmittedMarks(k.View(), p, Table(), [Letter(p, e.dest, e.body, true)]);
      ret := k.MsgSenda(p, slots[first..next], [Letter(p, e.dest, e.body, true)]);
    }

    /** Find a free slot: skip what is finished and, when the last slot is taken, take the table back
        from the kernel to move the entries. */
    method MakeRoom(k: Kernel, p: nat) returns (ok: bool, ghost full: bool)
      requires Valid() && k.Valid() && Runs(k.View(), p) && Linked(k.procs[p])
      modifies this, slots, k, k.procs
      ensures Valid() && Opens(Table()) == Opens(old(Memory(k.procs[p])))
      ensures full == (old(next) == ASYNC_SIZE && Opens(old(Memory(k.procs[p]))) != [])
      ensures k.Valid() && k.View() == Cleared(old(k.View()), p, full)
      ensures (ok <==> next < ASYNC_SIZE) && (ok <==> |Opens(old(Memory(k.procs[p])))| < ASYNC_SIZE)
      ensures OutOfReach(k.View(), p, next - old(first)) <==> !InDanger(old(k.procs[p]), old(first))
      ensures k.procs[p].privileged || k.procs[p].table == []
    {
      ghost var before, was, start := k.View(), Memory(k.procs[p]), first;
      Refresh(k, p);
      SkipFinished();
      full := next >= ASYNC_SIZE;
      if next >= ASYNC_SIZE {
        OpensTwice(Table());
        Reclaim(k, p);
        SubmittedMarks(before, p, [], []);
      }
      WrittenSlot(before, p, full, was, start, next);
      ok := next < ASYNC_SIZE;
    }

    /** asyncsend3 with its kernel calls. When the last slot is taken it first takes the table back
        from the kernel, to move the entries; it gives up only when every slot holds an unfinished
        message, and then the kernel has none of them. It can be called again: the link is restored.
        The slot it writes is in the table the kernel has exactly if it is in danger. */
    method AsyncSend(k: Kernel, p: nat, dest: int, body: int) returns (ok: bool, ret: Outcome)
      requires Valid() && k.Valid() && Runs(k.View(), p) && Linked(k.procs[p])
      modifies this, slots, k, k.procs
      ensures Valid() && k.Valid() && (ok ==> Linked(k.procs[p]))
      ensures !ok <==> |Opens(old(Memory(k.procs[p])))| == ASYNC_SIZE
      ensures var e := Entry(old(k.accepted), dest, body, true, false);
        ok ==> Opens(Table()) == Opens(old(Memory(k.procs[p]))) + [e]
      ensures var st := Cleared(old(k.View()), p, old(next) == ASYNC_SIZE && Opens(old(Memory(k.procs[p]))) != []);
        if ok then
          && (k.View(), ret) == SendTable(st, p, Table(), [Letter(p, dest, body, true)])
          && (OutOfReach(st, p, next - 1 - old(first)) <==> !InDanger(old(k.procs[p]), old(first)))
        else
          k.View() == st
    {
      ghost var before, was := k.View(), Memory(k.procs[p]);
      ghost var full;
      ret := Ok;
      ok, full := MakeRoom(k, p);
      if ok {
        var e := Entry(k.accepted, dest, body, true, false);
        ClearedReposts(before, p, full, was, Table(), e);
        ret := Submit(k, p, e);
      }
    }
  }

  lemma {:induction false} ScanMarks(st: State, p: nat, i: nat, done: bool)
    requires p < |st.procs| && i <= |st.procs[p].table|
    ensures var end := ScanTable(st, p, i, done);
      Marked(st.procs[p].table, end.procs[p].table) && end.procs[p].privileged == st.procs[p].privileged
    decreases |st.procs[p].table| - i
  {
    if i < |st.procs[p].table| {
      var (st1, pending) := ScanEntry(st, p, i);
      ScanEntryMarks(st, p, i, p);
      ScanMarks(st1, p, i + 1, done && !pending);
      MarkedOn(st.procs[p].table, st1.procs[p].table, ScanTable(st, p, i, done).procs[p].table);
    }
  }

  lemma MarkedOn(a: seq<Entry>, b: seq<Entry>, c: seq<Entry>)
    requires Marked(a, b) && Marked(b, c)
    ensures Marked(a, c)
  {
  }

  lemma SubmittedMarks(st: State, p: nat, table: seq<Entry>, letters: seq<Letter>)
    requires p < |st.procs|
    ensures var end := SendTable(st, p, table, letters).0;
      && |end.procs| == |st.procs| && end.procs[p].privileged == st.procs[p].privileged
      && if st.procs[p].privileged then Marked(table, end.procs[p].table) else end == st
  {
    if st.procs[p].privileged { ScanMarks(PostTable(st, p, table, letters), p, 0, true); }
  }

  /** The slot written is behind the table, or in front of it, unless everything was finished. */
  lemma WrittenSlot(st: State, p: nat, full: bool, was: seq<Entry>, first: nat, next: nat)
    requires p < |st.procs| && (if st.procs[p].privileged then was == st.procs[p].table else st.procs[p].table == [])
    requires full ==> Opens(was) != []
    requires !full ==> if Opens(was) == [] then next == 0 else next == first + |was|
    ensures OutOfReach(Cleared(st, p, full), p, next - first) <==> !InDanger(st.procs[p], first)
  {
    OpensMembers(was);
    assert Opens(was) == [] <==> AllDone(was) by {
      if Opens(was) != [] { assert Opens(was)[0] in Opens(was); }
      if !AllDone(was) { var i :| 0 <= i < |was| && Open(was[i]); assert was[i] in Opens(was); }
    }
  }

  /** The kernel when asyncsend3 hands its table in. */
  ghost function Cleared(st: State, p: nat, full: bool): State
    requires p < |st.procs|
  {
    if full then SendTable(st, p, [], []).0 else st
  }

  lemma ClearedReposts(st: State, p: nat, full: bool, kept: seq<Entry>, table: seq<Entry>, e: Entry)
    requires Inv(st) && Runs(st, p) && (st.procs[p].privileged ==> Opens(kept) == Opens(st.procs[p].table))
    requires Opens(table) == Opens(kept) && Open(e) && e.tag == |Cleared(st, p, full).log|
    ensures Opens(table + [e]) == Opens(kept) + [e]
    ensures var mid := Cleared(st, p, full);
      Inv(mid) && (st.procs[p].privileged ==> Repost(mid, p, table + [e], [Letter(p, e.dest, e.body, true)]))
  {
    OpensLast(table, e);
    if st.procs[p].privileged {
      if full { ReclaimedReposts(st, p, table + [e], e); } else { ResubmitReposts(st, p, table + [e], e); }
    }
  }

  lemma OpensLast(table: seq<Entry>, e: Entry)
    requires Open(e)
    ensures Opens(table + [e]) == Opens(table) + [e]
  {
    assert (table + [e])[..|table|] == table;
  }

  lemma ReclaimedReposts(st: State, p: nat, table: seq<Entry>, e: Entry)
    requires Inv(st) && Runs(st, p) && st.procs[p].privileged && Opens(table) == Opens(st.procs[p].table) + [e]
    requires Open(e) && e.tag == |SendTable(st, p, [], []).0.log|
    ensures var mid := SendTable(st, p, [], []).0;
      Inv(mid) && Repost(mid, p, table, [Letter(p, e.dest, e.body, true)])
  {
    FullArrayReposts(st, p, [], table, e);
    var mid := Next(st, CallSenda(p, [], []));
    assert Run(mid, []) == mid;
  }

  lemma {:induction false} OpensTwice(table: seq<Entry>)
    ensures Opens(Opens(table)) == Opens(table)
  {
    if table != [] {
      var front, last := table[..|table| - 1], table[|table| - 1];
      OpensTwice(front);
      assert Open(last) ==> Opens(table)[..|Opens(table)| - 1] == Opens(front);
    }
  }
}
