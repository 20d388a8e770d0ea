/** The kernel's circular doubly linked lists with embedded nodes (include/lyos/list.h). Nodes
    are numbered; the first ones are list heads. Each list is a ring through its head, and a node
    in no list is linked to itself. */
module KList {

  const Nil := -1

  /** Element i of a list, and its head just before the first and just after the last. */
  function At(l: seq<nat>, i: int, h: nat): nat {
    if 0 <= i < |l| then l[i] else h
  }

  /** The forward links of the ring through h and the elements of l. */
  ghost predicate Forward(next: seq<nat>, h: nat, l: seq<nat>) {
    && h < |next| && (forall i :: 0 <= i < |l| ==> l[i] < |next|)
    && next[h] == At(l, 0, h)
    && (forall i {:trigger next[l[i]]} :: 0 <= i < |l| ==> next[l[i]] == At(l, i + 1, h))
  }

  /** The backward links. */
  ghost predicate Backward(prev: seq<nat>, h: nat, l: seq<nat>) {
    && h < |prev| && (forall i :: 0 <= i < |l| ==> l[i] < |prev|)
    && prev[h] == At(l, |l| - 1, h)
    && (forall i {:trigger prev[l[i]]} :: 0 <= i < |l| ==> prev[l[i]] == At(l, i - 1, h))
  }

  ghost predicate Ring(next: seq<nat>, prev: seq<nat>, h: nat, l: seq<nat>) {
    Forward(next, h, l) && Backward(prev, h, l)
  }

  ghost predicate Distinct(l: seq<nat>) {
    forall i, j :: 0 <= i < j < |l| ==> l[i] != l[j]
  }

  function Insert(l: seq<nat>, i: nat, x: nat): (r: seq<nat>)
    requires i <= |l|
    ensures Inserted(l, r, i, x)
  {
    l[..i] + [x] + l[i..]
  }

  ghost predicate Inserted(l: seq<nat>, l': seq<nat>, i: nat, x: nat) {
    && i <= |l| && |l'| == |l| + 1 && l'[i] == x
    && (forall k :: 0 <= k < i ==> l'[k] == l[k])
    && (forall k :: i < k < |l'| ==> l'[k] == l[k - 1])
  }

  function Remove(l: seq<nat>, i: nat): (r: seq<nat>)
    requires i < |l|
    ensures Inserted(r, l, i, l[i])
  {
    l[..i] + l[i + 1..]
  }

  lemma RingSame(next: seq<nat>, prev: seq<nat>, next': seq<nat>, prev': seq<nat>, h: nat, l: seq<nat>)
    requires |next| == |prev| == |next'| == |prev'| && Ring(next, prev, h, l)
    requires next'[h] == next[h] && prev'[h] == prev[h]
    requires forall i :: 0 <= i < |l| ==> next'[l[i]] == next[l[i]] && prev'[l[i]] == prev[l[i]]
    ensures Ring(next', prev', h, l)
  {
  }

  lemma InsertedBelow(l: seq<nat>, l': seq<nat>, i: nat, x: nat, n: nat)
    requires Inserted(l, l', i, x)
    ensures (forall k :: 0 <= k < |l'| ==> l'[k] < n) <==> x < n && (forall k :: 0 <= k < |l| ==> l[k] < n)
  {
    if forall k :: 0 <= k < |l'| ==> l'[k] < n {
      forall k | 0 <= k < |l| ensures l[k] < n { assert l[k] == l'[if k < i then k else k + 1]; }
    }
  }

  lemma ForwardInsert(next: seq<nat>, h: nat, l: seq<nat>, l': seq<nat>, i: nat, x: nat)
    requires Forward(next, h, l) && Distinct(l) && h !in l && Inserted(l, l', i, x)
    requires x < |next| && x != h && x !in l
    ensures At(l, i - 1, h) < |next| && Forward(next[x := At(l, i, h)][At(l, i - 1, h) := x], h, l')
  {
    var next' := next[x := At(l, i, h)][At(l, i - 1, h) := x];
    InsertedBelow(l, l', i, x, |next|);
    assert next'[h] == At(l', 0, h);
    forall k | 0 <= k < |l'| ensures next'[l'[k]] == At(l', k + 1, h) {
      if k < i { assert next[l[k]] == At(l, k + 1, h); }
      if k > i { assert next[l[k - 1]] == At(l, k, h) == At(l', k + 1, h); }
    }
  }

  lemma BackwardInsert(prev: seq<nat>, h: nat, l: seq<nat>, l': seq<nat>, i: nat, x: nat)
    requires Backward(prev, h, l) && Distinct(l) && h !in l && Inserted(l, l', i, x)
    requires x < |prev| && x != h && x !in l
    ensures At(l, i, h) < |prev| && Backward(prev[x := At(l, i - 1, h)][At(l, i, h) := x], h, l')
  {
    var prev' := prev[x := At(l, i - 1, h)][At(l, i, h) := x];
    InsertedBelow(l, l', i, x, |prev|);
    assert prev'[h] == At(l', |l'| - 1, h);
    forall k | 0 <= k < |l'| ensures prev'[l'[k]] == At(l', k - 1, h) {
      if k < i { assert prev[l[k]] == At(l, k - 1, h) == At(l', k - 1, h); }
      if k > i { assert prev[l[k - 1]] == At(l, k - 2, h); }
    }
  }

  lemma ForwardRemove(next: seq<nat>, h: nat, l: seq<nat>, l': seq<nat>, i: nat, x: nat)
    requires Forward(next, h, l) && Distinct(l) && h !in l && Inserted(l', l, i, x)
    ensures At(l, i - 1, h) < |next| && Forward(next[At(l, i - 1, h) := At(l, i + 1, h)][x := x], h, l')
  {
    var next' := next[At(l, i - 1, h) := At(l, i + 1, h)][x := x];
    InsertedBelow(l', l, i, x, |next|);
    assert next[h] == At(l, 0, h);
    assert next'[h] == At(l', 0, h);
    forall k | 0 <= k < |l'| ensures next'[l'[k]] == At(l', k + 1, h) {
      if k < i { assert l[k] == l'[k] && next[l[k]] == At(l, k + 1, h); }
      if k >= i { assert l[k + 1] == l'[k] && next[l[k + 1]] == At(l, k + 2, h) == At(l', k + 1, h); }
    }
  }

  lemma BackwardRemove(prev: seq<nat>, h: nat, l: seq<nat>, l': seq<nat>, i: nat, x: nat)
    requires Backward(prev, h, l) && Distinct(l) && h !in l && Inserted(l', l, i, x)
    ensures At(l, i + 1, h) < |prev| && Backward(prev[At(l, i + 1, h) := At(l, i - 1, h)][x := x], h, l')
  {
    var prev' := prev[At(l, i + 1, h) := At(l, i - 1, h)][x := x];
    InsertedBelow(l', l, i, x, |prev|);
    assert prev[h] == At(l, |l| - 1, h);
    assert prev'[h] == At(l', |l'| - 1, h);
    forall k | 0 <= k < |l'| ensures prev'[l'[k]] == At(l', k - 1, h) {
      if k < i { assert l[k] == l'[k] && prev[l[k]] == At(l, k - 1, h) == At(l', k - 1, h); }
      if k >= i { assert l[k + 1] == l'[k] && prev[l[k + 1]] == At(l, k, h); }
    }
  }

  // ---------------------------------------------------------------- the lists of an arena

  /** Which list each node is in: home[x] names the head, or Nil. */
  ghost predicate Homes(members: seq<seq<nat>>, home: seq<int>) {
    && |members| <= |home|
    && (forall h :: 0 <= h < |members| ==> home[h] == Nil && Distinct(members[h]))
    && (forall x :: 0 <= x < |home| ==> home[x] == Nil || 0 <= home[x] < |members|)
    && (forall h, x: nat {:trigger x in members[h]} :: 0 <= h < |members| ==>
          (x in members[h] <==> x < |home| && home[x] == h))
  }

  ghost predicate Arena(next: seq<nat>, prev: seq<nat>, members: seq<seq<nat>>, home: seq<int>) {
    && |next| == |prev| == |home| && Homes(members, home)
    && (forall h :: 0 <= h < |members| ==> Ring(next, prev, h, members[h]))
    && (forall x :: |members| <= x < |home| && home[x] == Nil ==> next[x] == x && prev[x] == x)
  }

  lemma InsertMembers(l: seq<nat>, i: nat, x: nat)
    requires i <= |l|
    ensures forall y :: y in Insert(l, i, x) <==> y == x || y in l
    ensures Distinct(l) && x !in l ==> Distinct(Insert(l, i, x))
  {
    assert l == l[..i] + l[i..];
  }

  lemma RemoveMembers(l: seq<nat>, i: nat)
    requires i < |l| && Distinct(l)
    ensures forall y :: y in Remove(l, i) <==> y != l[i] && y in l
    ensures Distinct(Remove(l, i))
  {
    var r := Remove(l, i);
    forall k | 0 <= k < |r| ensures r[k] == if k < i then l[k] else l[k + 1] { }
    forall y | y in l && y != l[i] ensures y in r {
      var k :| 0 <= k < |l| && l[k] == y;
      assert r[if k < i then k else k - 1] == y;
    }
  }

  /** Links changed only around list h leave the other rings alone. */
  lemma OtherRings(next: seq<nat>, prev: seq<nat>, next': seq<nat>, prev': seq<nat>, members: seq<seq<nat>>,
                   home: seq<int>, h: nat, x: nat)
    requires Arena(next, prev, members, home) && h < |members| <= x < |home| && (home[x] == Nil || home[x] == h)
    requires |next'| == |prev'| == |next|
    requires forall y :: 0 <= y < |next| && y != h && y != x && home[y] != h ==>
               next'[y] == next[y] && prev'[y] == prev[y]
    ensures forall g :: 0 <= g < |members| && g != h ==> Ring(next', prev', g, members[g])
  {
    forall g | 0 <= g < |members| && g != h ensures Ring(next', prev', g, members[g]) {
      forall k | 0 <= k < |members[g]|
        ensures next'[members[g][k]] == next[members[g][k]] && prev'[members[g][k]] == prev[members[g][k]]
      {
        assert members[g][k] in members[g];
      }
      RingSame(next, prev, next', prev', g, members[g]);
    }
  }

  lemma HomesInsert(members: seq<seq<nat>>, home: seq<int>, h: nat, i: nat, x: nat)
    requires Homes(members, home) && h < |members| <= x < |home| && i <= |members[h]| && home[x] == Nil
    ensures Homes(members[h := Insert(members[h], i, x)], home[x := h])
  {
    InsertMembers(members[h], i, x);
    assert x !in members[h];
  }

  lemma HomesRemove(members: seq<seq<nat>>, home: seq<int>, h: nat, i: nat)
    requires Homes(members, home) && h < |members| && i < |members[h]|
    ensures var x := members[h][i];
      |members| <= x < |home| && home[x] == h && Homes(members[h := Remove(members[h], i)], home[x := Nil])
  {
    RemoveMembers(members[h], i);
    assert members[h][i] in members[h];
  }

  lemma AtHome(members: seq<seq<nat>>, home: seq<int>, h: nat, j: int)
    requires Homes(members, home) && h < |members|
    ensures var y := At(members[h], j, h); y < |home| && (y == h || home[y] == h)
  {
    if 0 <= j < |members[h]| { assert members[h][j] in members[h]; }
  }

  lemma Apart(members: seq<seq<nat>>, home: seq<int>, h: nat)
    requires Homes(members, home) && h < |members|
    ensures h !in members[h]
  {
  }

  lemma ArenaInsert(next: seq<nat>, prev: seq<nat>, members: seq<seq<nat>>, home: seq<int>, h: nat, i: nat, x: nat)
    requires Arena(next, prev, members, home) && h < |members| && i <= |members[h]|
    requires |members| <= x < |home| && home[x] == Nil
    ensures var l := members[h]; var before, after := At(l, i - 1, h), At(l, i, h);
      && before < |next| && after < |next|
      && Arena(next[x := after][before := x], prev[x := before][after := x],
               members[h := Insert(l, i, x)], home[x := h])
  {
    var l := members[h];
    AtHome(members, home, h, i - 1);
    AtHome(members, home, h, i);
    Apart(members, home, h);
    var before, after, l' := At(l, i - 1, h), At(l, i, h), Insert(l, i, x);
    var next', prev' := next[x := after][before := x], prev[x := before][after := x];
    ForwardInsert(next, h, l, l', i, x);
    BackwardInsert(prev, h, l, l', i, x);
    HomesInsert(members, home, h, i, x);
    OtherRings(next, prev, next', prev', members, home, h, x);
  }

  lemma ArenaRemove(next: seq<nat>, prev: seq<nat>, members: seq<seq<nat>>, home: seq<int>, h: nat, i: nat)
    requires Arena(next, prev, members, home) && h < |members| && i < |members[h]|
    ensures var l := members[h]; var x, before, after := l[i], At(l, i - 1, h), At(l, i + 1, h);
      && x < |next| && before < |next| && after < |next|
      && Arena(next[before := after][x := x], prev[after := before][x := x], members[h := Remove(l, i)], home[x := Nil])
  {
    var l := members[h];
    HomesRemove(members, home, h, i);
    AtHome(members, home, h, i - 1);
    AtHome(members, home, h, i + 1);
    Apart(members, home, h);
    var x, before, after, l' := l[i], At(l, i - 1, h), At(l, i + 1, h), Remove(l, i);
    var next', prev' := next[before := after][x := x], prev[after := before][x := x];
    ForwardRemove(next, h, l, l', i, x);
    BackwardRemove(prev, h, l, l', i, x);
    OtherRings(next, prev, next', prev', members, home, h, x);
  }

  lemma ArenaAdd(next: seq<nat>, prev: seq<nat>, members: seq<seq<nat>>, home: seq<int>, h: nat, x: nat)
    requires Arena(next, prev, members, home) && h < |members| <= x < |home| && home[x] == Nil
    ensures next[h] < |prev|
    ensures Arena(next[x := next[h]][h := x], prev[x := h][next[h] := x], members[h := [x] + members[h]], home[x := h])
  {
    ArenaInsert(next, prev, members, home, h, 0, x);
    assert Insert(members[h], 0, x) == [x] + members[h];
    assert At(members[h], -1, h) == h && At(members[h], 0, h) == next[h];
  }

  lemma ArenaAddTail(next: seq<nat>, prev: seq<nat>, members: seq<seq<nat>>, home: seq<int>, h: nat, x: nat)
    requires Arena(next, prev, members, home) && h < |members| <= x < |home| && home[x] == Nil
    ensures prev[h] < |next|
    ensures Arena(next[x := h][prev[h] := x], prev[x := prev[h]][h := x], members[h := members[h] + [x]], home[x := h])
  {
    var l := members[h];
    ArenaInsert(next, prev, members, home, h, |l|, x);
    assert Insert(l, |l|, x) == l + [x];
    assert At(l, |l|, h) == h && At(l, |l| - 1, h) == prev[h];
  }

  class Lists {
    var next: seq<nat>
    var prev: seq<nat>
    ghost var members: seq<seq<nat>>
    ghost var home: seq<int>

    ghost predicate Valid()
      reads this
    {
      Arena(next, prev, members, home)
    }

    /** Every node starts linked to itself, as INIT_LIST_HEAD leaves it. */
    constructor (heads: nat, nodes: nat)
      requires heads <= nodes
      ensures Valid() && |home| == nodes
      ensures members == seq(heads, _ => []) && home == seq(nodes, _ => Nil)
    {
      next := seq(nodes, i => i);
      prev := seq(nodes, i => i);
      members := seq(heads, _ => []);
      home := seq(nodes, _ => Nil);
    }

    /** list_empty. */
    predicate IsEmpty(h: nat)
      reads this
      requires Valid() && h < |members|
      ensures IsEmpty(h) <==> members[h] == []
    {
      assert |members[h]| > 0 ==> members[h][0] in members[h];
      next[h] == h
    }

    /** list_add: at the head of the list. */
    method Add(x: nat, h: nat)
      requires Valid() && h < |members| <= x < |home| && home[x] == Nil
      modifies this
      ensures Valid() && members == old(members)[h := [x] + old(members)[h]] && home == old(home)[x := h]
    {
      ArenaAdd(next, prev, members, home, h, x);
      var after := next[h];
      prev := prev[x := h];
      next := next[x := after];
      next := next[h := x];
      prev := prev[after := x];
      members, home := members[h := [x] + members[h]], home[x := h];
    }

    /** list_add_tail. */
    method AddTail(x: nat, h: nat)
      requires Valid() && h < |members| <= x < |home| && home[x] == Nil
      modifies this
      ensures Valid() && members == old(members)[h := old(members)[h] + [x]] && home == old(home)[x := h]
    {
      ArenaAddTail(next, prev, members, home, h, x);
      var before := prev[h];
      prev := prev[x := before];
      next := next[x := h];
      next := next[before := x];
      prev := prev[h := x];
      members, home := members[h := members[h] + [x]], home[x := h];
    }

    /** list_del: takes a node out of its list, and does nothing to a node in no list. */
    method Del(x: nat) returns (ghost i: int)
      requires Valid() && |members| <= x < |home|
      modifies this
      ensures Valid() && home == old(home)[x := Nil]
      ensures old(home)[x] == Nil ==> members == old(members) && next == old(next) && prev == old(prev)
      ensures old(home)[x] != Nil ==> TakenOut(old(members), members, old(home)[x], i, x)
    {
      ghost var h := home[x];
      i := Nil;
      if h != Nil {
        assert x in members[h];
        i :| 0 <= i < |members[h]| && members[h][i] == x;
        ArenaRemove(next, prev, members, home, h, i);
        members, home := members[h := Remove(members[h], i)], home[x := Nil];
      }
      next := next[prev[x] := next[x]];
      prev := prev[next[x] := prev[x]];
      prev := prev[x := x];
      next := next[x := x];
    }
  }

  /** Element i of list h, which is x, is gone and nothing else changed. */
  ghost predicate TakenOut(members: seq<seq<nat>>, members': seq<seq<nat>>, h: int, i: int, x: nat) {
    && 0 <= h < |members| && 0 <= i < |members[h]| && members[h][i] == x
    && members' == members[h := Remove(members[h], i)]
  }
}
