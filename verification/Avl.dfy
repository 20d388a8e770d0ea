/** The intrusive AVL tree of include/lyos/avl.h. Nodes are numbered; a comparator is modelled by
    a key for each node, so that equal keys compare as 0. */
module Avl {

  const Nil := -1

  datatype Tree = Leaf | Node(left: Tree, id: nat, right: Tree)

  // ---------------------------------------------------------------- trees as values

  function Max(a: nat, b: nat): nat {
    if a > b then a else b
  }

  function H(t: Tree): nat {
    if t.Leaf? then 0 else Max(H(t.left), H(t.right)) + 1
  }

  /** The nodes from left to right. */
  function Order(t: Tree): seq<nat> {
    if t.Leaf? then [] else Order(t.left) + [t.id] + Order(t.right)
  }

  function Bf(t: Tree): int
    requires t.Node?
  {
    H(t.right) - H(t.left)
  }

  ghost predicate Balanced(t: Tree) {
    t.Leaf? || (-1 <= Bf(t) <= 1 && Balanced(t.left) && Balanced(t.right))
  }

  function RotL(t: Tree): Tree
    requires t.Node? && t.right.Node?
  {
    Node(Node(t.left, t.id, t.right.left), t.right.id, t.right.right)
  }

  function RotR(t: Tree): Tree
    requires t.Node? && t.left.Node?
  {
    Node(t.left.left, t.left.id, Node(t.left.right, t.id, t.right))
  }

  /** avl_fixup. */
  function Fixed(t: Tree): Tree
    requires t.Node?
  {
    if Bf(t) == 2 then
      if H(t.right.left) <= H(t.right.right) then RotL(t) else RotL(Node(t.left, t.id, RotR(t.right)))
    else if Bf(t) == -2 then
      if H(t.left.left) >= H(t.left.right) then RotR(t) else RotR(Node(RotL(t.left), t.id, t.right))
    else t
  }

  /** avl_insert_recur. */
  function Insert(t: Tree, x: nat, key: nat -> int): (r: Tree)
    ensures r.Node?
  {
    if t.Leaf? then Node(Leaf, x, Leaf)
    else if key(x) < key(t.id) then Fixed(Node(Insert(t.left, x, key), t.id, t.right))
    else Fixed(Node(t.left, t.id, Insert(t.right, x, key)))
  }

  lemma Reassociated(a: seq<nat>, x: nat, b: seq<nat>, y: nat, c: seq<nat>)
    ensures (a + [x] + b) + [y] + c == a + [x] + (b + [y] + c)
  {
  }

  lemma RotLOrder(t: Tree)
    requires t.Node? && t.right.Node?
    ensures Order(RotL(t)) == Order(t)
  {
    Reassociated(Order(t.left), t.id, Order(t.right.left), t.right.id, Order(t.right.right));
  }

  lemma RotROrder(t: Tree)
    requires t.Node? && t.left.Node?
    ensures Order(RotR(t)) == Order(t)
  {
    Reassociated(Order(t.left.left), t.left.id, Order(t.left.right), t.id, Order(t.right));
  }

  lemma FixedOrder(t: Tree)
    requires t.Node?
    ensures Order(Fixed(t)) == Order(t)
  {
    if Bf(t) == 2 {
      if H(t.right.left) <= H(t.right.right) {
        RotLOrder(t);
      } else {
        RotROrder(t.right);
        RotLOrder(Node(t.left, t.id, RotR(t.right)));
      }
    } else if Bf(t) == -2 {
      if H(t.left.left) >= H(t.left.right) {
        RotROrder(t);
      } else {
        RotLOrder(t.left);
        RotROrder(Node(RotL(t.left), t.id, t.right));
      }
    }
  }

  lemma RightHeavy(t: Tree)
    requires t.Node? && Balanced(t.left) && Balanced(t.right) && Bf(t) == 2
    ensures Balanced(Fixed(t)) && H(t) - 1 <= H(Fixed(t)) <= H(t)
  {
    var r := t.right;
    if H(r.left) <= H(r.right) {
      assert H(r.right) == H(t.left) + 1 && H(t.left) <= H(r.left) <= H(t.left) + 1;
      assert Balanced(Node(t.left, t.id, r.left));
    } else {
      var m := r.left;
      assert H(m) == H(t.left) + 1 && H(r.right) == H(t.left);
      assert Balanced(Node(t.left, t.id, m.left)) && Balanced(Node(m.right, r.id, r.right));
    }
  }

  lemma LeftHeavy(t: Tree)
    requires t.Node? && Balanced(t.left) && Balanced(t.right) && Bf(t) == -2
    ensures Balanced(Fixed(t)) && H(t) - 1 <= H(Fixed(t)) <= H(t)
  {
    var l := t.left;
    if H(l.left) >= H(l.right) {
      assert H(l.left) == H(t.right) + 1 && H(t.right) <= H(l.right) <= H(t.right) + 1;
      assert Balanced(Node(l.right, t.id, t.right));
    } else {
      var m := l.right;
      assert H(m) == H(t.right) + 1 && H(l.left) == H(t.right);
      assert Balanced(Node(l.left, l.id, m.left)) && Balanced(Node(m.right, t.id, t.right));
    }
  }

  lemma FixedBalanced(t: Tree)
    requires t.Node? && Balanced(t.left) && Balanced(t.right) && -2 <= Bf(t) <= 2
    ensures Balanced(Fixed(t)) && H(t) - 1 <= H(Fixed(t)) <= H(t)
    ensures -1 <= Bf(t) <= 1 ==> H(Fixed(t)) == H(t)
  {
    if Bf(t) == 2 { RightHeavy(t); }
    if Bf(t) == -2 { LeftHeavy(t); }
  }

  /** Insertion keeps the tree balanced and adds at most one level. */
  lemma {:induction false} InsertBalanced(t: Tree, x: nat, key: nat -> int)
    requires Balanced(t)
    ensures Balanced(Insert(t, x, key)) && H(t) <= H(Insert(t, x, key)) <= H(t) + 1
  {
    if t.Node? {
      if key(x) < key(t.id) {
        InsertBalanced(t.left, x, key);
        FixedBalanced(Node(Insert(t.left, x, key), t.id, t.right));
      } else {
        InsertBalanced(t.right, x, key);
        FixedBalanced(Node(t.left, t.id, Insert(t.right, x, key)));
      }
    }
  }

  /** The fewest nodes of a balanced tree of this height. */
  function Fewest(h: nat): nat {
    if h < 2 then h else Fewest(h - 1) + Fewest(h - 2) + 1
  }

  lemma {:induction false} FewestGrows(a: nat, b: nat)
    requires a <= b
    ensures Fewest(a) <= Fewest(b)
    decreases b
  {
    if a < b { FewestGrows(a, b - 1); }
  }

  lemma {:induction false} BalancedDense(t: Tree)
    requires Balanced(t)
    ensures |Order(t)| >= Fewest(H(t))
  {
    if t.Node? {
      BalancedDense(t.left);
      BalancedDense(t.right);
      if H(t) >= 2 {
        FewestGrows(H(t) - 2, H(t.left));
        FewestGrows(H(t) - 2, H(t.right));
      }
    }
  }

  /** A balanced tree with too few nodes for height h + 1 has at most height h. */
  lemma HeightBound(t: Tree, h: nat)
    requires Balanced(t) && |Order(t)| < Fewest(h + 1)
    ensures H(t) <= h
  {
    BalancedDense(t);
    if H(t) > h { FewestGrows(h + 1, H(t)); }
  }

  // ---------------------------------------------------------------- search order

  ghost predicate Sorted(s: seq<nat>, key: nat -> int) {
    forall i, j :: 0 <= i < j < |s| ==> key(s[i]) <= key(s[j])
  }

  /** The number of nodes a new one goes behind: those whose keys are not larger. */
  function Place(s: seq<nat>, x: nat, key: nat -> int): (n: nat)
    ensures n <= |s|
  {
    if s == [] || key(x) < key(s[0]) then 0 else 1 + Place(s[1..], x, key)
  }

  lemma {:induction false} PlaceSplits(s: seq<nat>, x: nat, key: nat -> int)
    requires Sorted(s, key)
    ensures forall i :: 0 <= i < |s| ==> (i < Place(s, x, key) <==> key(s[i]) <= key(x))
  {
    if s != [] {
      PlaceSplits(s[1..], x, key);
      forall i | 0 < i < |s| ensures i < Place(s, x, key) <==> key(s[i]) <= key(x) {
        assert s[1..][i - 1] == s[i] && key(s[0]) <= key(s[i]);
      }
    }
  }

  /** Place is the only split of a sorted sequence by the key. */
  lemma PlaceUnique(s: seq<nat>, x: nat, key: nat -> int, n: nat)
    requires Sorted(s, key) && n <= |s| && forall i :: 0 <= i < |s| ==> (i < n <==> key(s[i]) <= key(x))
    ensures n == Place(s, x, key)
  {
    PlaceSplits(s, x, key);
    var p := Place(s, x, key);
    assert n < |s| ==> (n < n <==> key(s[n]) <= key(x));
    assert p < |s| ==> (p < p <==> key(s[p]) <= key(x));
  }

  ghost function Inserted(s: seq<nat>, x: nat, key: nat -> int): seq<nat> {
    s[..Place(s, x, key)] + [x] + s[Place(s, x, key)..]
  }

  lemma SortedParts(t: Tree, key: nat -> int)
    requires t.Node? && Sorted(Order(t), key)
    ensures Sorted(Order(t.left), key) && Sorted(Order(t.right), key)
    ensures forall i :: 0 <= i < |Order(t.left)| ==> key(Order(t.left)[i]) <= key(t.id)
    ensures forall i :: 0 <= i < |Order(t.right)| ==> key(t.id) <= key(Order(t.right)[i])
  {
    SortedThree(Order(t.left), t.id, Order(t.right), key);
  }

  lemma SortedThree(a: seq<nat>, y: nat, c: seq<nat>, key: nat -> int)
    requires Sorted(a + [y] + c, key)
    ensures Sorted(a, key) && Sorted(c, key)
    ensures forall i :: 0 <= i < |a| ==> key(a[i]) <= key(y)
    ensures forall i :: 0 <= i < |c| ==> key(y) <= key(c[i])
  {
    var s := a + [y] + c;
    assert s[|a|] == y;
    forall i, j | 0 <= i < j < |a| ensures key(a[i]) <= key(a[j]) { assert s[i] == a[i] && s[j] == a[j]; }
    forall i | 0 <= i < |a| ensures key(a[i]) <= key(y) { assert s[i] == a[i]; }
    forall i | 0 <= i < |c| ensures key(y) <= key(c[i]) { assert s[|a| + 1 + i] == c[i]; }
    forall i, j | 0 <= i < j < |c| ensures key(c[i]) <= key(c[j]) {
      assert s[|a| + 1 + i] == c[i] && s[|a| + 1 + j] == c[j];
    }
  }

  lemma PlaceLeft(a: seq<nat>, y: nat, c: seq<nat>, x: nat, key: nat -> int)
    requires Sorted(a + [y] + c, key) && key(x) < key(y)
    ensures Sorted(a, key) && Inserted(a + [y] + c, x, key) == Inserted(a, x, key) + [y] + c
  {
    var s := a + [y] + c;
    assert forall i :: 0 <= i < |a| ==> s[i] == a[i];
    var n := Place(a, x, key);
    PlaceSplits(a, x, key);
    forall i | 0 <= i < |s| ensures i < n <==> key(s[i]) <= key(x) {
      assert i >= |a| ==> key(s[|a|]) <= key(s[i]);
    }
    PlaceUnique(s, x, key, n);
    SplitLeft(a, y, c, n);
    Reassociated(a[..n], x, a[n..], y, c);
  }

  lemma SplitLeft(a: seq<nat>, y: nat, c: seq<nat>, n: nat)
    requires n <= |a|
    ensures (a + [y] + c)[..n] == a[..n] && (a + [y] + c)[n..] == a[n..] + [y] + c
  {
  }

  lemma Slices(b: seq<nat>, c: seq<nat>, n: nat)
    requires n <= |c|
    ensures (b + c)[..|b| + n] == b + c[..n] && (b + c)[|b| + n..] == c[n..]
  {
  }

  lemma SortedSuffix(b: seq<nat>, c: seq<nat>, key: nat -> int)
    requires Sorted(b + c, key)
    ensures Sorted(c, key)
  {
    forall i, j | 0 <= i < j < |c| ensures key(c[i]) <= key(c[j]) {
      assert (b + c)[|b| + i] == c[i] && (b + c)[|b| + j] == c[j];
    }
  }

  lemma SplitRight(b: seq<nat>, c: seq<nat>, x: nat, key: nat -> int, n: nat)
    requires Sorted(b + c, key) && b != [] && key(b[|b| - 1]) <= key(x)
    requires forall i :: 0 <= i < |c| ==> (i < n <==> key(c[i]) <= key(x))
    ensures forall i :: 0 <= i < |b + c| ==> (i < |b| + n <==> key((b + c)[i]) <= key(x))
  {
    var s := b + c;
    forall i | 0 <= i < |s| ensures i < |b| + n <==> key(s[i]) <= key(x) {
      if i < |b| {
        assert s[|b| - 1] == b[|b| - 1] && key(s[i]) <= key(s[|b| - 1]);
      } else {
        assert s[i] == c[i - |b|];
      }
    }
  }

  lemma PlaceRight(b: seq<nat>, c: seq<nat>, x: nat, key: nat -> int)
    requires Sorted(b + c, key) && b != [] && key(b[|b| - 1]) <= key(x)
    ensures Sorted(c, key) && Inserted(b + c, x, key) == b + Inserted(c, x, key)
  {
    SortedSuffix(b, c, key);
    var n := Place(c, x, key);
    PlaceSplits(c, x, key);
    SplitRight(b, c, x, key, n);
    PlaceUnique(b + c, x, key, |b| + n);
    Slices(b, c, n);
    Shifted(b, c[..n], x, c[n..]);
  }

  lemma Shifted(b: seq<nat>, p: seq<nat>, x: nat, q: seq<nat>)
    ensures (b + p) + [x] + q == b + (p + [x] + q)
  {
  }

  /** In a search tree insertion puts the node behind all nodes whose keys are not larger and
      moves no other. */
  lemma {:induction false} InsertOrder(t: Tree, x: nat, key: nat -> int)
    requires Sorted(Order(t), key)
    ensures Order(Insert(t, x, key)) == Inserted(Order(t), x, key)
  {
    if t.Node? {
      var a, c := Order(t.left), Order(t.right);
      if key(x) < key(t.id) {
        PlaceLeft(a, t.id, c, x, key);
        InsertOrder(t.left, x, key);
        FixedOrder(Node(Insert(t.left, x, key), t.id, t.right));
      } else {
        PlaceRight(a + [t.id], c, x, key);
        InsertOrder(t.right, x, key);
        FixedOrder(Node(t.left, t.id, Insert(t.right, x, key)));
      }
    }
  }

  lemma InsertedSorted(s: seq<nat>, x: nat, key: nat -> int)
    requires Sorted(s, key)
    ensures Sorted(Inserted(s, x, key), key)
  {
    PlaceSplits(s, x, key);
    var n, r := Place(s, x, key), Inserted(s, x, key);
    forall i | 0 <= i < |r| ensures r[i] == if i < n then s[i] else if i == n then x else s[i - 1] { }
    forall i, j | 0 <= i < j < |r| ensures key(r[i]) <= key(r[j]) {
      if i < n { assert key(s[i]) <= key(x); }
      if j > n { assert key(x) < key(s[j - 1]); }
    }
  }

  lemma InsertSorted(t: Tree, x: nat, key: nat -> int)
    requires Sorted(Order(t), key)
    ensures Sorted(Order(Insert(t, x, key)), key)
  {
    InsertOrder(t, x, key);
    InsertedSorted(Order(t), x, key);
  }

  // ---------------------------------------------------------------- erasing

  /** avl_erase_min: the tree without its first node, which it hands out. */
  function EraseMin(t: Tree): (r: (Tree, nat))
    requires t.Node?
  {
    if t.left.Node? then
      var (l, m) := EraseMin(t.left);
      (Node(l, t.id, t.right), m)
    else (t.right, t.id)
  }

  /** The tree without its root. */
  function Unrooted(t: Tree): Tree
    requires t.Node?
  {
    if t.left.Leaf? then t.right
    else if t.right.Leaf? then t.left
    else
      var (r, m) := EraseMin(t.right);
      Node(t.left, m, r)
  }

  /** avl_erase_recur: a node is recognized by its key. */
  function Erase(t: Tree, x: nat, key: nat -> int): Tree {
    if t.Leaf? then Leaf
    else
      var u :=
        if key(x) < key(t.id) then Node(Erase(t.left, x, key), t.id, t.right)
        else if key(x) > key(t.id) then Node(t.left, t.id, Erase(t.right, x, key))
        else Unrooted(t);
      if u.Leaf? then Leaf else Fixed(u)
  }

  lemma {:induction false} EraseMinOrder(t: Tree)
    requires t.Node?
    ensures Order(t) == [EraseMin(t).1] + Order(EraseMin(t).0)
  {
    if t.left.Node? {
      EraseMinOrder(t.left);
      var l, m := Order(EraseMin(t.left).0), EraseMin(t.left).1;
      assert ([m] + l) + [t.id] + Order(t.right) == [m] + (l + [t.id] + Order(t.right));
    }
  }

  lemma UnrootedOrder(t: Tree)
    requires t.Node?
    ensures Order(Unrooted(t)) == Order(t.left) + Order(t.right)
  {
    if t.left.Node? && t.right.Node? { EraseMinOrder(t.right); }
  }

  ghost function Without(s: seq<nat>, i: int): seq<nat>
    requires i < |s|
  {
    if i < 0 then s else s[..i] + s[i + 1..]
  }

  /** s' is s without its element i, which has the key; or i is -1 and no element has it. */
  ghost predicate Erased(s: seq<nat>, s': seq<nat>, k: int, key: nat -> int, i: int) {
    && -1 <= i < |s| && s' == Without(s, i)
    && if i >= 0 then key(s[i]) == k else forall j :: 0 <= j < |s| ==> key(s[j]) != k
  }

  lemma ErasedLeft(a: seq<nat>, a': seq<nat>, b: seq<nat>, k: int, key: nat -> int, i: int)
    requires Erased(a, a', k, key, i) && forall j :: 0 <= j < |b| ==> key(b[j]) > k
    ensures Erased(a + b, a' + b, k, key, i)
  {
    if i >= 0 {
      assert (a + b)[..i] == a[..i] && (a + b)[i + 1..] == a[i + 1..] + b;
    }
  }

  lemma ErasedRight(a: seq<nat>, b: seq<nat>, b': seq<nat>, k: int, key: nat -> int, i: int)
    requires Erased(b, b', k, key, i) && forall j :: 0 <= j < |a| ==> key(a[j]) < k
    ensures Erased(a + b, a + b', k, key, if i < 0 then i else |a| + i)
  {
    if i >= 0 {
      assert (a + b)[..|a| + i] == a + b[..i] && (a + b)[|a| + i + 1..] == b[i + 1..];
    }
  }

  lemma EraseInLeft(t: Tree, x: nat, key: nat -> int, i: int)
    requires t.Node? && Sorted(Order(t), key) && key(x) < key(t.id)
    requires Erased(Order(t.left), Order(Erase(t.left, x, key)), key(x), key, i)
    ensures Erased(Order(t), Order(Erase(t, x, key)), key(x), key, i)
  {
    SortedParts(t, key);
    var u, rest := Node(Erase(t.left, x, key), t.id, t.right), [t.id] + Order(t.right);
    FixedOrder(u);
    forall j | 0 <= j < |rest| ensures key(rest[j]) > key(x) {
      if j > 0 { assert rest[j] == Order(t.right)[j - 1]; }
    }
    ErasedLeft(Order(t.left), Order(u.left), rest, key(x), key, i);
    Regroup(Order(t.left), t.id, Order(t.right));
    Regroup(Order(u.left), t.id, Order(t.right));
  }

  lemma Regroup(a: seq<nat>, y: nat, c: seq<nat>)
    ensures a + [y] + c == a + ([y] + c)
  {
  }

  lemma EraseInRight(t: Tree, x: nat, key: nat -> int, i: int) returns (j: int)
    requires t.Node? && Sorted(Order(t), key) && key(x) > key(t.id)
    requires Erased(Order(t.right), Order(Erase(t.right, x, key)), key(x), key, i)
    ensures Erased(Order(t), Order(Erase(t, x, key)), key(x), key, j)
  {
    EraseRightOrder(t, x, key);
    var b' := Order(Erase(t.right, x, key));
    j := ErasedBehind(Order(t), Order(Erase(t, x, key)), Order(t.left), t.id, Order(t.right), b', key(x), key, i);
  }

  lemma EraseRightOrder(t: Tree, x: nat, key: nat -> int)
    requires t.Node? && key(x) > key(t.id)
    ensures Order(t) == Order(t.left) + [t.id] + Order(t.right)
    ensures Order(Erase(t, x, key)) == Order(t.left) + [t.id] + Order(Erase(t.right, x, key))
  {
    FixedOrder(Node(t.left, t.id, Erase(t.right, x, key)));
  }

  lemma ErasedBehind(s: seq<nat>, s': seq<nat>, a: seq<nat>, y: nat, b: seq<nat>, b': seq<nat>, k: int,
                     key: nat -> int, i: int) returns (j: int)
    requires s == a + [y] + b && s' == a + [y] + b' && Sorted(s, key) && key(y) < k && Erased(b, b', k, key, i)
    ensures Erased(s, s', k, key, j)
  {
    SortedThree(a, y, b, key);
    var front := a + [y];
    forall j | 0 <= j < |front| ensures key(front[j]) < k { assert front[j] == if j < |a| then a[j] else y; }
    ErasedRight(front, b, b', k, key, i);
    j := if i < 0 then i else |front| + i;
  }

  lemma EraseAtRoot(t: Tree, x: nat, key: nat -> int)
    requires t.Node? && key(x) == key(t.id)
    ensures Erased(Order(t), Order(Erase(t, x, key)), key(x), key, |Order(t.left)|)
  {
    var a, c := Order(t.left), Order(t.right);
    UnrootedOrder(t);
    if Unrooted(t).Node? { FixedOrder(Unrooted(t)); }
    assert Order(t)[..|a|] == a && Order(t)[|a| + 1..] == c;
  }

  /** Erasing takes out exactly one node with the given key, if there is one, and moves no
      other. */
  lemma {:induction false} EraseOrder(t: Tree, x: nat, key: nat -> int) returns (i: int)
    requires Sorted(Order(t), key)
    ensures Erased(Order(t), Order(Erase(t, x, key)), key(x), key, i)
  {
    if t.Leaf? { return -1; }
    SortedParts(t, key);
    if key(x) < key(t.id) {
      i := EraseOrder(t.left, x, key);
      EraseInLeft(t, x, key, i);
    } else if key(x) > key(t.id) {
      i := EraseOrder(t.right, x, key);
      i := EraseInRight(t, x, key, i);
    } else {
      i := |Order(t.left)|;
      EraseAtRoot(t, x, key);
    }
  }
}
