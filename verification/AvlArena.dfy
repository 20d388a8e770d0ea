/** The AVL tree relinked in place: nodes hold left, right and height fields, as struct avl_node
    in include/lyos/avl.h. */
module AvlArena {
  import opened Avl

  datatype Mem = Mem(left: seq<int>, right: seq<int>, height: seq<int>)

  ghost predicate Fits(m: Mem) {
    |m.left| == |m.right| == |m.height|
  }

  function Ids(t: Tree): set<nat> {
    if t.Leaf? then {} else Ids(t.left) + {t.id} + Ids(t.right)
  }

  /** No node is in the tree twice. */
  ghost predicate Clean(t: Tree) {
    || t.Leaf?
    || (t.id !in Ids(t.left) && t.id !in Ids(t.right) && Ids(t.left) !! Ids(t.right) && Clean(t.left) && Clean(t.right))
  }

  /** The nodes reached from root form the tree t, with exact heights. */
  ghost predicate Rep(m: Mem, root: int, t: Tree)
    requires Fits(m)
    decreases t, 1
  {
    if t.Leaf? then root == Nil
    else root == t.id && Kids(m, t) && m.height[t.id] == H(t)
  }

  /** As Rep, but the height of the root may be out of date. */
  ghost predicate Kids(m: Mem, t: Tree)
    requires Fits(m) && t.Node?
    decreases t, 0
  {
    t.id < |m.left| && Rep(m, m.left[t.id], t.left) && Rep(m, m.right[t.id], t.right)
  }

  ghost predicate SameAt(m: Mem, m': Mem, x: nat)
    requires Fits(m) && Fits(m') && x < |m.left| == |m'.left|
  {
    m'.left[x] == m.left[x] && m'.right[x] == m.right[x] && m'.height[x] == m.height[x]
  }

  /** Only these nodes changed. */
  ghost predicate Only(m: Mem, m': Mem, ids: set<nat>) {
    && Fits(m) && Fits(m') && |m.left| == |m'.left|
    && forall x: nat :: x < |m.left| && x !in ids ==> SameAt(m, m', x)
  }

  lemma {:induction false} RepStays(m: Mem, m': Mem, root: int, t: Tree, ids: set<nat>)
    requires Fits(m) && Rep(m, root, t) && Only(m, m', ids) && Ids(t) !! ids
    ensures Rep(m', root, t)
    decreases t
  {
    if t.Node? {
      assert SameAt(m, m', t.id);
      RepStays(m, m', m.left[t.id], t.left, ids);
      RepStays(m, m', m.right[t.id], t.right, ids);
    }
  }

  lemma KidsStay(m: Mem, m': Mem, t: Tree)
    requires Fits(m) && t.Node? && Kids(m, t) && Clean(t) && Only(m, m', {t.id})
    requires m'.left[t.id] == m.left[t.id] && m'.right[t.id] == m.right[t.id]
    ensures Kids(m', t)
  {
    RepStays(m, m', m.left[t.id], t.left, {t.id});
    RepStays(m, m', m.right[t.id], t.right, {t.id});
  }

  lemma RotLClean(t: Tree)
    requires t.Node? && t.right.Node? && Clean(t)
    ensures Clean(RotL(t)) && Ids(RotL(t)) == Ids(t)
  {
    var r := t.right;
    assert Ids(r) == Ids(r.left) + {r.id} + Ids(r.right);
    var low := Node(t.left, t.id, r.left);
    assert Clean(low) && Ids(low) == Ids(t.left) + {t.id} + Ids(r.left);
  }

  lemma RotRClean(t: Tree)
    requires t.Node? && t.left.Node? && Clean(t)
    ensures Clean(RotR(t)) && Ids(RotR(t)) == Ids(t)
  {
    var l := t.left;
    assert Ids(l) == Ids(l.left) + {l.id} + Ids(l.right);
    var low := Node(l.right, t.id, t.right);
    assert Clean(low) && Ids(low) == Ids(l.right) + {t.id} + Ids(t.right);
  }

  lemma FixedClean(t: Tree)
    requires t.Node? && Clean(t)
    ensures Clean(Fixed(t)) && Ids(Fixed(t)) == Ids(t)
  {
    if Bf(t) == 2 {
      if H(t.right.left) <= H(t.right.right) {
        RotLClean(t);
      } else {
        RotRClean(t.right);
        RotLClean(Node(t.left, t.id, RotR(t.right)));
      }
    } else if Bf(t) == -2 {
      if H(t.left.left) >= H(t.left.right) {
        RotRClean(t);
      } else {
        RotLClean(t.left);
        RotRClean(Node(RotL(t.left), t.id, t.right));
      }
    }
  }

  lemma {:induction false} InsertClean(t: Tree, x: nat, key: nat -> int)
    requires Clean(t) && x !in Ids(t)
    ensures Clean(Insert(t, x, key)) && Ids(Insert(t, x, key)) == Ids(t) + {x}
  {
    if t.Node? {
      if key(x) < key(t.id) {
        InsertClean(t.left, x, key);
        FixedClean(Node(Insert(t.left, x, key), t.id, t.right));
      } else {
        InsertClean(t.right, x, key);
        FixedClean(Node(t.left, t.id, Insert(t.right, x, key)));
      }
    }
  }

  class Arena {
    const key: nat -> int
    var left: seq<int>
    var right: seq<int>
    var height: seq<int>

    ghost function M(): Mem
      reads this
    {
      Mem(left, right, height)
    }

    constructor (n: nat, key: nat -> int)
      ensures Fits(M()) && |left| == n && this.key == key
    {
      this.key := key;
      left := seq(n, _ => Nil);
      right := seq(n, _ => Nil);
      height := seq(n, _ => 0);
    }

    /** avl_tree_height. */
    function Height(x: int): int
      reads this
      requires Fits(M()) && -1 <= x < |height|
    {
      if x == Nil then 0 else height[x]
    }

    lemma HeightIs(x: int, t: Tree)
      requires Fits(M()) && Rep(M(), x, t)
      ensures -1 <= x < |height| && Height(x) == H(t)
    {
    }

    /** avl_set_height. */
    method SetHeight(x: nat, ghost t: Tree)
      requires Fits(M()) && t.Node? && x == t.id && Kids(M(), t) && Clean(t)
      modifies this`height
      ensures Only(old(M()), M(), {x}) && Rep(M(), x, t)
    {
      HeightIs(left[x], t.left);
      HeightIs(right[x], t.right);
      var l, r := Height(left[x]), Height(right[x]);
      height := height[x := (if l > r then l else r) + 1];
      KidsStay(old(M()), M(), t);
    }

    /** avl_left_rotate. */
    method LeftRotate(x: nat, ghost t: Tree) returns (k1: nat)
      requires Fits(M()) && t.Node? && x == t.id && t.right.Node? && Kids(M(), t) && Clean(t)
      modifies this
      ensures Only(old(M()), M(), Ids(t)) && Rep(M(), k1, RotL(t))
    {
      ghost var m0 := M();
      k1 := right[x];
      assert Rep(m0, k1, t.right) && Kids(m0, t.right);
      var k2 := left[k1];
      right := right[x := k2];
      left := left[k1 := x];
      ghost var m1 := M();
      ghost var low := Node(t.left, x, t.right.left);
      RepStays(m0, m1, m0.left[x], t.left, {x, k1});
      RepStays(m0, m1, k2, t.right.left, {x, k1});
      RepStays(m0, m1, m0.right[k1], t.right.right, {x, k1});
      SetHeight(x, low);
      RepStays(m1, M(), m1.right[k1], t.right.right, {x});
      SetHeight(k1, RotL(t));
    }

    /** avl_right_rotate. */
    method RightRotate(x: nat, ghost t: Tree) returns (k1: nat)
      requires Fits(M()) && t.Node? && x == t.id && t.left.Node? && Kids(M(), t) && Clean(t)
      modifies this
      ensures Only(old(M()), M(), Ids(t)) && Rep(M(), k1, RotR(t))
    {
      ghost var m0 := M();
      k1 := left[x];
      assert Rep(m0, k1, t.left) && Kids(m0, t.left);
      var k2 := right[k1];
      left := left[x := k2];
      right := right[k1 := x];
      ghost var m1 := M();
      ghost var low := Node(t.left.right, x, t.right);
      RepStays(m0, m1, m0.right[x], t.right, {x, k1});
      RepStays(m0, m1, k2, t.left.right, {x, k1});
      RepStays(m0, m1, m0.left[k1], t.left.left, {x, k1});
      SetHeight(x, low);
      RepStays(m1, M(), m1.left[k1], t.left.left, {x});
      SetHeight(k1, RotR(t));
    }

    /** avl_left_right_rotate. */
    method LeftRightRotate(x: nat, ghost t: Tree) returns (k: nat)
      requires Fits(M()) && t.Node? && x == t.id && t.left.Node? && t.left.right.Node? && Kids(M(), t) && Clean(t)
      modifies this
      ensures Only(old(M()), M(), Ids(t)) && Rep(M(), k, RotR(Node(RotL(t.left), x, t.right)))
    {
      ghost var m0, u := M(), Node(RotL(t.left), x, t.right);
      assert Rep(m0, left[x], t.left);
      var l := LeftRotate(left[x], t.left);
      ghost var m1 := M();
      RepStays(m0, m1, m0.right[x], t.right, Ids(t.left));
      RotLClean(t.left);
      left := left[x := l];
      RepStays(m1, M(), l, u.left, {x});
      RepStays(m1, M(), right[x], t.right, {x});
      k := RightRotate(x, u);
    }

    /** avl_right_left_rotate. */
    method RightLeftRotate(x: nat, ghost t: Tree) returns (k: nat)
      requires Fits(M()) && t.Node? && x == t.id && t.right.Node? && t.right.left.Node? && Kids(M(), t) && Clean(t)
      modifies this
      ensures Only(old(M()), M(), Ids(t)) && Rep(M(), k, RotL(Node(t.left, x, RotR(t.right))))
    {
      ghost var m0, u := M(), Node(t.left, x, RotR(t.right));
      assert Rep(m0, right[x], t.right);
      var r := RightRotate(right[x], t.right);
      ghost var m1 := M();
      RepStays(m0, m1, m0.left[x], t.left, Ids(t.right));
      RotRClean(t.right);
      right := right[x := r];
      RepStays(m1, M(), r, u.right, {x});
      RepStays(m1, M(), left[x], t.left, {x});
      k := LeftRotate(x, u);
    }

    /** avl_fixup, on a subtree whose balance factor is bf. */
    method Fixup(bf: int, x: nat, ghost t: Tree) returns (k: nat)
      requires Fits(M()) && t.Node? && Rep(M(), x, t) && Clean(t) && bf == Bf(t)
      modifies this
      ensures Only(old(M()), M(), Ids(t)) && Rep(M(), k, Fixed(t))
    {
      k := x;
      if bf == 2 {
        var r := right[x];
        assert Rep(M(), r, t.right) && Kids(M(), t.right);
        HeightIs(left[r], t.right.left);
        HeightIs(right[r], t.right.right);
        if Height(left[r]) <= Height(right[r]) { k := LeftRotate(x, t); } else { k := RightLeftRotate(x, t); }
      } else if bf == -2 {
        var l := left[x];
        assert Rep(M(), l, t.left) && Kids(M(), t.left);
        HeightIs(left[l], t.left.left);
        HeightIs(right[l], t.left.right);
        if Height(left[l]) >= Height(right[l]) { k := RightRotate(x, t); } else { k := LeftRightRotate(x, t); }
      }
    }

    /** The end of avl_insert_recur and of avl_erase_recur. */
    method Rebalance(x: nat, ghost t: Tree) returns (k: nat)
      requires Fits(M()) && t.Node? && x == t.id && Kids(M(), t) && Clean(t)
      modifies this
      ensures Only(old(M()), M(), Ids(t)) && Rep(M(), k, Fixed(t))
    {
      SetHeight(x, t);
      HeightIs(left[x], t.left);
      HeightIs(right[x], t.right);
      var bf := Height(right[x]) - Height(left[x]);
      k := x;
      if bf == 2 || bf == -2 { k := Fixup(bf, x, t); }
    }

    /** The node hangs the new left subtree below x. */
    method HangLeft(x: nat, l: int, ghost t: Tree, ghost l': Tree, ghost before: Mem, ghost ids: set<nat>)
      requires t.Node? && x == t.id && Clean(t) && Fits(before) && Kids(before, t) && Only(before, M(), ids)
      requires Rep(M(), l, l')
      requires x !in ids && x !in Ids(l') && ids !! Ids(t.right)
      modifies this`left
      ensures Only(before, M(), ids + {x}) && Kids(M(), Node(l', x, t.right))
    {
      ghost var m1 := M();
      RepStays(before, m1, before.right[x], t.right, ids);
      assert SameAt(before, m1, x);
      left := left[x := l];
      RepStays(m1, M(), l, l', {x});
      RepStays(m1, M(), right[x], t.right, {x});
    }

    method HangRight(x: nat, r: int, ghost t: Tree, ghost r': Tree, ghost before: Mem, ghost ids: set<nat>)
      requires t.Node? && x == t.id && Clean(t) && Fits(before) && Kids(before, t) && Only(before, M(), ids)
      requires Rep(M(), r, r')
      requires x !in ids && x !in Ids(r') && ids !! Ids(t.left)
      modifies this`right
      ensures Only(before, M(), ids + {x}) && Kids(M(), Node(t.left, x, r'))
    {
      ghost var m1 := M();
      RepStays(before, m1, before.left[x], t.left, ids);
      assert SameAt(before, m1, x);
      right := right[x := r];
      RepStays(m1, M(), r, r', {x});
      RepStays(m1, M(), left[x], t.left, {x});
    }

    /** The changed left subtree is hung below x, and x is rebalanced. */
    method FinishLeft(x: nat, l: int, ghost t: Tree, ghost l': Tree, ghost before: Mem,
                      ghost ids: set<nat>) returns (k: nat)
      requires t.Node? && x == t.id && Clean(t) && Fits(before) && Kids(before, t) && Only(before, M(), ids)
      requires Rep(M(), l, l')
      requires x !in ids && ids !! Ids(t.right) && Clean(l') && Ids(l') <= ids
      modifies this
      ensures Only(before, M(), ids + {x} + Ids(t.right)) && Rep(M(), k, Fixed(Node(l', x, t.right)))
    {
      HangLeft(x, l, t, l', before, ids);
      ghost var m1 := M();
      k := Rebalance(x, Node(l', x, t.right));
      OnlyChain(before, m1, M(), ids + {x}, Ids(Node(l', x, t.right)), ids + {x} + Ids(t.right));
    }

    method FinishRight(x: nat, r: int, ghost t: Tree, ghost r': Tree, ghost before: Mem,
                       ghost ids: set<nat>) returns (k: nat)
      requires t.Node? && x == t.id && Clean(t) && Fits(before) && Kids(before, t) && Only(before, M(), ids)
      requires Rep(M(), r, r')
      requires x !in ids && ids !! Ids(t.left) && Clean(r') && Ids(r') <= ids
      modifies this
      ensures Only(before, M(), ids + {x} + Ids(t.left)) && Rep(M(), k, Fixed(Node(t.left, x, r')))
    {
      HangRight(x, r, t, r', before, ids);
      ghost var m1 := M();
      k := Rebalance(x, Node(t.left, x, r'));
      OnlyChain(before, m1, M(), ids + {x}, Ids(Node(t.left, x, r')), ids + {x} + Ids(t.left));
    }

    /** avl_insert_recur. */
    method InsertRecur(node: nat, sub: int, ghost t: Tree) returns (root: int)
      requires Fits(M()) && Rep(M(), sub, t) && Clean(t) && node < |left| && node !in Ids(t)
      modifies this
      ensures Only(old(M()), M(), Ids(t) + {node}) && Rep(M(), root, Insert(t, node, key))
      decreases t
    {
      if sub == Nil {
        left, right, height := left[node := Nil], right[node := Nil], height[node := 1];
        return node;
      }
      ghost var m0 := M();
      if key(node) < key(sub) {
        InsertClean(t.left, node, key);
        var l := InsertRecur(node, left[sub], t.left);
        root := FinishLeft(sub, l, t, Insert(t.left, node, key), m0, Ids(t.left) + {node});
      } else {
        InsertClean(t.right, node, key);
        var r := InsertRecur(node, right[sub], t.right);
        root := FinishRight(sub, r, t, Insert(t.right, node, key), m0, Ids(t.right) + {node});
      }
    }

    // -------------------------------------------------------------- erasing

    /** avl_erase_min. */
    method TakeMin(sub: nat, ghost t: Tree) returns (root: int, it: nat)
      requires Fits(M()) && t.Node? && Rep(M(), sub, t) && Clean(t)
      modifies this
      ensures Only(old(M()), M(), Ids(t)) && Rep(M(), root, EraseMin(t).0) && it == EraseMin(t).1
      decreases t
    {
      ghost var m0 := M();
      EraseMinClean(t);
      assert Rep(m0, left[sub], t.left) && Rep(m0, right[sub], t.right);
      if left[sub] != Nil {
        EraseMinClean(t.left);
        var l;
        l, it := TakeMin(left[sub], t.left);
        HangLeft(sub, l, t, EraseMin(t.left).0, m0, Ids(t.left));
        SetHeight(sub, EraseMin(t).0);
        root := sub;
      } else {
        it, root := sub, right[sub];
        if root != Nil { SetHeight(root, t.right); }
      }
    }

    /** The root is replaced by the first node of its right subtree. */
    method Replace(sub: nat, ghost t: Tree) returns (tmp: nat)
      requires Fits(M()) && t.Node? && sub == t.id && t.left.Node? && t.right.Node? && Kids(M(), t) && Clean(t)
      modifies this
      ensures Only(old(M()), M(), Ids(t)) && Kids(M(), Unrooted(t)) && tmp == Unrooted(t).id
    {
      ghost var m0, u := M(), Unrooted(t);
      EraseMinClean(t.right);
      assert Rep(m0, right[sub], t.right);
      RepIds(m0, right[sub], t.right);
      var r;
      r, tmp := TakeMin(right[sub], t.right);
      ghost var m1 := M();
      RepStays(m0, m1, m0.left[sub], t.left, Ids(t.right));
      assert SameAt(m0, m1, sub);
      right := right[sub := r];
      right := right[tmp := right[sub]];
      left := left[tmp := left[sub]];
      RepStays(m1, M(), r, u.right, {sub, tmp});
      RepStays(m1, M(), left[tmp], t.left, {sub, tmp});
    }

    /** avl_erase_recur where the root itself is erased. */
    method EraseRoot(sub: nat, ghost t: Tree) returns (root: int)
      requires Fits(M()) && t.Node? && Rep(M(), sub, t) && Clean(t)
      modifies this
      ensures Only(old(M()), M(), Ids(t)) && Rep(M(), root, if Unrooted(t).Leaf? then Leaf else Fixed(Unrooted(t)))
    {
      UnrootedClean(t);
      assert Rep(M(), left[sub], t.left) && Rep(M(), right[sub], t.right);
      if left[sub] == Nil {
        root := right[sub];
      } else if right[sub] == Nil {
        root := left[sub];
      } else {
        root := Replace(sub, t);
      }
      if root == Nil { return; }
      root := Rebalance(root, Unrooted(t));
    }

    /** avl_erase_recur. */
    method EraseRecur(node: nat, sub: int, ghost t: Tree) returns (root: int)
      requires Fits(M()) && Rep(M(), sub, t) && Clean(t)
      modifies this
      ensures Only(old(M()), M(), Ids(t)) && Rep(M(), root, Erase(t, node, key))
      decreases t
    {
      if sub == Nil { return Nil; }
      ghost var m0 := M();
      if key(node) < key(sub) {
        EraseClean(t.left, node, key);
        var l := EraseRecur(node, left[sub], t.left);
        root := FinishLeft(sub, l, t, Erase(t.left, node, key), m0, Ids(t.left));
      } else if key(node) > key(sub) {
        EraseClean(t.right, node, key);
        var r := EraseRecur(node, right[sub], t.right);
        root := FinishRight(sub, r, t, Erase(t.right, node, key), m0, Ids(t.right));
      } else {
        root := EraseRoot(sub, t);
      }
    }
  }

  lemma {:induction false} RepIds(m: Mem, root: int, t: Tree)
    requires Fits(m) && Rep(m, root, t)
    ensures forall x :: x in Ids(t) ==> x < |m.left|
    decreases t
  {
    if t.Node? {
      RepIds(m, m.left[t.id], t.left);
      RepIds(m, m.right[t.id], t.right);
    }
  }

  lemma OnlyChain(a: Mem, b: Mem, c: Mem, x: set<nat>, y: set<nat>, z: set<nat>)
    requires Only(a, b, x) && Only(b, c, y) && x + y <= z
    ensures Only(a, c, z)
  {
    forall i: nat | i < |a.left| && i !in z ensures SameAt(a, c, i) { assert SameAt(a, b, i) && SameAt(b, c, i); }
  }

  lemma {:induction false} EraseMinClean(t: Tree)
    requires t.Node? && Clean(t)
    ensures Clean(EraseMin(t).0) && Ids(EraseMin(t).0) == Ids(t) - {EraseMin(t).1} && EraseMin(t).1 in Ids(t)
  {
    if t.left.Node? { EraseMinClean(t.left); }
  }

  lemma UnrootedClean(t: Tree)
    requires t.Node? && Clean(t)
    ensures Clean(Unrooted(t)) && Ids(Unrooted(t)) == Ids(t) - {t.id}
  {
    if t.left.Node? && t.right.Node? { EraseMinClean(t.right); }
  }

  lemma {:induction false} EraseClean(t: Tree, x: nat, key: nat -> int)
    requires Clean(t)
    ensures Clean(Erase(t, x, key)) && Ids(Erase(t, x, key)) <= Ids(t)
  {
    if t.Node? {
      if key(x) < key(t.id) {
        EraseClean(t.left, x, key);
        FixedClean(Node(Erase(t.left, x, key), t.id, t.right));
      } else if key(x) > key(t.id) {
        EraseClean(t.right, x, key);
        FixedClean(Node(t.left, t.id, Erase(t.right, x, key)));
      } else {
        UnrootedClean(t);
        if Unrooted(t).Node? { FixedClean(Unrooted(t)); }
      }
    }
  }

  // ---------------------------------------------------------------- a tree and its root

  class Root {
    const arena: Arena
    var node: int
    ghost var tree: Tree

    ghost predicate Valid()
      reads this, arena
    {
      && Fits(arena.M()) && Rep(arena.M(), node, tree) && Clean(tree) && Sorted(Order(tree), arena.key)
    }

    /** INIT_AVL_ROOT. */
    constructor (arena: Arena)
      requires Fits(arena.M())
      ensures Valid() && this.arena == arena && tree == Leaf
    {
      this.arena, node, tree := arena, Nil, Leaf;
    }

    /** avl_insert: the node goes behind all with keys not larger, a balanced tree stays balanced,
        and the stored heights are exact. */
    method Add(x: nat)
      requires Valid() && x < |arena.left| && x !in Ids(tree)
      modifies this, arena
      ensures Valid() && Ids(tree) == old(Ids(tree)) + {x} && Order(tree) == Inserted(old(Order(tree)), x, arena.key)
      ensures old(Balanced(tree)) ==> Balanced(tree) && H(tree) <= old(H(tree)) + 1
      ensures Only(old(arena.M()), arena.M(), Ids(tree))
    {
      InsertClean(tree, x, arena.key);
      InsertOrder(tree, x, arena.key);
      InsertSorted(tree, x, arena.key);
      if Balanced(tree) { InsertBalanced(tree, x, arena.key); }
      node := arena.InsertRecur(x, node, tree);
      tree := Insert(tree, x, arena.key);
    }

    /** avl_erase: one node with the key of x is taken out if there is one; heights stay exact. */
    method Remove(x: nat) returns (ghost i: int)
      requires Valid()
      modifies this, arena
      ensures Valid() && Erased(old(Order(tree)), Order(tree), arena.key(x), arena.key, i)
      ensures Only(old(arena.M()), arena.M(), old(Ids(tree)))
    {
      EraseClean(tree, x, arena.key);
      i := EraseOrder(tree, x, arena.key);
      ErasedSorted(Order(tree), Order(Erase(tree, x, arena.key)), arena.key(x), arena.key, i);
      node := arena.EraseRecur(x, node, tree);
      tree := Erase(tree, x, arena.key);
    }
  }

  lemma ErasedSorted(s: seq<nat>, s': seq<nat>, k: int, key: nat -> int, i: int)
    requires Sorted(s, key) && Erased(s, s', k, key, i)
    ensures Sorted(s', key)
  {
    if i >= 0 {
      forall a, b | 0 <= a < b < |s'| ensures key(s'[a]) <= key(s'[b]) {
        assert s'[a] == s[if a < i then a else a + 1] && s'[b] == s[if b < i then b else b + 1];
      }
    }
  }
}
