/** The AVL tree iterator of include/lyos/avl.h: a depth, one branch bit per level, and the nodes
    on the path below the root. Positions are told by the directions from the root, and must agree
    with the order of the nodes. */
module AvlIter {
  import opened Bits
  import opened Avl
  import opened AvlArena

  const MAX_DEPTH := 32

  // ---------------------------------------------------------------- trees that fit the path

  /** The tree after inserting these nodes, first to last. */
  ghost function Built(nodes: seq<nat>, key: nat -> int): Tree {
    if nodes == [] then Leaf else Insert(Built(nodes[..|nodes| - 1], key), nodes[|nodes| - 1], key)
  }

  lemma {:induction false} BuiltBalanced(nodes: seq<nat>, key: nat -> int)
    ensures Balanced(Built(nodes, key)) && Sorted(Order(Built(nodes, key)), key)
    ensures |Order(Built(nodes, key))| == |nodes|
  {
    if nodes != [] {
      var front, x := nodes[..|nodes| - 1], nodes[|nodes| - 1];
      BuiltBalanced(front, key);
      InsertBalanced(Built(front, key), x, key);
      InsertSorted(Built(front, key), x, key);
      InsertOrder(Built(front, key), x, key);
    }
  }

  /** Each value of Fewest follows from the two before it. */
  lemma FewestNext(h: nat, a: nat, b: nat)
    requires Fewest(h) == a && Fewest(h + 1) == b
    ensures Fewest(h + 2) == b + a + 1 && Fewest(h + 3) == 2 * b + a + 2
  {
    assert Fewest(h + 3) == Fewest(h + 2) + Fewest(h + 1) + 1;
  }

  lemma FewestHalf()
    ensures Fewest(16) == 2583 && Fewest(17) == 4180
  {
    FewestNext(0, 0, 1);
    FewestNext(2, 2, 4);
    FewestNext(4, 7, 12);
    FewestNext(6, 20, 33);
    FewestNext(8, 54, 88);
    FewestNext(10, 143, 232);
    FewestNext(12, 376, 609);
    FewestNext(14, 986, 1596);
  }

  /** A tree of 33 levels has at least 9227464 nodes. */
  lemma FewestDeep(h: nat)
    requires h == MAX_DEPTH + 1
    ensures Fewest(h) == 9_227_464
  {
    FewestHalf();
    FewestNext(16, 2583, 4180);
    FewestNext(18, 6764, 10945);
    FewestNext(20, 17710, 28656);
    FewestNext(22, 46367, 75024);
    FewestNext(24, 121392, 196417);
    FewestNext(26, 317810, 514228);
    FewestNext(28, 832039, 1346268);
    FewestNext(30, 2178308, 3524577);
  }

  /** A tree made by insertions alone fits the path array while it has fewer nodes than that. */
  lemma InsertOnlyFits(nodes: seq<nat>, key: nat -> int)
    requires |nodes| < 9_227_464
    ensures H(Built(nodes, key)) <= MAX_DEPTH
  {
    BuiltBalanced(nodes, key);
    var h := MAX_DEPTH;
    FewestDeep(h + 1);
    HeightBound(Built(nodes, key), h);
  }

  // ---------------------------------------------------------------- positions

  /** The subtree reached by these directions, where true is right. */
  ghost function Sub(t: Tree, d: seq<bool>): Tree {
    if d == [] || t.Leaf? then t else Sub(if d[0] then t.right else t.left, d[1..])
  }

  /** The number of nodes before that subtree. */
  ghost function Prior(t: Tree, d: seq<bool>): nat {
    if d == [] || t.Leaf? then 0
    else if d[0] then |Order(t.left)| + 1 + Prior(t.right, d[1..])
    else Prior(t.left, d[1..])
  }

  /** The number of nodes up to the end of that subtree. */
  ghost function Upto(t: Tree, d: seq<bool>): nat {
    Prior(t, d) + |Order(Sub(t, d))|
  }

  /** The index of the root of that subtree in the order of all nodes. */
  ghost function Rank(t: Tree, d: seq<bool>): nat
    requires Sub(t, d).Node?
  {
    Prior(t, d) + |Order(Sub(t, d).left)|
  }

  lemma {:induction false} SubRange(t: Tree, d: seq<bool>)
    ensures Upto(t, d) <= |Order(t)|
    ensures Sub(t, d).Node? ==>
              Rank(t, d) < |Order(t)| && Order(t)[Rank(t, d)] == Sub(t, d).id && |d| + H(Sub(t, d)) <= H(t)
    decreases d
  {
    if d != [] && t.Node? { SubRange(if d[0] then t.right else t.left, d[1..]); }
  }

  lemma {:induction false} SubStep(t: Tree, d: seq<bool>, b: bool)
    requires Sub(t, d).Node?
    ensures Sub(t, d + [b]) == if b then Sub(t, d).right else Sub(t, d).left
    ensures Prior(t, d + [b]) == if b then Rank(t, d) + 1 else Prior(t, d)
    decreases d
  {
    if d == [] {
      assert (d + [b])[1..] == [];
    } else {
      SubStep(if d[0] then t.right else t.left, d[1..], b);
      assert (d + [b])[1..] == d[1..] + [b];
    }
  }

  lemma {:induction false} SubRep(m: Mem, root: int, t: Tree, d: seq<bool>)
    requires Fits(m) && Rep(m, root, t) && Sub(t, d).Node?
    ensures var u := Sub(t, d); u.id < |m.left| && Rep(m, m.left[u.id], u.left) && Rep(m, m.right[u.id], u.right)
    decreases d
  {
    if d != [] && t.Node? {
      if d[0] { SubRep(m, m.right[t.id], t.right, d[1..]); } else { SubRep(m, m.left[t.id], t.left, d[1..]); }
    }
  }

  /** The directions up to a node lead through nodes. */
  lemma PrefixNode(t: Tree, d: seq<bool>, n: nat)
    requires Sub(t, d).Node? && n <= |d|
    ensures Sub(t, d[..n]).Node?
    decreases |d| - n
  {
    if n < |d| {
      PrefixNode(t, d, n + 1);
      assert d[..n + 1] == d[..n] + [d[n]];
      if Sub(t, d[..n]).Leaf? { LeafStays(t, d[..n], [d[n]]); }
    } else {
      assert d[..n] == d;
    }
  }

  lemma {:induction false} LeafStays(t: Tree, d: seq<bool>, e: seq<bool>)
    requires Sub(t, d).Leaf?
    ensures Sub(t, d + e).Leaf?
    decreases d
  {
    if d == [] || t.Leaf? {
    } else {
      LeafStays(if d[0] then t.right else t.left, d[1..], e);
      assert (d + e)[1..] == d[1..] + e;
    }
  }

  /** Level k of the path and the branch bits agree with the directions. */
  ghost predicate Level(t: Tree, path: seq<int>, branch: nat, d: seq<bool>, k: nat)
    requires k < |d| && k < |path|
  {
    Sub(t, d[..k + 1]).Node? && path[k] == Sub(t, d[..k + 1]).id && (Bit(branch, k) <==> d[k])
  }

  /** The path and the branch bits hold these directions. */
  ghost predicate Path(t: Tree, path: seq<int>, branch: nat, d: seq<bool>) {
    && |d| < MAX_DEPTH == |path| && Sub(t, d).Node?
    && forall k :: 0 <= k < |d| ==> Level(t, path, branch, d, k)
  }

  lemma PathPrefix(t: Tree, path: seq<int>, branch: nat, d: seq<bool>, n: nat)
    requires Path(t, path, branch, d) && n <= |d|
    ensures Path(t, path, branch, d[..n])
  {
    PrefixNode(t, d, n);
    forall k | 0 <= k < n ensures Level(t, path, branch, d[..n], k) {
      assert Level(t, path, branch, d, k) && d[..n][..k + 1] == d[..k + 1];
    }
  }

  /** One more level: the branch bit is set or cleared and the child recorded. */
  lemma PathDown(t: Tree, path: seq<int>, branch: nat, d: seq<bool>, b: bool)
    requires Path(t, path, branch, d) && H(t) <= MAX_DEPTH && Sub(t, d + [b]).Node?
    ensures |d| + 1 < MAX_DEPTH
    ensures var branch' := if b then WithBit(branch, |d|) else WithoutBit(branch, |d|);
      Path(t, path[|d| := Sub(t, d + [b]).id], branch', d + [b])
  {
    var e := d + [b];
    var path', branch' := path[|d| := Sub(t, e).id], if b then WithBit(branch, |d|) else WithoutBit(branch, |d|);
    SubRange(t, e);
    forall k | 0 <= k < |e| ensures Level(t, path', branch', e, k) {
      WithBitAt(branch, |d|, k);
      WithoutBitAt(branch, |d|, k);
      assert k < |d| ==> Level(t, path, branch, d, k) && e[..k + 1] == d[..k + 1];
      assert k == |d| ==> e[..k + 1] == e;
    }
  }

  // ---------------------------------------------------------------- the search of avl_start_iter

  /** target is 1 for AVL_LESS, -1 for AVL_GREATER and 0 otherwise; eq is AVL_EQUAL. */
  ghost predicate Goes(cur: int, k: int, target: int, eq: bool, right: bool) {
    if right then cur < k || (!eq && target != 1 && cur == k) else cur > k || (!eq && target == 1 && cur == k)
  }

  /** What lies before and after the subtree would be left on the same side. */
  ghost predicate Around(t: Tree, key: nat -> int, k: int, target: int, eq: bool, d: seq<bool>) {
    && (forall i :: 0 <= i < |Order(t)| && i < Prior(t, d) ==> Goes(key(Order(t)[i]), k, target, eq, true))
    && (forall i :: Upto(t, d) <= i < |Order(t)| ==> Goes(key(Order(t)[i]), k, target, eq, false))
  }

  /** The recorded node is the one just before or just after the subtree. */
  ghost predicate Recorded(t: Tree, target: int, d: seq<bool>, depth: int, at: seq<bool>) {
    && (depth < 0 ==> (target == 1 ==> Prior(t, d) == 0) && (target == -1 ==> Upto(t, d) == |Order(t)|))
    && (depth >= 0 ==> target != 0 && Sub(t, at).Node?)
    && (depth >= 0 && target == 1 ==> Rank(t, at) + 1 == Prior(t, d))
    && (depth >= 0 && target == -1 ==> Rank(t, at) == Upto(t, d))
  }

  lemma AroundStep(t: Tree, key: nat -> int, k: int, target: int, eq: bool, d: seq<bool>, right: bool)
    requires Sorted(Order(t), key) && Around(t, key, k, target, eq, d) && Sub(t, d).Node?
    requires Goes(key(Sub(t, d).id), k, target, eq, right)
    ensures Around(t, key, k, target, eq, d + [right])
  {
    SubStep(t, d, right);
    SubRange(t, d);
    GoesSide(Order(t), key, k, target, eq, Rank(t, d), right);
    if right {
      assert Upto(t, d + [true]) == Upto(t, d);
    } else {
      assert Upto(t, d + [false]) == Rank(t, d);
    }
  }

  /** Where a node is left on one side, so are all beyond it. */
  lemma GoesSide(s: seq<nat>, key: nat -> int, k: int, target: int, eq: bool, r: nat, right: bool)
    requires Sorted(s, key) && r < |s| && Goes(key(s[r]), k, target, eq, right)
    ensures right ==> forall i :: 0 <= i <= r ==> Goes(key(s[i]), k, target, eq, true)
    ensures !right ==> forall i :: r <= i < |s| ==> Goes(key(s[i]), k, target, eq, false)
  {
    forall i | 0 <= i < |s| ensures (i <= r ==> key(s[i]) <= key(s[r])) && (r <= i ==> key(s[r]) <= key(s[i])) {}
  }

  lemma RecordedStep(t: Tree, target: int, d: seq<bool>, depth: int, at: seq<bool>, right: bool)
    requires Recorded(t, target, d, depth, at) && Sub(t, d).Node? && -1 <= target <= 1
    ensures target == 0 || (target == 1) != right ==> Recorded(t, target, d + [right], depth, at)
    ensures target != 0 && (target == 1) == right ==> Recorded(t, target, d + [right], |d|, d)
  {
    SubStep(t, d, right);
    assert |Order(Sub(t, d))| == |Order(Sub(t, d).left)| + 1 + |Order(Sub(t, d).right)|;
  }

  /** Where the iterator must start: at a node with the key if that is wanted and there is one;
      else at the last node below the key, or the first above it; else at the end. */
  ghost predicate Lands(s: seq<nat>, key: nat -> int, k: int, target: int, eq: bool, pos: nat) {
    && pos <= |s|
    && if eq && exists i :: 0 <= i < |s| && key(s[i]) == k then pos < |s| && key(s[pos]) == k
       else if target == 1 then
         && (pos < |s| ==> key(s[pos]) < k)
         && (forall i :: (if pos < |s| then pos + 1 else 0) <= i < |s| ==> key(s[i]) >= k)
       else if target == -1 then
         && (pos < |s| ==> key(s[pos]) > k)
         && (forall i :: 0 <= i < pos ==> key(s[i]) <= k)
       else pos == |s|
  }

  lemma LandsAtGap(t: Tree, key: nat -> int, k: int, target: int, eq: bool, d: seq<bool>, depth: int, at: seq<bool>)
    requires Around(t, key, k, target, eq, d) && Recorded(t, target, d, depth, at) && Sub(t, d).Leaf?
    requires -1 <= target <= 1
    requires depth >= 0 ==> Rank(t, at) < |Order(t)|
    ensures Lands(Order(t), key, k, target, eq, if depth < 0 then |Order(t)| else Rank(t, at))
  {
    SubRange(t, d);
    var s, g := Order(t), Prior(t, d);
    forall i | 0 <= i < |s| ensures Goes(key(s[i]), k, target, eq, i < g) { }
  }

  lemma SliceNext(s: seq<nat>, a: nat, b: nat)
    requires a <= b < |s|
    ensures s[a..b] + [s[b]] == s[a..b + 1]
  {
  }

  class Iter {
    const root: Root
    const path: array<int>
    var depth: int
    var branch: nat
    ghost var at: seq<bool>

    ghost predicate Valid()
      reads this, path, root, root.arena
    {
      && root.Valid() && H(root.tree) <= MAX_DEPTH && path.Length == MAX_DEPTH
      && (depth == -1 || (depth == |at| && Path(root.tree, path[..], branch, at)))
    }

    /** The index of the current node in the order of all nodes, or their number at the end. */
    ghost function Pos(): nat
      reads this, path, root, root.arena
      requires Valid()
    {
      if depth == -1 then |Order(root.tree)| else Rank(root.tree, at)
    }

    constructor (root: Root)
      requires root.Valid() && H(root.tree) <= MAX_DEPTH
      ensures Valid() && this.root == root && depth == -1 && fresh(path)
    {
      this.root, depth, branch, at := root, -1, 0, [];
      path := new int[MAX_DEPTH];
    }

    lemma LastOnPath()
      requires Valid() && depth != -1
      ensures (if depth == 0 then root.node else path[depth - 1]) == Sub(root.tree, at).id
    {
      if depth > 0 {
        assert Level(root.tree, path[..], branch, at, depth - 1);
        assert at[..depth] == at;
      }
    }

    /** avl_get_iter. */
    method Get() returns (x: int)
      requires Valid()
      ensures if Pos() < |Order(root.tree)| then x == Order(root.tree)[Pos()] else x == Nil
    {
      if depth == -1 { return Nil; }
      SubRange(root.tree, at);
      LastOnPath();
      x := if depth == 0 then root.node else path[depth - 1];
    }

    /** Going down one level, to a child that exists. */
    method Down(b: bool, child: nat)
      requires Valid() && depth != -1 && Sub(root.tree, at + [b]).Node? && child == Sub(root.tree, at + [b]).id
      modifies this, path
      ensures Valid() && depth == old(depth) + 1 && at == old(at) + [b]
    {
      PathDown(root.tree, path[..], branch, at, b);
      ghost var p := path[..];
      branch := if b then WithBit(branch, depth) else WithoutBit(branch, depth);
      path[depth] := child;
      assert path[..] == p[depth := child as int];
      depth := depth + 1;
      at := at + [b];
    }

    /** The climb in avl_inc_iter: back to the first node whose left subtree is left behind. */
    method Climb(ghost pos: nat)
      requires Valid() && depth != -1 && Upto(root.tree, at) == pos
      modifies this
      ensures Valid() && Pos() == pos
    {
      ghost var d := at;
      assert d[..depth] == d;
      while true
        invariant 0 <= depth <= |d| && Path(root.tree, path[..], branch, d) && Upto(root.tree, d[..depth]) == pos
        decreases depth
      {
        if depth == 0 {
          depth := -1;
          return;
        }
        depth := depth - 1;
        PathPrefix(root.tree, path[..], branch, d, depth);
        PathPrefix(root.tree, path[..], branch, d, depth + 1);
        SubStep(root.tree, d[..depth], d[depth]);
        assert d[..depth + 1] == d[..depth] + [d[depth]];
        assert Level(root.tree, path[..], branch, d, depth);
        if !Bit(branch, depth) { break; }
      }
      at := d[..depth];
    }

    /** avl_inc_iter: on to the next node in order, or to the end. */
    method Inc()
      requires Valid()
      modifies this, path
      ensures Valid() && Pos() == if old(Pos()) < |Order(root.tree)| then old(Pos()) + 1 else old(Pos())
    {
      if depth == -1 { return; }
      ghost var t, pos := root.tree, Pos();
      SubRange(t, at);
      SubStep(t, at, true);
      LastOnPath();
      SubRep(root.arena.M(), root.node, t, at);
      var cur := if depth == 0 then root.node else path[depth - 1];
      cur := root.arena.right[cur];
      if cur == Nil {
        assert Sub(t, at).right == Leaf && |Order(Sub(t, at))| == |Order(Sub(t, at).left)| + 1;
        Climb(pos + 1);
      } else {
        Down(true, cur);
        Leftmost(cur, pos + 1);
      }
    }

    /** The descent in avl_inc_iter to the first node of a subtree. */
    method Leftmost(start: nat, ghost pos: nat)
      requires Valid() && depth != -1 && start == Sub(root.tree, at).id && Prior(root.tree, at) == pos
      modifies this, path
      ensures Valid() && Pos() == pos && depth != -1
    {
      var cur := start;
      while true
        invariant Valid() && depth != -1 && cur == Sub(root.tree, at).id && Prior(root.tree, at) == pos
        decreases MAX_DEPTH - depth
      {
        SubStep(root.tree, at, false);
        SubRep(root.arena.M(), root.node, root.tree, at);
        var next := root.arena.left[cur];
        if next == Nil { break; }
        cur := next;
        Down(false, cur);
      }
    }

    /** The comparison with the node at d: whether the search ends there, and otherwise which way
        it goes. A node on the wanted side is recorded. */
    method Compare(cur: nat, k: int, target: int, eq: bool, level: nat,
                   ghost d: seq<bool>) returns (found: bool, right: bool)
      requires root.Valid() && Sub(root.tree, d).Node? && cur == Sub(root.tree, d).id && -1 <= target <= 1
      requires level == |d|
      requires Around(root.tree, root.arena.key, k, target, eq, d) && Recorded(root.tree, target, d, depth, at)
      modifies this`depth, this`at
      ensures (depth == level && at == d) || (depth == old(depth) && at == old(at))
      ensures found ==> eq && depth == level && root.arena.key(cur) == k
      ensures !found ==> Around(root.tree, root.arena.key, k, target, eq, d + [right])
      ensures !found ==> Recorded(root.tree, target, d + [right], depth, at)
    {
      var cmp := if k < root.arena.key(cur) then -1 else if k > root.arena.key(cur) then 1 else 0;
      if cmp == 0 {
        if eq {
          depth, at := level, d;
          return true, false;
        }
        cmp := -target;
      }
      found, right := false, cmp >= 0;
      AroundStep(root.tree, root.arena.key, k, target, eq, d, right);
      RecordedStep(root.tree, target, d, depth, at, right);
      if target != 0 && target == cmp { depth, at := level, d; }
    }

    /** One turn of the search: left or right below cur, if there is a child. */
    method Turn(cur: nat, right: bool, level: nat, ghost d: seq<bool>) returns (next: int)
      requires root.Valid() && H(root.tree) <= MAX_DEPTH && path.Length == MAX_DEPTH && level == |d|
      requires Path(root.tree, path[..], branch, d) && cur == Sub(root.tree, d).id
      modifies this`branch, path
      ensures next == Nil ==> Sub(root.tree, d + [right]).Leaf? && path[..] == old(path[..]) && branch == old(branch)
      ensures next != Nil ==> Path(root.tree, path[..], branch, d + [right]) && next == Sub(root.tree, d + [right]).id
    {
      SubStep(root.tree, d, right);
      SubRep(root.arena.M(), root.node, root.tree, d);
      next := if right then root.arena.right[cur] else root.arena.left[cur];
      if next == Nil { return; }
      PathDown(root.tree, path[..], branch, d, right);
      ghost var p := path[..];
      branch := if right then WithBit(branch, level) else WithoutBit(branch, level);
      path[level] := next;
      assert path[..] == p[level := next];
    }

    ghost predicate Searching(k: int, target: int, eq: bool, d: seq<bool>, cur: int)
      reads this, path, root, root.arena
    {
      && path.Length == MAX_DEPTH && Path(root.tree, path[..], branch, d) && cur == Sub(root.tree, d).id
      && -1 <= depth <= |d| && (depth >= 0 ==> at == d[..depth])
      && Around(root.tree, root.arena.key, k, target, eq, d) && Recorded(root.tree, target, d, depth, at)
    }

    /** One round of the search loop. */
    method Round(cur: nat, k: int, target: int, eq: bool, level: nat, ghost d: seq<bool>) returns (next: int,
                 right: bool)
      requires root.Valid() && H(root.tree) <= MAX_DEPTH && -1 <= target <= 1 && level == |d|
      requires Searching(k, target, eq, d, cur)
      modifies this, path
      ensures next == Nil ==> Valid() && Lands(Order(root.tree), root.arena.key, k, target, eq, Pos())
      ensures next != Nil ==> 0 <= next && level + 1 < MAX_DEPTH && Searching(k, target, eq, d + [right], next)
    {
      var found;
      found, right := Compare(cur, k, target, eq, level, d);
      assert d[..|d|] == d;
      if found {
        FinishFound(k, target, eq);
        return Nil, right;
      }
      next := Turn(cur, right, level, d);
      if next == Nil {
        FinishGap(k, target, eq, d, d + [right]);
      } else {
        assert depth >= 0 ==> (d + [right])[..depth] == d[..depth];
      }
    }

    /** avl_start_iter. */
    method Start(k: int, less: bool, eq: bool, greater: bool)
      requires Valid()
      modifies this, path
      ensures Valid()
      ensures Lands(Order(root.tree), root.arena.key, k, if less then 1 else if greater then -1 else 0, eq, Pos())
    {
      var level := 0;
      depth, branch := -1, 0;
      if root.node == Nil { return; }
      var cur := root.node;
      var target := if less then 1 else if greater then -1 else 0;
      ghost var d := [];
      while cur != Nil
        invariant cur != Nil ==> 0 <= cur && level == |d| && Searching(k, target, eq, d, cur)
        invariant cur == Nil ==> Valid() && Lands(Order(root.tree), root.arena.key, k, target, eq, Pos())
        decreases cur != Nil, MAX_DEPTH - level
      {
        var right;
        cur, right := Round(cur, k, target, eq, level, d);
        level, d := level + 1, d + [right];
      }
    }

    lemma FinishFound(k: int, target: int, eq: bool)
      requires Valid() && depth != -1 && eq && root.arena.key(Sub(root.tree, at).id) == k
      ensures Lands(Order(root.tree), root.arena.key, k, target, eq, Pos())
    {
      SubRange(root.tree, at);
    }

    lemma FinishGap(k: int, target: int, eq: bool, d: seq<bool>, e: seq<bool>)
      requires root.Valid() && H(root.tree) <= MAX_DEPTH && path.Length == MAX_DEPTH && -1 <= target <= 1
      requires Path(root.tree, path[..], branch, d) && -1 <= depth <= |d| && (depth >= 0 ==> at == d[..depth])
      requires Around(root.tree, root.arena.key, k, target, eq, e) && Recorded(root.tree, target, e, depth, at)
      requires Sub(root.tree, e).Leaf?
      ensures Valid() && Lands(Order(root.tree), root.arena.key, k, target, eq, Pos())
    {
      if depth >= 0 {
        PathPrefix(root.tree, path[..], branch, d, depth);
        SubRange(root.tree, at);
      }
      LandsAtGap(root.tree, root.arena.key, k, target, eq, e, depth, at);
    }

    /** Repeated increments visit exactly the remaining nodes, in order. */
    method Walk() returns (visited: seq<nat>)
      requires Valid()
      modifies this, path
      ensures Valid() && old(Pos()) <= |Order(root.tree)| && visited == Order(root.tree)[old(Pos())..]
    {
      visited := [];
      ghost var from := Pos();
      var x := Get();
      BoundedPos();
      while x != Nil
        invariant Valid() && from <= Pos() <= |Order(root.tree)| && visited == Order(root.tree)[from..Pos()]
        invariant if Pos() < |Order(root.tree)| then x == Order(root.tree)[Pos()] else x == Nil
        decreases |Order(root.tree)| - Pos()
      {
        SliceNext(Order(root.tree), from, Pos());
        visited := visited + [x];
        Inc();
        x := Get();
      }
    }

    lemma BoundedPos()
      requires Valid()
      ensures Pos() <= |Order(root.tree)|
    {
      if depth != -1 { SubRange(root.tree, at); }
    }
  }
}
