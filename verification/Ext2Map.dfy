/**
  The block map of an ext2 file (fs/ext2/read_write.c): twelve direct addresses and one single,
  one double and one triple indirect tree behind them must behave as one flat array from block
  position to block number.
*/
module Ext2Map {
  import opened Arith

  const NDIR := 12          // EXT2_NDIR_BLOCKS, also the slot of the single indirect block
  const DIND := 13          // EXT2_DIND_BLOCK
  const TIND := 14          // EXT2_TIND_BLOCK
  const N_BLOCKS := 15      // EXT2_N_BLOCKS

  // ---------------------------------------------------------------- positions

  datatype Slot = Direct(i: nat) | Single(i: nat) | Double(i: nat, j: nat) | Triple(i: nat, j: nat, k: nat) | OutOfRange

  function DoubStart(a: nat): nat { NDIR + a }
  function TripleStart(a: nat): nat { DoubStart(a) + a * a }
  function OutStart(a: nat): nat { TripleStart(a) + a * a * a }

  function Quot(x: nat, a: nat): nat
    requires a > 0
  {
    x / a
  }

  function Rem(x: nat, a: nat): nat
    requires a > 0
  {
    x % a
  }

  /** How a position is split, for blocks of a addresses. */
  function Split(pos: nat, a: nat): Slot
    requires a > 0
  {
    if pos < NDIR then Direct(pos)
    else if pos < DoubStart(a) then Single(pos - NDIR)
    else if pos >= OutStart(a) then OutOfRange
    else if pos < TripleStart(a) then
      var excess := pos - DoubStart(a);
      Double(Quot(excess, a), Rem(excess, a))
    else
      var excess := pos - TripleStart(a);
      assert a * a > 0;
      Triple(Quot(excess, a * a), Quot(Rem(excess, a * a), a), Rem(Rem(excess, a * a), a))
  }

  ghost predicate InRange(s: Slot, a: nat) {
    match s
    case Direct(i) => i < NDIR
    case Single(i) => i < a
    case Double(i, j) => i < a && j < a
    case Triple(i, j, k) => i < a && j < a && k < a
    case OutOfRange => true
  }

  /** The position a slot stands for: the inverse of Split. */
  function Position(s: Slot, a: nat): nat {
    match s
    case Direct(i) => i
    case Single(i) => NDIR + i
    case Double(i, j) => DoubStart(a) + i * a + j
    case Triple(i, j, k) => TripleStart(a) + i * (a * a) + j * a + k
    case OutOfRange => OutStart(a)
  }

  /** Splitting is in range, and nothing is lost by it: Position undoes it. */
  lemma SplitPosition(pos: nat, a: nat)
    requires a > 0
    ensures InRange(Split(pos, a), a)
    ensures pos < OutStart(a) <==> Split(pos, a) != OutOfRange
    ensures pos < OutStart(a) ==> Position(Split(pos, a), a) == pos
  {
    if DoubStart(a) <= pos < OutStart(a) {
      if pos < TripleStart(a) {
        var excess := pos - DoubStart(a);
        DivMod(excess, a);
        QuotientBound(excess, a, a);
      } else {
        var excess := pos - TripleStart(a);
        DivMod(excess, a * a);
        assert a * a * a == a * (a * a);
        QuotientBound(excess, a * a, a);
        DivMod(excess % (a * a), a);
        QuotientBound(excess % (a * a), a, a);
      }
    }
  }

  /** No two positions below the limit share a slot, for any number of addresses per block. */
  lemma SplitInjective(p: nat, q: nat, a: nat)
    requires a > 0 && p < OutStart(a) && q < OutStart(a) && Split(p, a) == Split(q, a)
    ensures p == q
  {
    SplitPosition(p, a);
    SplitPosition(q, a);
  }

  // ---------------------------------------------------------------- the tree of indirect blocks

  /** `root` is i_block, `disk` the contents of blocks as addresses, `free` what the allocator
      will hand out, `count` is i_blocks in units of one file system block. */
  datatype FileMap = FileMap(a: nat, root: seq<nat>, disk: map<nat, seq<nat>>, free: seq<nat>, count: nat)

  datatype Outcome = Ok | EFbig | ENospc | Fault

  function At(m: FileMap, b: nat, i: nat): nat {
    if b != 0 && b in m.disk && i < |m.disk[b]| then m.disk[b][i] else 0
  }

  /** An indirect block by its place in the tree. */
  datatype Node = S | D | T | DS(i: nat) | TD(i: nat) | TS(i: nat, j: nat)

  ghost predicate NodeOk(m: FileMap, n: Node) {
    match n
    case DS(i) => i < m.a
    case TD(i) => i < m.a
    case TS(i, j) => i < m.a && j < m.a
    case _ => true
  }

  ghost predicate IsLeaf(n: Node) { n.S? || n.DS? || n.TS? }

  function Ptr(m: FileMap, n: Node): nat
    requires |m.root| == N_BLOCKS
  {
    match n
    case S => m.root[NDIR]
    case D => m.root[DIND]
    case T => m.root[TIND]
    case DS(i) => At(m, m.root[DIND], i)
    case TD(i) => At(m, m.root[TIND], i)
    case TS(i, j) => At(m, At(m, m.root[TIND], i), j)
  }

  predicate BlockOk(m: FileMap, b: nat) {
    b in m.disk && |m.disk[b]| == m.a
  }

  /** Indirect blocks exist, no two places share one, and the allocator's blocks are unused. */
  ghost predicate Tree(m: FileMap) {
    && m.a > 0 && |m.root| == N_BLOCKS
    && (forall n :: NodeOk(m, n) && Ptr(m, n) != 0 ==> BlockOk(m, Ptr(m, n)))
    && (forall n, n' :: NodeOk(m, n) && NodeOk(m, n') && Ptr(m, n) != 0 && Ptr(m, n) == Ptr(m, n') ==> n == n')
    && (forall i :: 0 <= i < |m.free| ==> m.free[i] != 0 && BlockOk(m, m.free[i]))
    && (forall i, n :: 0 <= i < |m.free| && NodeOk(m, n) ==> Ptr(m, n) != m.free[i])
    && (forall i, j :: 0 <= i < j < |m.free| ==> m.free[i] != m.free[j])
  }

  function Leaf(s: Slot): Node
    requires s.Single? || s.Double? || s.Triple?
  {
    match s
    case Single(_) => S
    case Double(i, _) => DS(i)
    case Triple(i, j, _) => TS(i, j)
  }

  function Index(s: Slot): nat
    requires s.Single? || s.Double? || s.Triple?
  {
    match s
    case Single(i) => i
    case Double(_, j) => j
    case Triple(_, _, k) => k
  }

  /** The file as a flat array: what ext2_read_map returns for a position. */
  function Read(m: FileMap, pos: nat): nat
    requires m.a > 0 && |m.root| == N_BLOCKS
  {
    match Split(pos, m.a)
    case Direct(i) => SplitPosition(pos, m.a); m.root[i]
    case OutOfRange => 0
    case s => At(m, Ptr(m, Leaf(s)), Index(s))
  }

  /** Writing a position of the array and nothing else. */
  ghost predicate Wrote(m: FileMap, m': FileMap, pos: nat, b: nat)
    requires m.a > 0 && |m.root| == N_BLOCKS
  {
    && m'.a == m.a && |m'.root| == N_BLOCKS
    && Read(m', pos) == b
    && forall q: nat :: q != pos && q < OutStart(m.a) ==> Read(m', q) == Read(m, q)
  }

  // ---------------------------------------------------------------- storing into a leaf

  /** The address at index i of an existing indirect block. */
  function Store(m: FileMap, b: nat, i: nat, v: nat): FileMap
    requires BlockOk(m, b) && i < m.a
  {
    var row: seq<nat> := m.disk[b][i := v];
    m.(disk := m.disk[b := row], count := m.count + 1)
  }

  lemma StoreKeepsTree(m: FileMap, n: Node, i: nat, v: nat)
    requires Tree(m) && NodeOk(m, n) && IsLeaf(n) && Ptr(m, n) != 0 && i < m.a
    ensures Tree(Store(m, Ptr(m, n), i, v))
    ensures forall x :: NodeOk(m, x) ==> Ptr(Store(m, Ptr(m, n), i, v), x) == Ptr(m, x)
  {
    var m' := Store(m, Ptr(m, n), i, v);
    assert Ptr(m, D) != Ptr(m, n) && Ptr(m, T) != Ptr(m, n);
    forall x | NodeOk(m, x) ensures Ptr(m', x) == Ptr(m, x) {
      if x.TS? { assert NodeOk(m, TD(x.i)) && Ptr(m, TD(x.i)) != Ptr(m, n); }
    }
  }

  lemma StoreWrote(m: FileMap, pos: nat, v: nat)
    requires Tree(m) && (Split(pos, m.a).Single? || Split(pos, m.a).Double? || Split(pos, m.a).Triple?)
    requires Ptr(m, Leaf(Split(pos, m.a))) != 0
    ensures var s := Split(pos, m.a);
      && InRange(s, m.a) && NodeOk(m, Leaf(s))
      && Wrote(m, Store(m, Ptr(m, Leaf(s)), Index(s), v), pos, v)
  {
    var s := Split(pos, m.a);
    SplitPosition(pos, m.a);
    var b := Ptr(m, Leaf(s));
    var m' := Store(m, b, Index(s), v);
    StoreKeepsTree(m, Leaf(s), Index(s), v);
    forall q: nat | q != pos && q < OutStart(m.a) ensures Read(m', q) == Read(m, q) {
      SplitPosition(q, m.a);
      var t := Split(q, m.a);
      if t.Single? || t.Double? || t.Triple? {
        assert NodeOk(m, Leaf(t));
        assert Ptr(m, Leaf(t)) == b ==> Leaf(t) == Leaf(s);
        assert t != s;
      }
    }
  }

  // ---------------------------------------------------------------- a new leaf

  /** The block above a leaf, where its address is kept; the root for the single indirect one. */
  function Parent(m: FileMap, n: Node): nat
    requires |m.root| == N_BLOCKS && IsLeaf(n)
  {
    match n
    case S => 0
    case DS(i) => m.root[DIND]
    case TS(i, j) => At(m, m.root[TIND], i)
  }

  /** The double and triple indirect blocks on the way to the leaf exist. */
  ghost predicate PathReady(m: FileMap, n: Node)
    requires |m.root| == N_BLOCKS
  {
    IsLeaf(n) && (n.S? || Parent(m, n) != 0)
  }

  function Zeros(n: nat): seq<nat> { seq(n, _ => 0) }

  /** Put the address of a new, zeroed leaf b into the tree. */
  function Link(m: FileMap, n: Node, b: nat): FileMap
    requires |m.root| == N_BLOCKS && PathReady(m, n) && (n.S? || BlockOk(m, Parent(m, n))) && NodeOk(m, n)
  {
    if n.S? then
      var root: seq<nat> := m.root[NDIR := b];
      m.(root := root, disk := m.disk[b := Zeros(m.a)])
    else
      var p, i := Parent(m, n), if n.DS? then n.i else n.j;
      var row: seq<nat> := m.disk[p][i := b];
      m.(disk := m.disk[p := row][b := Zeros(m.a)])
  }

  function NewLeaf(m: FileMap, n: Node): FileMap
    requires |m.root| == N_BLOCKS && PathReady(m, n) && (n.S? || BlockOk(m, Parent(m, n))) && NodeOk(m, n)
    requires m.free != []
  {
    Link(m, n, m.free[0]).(free := m.free[1..], count := m.count + 1)
  }

  lemma NewLeafPtr(m: FileMap, n: Node, x: Node)
    requires Tree(m) && NodeOk(m, n) && PathReady(m, n) && Ptr(m, n) == 0 && m.free != [] && NodeOk(m, x)
    ensures n.S? || BlockOk(m, Parent(m, n))
    ensures Ptr(NewLeaf(m, n), x) == if x == n then m.free[0] else Ptr(m, x)
  {
    var b := m.free[0];
    assert n.DS? ==> Ptr(m, D) == Parent(m, n);
    assert n.TS? ==> NodeOk(m, TD(n.i)) && Ptr(m, TD(n.i)) == Parent(m, n);
    assert Ptr(m, D) != b && Ptr(m, T) != b;
    match x
    case TS(i, j) => assert NodeOk(m, TD(i)) && Ptr(m, TD(i)) != b;
    case _ =>
  }

  lemma NewLeafTree(m: FileMap, n: Node)
    requires Tree(m) && NodeOk(m, n) && PathReady(m, n) && Ptr(m, n) == 0 && m.free != []
    ensures n.S? || BlockOk(m, Parent(m, n))
    ensures Tree(NewLeaf(m, n)) && Ptr(NewLeaf(m, n), n) != 0
    ensures forall x :: NodeOk(m, x) && x != n ==> Ptr(NewLeaf(m, n), x) == Ptr(m, x)
  {
    NewLeafPtr(m, n, n);
    var m' := NewLeaf(m, n);
    forall x | NodeOk(m, x) ensures Ptr(m', x) == if x == n then m.free[0] else Ptr(m, x) { NewLeafPtr(m, n, x); }
    forall b | BlockOk(m, b) ensures BlockOk(m', b) {}
  }

  /** A new leaf reads as the missing one did: all zero. */
  lemma NewLeafReads(m: FileMap, n: Node, q: nat)
    requires Tree(m) && NodeOk(m, n) && PathReady(m, n) && Ptr(m, n) == 0 && m.free != [] && q < OutStart(m.a)
    ensures n.S? || BlockOk(m, Parent(m, n))
    ensures Read(NewLeaf(m, n), q) == Read(m, q)
  {
    NewLeafTree(m, n);
    SplitPosition(q, m.a);
    var m', t := NewLeaf(m, n), Split(q, m.a);
    if t.Single? || t.Double? || t.Triple? {
      var x := Leaf(t);
      assert NodeOk(m, x);
      NewLeafPtr(m, n, x);
      if x != n {
        assert Ptr(m, x) != m.free[0];
        assert n.DS? ==> Ptr(m, D) == Parent(m, n) && (Ptr(m, x) != 0 ==> Ptr(m, x) != Ptr(m, D));
        assert n.TS? ==> NodeOk(m, TD(n.i)) && Ptr(m, TD(n.i)) == Parent(m, n);
        assert n.TS? && Ptr(m, x) != 0 ==> Ptr(m, x) != Ptr(m, TD(n.i));
      }
    }
  }

  // ---------------------------------------------------------------- ext2_write_map

  function WriteLeaf(m: FileMap, n: Node, i: nat, v: nat): (FileMap, Outcome)
    requires |m.root| == N_BLOCKS && i < m.a && PathReady(m, n) && (n.S? || BlockOk(m, Parent(m, n))) && NodeOk(m, n)
  {
    if Ptr(m, n) != 0 then
      if BlockOk(m, Ptr(m, n)) then (Store(m, Ptr(m, n), i, v), Ok) else (m, Fault)
    else if m.free == [] then (m, ENospc)
    else
      var m1 := NewLeaf(m, n);
      var b := m.free[0];
      (Store(m1, b, i, v), Ok)
  }

  /** A double indirect block is taken from the allocator. Its contents are not cleared. */
  function LinkDouble(m: FileMap): FileMap
    requires |m.root| == N_BLOCKS && m.free != []
  {
    var root: seq<nat> := m.root[DIND := m.free[0]];
    m.(root := root, free := m.free[1..], count := m.count + 1)
  }

  /** A triple indirect block is taken from the allocator. */
  function LinkTriple(m: FileMap): FileMap
    requires |m.root| == N_BLOCKS && m.free != []
  {
    var root: seq<nat> := m.root[TIND := m.free[0]];
    m.(root := root, free := m.free[1..], count := m.count + 1)
  }

  /** The rest of the call when the triple indirect block is new: it takes the double indirect block
      of the inode for its own. If there is none it takes another block for it and writes its number
      through a buffer it does not have; if there is one it looks beyond the end of it, since `excess`
      was not adjusted. */
  function AfterLinkTriple(m: FileMap): (FileMap, Outcome)
    requires |m.root| == N_BLOCKS
  {
    if m.root[DIND] != 0 then (m, Fault)
    else if m.free == [] then (m, ENospc)
    else (m.(free := m.free[1..]), Fault)
  }

  /** The same for a double indirect block of the triple indirect tree. */
  function LinkDoubleOfTriple(m: FileMap, i: nat): FileMap
    requires |m.root| == N_BLOCKS && m.free != [] && BlockOk(m, m.root[TIND]) && i < m.a
  {
    var row: seq<nat> := m.disk[m.root[TIND]][i := m.free[0]];
    m.(disk := m.disk[m.root[TIND] := row], free := m.free[1..], count := m.count + 1)
  }

  ghost predicate Usable(m: FileMap) {
    && m.a > 0 && |m.root| == N_BLOCKS
    && (forall n :: NodeOk(m, n) && Ptr(m, n) != 0 ==> BlockOk(m, Ptr(m, n)))
    && (forall i :: 0 <= i < |m.free| ==> m.free[i] != 0 && BlockOk(m, m.free[i]))
    && (forall i, n :: 0 <= i < |m.free| && NodeOk(m, n) ==> Ptr(m, n) != m.free[i])
  }

  /** The whole function. Fault is an access out of bounds; the map is then as it was just before. */
  ghost function Write(m: FileMap, pos: nat, v: nat): (FileMap, Outcome)
    requires Usable(m)
  {
    SplitPosition(pos, m.a);
    match Split(pos, m.a)
    case OutOfRange => (m, EFbig)
    case Direct(i) =>
      var root: seq<nat> := m.root[i := v];
      (m.(root := root, count := m.count + 1), Ok)
    case Single(i) => WriteLeaf(m, S, i, v)
    case Double(i, j) =>
      assert NodeOk(m, D);
      if Ptr(m, D) != 0 then WriteLeaf(m, DS(i), j, v)
      else if m.free == [] then (m, ENospc)
      else WriteLeaf(LinkDouble(m), DS(i), j, v)
    case Triple(i, j, k) =>
      assert NodeOk(m, T) && NodeOk(m, TD(i));
      if Ptr(m, T) == 0 then
        if m.free == [] then (m, ENospc) else AfterLinkTriple(LinkTriple(m))
      else if Ptr(m, TD(i)) != 0 then WriteLeaf(m, TS(i, j), k, v)
      else if m.free == [] then (m, ENospc)
      else WriteLeaf(LinkDoubleOfTriple(m, i), TS(i, j), k, v)
  }

  /** The position needs no new double or triple indirect block. */
  ghost predicate Ready(m: FileMap, pos: nat)
    requires m.a > 0 && |m.root| == N_BLOCKS
  {
    match Split(pos, m.a)
    case OutOfRange => true
    case Direct(_) => true
    case s => PathReady(m, Leaf(s))
  }

  lemma DirectWrote(m: FileMap, pos: nat, v: nat)
    requires Tree(m) && pos < NDIR
    ensures var root: seq<nat> := m.root[pos := v]; var m' := m.(root := root, count := m.count + 1);
      Tree(m') && Wrote(m, m', pos, v)
  {
    var root: seq<nat> := m.root[pos := v];
    var m' := m.(root := root, count := m.count + 1);
    forall n | NodeOk(m, n) ensures Ptr(m', n) == Ptr(m, n) {}
    forall q: nat | q != pos && q < OutStart(m.a) ensures Read(m', q) == Read(m, q) { SplitPosition(q, m.a); }
  }

  lemma NewLeafThenStore(m: FileMap, pos: nat, v: nat)
    requires Tree(m) && (Split(pos, m.a).Single? || Split(pos, m.a).Double? || Split(pos, m.a).Triple?)
    requires var n := Leaf(Split(pos, m.a)); PathReady(m, n) && Ptr(m, n) == 0 && m.free != []
    ensures var s := Split(pos, m.a);
      && NodeOk(m, Leaf(s)) && InRange(s, m.a) && (Leaf(s).S? || BlockOk(m, Parent(m, Leaf(s))))
      && BlockOk(NewLeaf(m, Leaf(s)), m.free[0])
      && var m' := Store(NewLeaf(m, Leaf(s)), m.free[0], Index(s), v); Tree(m') && Wrote(m, m', pos, v)
  {
    var s := Split(pos, m.a);
    SplitPosition(pos, m.a);
    assert NodeOk(m, Leaf(s));
    NewLeafTree(m, Leaf(s));
    NewLeafPtr(m, Leaf(s), Leaf(s));
    var m1 := NewLeaf(m, Leaf(s));
    StoreKeepsTree(m1, Leaf(s), Index(s), v);
    StoreWrote(m1, pos, v);
    forall q: nat | q != pos && q < OutStart(m.a) ensures Read(m1, q) == Read(m, q) { NewLeafReads(m, Leaf(s), q); }
  }

  /** The position has its place in an indirect block that does not exist yet. */
  ghost predicate LeafMissing(m: FileMap, pos: nat)
    requires m.a > 0 && |m.root| == N_BLOCKS
  {
    var s := Split(pos, m.a);
    (s.Single? || s.Double? || s.Triple?) && Ptr(m, Leaf(s)) == 0
  }

  /** A position below an indirect block, with the path to it in place. */
  lemma LeafWrite(m: FileMap, pos: nat, v: nat)
    requires Tree(m) && Ready(m, pos) && !Split(pos, m.a).Direct? && !Split(pos, m.a).OutOfRange?
    ensures var (m', ret) := Write(m, pos, v);
      && Tree(m') && (ret == Ok || ret == ENospc)
      && (ret == Ok ==> Wrote(m, m', pos, v) && m'.count + |m'.free| == m.count + |m.free| + 1)
      && (ret == ENospc <==> m.free == [] && LeafMissing(m, pos)) && (ret == ENospc ==> m' == m)
      && (ret == Ok ==> m'.free == if LeafMissing(m, pos) then m.free[1..] else m.free)
  {
    SplitPosition(pos, m.a);
    var s := Split(pos, m.a);
    var n := Leaf(s);
    ParentExists(m, n);
    if Ptr(m, n) != 0 {
      StoreKeepsTree(m, n, Index(s), v);
      StoreWrote(m, pos, v);
    } else if m.free != [] {
      NewLeafThenStore(m, pos, v);
    }
  }

  /** Where no double or triple indirect block is missing, the map is an array: a write that
      succeeds changes its position and no other, and one that fails changes nothing. */
  lemma WriteIsArrayUpdate(m: FileMap, pos: nat, v: nat)
    requires Tree(m) && Ready(m, pos)
    ensures Usable(m)
    ensures var (m', ret) := Write(m, pos, v);
      && Tree(m')
      && (ret == Ok ==> Wrote(m, m', pos, v) && m'.count + |m'.free| == m.count + |m.free| + 1)
      && (ret != Ok ==> m' == m)
      && ret != Fault && (ret == EFbig <==> pos >= OutStart(m.a))
      && (ret == ENospc <==> m.free == [] && LeafMissing(m, pos))
      && (ret == Ok ==> m'.free == if LeafMissing(m, pos) then m.free[1..] else m.free)
  {
    SplitPosition(pos, m.a);
    var s := Split(pos, m.a);
    if s.Direct? {
      DirectWrote(m, pos, v);
    } else if !s.OutOfRange? {
      LeafWrite(m, pos, v);
    }
  }

  lemma ParentExists(m: FileMap, n: Node)
    requires Usable(m) && NodeOk(m, n) && IsLeaf(n)
    ensures n.DS? ==> Ptr(m, D) == Parent(m, n)
    ensures n.TS? ==> Ptr(m, TD(n.i)) == Parent(m, n)
    ensures PathReady(m, n) ==> n.S? || BlockOk(m, Parent(m, n))
  {
    assert n.TS? ==> NodeOk(m, TD(n.i));
  }

  // ---------------------------------------------------------------- when a block is missing

  /** The same file and allocator, but other bytes left over in the blocks it will hand out. */
  ghost predicate Restaled(m: FileMap, m2: FileMap) {
    && m2 == m.(disk := m2.disk) && m2.disk.Keys == m.disk.Keys
    && (forall b :: b in m.disk && b !in m.free ==> m2.disk[b] == m.disk[b])
    && (forall b :: b in m.disk ==> |m2.disk[b]| == |m.disk[b]|)
  }

  lemma RestaledTree(m: FileMap, m2: FileMap)
    requires Tree(m) && Restaled(m, m2)
    ensures Tree(m2) && forall n :: NodeOk(m, n) ==> Ptr(m2, n) == Ptr(m, n)
  {
    forall n | NodeOk(m, n) ensures Ptr(m2, n) == Ptr(m, n) {
      assert Ptr(m, D) !in m.free && Ptr(m, T) !in m.free;
      if n.TS? { assert NodeOk(m, TD(n.i)) && Ptr(m, TD(n.i)) !in m.free; }
    }
  }

  /** Left-over bytes that make the new double indirect block point at itself. */
  function Trap(m: FileMap, i: nat): FileMap
    requires m.free != []
  {
    var row: seq<nat> := seq(m.a, x => if x == i then 0 else m.free[0]);
    m.(disk := m.disk[m.free[0] := row])
  }

  lemma TrapRestales(m: FileMap, i: nat)
    requires Tree(m) && m.free != []
    ensures Restaled(m, Trap(m, i)) && Tree(Trap(m, i))
    ensures forall x :: 0 <= x < m.a ==> At(Trap(m, i), m.free[0], x) == if x == i then 0 else m.free[0]
  {
    assert BlockOk(m, m.free[0]);
    RestaledTree(m, Trap(m, i));
  }

  /** Another slot than i. */
  function Other(i: nat): nat {
    if i == 0 then 1 else 0
  }

  lemma DoublePosition(i: nat, j: nat, a: nat)
    requires i < a && j < a
    ensures Position(Double(i, j), a) < OutStart(a) && Split(Position(Double(i, j), a), a) == Double(i, j)
  {
    var pos := Position(Double(i, j), a);
    Below(i, a, j, a);
    DivModUnique(i * a + j, a, i, j);
  }

  lemma TriplePosition(i: nat, j: nat, k: nat, a: nat)
    requires i < a && j < a && k < a
    ensures Position(Triple(i, j, k), a) < OutStart(a) && Split(Position(Triple(i, j, k), a), a) == Triple(i, j, k)
  {
    var r, aa := j * a + k, a * a;
    Below(j, a, k, a);
    Below(i, aa, r, a);
    DivModUnique(i * aa + r, aa, i, r);
    DivModUnique(r, a, j, k);
    assert a * a * a == a * aa;
  }

  /** Writing below a missing leaf changes its own slot in the block b above it, and in no other block
      than that and the new leaf. */
  lemma LeafLeaves(m: FileMap, n: Node, i: nat, v: nat, b: nat)
    requires |m.root| == N_BLOCKS && i < m.a
    requires IsLeaf(n) && !n.S? && b == Parent(m, n) != 0 && BlockOk(m, b) && NodeOk(m, n)
    requires Ptr(m, n) == 0 && (m.free != [] ==> m.free[0] != b)
    ensures var (m', ret) := WriteLeaf(m, n, i, v);
      && ret == (if m.free == [] then ENospc else Ok) && m'.root == m.root && m'.a == m.a
      && (forall x :: 0 <= x < m.a && x != (if n.DS? then n.i else n.j) ==> At(m', b, x) == At(m, b, x))
      && (forall t, x :: t != b && (m.free == [] || t != m.free[0]) ==> At(m', t, x) == At(m, t, x))
  {
  }

  /** The write was wrong at position q: it read as 0 before. */
  ghost predicate Stained(m: FileMap, w: (FileMap, Outcome), q: nat)
    requires m.a > 0 && |m.root| == N_BLOCKS
  {
    && (w.1 == Ok || w.1 == ENospc) && |w.0.root| == N_BLOCKS && w.0.a == m.a && q < OutStart(m.a)
    && Read(m, q) == 0 && Read(w.0, q) != 0
  }

  /** Without the double indirect block, left-over bytes show up at another position, whether the
      write then succeeds or, with no block left for the leaf, fails. */
  lemma FreshDoubleFails(m: FileMap, pos: nat, v: nat)
    requires Tree(m) && Split(pos, m.a).Double? && m.root[DIND] == 0 && m.a >= 2 && m.free != []
    ensures var i := Split(pos, m.a).i; var m2, q := Trap(m, i), Position(Double(Other(i), Other(i)), m.a);
      && Tree(m2) && q != pos && Stained(m2, Write(m2, pos, v), q)
      && (|m.free| == 1 ==> Write(m2, pos, v).1 == ENospc)
  {
    var s := Split(pos, m.a);
    SplitPosition(pos, m.a);
    var m2, b, i' := Trap(m, s.i), m.free[0], Other(s.i);
    TrapRestales(m, s.i);
    DoublePosition(i', i', m.a);
    assert Ptr(m2, DS(i')) == 0 && BlockOk(m2, b);
    var m1 := LinkDouble(m2);
    assert m1.free != [] ==> m1.free[0] == m2.free[1] != b;
    LeafLeaves(m1, DS(s.i), s.j, v, b);
  }

  /** The same below a triple indirect block. */
  lemma FreshTripleFails(m: FileMap, pos: nat, v: nat)
    requires Tree(m) && Split(pos, m.a).Triple? && m.root[TIND] != 0 && m.a >= 2 && m.free != []
    requires Ptr(m, TD(Split(pos, m.a).i)) == 0
    ensures var s := Split(pos, m.a); var m2, q := Trap(m, s.j), Position(Triple(s.i, Other(s.j), Other(s.j)), m.a);
      && Tree(m2) && q != pos && Stained(m2, Write(m2, pos, v), q)
      && (|m.free| == 1 ==> Write(m2, pos, v).1 == ENospc)
  {
    var s := Split(pos, m.a);
    SplitPosition(pos, m.a);
    var m2, b, t, j' := Trap(m, s.j), m.free[0], m.root[TIND], Other(s.j);
    TrapRestales(m, s.j);
    RestaledTree(m, m2);
    TriplePosition(s.i, j', j', m.a);
    assert NodeOk(m2, TD(s.i)) && NodeOk(m2, T) && Ptr(m2, T) == t && t != b && BlockOk(m2, t) && BlockOk(m2, b);
    assert Ptr(m2, TD(s.i)) == 0;
    TripleStained(m2, s, v, b, t, j');
  }

  lemma TripleStained(m2: FileMap, s: Slot, v: nat, b: nat, t: nat, j': nat)
    requires |m2.root| == N_BLOCKS && m2.free != [] && b == m2.free[0]
    requires t == m2.root[TIND] && t != 0 && b != 0 && t != b
    requires s.Triple? && InRange(s, m2.a) && j' < m2.a && j' != s.j && BlockOk(m2, t) && BlockOk(m2, b)
    requires |m2.free| > 1 ==> m2.free[1] != b && m2.free[1] != t
    requires At(m2, b, s.j) == 0 && At(m2, b, j') == b
    ensures var m1 := LinkDoubleOfTriple(m2, s.i); BlockOk(m1, Parent(m1, TS(s.i, s.j)))
    ensures var w := WriteLeaf(LinkDoubleOfTriple(m2, s.i), TS(s.i, s.j), s.k, v);
      && w.1 == (if |m2.free| == 1 then ENospc else Ok) && w.0.a == m2.a && w.0.root == m2.root
      && At(w.0, t, s.i) == b && At(w.0, b, j') == b
  {
    var m1 := LinkDoubleOfTriple(m2, s.i);
    assert At(m1, t, s.i) == b && At(m1, b, s.j) == 0 && At(m1, b, j') == b;
    LeafLeaves(m1, TS(s.i, s.j), s.k, v, b);
  }

  /** A write that fails has changed the map if it had linked an uncleared double indirect block: the
      failing inputs with one block left. */
  lemma FailedWriteChanges(m: FileMap, pos: nat, v: nat)
    requires Tree(m) && Split(pos, m.a).Double? && m.root[DIND] == 0 && m.a >= 2 && |m.free| == 1
    ensures exists m2, q ::
              Restaled(m, m2) && Usable(m2) && Write(m2, pos, v).1 == ENospc && Stained(m2, Write(m2, pos, v), q)
  {
    var i := Split(pos, m.a).i;
    TrapRestales(m, i);
    FreshDoubleFails(m, pos, v);
    var m2, q := Trap(m, i), Position(Double(Other(i), Other(i)), m.a);
    assert Restaled(m, m2) && Usable(m2) && Write(m2, pos, v).1 == ENospc && Stained(m2, Write(m2, pos, v), q);
  }

  /** Exactly when the map is an array: the write is right whatever bytes are left over in the
      blocks the allocator hands out, if and only if it needs no new double or triple block. */
  lemma WriteRightIffReady(m: FileMap, pos: nat, v: nat)
    requires Tree(m) && m.a >= 2 && m.free != [] && pos < OutStart(m.a)
    ensures Ready(m, pos) <==>
            forall m2 :: Restaled(m, m2) ==>
                 Usable(m2) && Write(m2, pos, v).1 == Ok && Wrote(m2, Write(m2, pos, v).0, pos, v)
  {
    SplitPosition(pos, m.a);
    var s := Split(pos, m.a);
    if Ready(m, pos) {
      forall m2 | Restaled(m, m2)
        ensures Usable(m2) && Write(m2, pos, v).1 == Ok && Wrote(m2, Write(m2, pos, v).0, pos, v)
      {
        RestaledTree(m, m2);
        assert s.Triple? ==> NodeOk(m, TD(s.i));
        WriteIsArrayUpdate(m2, pos, v);
      }
    } else if s.Double? {
      TrapRestales(m, s.i);
      FreshDoubleFails(m, pos, v);
    } else if m.root[TIND] != 0 {
      TrapRestales(m, s.j);
      FreshTripleFails(m, pos, v);
    } else {
      assert Restaled(m, m);
    }
  }

  // ---------------------------------------------------------------- cleared blocks

  /** The blocks that the allocator will hand out are all zero. */
  ghost predicate Cleared(m: FileMap) {
    forall i :: 0 <= i < |m.free| ==> m.free[i] in m.disk && m.disk[m.free[i]] == Zeros(m.a)
  }

  /** The new block is at this place of the tree, and every other place is as it was. */
  ghost predicate Grafted(m: FileMap, m': FileMap, n: Node)
    requires |m.root| == N_BLOCKS && m.free != []
  {
    && m'.a == m.a && |m'.root| == N_BLOCKS && m'.free == m.free[1..]
    && forall x :: NodeOk(m, x) ==> Ptr(m', x) == if x == n then m.free[0] else Ptr(m, x)
  }

  lemma GraftedTree(m: FileMap, m': FileMap, n: Node)
    requires Tree(m) && m.free != [] && Grafted(m, m', n) && NodeOk(m, n)
    requires forall b :: BlockOk(m, b) ==> BlockOk(m', b)
    ensures Tree(m')
  {
  }

  lemma LinkDoubleClean(m: FileMap)
    requires Tree(m) && Ptr(m, D) == 0 && m.free != [] && Cleared(m)
    ensures Grafted(m, LinkDouble(m), D) && Tree(LinkDouble(m))
    ensures forall q: nat :: q < OutStart(m.a) ==> Read(LinkDouble(m), q) == Read(m, q)
  {
    var m', b := LinkDouble(m), m.free[0];
    forall x | NodeOk(m, x) ensures Ptr(m', x) == if x == D then b else Ptr(m, x) {}
    forall c | BlockOk(m, c) ensures BlockOk(m', c) {}
    GraftedTree(m, m', D);
    forall q: nat | q < OutStart(m.a) ensures Read(m', q) == Read(m, q) { SplitPosition(q, m.a); }
  }

  lemma LinkTripleClean(m: FileMap, i: nat)
    requires Tree(m) && i < m.a && Ptr(m, T) != 0 && Ptr(m, TD(i)) == 0 && m.free != [] && Cleared(m)
    ensures BlockOk(m, m.root[TIND]) && Grafted(m, LinkDoubleOfTriple(m, i), TD(i)) && Tree(LinkDoubleOfTriple(m, i))
    ensures forall q: nat :: q < OutStart(m.a) ==> Read(LinkDoubleOfTriple(m, i), q) == Read(m, q)
  {
    assert NodeOk(m, T) && Ptr(m, T) == m.root[TIND];
    var m', b, t := LinkDoubleOfTriple(m, i), m.free[0], m.root[TIND];
    forall x | NodeOk(m, x) ensures Ptr(m', x) == if x == TD(i) then b else Ptr(m, x) {
      TripleGraft(m, i, x);
    }
    forall c | BlockOk(m, c) ensures BlockOk(m', c) {}
    GraftedTree(m, m', TD(i));
    forall q: nat | q < OutStart(m.a) ensures Read(m', q) == Read(m, q) {
      SplitPosition(q, m.a);
      var s := Split(q, m.a);
      if s.Single? || s.Double? || s.Triple? { assert NodeOk(m, Leaf(s)) && (Ptr(m, Leaf(s)) != t || t == 0); }
    }
  }

  lemma TripleGraft(m: FileMap, i: nat, x: Node)
    requires Tree(m) && i < m.a && Ptr(m, T) != 0 && Ptr(m, TD(i)) == 0 && m.free != [] && Cleared(m) && NodeOk(m, x)
    ensures BlockOk(m, m.root[TIND])
    ensures Ptr(LinkDoubleOfTriple(m, i), x) == if x == TD(i) then m.free[0] else Ptr(m, x)
  {
    assert NodeOk(m, T) && NodeOk(m, D) && Ptr(m, T) == m.root[TIND];
    assert Ptr(m, D) != 0 ==> Ptr(m, D) != Ptr(m, T);
    if x.TS? {
      assert NodeOk(m, TD(x.i));
      assert Ptr(m, TD(x.i)) != Ptr(m, T);
      assert m.free[0] != Ptr(m, T);
    }
  }

  /** How many blocks a write to this position takes, if the triple indirect block is not missing. */
  ghost function Needed(m: FileMap, pos: nat): nat
    requires m.a > 0 && |m.root| == N_BLOCKS
  {
    if Ready(m, pos) then if LeafMissing(m, pos) then 1 else 0 else 2
  }

  /** The triple indirect block is needed and missing. */
  ghost predicate TripleMissing(m: FileMap, pos: nat)
    requires m.a > 0 && |m.root| == N_BLOCKS
  {
    Split(pos, m.a).Triple? && Ptr(m, T) == 0
  }

  lemma DoubleCleared(m: FileMap, pos: nat, v: nat)
    requires Tree(m) && Cleared(m) && Split(pos, m.a).Double? && Ptr(m, D) == 0 && m.free != []
    ensures Usable(m) && Tree(LinkDouble(m)) && Ready(LinkDouble(m), pos) && LeafMissing(LinkDouble(m), pos)
    ensures Usable(LinkDouble(m)) && Write(m, pos, v) == Write(LinkDouble(m), pos, v)
  {
    SplitPosition(pos, m.a);
    LinkDoubleClean(m);
    assert NodeOk(m, D) && NodeOk(m, Leaf(Split(pos, m.a)));
  }

  lemma TripleCleared(m: FileMap, pos: nat, v: nat)
    requires Tree(m) && Cleared(m) && Split(pos, m.a).Triple? && Ptr(m, T) != 0 && m.free != []
    requires NodeOk(m, TD(Split(pos, m.a).i)) && Ptr(m, TD(Split(pos, m.a).i)) == 0
    ensures var i := Split(pos, m.a).i;
      && Usable(m) && i < m.a && BlockOk(m, m.root[TIND])
      && var m1 := LinkDoubleOfTriple(m, i);
         Tree(m1) && Ready(m1, pos) && LeafMissing(m1, pos) && Usable(m1) && Write(m, pos, v) == Write(m1, pos, v)
  {
    var i := Split(pos, m.a).i;
    SplitPosition(pos, m.a);
    LinkTripleClean(m, i);
    var m1 := LinkDoubleOfTriple(m, i);
    assert NodeOk(m, T) && NodeOk(m, TD(i)) && NodeOk(m, Leaf(Split(pos, m.a)));
    assert Ptr(m1, T) == Ptr(m, T) && Ptr(m1, TD(i)) == m.free[0];
  }

  /** With cleared blocks the map is an array everywhere, except where the triple indirect block is
      missing: a write succeeds exactly if there are blocks enough and then changes its position and no
      other; one that fails changes no position. Below a missing triple indirect block every write
      fails. */
  lemma ClearedIsArray(m: FileMap, pos: nat, v: nat)
    requires Tree(m) && Cleared(m) && pos < OutStart(m.a)
    ensures Usable(m)
    ensures var (m', ret) := Write(m, pos, v);
      && (ret == Ok <==> !TripleMissing(m, pos) && |m.free| >= Needed(m, pos))
      && (ret == Ok ==> Tree(m') && Wrote(m, m', pos, v))
      && (ret != Ok && !TripleMissing(m, pos) ==>
            ret == ENospc && |m'.root| == N_BLOCKS && m'.a == m.a
            && forall q: nat :: q < OutStart(m.a) ==> Read(m', q) == Read(m, q))
  {
    SplitPosition(pos, m.a);
    var s := Split(pos, m.a);
    assert NodeOk(m, T) && NodeOk(m, D);
    if Ready(m, pos) {
      WriteIsArrayUpdate(m, pos, v);
    } else if s.Double? {
      if m.free != [] {
        DoubleCleared(m, pos, v);
        LinkDoubleClean(m);
        WriteIsArrayUpdate(LinkDouble(m), pos, v);
      }
    } else if !TripleMissing(m, pos) {
      assert NodeOk(m, TD(s.i));
      if m.free != [] {
        TripleCleared(m, pos, v);
        LinkTripleClean(m, s.i);
        WriteIsArrayUpdate(LinkDoubleOfTriple(m, s.i), pos, v);
      }
    }
  }
}
