/**
  ext2_read_map, ext2_write_map and ext2_new_block as they run, on the inode's address array and
  the blocks of the disk (fs/ext2/read_write.c).
*/
module Ext2File {
  import opened Ext2Map

  class File {
    const a: nat              // addresses per block
    const iblock: array<nat>  // i_block
    var disk: map<nat, seq<nat>>
    var free: seq<nat>        // the blocks ext2_alloc_block will return
    var count: nat            // i_blocks, in units of one block

    ghost function View(): FileMap
      reads this, iblock
    {
      FileMap(a, iblock[..], disk, free, count)
    }

    constructor (a: nat, disk: map<nat, seq<nat>>, free: seq<nat>)
      requires Tree(FileMap(a, Zeros(N_BLOCKS), disk, free, 0))
      ensures View() == FileMap(a, Zeros(N_BLOCKS), disk, free, 0) && fresh(iblock)
    {
      this.a, this.disk, this.free, this.count := a, disk, free, 0;
      iblock := new nat[N_BLOCKS](_ => 0);
      new;
      assert iblock[..] == Zeros(N_BLOCKS);
    }

    /** The address of the single indirect block for a position in the double or triple indirect
        part, and the index into it. */
    method FindLeaf(pos: nat) returns (b: nat, index: nat)
      requires Usable(View()) && DoubStart(a) <= pos < OutStart(a)
      ensures var s := Split(pos, a); (s.Double? || s.Triple?) && b == Ptr(View(), Leaf(s)) && index == Index(s)
    {
      ghost var m := View();
      SplitPosition(pos, a);
      var excess := pos - DoubStart(a);
      b := iblock[DIND];
      ghost var up := D;
      if pos >= TripleStart(a) {
        b := iblock[TIND];
        excess := pos - TripleStart(a);
        index := Quot(excess, a * a);
        assert NodeOk(m, T) && Ptr(m, T) == b;
        up := TD(index);
        if b != 0 { b := disk[b][index]; }
        excess := Rem(excess, a * a);
      }
      assert NodeOk(m, up) && Ptr(m, up) == b;
      index := Quot(excess, a);
      if b != 0 { b := disk[b][index]; }
      index := Rem(excess, a);
    }

    /** ext2_read_map. */
    method ReadMap(pos: nat) returns (b: nat)
      requires Usable(View())
      ensures b == Read(View(), pos)
    {
      ghost var m := View();
      SplitPosition(pos, a);
      if pos < NDIR { return iblock[pos]; }
      var index: nat;
      if pos < DoubStart(a) {
        b := iblock[NDIR];
        index := pos - NDIR;
      } else if pos >= OutStart(a) {
        return 0;
      } else {
        b, index := FindLeaf(pos);
      }
      if b == 0 { return; }
      assert NodeOk(m, Leaf(Split(pos, a)));
      b := disk[b][index];
    }

    method Alloc() returns (b: nat)
      modifies this`free
      ensures old(free) == [] ==> b == 0 && free == []
      ensures old(free) != [] ==> b == old(free)[0] && free == old(free)[1..]
    {
      if free == [] { return 0; }
      b, free := free[0], free[1..];
    }

    /** The part of ext2_write_map below the double indirect block: `up` holds the address of the
        leaf at index2, or is 0 when it is in the inode. */
    method WriteThrough(up: nat, index2: nat, index1: nat, v: nat, ghost n: Node) returns (ret: Outcome)
      requires var m := View(); |m.root| == N_BLOCKS && index1 < a && NodeOk(m, n) && PathReady(m, n)
      requires up == Parent(View(), n) && (up != 0 ==> BlockOk(View(), up)) && (n.S? <==> up == 0)
      requires n.DS? ==> n.i == index2
      requires n.TS? ==> n.j == index2
      requires forall i :: 0 <= i < |free| ==> free[i] != 0
      modifies this, iblock
      ensures (View(), ret) == WriteLeaf(old(View()), n, index1, v)
    {
      ghost var m := View();
      var b1 := if up == 0 then iblock[NDIR] else disk[up][index2];
      assert b1 == Ptr(m, n);
      if b1 == 0 {
        b1 := Alloc();
        if b1 == 0 { return ENospc; }
        if up == 0 {
          iblock[NDIR] := b1;
        } else {
          var row: seq<nat> := disk[up][index2 := b1];
          disk := disk[up := row];
        }
        count := count + 1;
        disk := disk[b1 := Zeros(a)];
        assert View() == NewLeaf(m, n);
      } else if !(b1 in disk && |disk[b1]| == a) {
        return Fault;
      }
      var row: seq<nat> := disk[b1][index1 := v];
      disk := disk[b1 := row];
      count := count + 1;
      return Ok;
    }

    /** ext2_write_map. */
    method WriteMap(pos: nat, v: nat) returns (ret: Outcome)
      requires Usable(View())
      modifies this, iblock
      ensures (View(), ret) == Write(old(View()), pos, v)
    {
      ghost var m := View();
      SplitPosition(pos, a);
      if pos < NDIR {
        iblock[pos] := v;
        count := count + 1;
        return Ok;
      }
      if pos < DoubStart(a) {
        ret := WriteThrough(0, 0, pos - NDIR, v, S);
        return;
      }
      if pos >= OutStart(a) { return EFbig; }
      if pos < TripleStart(a) {
        var excess := pos - DoubStart(a);
        var b2 := iblock[DIND];
        assert NodeOk(m, D) && b2 == Ptr(m, D);
        if b2 == 0 {
          b2 := Alloc();
          if b2 == 0 { return ENospc; }
          iblock[DIND] := b2;
          count := count + 1;
          assert View() == LinkDouble(m);
        }
        ret := WriteThrough(b2, Quot(excess, a), Rem(excess, a), v, DS(Quot(excess, a)));
        return;
      }
      ret := WriteTriple(pos, v);
    }

    /** The triple indirect case of ext2_write_map. */
    method WriteTriple(pos: nat, v: nat) returns (ret: Outcome)
      requires Usable(View()) && Split(pos, a).Triple?
      modifies this, iblock
      ensures (View(), ret) == Write(old(View()), pos, v)
    {
      ghost var m := View();
      SplitPosition(pos, a);
      var b3 := iblock[TIND];
      assert NodeOk(m, T) && b3 == Ptr(m, T);
      if b3 == 0 {
        b3 := Alloc();
        if b3 == 0 { return ENospc; }
        iblock[TIND] := b3;
        count := count + 1;
        assert View() == LinkTriple(m);
        if iblock[DIND] != 0 { return Fault; }
        var b2 := Alloc();
        return if b2 == 0 then ENospc else Fault;
      }
      var excess := pos - TripleStart(a);
      var index3 := Quot(excess, a * a);
      assert NodeOk(m, TD(index3));
      var b2 := disk[b3][index3];
      excess := Rem(excess, a * a);
      if b2 == 0 {
        b2 := Alloc();
        if b2 == 0 { return ENospc; }
        var row: seq<nat> := disk[b3][index3 := b2];
        disk := disk[b3 := row];
        count := count + 1;
        assert View() == LinkDoubleOfTriple(m, index3);
      }
      ret := WriteThrough(b2, Quot(excess, a), Rem(excess, a), v, TS(index3, Quot(excess, a)));
    }

    /** ext2_new_block: the block at a position, allocated if there is none yet. */
    method NewBlock(pos: nat) returns (b: nat)
      requires Tree(View())
      modifies this, iblock
      ensures Usable(old(View())) && (View(), b) == Extended(old(View()), pos)
    {
      ghost var m := View();
      b := ReadMap(pos);
      if b != 0 { return; }
      b := Alloc();
      if b == 0 { return; }
      AllocTree(m);
      var ret := WriteMap(pos, b);
      if ret != Ok { b := 0; }
    }
  }

  lemma AllocUsable(m: FileMap)
    requires Usable(m) && m.free != []
    ensures Usable(m.(free := m.free[1..]))
  {
    var m1 := m.(free := m.free[1..]);
    forall n | NodeOk(m, n) ensures Ptr(m1, n) == Ptr(m, n) {}
    forall b | BlockOk(m, b) ensures BlockOk(m1, b) {}
  }

  /** What ext2_new_block does: the map and the block it returns, or 0. */
  ghost function Extended(m: FileMap, pos: nat): (FileMap, nat)
    requires Usable(m)
  {
    if Read(m, pos) != 0 then (m, Read(m, pos))
    else if m.free == [] then (m, 0)
    else
      AllocUsable(m);
      var (m', ret) := Write(m.(free := m.free[1..]), pos, m.free[0]);
      (m', if ret == Ok then m.free[0] else 0)
  }

  /** There are blocks enough for the position and for the indirect block above it. */
  ghost predicate Room(m: FileMap, pos: nat)
    requires m.a > 0 && |m.root| == N_BLOCKS
  {
    pos < OutStart(m.a) && |m.free| >= if LeafMissing(m, pos) then 2 else 1
  }

  /** Where no double or triple indirect block is missing: a mapped position is left alone. Another one
      gets a block that was free, exactly if there are blocks enough; it then reads as that block, the
      others are unchanged, and the free ones lose just what was needed. If it gets none, the map is
      as it was, but a block that was taken for it is lost. */
  lemma ExtendedRight(m: FileMap, pos: nat)
    requires Tree(m) && Ready(m, pos)
    ensures var (m', b) := Extended(m, pos);
      && Tree(m') && m'.a == m.a && (b != 0 ==> Read(m', pos) == b)
      && (forall q: nat :: q != pos && q < OutStart(m.a) ==> Read(m', q) == Read(m, q))
      && (Read(m, pos) != 0 ==> b == Read(m, pos) && m' == m)
      && (Read(m, pos) == 0 ==> (b != 0 <==> Room(m, pos)))
      && (Read(m, pos) == 0 && b != 0 ==>
            b in m.free && b !in m'.free && m'.free == m.free[if LeafMissing(m, pos) then 2 else 1..])
      && (b == 0 ==> m' == m.(free := if m.free == [] then [] else m.free[1..]))
  {
    if Read(m, pos) == 0 && m.free != [] {
      var m1 := m.(free := m.free[1..]);
      AllocTree(m);
      WriteIsArrayUpdate(m1, pos, m.free[0]);
      SplitPosition(pos, m.a);
      var s := Split(pos, m.a);
      if s.Single? || s.Double? || s.Triple? { assert NodeOk(m, Leaf(s)); }
      assert LeafMissing(m1, pos) <==> LeafMissing(m, pos);
      assert |m.free| >= 2 ==> m1.free[1..] == m.free[2..];
    }
  }

  /** With cleared blocks the same holds at every position, except that below a missing triple indirect
      block nothing can be had. */
  lemma ExtendedCleared(m: FileMap, pos: nat)
    requires Tree(m) && Cleared(m) && pos < OutStart(m.a) && Read(m, pos) == 0
    ensures var (m', b) := Extended(m, pos);
      && (b != 0 <==> !TripleMissing(m, pos) && |m.free| > Needed(m, pos))
      && (b != 0 ==> b == m.free[0] && Wrote(m, m', pos, b))
  {
    if m.free != [] {
      var m1 := m.(free := m.free[1..]);
      AllocTree(m);
      SplitPosition(pos, m.a);
      var s := Split(pos, m.a);
      assert NodeOk(m, T) && NodeOk(m, D);
      if s.Single? || s.Double? || s.Triple? { assert NodeOk(m, Leaf(s)); }
      assert Needed(m1, pos) == Needed(m, pos) && (TripleMissing(m1, pos) <==> TripleMissing(m, pos));
      ClearedIsArray(m1, pos, m.free[0]);
    }
  }

  /** Taking a block from the allocator for data leaves the tree as it is. */
  lemma AllocTree(m: FileMap)
    requires Tree(m) && m.free != []
    ensures var m1 := m.(free := m.free[1..]);
      && Tree(m1) && (forall n :: NodeOk(m, n) ==> Ptr(m1, n) == Ptr(m, n))
      && (forall q :: 0 <= q < OutStart(m.a) ==> Read(m1, q) == Read(m, q))
  {
    var m1 := m.(free := m.free[1..]);
    forall n | NodeOk(m, n) ensures Ptr(m1, n) == Ptr(m, n) {}
    forall q | 0 <= q < OutStart(m.a) ensures Read(m1, q) == Read(m, q) { SplitPosition(q, m.a); }
  }
}
