/**
  The block allocator (fs/ext2/alloc.c): a bitmap per block group, searched word by word, and
  the counts of free blocks per group and for the file system.
*/
module Ext2Alloc {
  import opened Arith
  import opened Bits

  const WORD := 64  // bits in a bitchunk_t

  // ---------------------------------------------------------------- one bitmap

  predicate IsSet(bitmap: seq<nat>, n: nat)
    requires n / WORD < |bitmap|
  {
    Bit(bitmap[n / WORD], n % WORD)
  }

  ghost predicate WordsOk(bitmap: seq<nat>) {
    forall w :: 0 <= w < |bitmap| ==> bitmap[w] <= WORD_MAX
  }

  /** Of the two bitmaps only bit n differs: clear before, set after. */
  ghost predicate SetOne(before: seq<nat>, after: seq<nat>, n: nat) {
    && |after| == |before| && n / WORD < |before|
    && !IsSet(before, n)
    && forall x :: 0 <= x && x / WORD < |before| ==> (IsSet(after, x) <==> x == n || IsSet(before, x))
  }

  lemma FullWord(bitmap: seq<nat>, chunk: nat, x: nat)
    requires chunk < |bitmap| && bitmap[chunk] == WORD_MAX && WORD * chunk <= x < WORD * (chunk + 1)
    ensures IsSet(bitmap, x)
  {
    WordFullBit(x % WORD, WORD);
  }

  lemma OneBitSet(bitmap: seq<nat>, chunk: nat, i: nat)
    requires WordsOk(bitmap) && chunk < |bitmap| && i < WORD && !Bit(bitmap[chunk], i)
    ensures var after := bitmap[chunk := WithBit(bitmap[chunk], i)];
      WordsOk(after) && SetOne(bitmap, after, chunk * WORD + i)
  {
    var k, after, b := bitmap[chunk], bitmap[chunk := WithBit(bitmap[chunk], i)], chunk * WORD + i;
    WordWithBit(k, i, WORD);
    forall x | 0 <= x && x / WORD < |bitmap| ensures IsSet(after, x) <==> x == b || IsSet(bitmap, x) {
      if x / WORD == chunk { WithBitAt(k, i, x % WORD); }
    }
  }

  /** ext2_setbit: set the lowest clear bit from word `start` on; -1 if there is none. */
  method SetBit(bitmap: array<nat>, maxBits: nat, start: nat) returns (b: int)
    requires WordsOk(bitmap[..]) && maxBits <= WORD * bitmap.Length
    modifies bitmap
    ensures WordsOk(bitmap[..])
    ensures b < 0 ==> b == -1 && bitmap[..] == old(bitmap[..])
    ensures b >= 0 ==> WORD * start <= b < maxBits && SetOne(old(bitmap[..]), bitmap[..], b)
    ensures forall x :: WORD * start <= x < (if b < 0 then maxBits / WORD * WORD else b) ==> IsSet(old(bitmap[..]), x)
  {
    var limit := maxBits / WORD;
    var chunk := start;
    while chunk < limit
      invariant start <= chunk && bitmap[..] == old(bitmap[..])
      invariant forall x :: WORD * start <= x < WORD * chunk && x < WORD * limit ==> IsSet(old(bitmap[..]), x)
      decreases limit - chunk
    {
      var k := bitmap[chunk];
      assert k == old(bitmap[..])[chunk];
      if k == WORD_MAX {
        forall x | WORD * chunk <= x < WORD * (chunk + 1) ensures IsSet(old(bitmap[..]), x) {
          FullWord(old(bitmap[..]), chunk, x);
        }
        chunk := chunk + 1;
        continue;
      }
      var i := LowestZero(k);
      forall x | WORD * chunk <= x < WORD * chunk + i ensures IsSet(old(bitmap[..]), x) { assert Bit(k, x % WORD); }
      b := chunk * WORD + i;
      OneBitSet(bitmap[..], chunk, i);
      bitmap[chunk] := WithBit(k, i);
      assert bitmap[..] == old(bitmap[..])[chunk := WithBit(k, i)];
      return;
    }
    b := -1;
  }

  /** The inner loop of ext2_setbit. */
  method LowestZero(k: nat) returns (i: nat)
    requires k < WORD_MAX
    ensures i < WORD && !Bit(k, i) && forall j :: 0 <= j < i ==> Bit(k, j)
  {
    ghost var z := WordZeroBit(k, WORD);
    i := 0;
    while Bit(k, i)
      invariant 0 <= i <= z && forall j :: 0 <= j < i ==> Bit(k, j)
      decreases z - i
    {
      i := i + 1;
    }
  }

  // ---------------------------------------------------------------- counting free bits

  /** How many bits below n are clear. */
  ghost function Clear(bitmap: seq<nat>, n: nat): nat
    requires n <= WORD * |bitmap|
  {
    if n == 0 then 0 else Clear(bitmap, n - 1) + if IsSet(bitmap, n - 1) then 0 else 1
  }

  lemma {:induction false} ClearZero(bitmap: seq<nat>, n: nat)
    requires n <= WORD * |bitmap|
    ensures Clear(bitmap, n) == 0 <==> forall x :: 0 <= x < n ==> IsSet(bitmap, x)
  {
    if n > 0 { ClearZero(bitmap, n - 1); }
  }

  /** Setting one clear bit takes one off the count. */
  lemma {:induction false} ClearSetOne(before: seq<nat>, after: seq<nat>, b: nat, n: nat)
    requires n <= WORD * |before| && SetOne(before, after, b)
    ensures Clear(after, n) == Clear(before, n) - if b < n then 1 else 0
  {
    if n > 0 { ClearSetOne(before, after, b, n - 1); }
  }

  // ---------------------------------------------------------------- the file system

  datatype Group = Group(bitmap: seq<nat>, freeBlocks: nat)

  ghost function FreeSum(groups: seq<Group>): nat {
    if groups == [] then 0 else FreeSum(groups[..|groups| - 1]) + groups[|groups| - 1].freeBlocks
  }

  lemma {:induction false} FreeSumUpdate(groups: seq<Group>, k: nat, g: Group)
    requires k < |groups|
    ensures FreeSum(groups[k := g]) == FreeSum(groups) - groups[k].freeBlocks + g.freeBlocks
  {
    var front := groups[..|groups| - 1];
    if k < |front| {
      assert groups[k := g][..|groups| - 1] == front[k := g];
      FreeSumUpdate(front, k, g);
    } else {
      assert groups[k := g][..|groups| - 1] == front;
    }
  }

  class FileSystem {
    const blocksPerGroup: nat
    const inodesPerGroup: nat
    const firstDataBlock: nat
    const readOnly: bool
    var groups: seq<Group>
    var freeBlocks: nat  // sb_free_blocks_count

    ghost predicate GroupOk(g: Group) {
      && WORD * |g.bitmap| >= blocksPerGroup && WordsOk(g.bitmap)
      && g.freeBlocks == Clear(g.bitmap, blocksPerGroup)
    }

    /** Every count agrees with its bitmap, and block 0, which means "none", is not free. */
    ghost predicate Valid()
      reads this
    {
      && blocksPerGroup > 0 && blocksPerGroup % WORD == 0 && inodesPerGroup > 0 && groups != []
      && (forall i :: 0 <= i < |groups| ==> GroupOk(groups[i]))
      && freeBlocks == FreeSum(groups)
      && (firstDataBlock == 0 ==> IsSet(groups[0].bitmap, 0))
    }

    /** One group has given one block away. */
    ghost predicate Took(before: seq<Group>, g: nat, x: nat)
      reads this
    {
      && |groups| == |before| && g < |groups|
      && SetOne(before[g].bitmap, groups[g].bitmap, x)
      && forall i :: 0 <= i < |groups| && i != g ==> groups[i] == before[i]
    }

    /** Every bit below is set. */
    ghost predicate Lowest(bitmap: seq<nat>, bit: nat) {
      forall x :: 0 <= x < bit && x / WORD < |bitmap| ==> IsSet(bitmap, x)
    }

    /** Take the lowest clear bit of a group that has one. */
    method TakeFrom(g: nat, start: nat) returns (bit: int)
      requires Valid() && g < |groups| && groups[g].freeBlocks > 0 && start == 0
      modifies this
      ensures 0 <= bit < blocksPerGroup && Valid() && Took(old(groups), g, bit) && freeBlocks == old(freeBlocks) - 1
      ensures Lowest(old(groups)[g].bitmap, bit)
    {
      var bm := groups[g].bitmap;
      assert GroupOk(groups[g]);
      var buf := new nat[|bm|](i requires 0 <= i < |bm| => bm[i]);
      assert buf[..] == bm;
      bit := SetBit(buf, blocksPerGroup, start);
      ClearZero(bm, blocksPerGroup);
      assert bit >= 0;
      ClearSetOne(bm, buf[..], bit, blocksPerGroup);
      var group := Group(buf[..], groups[g].freeBlocks - 1);
      FreeSumUpdate(groups, g, group);
      groups := groups[g := group];
      freeBlocks := freeBlocks - 1;
    }

    function GroupOf(inode: nat): nat
      requires inode > 0 && inodesPerGroup > 0
    {
      (inode - 1) / inodesPerGroup
    }

    /** The word of the bitmap to start from, computed from the first block of the group. */
    function StartWord(group: nat): (start: nat)
      requires blocksPerGroup > 0
      ensures start == 0
    {
      var goal := blocksPerGroup * group + firstDataBlock;
      DivModUnique(goal - firstDataBlock, blocksPerGroup, group, 0);
      (goal - firstDataBlock) % blocksPerGroup / WORD
    }

    /** Blocks of different groups or bits have different numbers, see BlockNumberInjective. */
    function BlockNumber(g: nat, bit: nat): (block: nat)
      requires blocksPerGroup > 0
      ensures block == 0 ==> g == 0 && bit == 0 && firstDataBlock == 0
    {
      assert g > 0 ==> g * blocksPerGroup > 0;
      firstDataBlock + g * blocksPerGroup + bit
    }

    lemma BlockNumberInjective(g: nat, bit: nat, g': nat, bit': nat)
      requires bit < blocksPerGroup && bit' < blocksPerGroup && BlockNumber(g, bit) == BlockNumber(g', bit')
      ensures g == g' && bit == bit'
    {
      DivModUnique(g * blocksPerGroup + bit, blocksPerGroup, g, bit);
      DivModUnique(g' * blocksPerGroup + bit', blocksPerGroup, g', bit');
    }

    /** The number of a block tells its group and its bit. */
    lemma BlockNumberInverse(g: nat, bit: nat)
      requires bit < blocksPerGroup
      ensures var block := BlockNumber(g, bit);
        && block >= firstDataBlock
        && (block - firstDataBlock) / blocksPerGroup == g && (block - firstDataBlock) % blocksPerGroup == bit
    {
      DivModUnique(g * blocksPerGroup + bit, blocksPerGroup, g, bit);
    }

    /** Group x comes before `group` on the way around from `first`. */
    ghost predicate Passed(first: nat, x: nat, group: nat) {
      if first <= group then first <= x < group else first <= x || x < group
    }

    /** The loop of ext2_alloc_block over the groups, from `group` around to itself. */
    method FindGroup(first: nat) returns (group: nat)
      requires groups != [] && first < |groups|
      ensures group <= |groups|
      ensures group < |groups| ==> groups[group].freeBlocks != 0
      ensures group < |groups| ==>
                forall x :: 0 <= x < |groups| && Passed(first, x, group) ==> groups[x].freeBlocks == 0
      ensures group == |groups| ==> forall x :: 0 <= x < |groups| ==> groups[x].freeBlocks == 0
    {
      group := first;
      var i := 0;
      while i <= |groups|
        invariant 0 <= i <= |groups| + 1
        invariant group == if first + i <= |groups| then first + i else first + i - |groups|
        invariant forall x :: 0 <= x < |groups| && (first <= x < first + i || x < first + i - |groups|) ==>
                    groups[x].freeBlocks == 0
      {
        if group >= |groups| { group := 0; }
        if groups[group].freeBlocks != 0 { return; }
        i, group := i + 1, group + 1;
      }
      group := |groups|;
    }

    /** ext2_alloc_block for an inode. The word to start from comes out as 0 whatever the group,
        so a group with a free block always yields one and the panic is never reached. */
    method AllocBlock(inode: nat) returns (block: nat, ghost g: nat, ghost bit: nat)
      requires Valid() && inode > 0
      modifies this
      ensures Valid()
      ensures block == 0 ==> groups == old(groups) && freeBlocks == old(freeBlocks)
      ensures block == 0 <==> readOnly || old(freeBlocks) == 0
      ensures block != 0 ==> Took(old(groups), g, bit) && bit < blocksPerGroup && freeBlocks == old(freeBlocks) - 1
      ensures block != 0 ==>
                && block >= firstDataBlock && (block - firstDataBlock) / blocksPerGroup == g
                && (block - firstDataBlock) % blocksPerGroup == bit && Lowest(old(groups)[g].bitmap, bit)
      ensures block != 0 ==>
                var own := GroupOf(inode); var first := if own < |groups| then own else 0;
                forall x :: 0 <= x < |groups| && Passed(first, x, g) ==> old(groups)[x].freeBlocks == 0
    {
      if readOnly { return 0, 0, 0; }
      var group := GroupOf(inode);
      var start := StartWord(group);
      group := FindGroup(if group >= |groups| then 0 else group);
      if group == |groups| {
        AllFull(groups);
        return 0, 0, 0;
      }
      SomeFree(groups, group);
      ghost var before := groups;
      var b := TakeFrom(group, start);
      assert !IsSet(before[group].bitmap, b);
      BlockNumberInverse(group, b);
      return BlockNumber(group, b), group, b;
    }
  }

  lemma {:induction false} SomeFree(groups: seq<Group>, k: nat)
    requires k < |groups|
    ensures groups[k].freeBlocks <= FreeSum(groups)
  {
    if k < |groups| - 1 { SomeFree(groups[..|groups| - 1], k); }
  }

  lemma {:induction false} AllFull(groups: seq<Group>)
    requires forall x :: 0 <= x < |groups| ==> groups[x].freeBlocks == 0
    ensures FreeSum(groups) == 0
  {
    if groups != [] { AllFull(groups[..|groups| - 1]); }
  }
}
