/**
  The life of a DMA pool (lib/libasyncdriver/dmapool.c): slots are handed out from an intrusive
  free list, taken back, and added chunk by chunk. Slots are named by number; a chunk holds the
  slots [lo, lo + n).
*/
module DmaPool {
  import opened DmaCarve

  const Nil := -1

  /** `home` is the chunk the slot was cut from. */
  datatype Slot = Slot(cpu: nat, dma: nat, inUse: bool, nextFree: int, home: nat)

  datatype Chunk = Chunk(cpu: nat, dma: nat, lo: nat, n: nat)

  datatype Region = Region(cpu: nat, dma: nat)

  // ---------------------------------------------------------------- the free list

  function After(q: seq<nat>, i: int): int
    requires -1 <= i < |q|
  {
    if i + 1 < |q| then q[i + 1] else Nil
  }

  ghost predicate FreeList(slots: seq<Slot>, head: int, q: seq<nat>) {
    && head == After(q, -1)
    && (forall i :: 0 <= i < |q| ==> q[i] < |slots|)
    && (forall i {:trigger slots[q[i]]} :: 0 <= i < |q| ==> slots[q[i]].nextFree == After(q, i))
    && (forall i, j :: 0 <= i < j < |q| ==> q[i] != q[j])
  }

  /** The free list holds exactly the slots not in use. */
  ghost predicate FreeExact(slots: seq<Slot>, q: seq<nat>) {
    forall i :: 0 <= i < |slots| ==> (i in q <==> !slots[i].inUse)
  }

  function Used(slots: seq<Slot>): nat {
    if slots == [] then 0 else Used(slots[..|slots| - 1]) + if slots[|slots| - 1].inUse then 1 else 0
  }

  lemma {:induction false} UsedUpdate(slots: seq<Slot>, i: nat, s: Slot)
    requires i < |slots|
    ensures Used(slots[i := s]) == Used(slots) - (if slots[i].inUse then 1 else 0) + if s.inUse then 1 else 0
  {
    var front := slots[..|slots| - 1];
    if i < |front| {
      assert slots[i := s][..|slots| - 1] == front[i := s];
      UsedUpdate(front, i, s);
    } else {
      assert slots[i := s][..|slots| - 1] == front;
    }
  }

  lemma {:induction false} UsedSame(a: seq<Slot>, b: seq<Slot>)
    requires |a| == |b| && forall i :: 0 <= i < |a| ==> a[i].inUse == b[i].inUse
    ensures Used(a) == Used(b)
  {
    if a != [] { UsedSame(a[..|a| - 1], b[..|b| - 1]); }
  }

  lemma {:induction false} UsedAppend(a: seq<Slot>, b: seq<Slot>)
    requires forall i :: 0 <= i < |b| ==> !b[i].inUse
    ensures Used(a + b) == Used(a)
  {
    if b == [] {
      assert a + b == a;
    } else {
      assert (a + b)[..|a + b| - 1] == a + b[..|b| - 1];
      UsedAppend(a, b[..|b| - 1]);
    }
  }

  lemma {:induction false} UsedZero(slots: seq<Slot>)
    ensures Used(slots) == 0 <==> forall i :: 0 <= i < |slots| ==> !slots[i].inUse
  {
    if slots != [] { UsedZero(slots[..|slots| - 1]); }
  }

  // ---------------------------------------------------------------- where the slots lie

  ghost predicate SlotHome(p: Pool, slots: seq<Slot>, chunks: seq<Chunk>, i: nat)
    requires PoolOk(p) && i < |slots|
  {
    var s := slots[i];
    && s.home < |chunks|
    && var c := chunks[s.home];
       && c.lo <= i < c.lo + c.n && c.cpu <= s.cpu && s.dma == c.dma + (s.cpu - c.cpu)
       && SlotOk(p, c.dma, s.cpu - c.cpu)
  }

  /** Slots of one chunk follow each other at least a stride apart. */
  ghost predicate SlotsSpaced(p: Pool, slots: seq<Slot>) {
    forall i, j :: 0 <= i < j < |slots| && slots[i].home == slots[j].home ==> slots[i].cpu + p.stride <= slots[j].cpu
  }

  ghost predicate Apart(x: nat, y: nat, len: nat) {
    x + len <= y || y + len <= x
  }

  ghost predicate ChunkOk(p: Pool, slots: seq<Slot>, chunks: seq<Chunk>, k: nat)
    requires k < |chunks|
  {
    var c := chunks[k];
    c.lo + c.n <= |slots| && forall i :: c.lo <= i < c.lo + c.n ==> slots[i].home == k
  }

  ghost predicate Layout(p: Pool, slots: seq<Slot>, chunks: seq<Chunk>) {
    && PoolOk(p)
    && (forall i :: 0 <= i < |slots| ==> SlotHome(p, slots, chunks, i))
    && SlotsSpaced(p, slots)
    && (forall k :: 0 <= k < |chunks| ==> ChunkOk(p, slots, chunks, k))
    && (forall k, l :: 0 <= k < l < |chunks| ==>
          Apart(chunks[k].cpu, chunks[l].cpu, p.chunkLen) && Apart(chunks[k].dma, chunks[l].dma, p.chunkLen))
  }

  /** No two objects share memory, seen from the CPU or from the device. */
  lemma ObjectsDisjoint(p: Pool, slots: seq<Slot>, chunks: seq<Chunk>, i: nat, j: nat)
    requires Layout(p, slots, chunks) && i < j < |slots|
    ensures Apart(slots[i].cpu, slots[j].cpu, p.size) && Apart(slots[i].dma, slots[j].dma, p.size)
  {
    assert SlotHome(p, slots, chunks, i) && SlotHome(p, slots, chunks, j);
    var (k, l) := (slots[i].home, slots[j].home);
    if k < l {
      assert Apart(chunks[k].cpu, chunks[l].cpu, p.chunkLen) && Apart(chunks[k].dma, chunks[l].dma, p.chunkLen);
    } else if l < k {
      assert Apart(chunks[l].cpu, chunks[k].cpu, p.chunkLen) && Apart(chunks[l].dma, chunks[k].dma, p.chunkLen);
    }
  }

  /** Marking slots used or free and relinking them does not move them. */
  lemma LayoutStays(p: Pool, a: seq<Slot>, b: seq<Slot>, chunks: seq<Chunk>)
    requires Layout(p, a, chunks) && |b| == |a|
    requires forall i :: 0 <= i < |a| ==> b[i].cpu == a[i].cpu && b[i].dma == a[i].dma && b[i].home == a[i].home
    ensures Layout(p, b, chunks)
  {
    forall i | 0 <= i < |b| ensures SlotHome(p, b, chunks, i) { assert SlotHome(p, a, chunks, i); }
    forall k | 0 <= k < |chunks| ensures ChunkOk(p, b, chunks, k) { assert ChunkOk(p, a, chunks, k); }
  }

  // ---------------------------------------------------------------- list operations

  function Taken(s: Slot): Slot { s.(nextFree := Nil, inUse := true) }

  lemma Popped(slots: seq<Slot>, head: int, q: seq<nat>)
    requires FreeList(slots, head, q) && FreeExact(slots, q) && q != []
    ensures var i := q[0];
      && FreeList(slots[i := Taken(slots[i])], slots[i].nextFree, q[1..])
      && FreeExact(slots[i := Taken(slots[i])], q[1..])
  {
    var i, q' := q[0], q[1..];
    var slots' := slots[i := Taken(slots[i])];
    assert slots[q[0]].nextFree == After(q, 0) == After(q', -1);
    forall k | 0 <= k < |q'| ensures q'[k] < |slots| && slots'[q'[k]].nextFree == After(q', k) {
      assert q'[k] == q[k + 1] && slots[q[k + 1]].nextFree == After(q, k + 1) == After(q', k);
    }
    forall x | 0 <= x < |slots| ensures x in q' <==> !slots'[x].inUse {
      assert x in q <==> x == i || x in q' by { assert q == [i] + q'; }
    }
  }

  lemma Pushed(slots: seq<Slot>, head: int, q: seq<nat>, i: nat)
    requires FreeList(slots, head, q) && i < |slots| && i !in q
    ensures FreeList(slots[i := slots[i].(nextFree := head, inUse := false)], i, [i] + q)
  {
    var q', slots' := [i] + q, slots[i := slots[i].(nextFree := head, inUse := false)];
    forall k | 0 <= k < |q'| ensures slots'[q'[k]].nextFree == After(q', k) {
      if k > 0 {
        assert q'[k] == q[k - 1] && q[k - 1] != i;
        assert slots[q[k - 1]].nextFree == After(q, k - 1) == After(q', k);
      }
    }
  }

  // ---------------------------------------------------------------- a new chunk

  const NO_GROW := 1
  const SLOT_BYTES := 32

  /** What mmap and backing_translate promise about a new backing mapping. */
  ghost predicate Fresh(p: Pool, chunks: seq<Chunk>, r: Region) {
    && r.dma % PAGE == 0 && r.dma + p.chunkLen - 1 <= MAX
    && forall k :: 0 <= k < |chunks| ==>
         Apart(chunks[k].cpu, r.cpu, p.chunkLen) && Apart(chunks[k].dma, r.dma, p.chunkLen)
  }

  function NewSlots(r: Region, offs: seq<nat>, home: nat): seq<Slot> {
    seq(|offs|, i requires 0 <= i < |offs| => Slot(r.cpu + offs[i], r.dma + offs[i], false, Nil, home))
  }

  lemma OldHome(p: Pool, slots: seq<Slot>, chunks: seq<Chunk>, slots': seq<Slot>, chunks': seq<Chunk>, i: nat)
    requires PoolOk(p) && i < |slots| <= |slots'| && SlotHome(p, slots, chunks, i) && slots'[i] == slots[i]
    requires slots[i].home < |chunks'| && chunks'[slots[i].home] == chunks[slots[i].home]
    ensures SlotHome(p, slots', chunks', i)
  {
  }

  lemma NewHome(p: Pool, slots': seq<Slot>, chunks': seq<Chunk>, r: Region, offs: seq<nat>, lo: nat, i: nat)
    requires PoolOk(p) && i < |offs| && SlotOk(p, r.dma, offs[i]) && lo + i < |slots'| && |chunks'| > 0
    requires slots'[lo + i] == NewSlots(r, offs, |chunks'| - 1)[i]
    requires chunks'[|chunks'| - 1] == Chunk(r.cpu, r.dma, lo, |offs|)
    ensures SlotHome(p, slots', chunks', lo + i)
  {
  }

  lemma SpacedGrown(p: Pool, slots: seq<Slot>, r: Region, offs: seq<nat>, home: nat)
    requires SlotsSpaced(p, slots) && Spaced(p, offs) && forall i :: 0 <= i < |slots| ==> slots[i].home < home
    ensures SlotsSpaced(p, slots + NewSlots(r, offs, home))
  {
  }

  lemma LayoutGrown(p: Pool, slots: seq<Slot>, chunks: seq<Chunk>, r: Region, offs: seq<nat>)
    requires Layout(p, slots, chunks) && Fresh(p, chunks, r)
    requires (forall i :: 0 <= i < |offs| ==> SlotOk(p, r.dma, offs[i])) && Spaced(p, offs)
    ensures Layout(p, slots + NewSlots(r, offs, |chunks|), chunks + [Chunk(r.cpu, r.dma, |slots|, |offs|)])
  {
    var slots', chunks' := slots + NewSlots(r, offs, |chunks|), chunks + [Chunk(r.cpu, r.dma, |slots|, |offs|)];
    forall i | 0 <= i < |slots'| ensures SlotHome(p, slots', chunks', i) {
      if i < |slots| {
        OldHome(p, slots, chunks, slots', chunks', i);
      } else {
        NewHome(p, slots', chunks', r, offs, |slots|, i - |slots|);
      }
    }
    forall i | 0 <= i < |slots| ensures slots[i].home < |chunks| { assert SlotHome(p, slots, chunks, i); }
    SpacedGrown(p, slots, r, offs, |chunks|);
    forall k | 0 <= k < |chunks'| ensures ChunkOk(p, slots', chunks', k) {
      if k < |chunks| { assert ChunkOk(p, slots, chunks, k); }
    }
  }

  lemma FreeListGrown(slots: seq<Slot>, more: seq<Slot>, head: int, q: seq<nat>)
    requires FreeList(slots, head, q)
    ensures FreeList(slots + more, head, q)
  {
    forall i | 0 <= i < |q| ensures (slots + more)[q[i]].nextFree == After(q, i) {
      assert slots[q[i]].nextFree == After(q, i);
    }
  }

  /** The numbers lo, lo + 1, ..., hi - 1, and then q. */
  function Ascending(lo: nat, hi: nat, q: seq<nat>): seq<nat>
    requires lo <= hi
    decreases hi - lo
  {
    if lo == hi then q else [lo] + Ascending(lo + 1, hi, q)
  }

  lemma {:induction false} AscendingMembers(lo: nat, hi: nat, q: seq<nat>)
    requires lo <= hi
    ensures forall x :: x in Ascending(lo, hi, q) <==> lo <= x < hi || x in q
    decreases hi - lo
  {
    if lo < hi { AscendingMembers(lo + 1, hi, q); }
  }

  /** The slots that are in use are not on the free list, the old free ones and the new ones are. */
  lemma LinkedExact(before: seq<Slot>, grown: seq<Slot>, after: seq<Slot>, q: seq<nat>, q': seq<nat>)
    requires FreeExact(before, q) && |before| <= |grown| == |after| && (forall x :: x in q ==> x < |before|)
    requires forall x :: 0 <= x < |before| ==> grown[x] == before[x]
    requires forall x :: |before| <= x < |grown| ==> !grown[x].inUse
    requires forall x :: 0 <= x < |grown| ==> after[x].inUse == grown[x].inUse
    requires forall x :: x in q' <==> |before| <= x < |grown| || x in q
    ensures FreeExact(after, q')
  {
  }

  /** The last slots of a chunk are slots of the chunk. */
  lemma CarvedPart(p: Pool, base: nat, offs: seq<nat>, k: nat)
    requires PoolOk(p) && Carved(p, base, offs) && k <= |offs|
    ensures Spaced(p, offs[k..]) && forall i :: 0 <= i < |offs[k..]| ==> SlotOk(p, base, offs[k..][i])
  {
    forall i | 0 <= i < |offs[k..]| ensures SlotOk(p, base, offs[k..][i]) { assert Good(p, base)(offs[k + i]); }
  }

  /** Counting in 32 bits. */
  lemma OneMore(n: nat)
    ensures (n % WORD32 + 1) % WORD32 == (n + 1) % WORD32
  {
  }

  lemma OneLess(n: nat)
    ensures n > 0 ==> (n % WORD32 + WORD32 - 1) % WORD32 == (n - 1) % WORD32
  {
  }

  /** A free slot at this place of the mapping. */
  predicate SlotAt(s: Slot, r: Region, off: nat) {
    s.cpu == r.cpu + off && s.dma == r.dma + off && !s.inUse
  }

  /** The slots are the old ones, perhaps linked anew, and free ones at these places of the mapping. */
  ghost predicate Extended(before: seq<Slot>, after: seq<Slot>, r: Region, offs: seq<nat>) {
    && |after| == |before| + |offs|
    && (forall i :: 0 <= i < |before| ==> after[i] == before[i].(nextFree := after[i].nextFree))
    && (forall i :: |before| <= i < |after| ==> SlotAt(after[i], r, offs[i - |before|]))
  }

  lemma LinkedExtends(before: seq<Slot>, grown: seq<Slot>, after: seq<Slot>, r: Region, offs: seq<nat>, home: nat)
    requires grown == before + NewSlots(r, offs, home) && |after| == |grown|
    requires forall i :: 0 <= i < |after| ==> after[i] == grown[i].(nextFree := after[i].nextFree)
    ensures Extended(before, after, r, offs)
  {
    forall i | |before| <= i < |after| ensures SlotAt(after[i], r, offs[i - |before|]) {
      assert grown[i] == NewSlots(r, offs, home)[i - |before|];
    }
  }

  /** Linking the new slots keeps everything but the links. */
  lemma Linked(p: Pool, before: seq<Slot>, grown: seq<Slot>, after: seq<Slot>, chunks: seq<Chunk>, free: seq<nat>,
    r: Region, offs: seq<nat>, home: nat)
    requires grown == before + NewSlots(r, offs, home) && |after| == |grown|
    requires forall i :: 0 <= i < |after| ==> after[i] == grown[i].(nextFree := after[i].nextFree)
    requires Layout(p, grown, chunks) && FreeExact(before, free) && forall x :: x in free ==> x < |before|
    ensures Extended(before, after, r, offs) && Layout(p, after, chunks) && Used(after) == Used(grown)
    ensures FreeExact(after, Ascending(|before|, |after|, free))
  {
    LinkedExtends(before, grown, after, r, offs, home);
    LayoutStays(p, grown, after, chunks);
    UsedSame(grown, after);
    AscendingMembers(|before|, |after|, free);
    LinkedExact(before, grown, after, free, Ascending(|before|, |after|, free));
  }

  /** The mapping can be made into a chunk: it is within the mask, its slot array is not too large and is
      granted, and the number of its slots is not a multiple of 2^32. */
  ghost predicate Growable(p: Pool, r: Region, memory: bool)
    requires PoolOk(p)
  {
    && r.dma + p.chunkLen - 1 <= p.mask && p.chunkLen / p.stride <= MAX / SLOT_BYTES && memory
    && exists offs :: Carved(p, r.dma, offs) && |offs| % WORD32 != 0
  }

  lemma GrowableIs(p: Pool, r: Region, memory: bool, offs: seq<nat>)
    requires PoolOk(p) && r.dma + p.chunkLen - 1 <= p.mask && p.chunkLen / p.stride <= MAX / SLOT_BYTES && memory
    requires Carved(p, r.dma, offs)
    ensures Growable(p, r, memory) <==> |offs| % WORD32 != 0
  {
    if Growable(p, r, memory) {
      var others :| Carved(p, r.dma, others) && |others| % WORD32 != 0;
      FirstFitUnique(Good(p, r.dma), p.stride, offs, others, p.chunkLen);
    }
  }

  class SlotPool {
    const pool: Pool
    var slots: seq<Slot>
    var chunks: seq<Chunk>  // oldest first
    var head: int           // free_list
    var active: nat         // a 32-bit count
    ghost var free: seq<nat>

    ghost predicate Valid()
      reads this
    {
      && Layout(pool, slots, chunks)
      && FreeList(slots, head, free) && FreeExact(slots, free)
      && active == Used(slots) % WORD32
    }

    constructor (pool: Pool)
      requires PoolOk(pool)
      ensures Valid() && slots == [] && active == 0 && this.pool == pool
    {
      this.pool := pool;
      slots, chunks, head, active, free := [], [], Nil, 0, [];
    }

    /** Slot i has changed hands; every other slot is as before. */
    ghost predicate OnlyChanged(before: seq<Slot>, i: nat, inUse: bool)
      reads this
    {
      && |slots| == |before| && i < |slots| && before[i].inUse == !inUse && slots[i].inUse == inUse
      && forall j :: 0 <= j < |slots| ==>
           && slots[j].cpu == before[j].cpu && slots[j].dma == before[j].dma && slots[j].home == before[j].home
           && (j != i ==> slots[j].inUse == before[j].inUse)
    }

    /** dma_pool_alloc when the free list is not empty. */
    method Take() returns (i: nat)
      requires Valid() && head != Nil
      modifies `slots, `head, `active, `free
      ensures Valid() && chunks == old(chunks) && OnlyChanged(old(slots), i, true)
      ensures Used(slots) == Used(old(slots)) + 1
    {
      Popped(slots, head, free);
      i := head;
      UsedUpdate(slots, i, Taken(slots[i]));
      OneMore(Used(slots));
      ghost var before := slots;
      head := slots[i].nextFree;
      slots := slots[i := Taken(slots[i])];
      active := (active + 1) % WORD32;
      free := free[1..];
      LayoutStays(pool, before, slots, chunks);
    }

    /** One round of the last loop of dma_pool_grow. */
    method PushFree(i: nat)
      requires FreeList(slots, head, free) && i < |slots| && i !in free && !slots[i].inUse
      modifies this`slots, this`head, this`free
      ensures FreeList(slots, head, free) && free == [i] + old(free)
      ensures slots == old(slots)[i := old(slots)[i].(nextFree := old(head))]
    {
      Pushed(slots, head, free, i);
      assert slots[i].(nextFree := head, inUse := false) == slots[i].(nextFree := head);
      slots, head := slots[i := slots[i].(nextFree := head)], i;
      free := [i] + free;
    }

    /** The last loop of dma_pool_grow: put the slots [lo, hi) in front of the free list. */
    method LinkAll(lo: nat, hi: nat)
      requires lo <= hi == |slots| && FreeList(slots, head, free) && (forall x :: x in free ==> x < lo)
      requires forall x :: lo <= x < hi ==> !slots[x].inUse
      modifies this`slots, this`head, this`free
      ensures FreeList(slots, head, free) && free == Ascending(lo, hi, old(free)) && |slots| == |old(slots)|
      ensures forall x :: 0 <= x < |slots| ==> slots[x] == old(slots)[x].(nextFree := slots[x].nextFree)
    {
      var i := hi;
      while i > lo
        invariant lo <= i <= hi == |slots| && FreeList(slots, head, free) && free == Ascending(i, hi, old(free))
        invariant forall x :: 0 <= x < |slots| ==> slots[x] == old(slots)[x].(nextFree := slots[x].nextFree)
      {
        AscendingMembers(i, hi, old(free));
        i := i - 1;
        PushFree(i);
      }
    }

    /** The chunk with its slots, not yet linked. */
    method Publish(r: Region, offs: seq<nat>)
      requires Valid() && Fresh(pool, chunks, r) && Spaced(pool, offs)
      requires forall i :: 0 <= i < |offs| ==> SlotOk(pool, r.dma, offs[i])
      modifies this`slots, this`chunks
      ensures Layout(pool, slots, chunks) && FreeList(slots, head, free) && active == Used(slots) % WORD32
      ensures slots == old(slots) + NewSlots(r, offs, |old(chunks)|) && Used(slots) == Used(old(slots))
      ensures chunks == old(chunks) + [Chunk(r.cpu, r.dma, |old(slots)|, |offs|)]
    {
      var more := NewSlots(r, offs, |chunks|);
      LayoutGrown(pool, slots, chunks, r, offs);
      FreeListGrown(slots, more, head, free);
      UsedAppend(slots, more);
      chunks := chunks + [Chunk(r.cpu, r.dma, |slots|, |offs|)];
      slots := slots + more;
    }

    /** The end of dma_pool_grow: the chunk is published and its slots are linked. */
    method AddChunk(r: Region, offs: seq<nat>)
      requires Valid() && Fresh(pool, chunks, r) && Spaced(pool, offs) && offs != []
      requires forall i :: 0 <= i < |offs| ==> SlotOk(pool, r.dma, offs[i])
      modifies `slots, `chunks, `head, `free
      ensures Valid() && Used(slots) == Used(old(slots)) && |slots| == |old(slots)| + |offs| && head != Nil
      ensures Extended(old(slots), slots, r, offs)
      ensures chunks == old(chunks) + [Chunk(r.cpu, r.dma, |old(slots)|, |offs|)]
    {
      var lo := |slots|;
      Publish(r, offs);
      ghost var grown := slots;
      LinkAll(lo, |slots|);
      Linked(pool, old(slots), grown, slots, chunks, old(free), r, offs, |old(chunks)|);
    }

    /** dma_pool_grow with a mapping within the mask and its slot array. */
    method GrowInto(r: Region) returns (ok: bool, ghost offs: seq<nat>)
      requires Valid() && Fresh(pool, chunks, r) && r.dma + pool.chunkLen - 1 <= pool.mask
      modifies this
      ensures Valid() && Used(slots) == Used(old(slots)) && Carved(pool, r.dma, offs) && offs != []
      ensures ok <==> |offs| % WORD32 != 0
      ensures !ok ==> slots == old(slots) && chunks == old(chunks) && head == old(head)
      ensures ok ==> var n := |offs| % WORD32;
                     && Extended(old(slots), slots, r, offs[|offs| - n..]) && head != Nil
                     && chunks == old(chunks) + [Chunk(r.cpu, r.dma, |old(slots)|, n)]
    {
      var buf, n;
      buf, n, offs := Carve(pool, r.dma);
      if n == 0 { return false, offs; }
      CarvedPart(pool, r.dma, offs, |offs| - n);
      AddChunk(r, buf[..n]);
      ok := true;
    }

    /** dma_pool_grow on a new backing mapping. `offs` are the slots it finds when it comes to that.
        It fails exactly when the mapping is not within the DMA mask, the slot array is too large or
        not granted, or the slots are a multiple of 2^32, which the counter takes for none. Else
        their number modulo 2^32 is added. */
    method Grow(r: Region, memory: bool) returns (ok: bool, ghost offs: seq<nat>)
      requires Valid() && Fresh(pool, chunks, r)
      modifies this
      ensures Valid() && Used(slots) == Used(old(slots))
      ensures r.dma + pool.chunkLen - 1 <= pool.mask ==>
                pool.chunkLen / pool.stride <= MAX / SLOT_BYTES && memory ==> Carved(pool, r.dma, offs) && offs != []
      ensures ok <==> r.dma + pool.chunkLen - 1 <= pool.mask && pool.chunkLen / pool.stride <= MAX / SLOT_BYTES
                      && memory && |offs| % WORD32 != 0
      ensures ok <==> Growable(pool, r, memory)
      ensures !ok ==> slots == old(slots) && chunks == old(chunks) && head == old(head)
      ensures ok ==> var n := |offs| % WORD32;
                     && Extended(old(slots), slots, r, offs[|offs| - n..]) && head != Nil
                     && chunks == old(chunks) + [Chunk(r.cpu, r.dma, |old(slots)|, n)]
    {
      offs := [];
      if pool.mask < pool.chunkLen - 1 || r.dma > pool.mask - (pool.chunkLen - 1) { return false, offs; }
      if pool.chunkLen / pool.stride > MAX / SLOT_BYTES || !memory { return false, offs; }
      ok, offs := GrowInto(r);
      GrowableIs(pool, r, memory, offs);
    }

    /** dma_pool_alloc. `backing` is what the system would map for a new chunk, if anything,
        and `memory` whether it grants the memory for the slot array. */
    method Alloc(flags: nat, backing: seq<Region>, memory: bool) returns (i: int)
      requires Valid() && |backing| <= 1 && forall r :: r in backing ==> Fresh(pool, chunks, r)
      modifies this
      ensures Valid() && |slots| >= |old(slots)|
      ensures i >= 0 ==> i < |slots| && slots[i].inUse && (i < |old(slots)| ==> !old(slots)[i].inUse)
      ensures Used(slots) == Used(old(slots)) + if i >= 0 then 1 else 0
      ensures i < 0 ==> slots == old(slots)
      ensures i >= 0 <==>
              && flags <= NO_GROW
              && ((exists j :: 0 <= j < |old(slots)| && !old(slots)[j].inUse)
                  || (flags < NO_GROW && backing != [] && Growable(pool, backing[0], memory)))
      ensures (exists j :: 0 <= j < |old(slots)| && !old(slots)[j].inUse) ==>
                |slots| == |old(slots)| && chunks == old(chunks)
      ensures forall j :: 0 <= j < |old(slots)| && j != i ==> slots[j].inUse == old(slots)[j].inUse
      ensures forall j :: 0 <= j < |old(slots)| ==>
                slots[j].cpu == old(slots)[j].cpu && slots[j].dma == old(slots)[j].dma
    {
      assert head == Nil ==> free == [];
      if flags > NO_GROW { return Nil; }
      if head == Nil {
        if flags == NO_GROW || backing == [] { return Nil; }
        var ok, _ := Grow(backing[0], memory);
        if !ok { return Nil; }
      }
      i := Take();
    }

    /** The chunk whose memory holds this address, newest first; |chunks| if there is none. */
    method FindChunk(cpu: nat) returns (k: nat)
      ensures k <= |chunks|
      ensures k < |chunks| ==> chunks[k].cpu <= cpu < chunks[k].cpu + pool.chunkLen
      ensures k == |chunks| ==> forall l :: 0 <= l < |chunks| ==>
                !(chunks[l].cpu <= cpu < chunks[l].cpu + pool.chunkLen)
    {
      var l := |chunks|;
      while l > 0
        invariant 0 <= l <= |chunks|
        invariant forall x :: l <= x < |chunks| ==> !(chunks[x].cpu <= cpu < chunks[x].cpu + pool.chunkLen)
      {
        l := l - 1;
        if chunks[l].cpu <= cpu < chunks[l].cpu + pool.chunkLen { return l; }
      }
      return |chunks|;
    }

    /** The slot at an address, or |slots|. */
    method FindSlot(cpu: nat) returns (i: nat)
      requires Valid()
      ensures i <= |slots| && (i < |slots| ==> slots[i].cpu == cpu)
      ensures i == |slots| ==> forall j :: 0 <= j < |slots| ==> slots[j].cpu != cpu
    {
      var k := FindChunk(cpu);
      if k == |chunks| {
        forall j | 0 <= j < |slots| ensures slots[j].cpu != cpu { assert SlotHome(pool, slots, chunks, j); }
        return |slots|;
      }
      var c := chunks[k];
      assert ChunkOk(pool, slots, chunks, k);
      i := c.lo;
      while i < c.lo + c.n
        invariant c.lo <= i <= c.lo + c.n
        invariant forall j :: c.lo <= j < i ==> slots[j].cpu != cpu
      {
        if slots[i].cpu == cpu { return; }
        i := i + 1;
      }
      forall j | 0 <= j < |slots| ensures slots[j].cpu != cpu { assert SlotHome(pool, slots, chunks, j); }
      return |slots|;
    }

    /** The effect of dma_pool_free on a slot in use. */
    method PutBack(s: nat)
      requires Valid() && s < |slots| && slots[s].inUse
      modifies this
      ensures Valid() && chunks == old(chunks) && OnlyChanged(old(slots), s, false)
      ensures Used(slots) == Used(old(slots)) - 1
    {
      ghost var before := slots;
      Pushed(slots, head, free, s);
      var slot := slots[s].(nextFree := head, inUse := false);
      UsedUpdate(slots, s, slot);
      OneLess(Used(slots));
      slots, head, active := slots[s := slot], s, (active + WORD32 - 1) % WORD32;
      free := [s] + free;
      LayoutStays(pool, before, slots, chunks);
    }

    /** dma_pool_free: succeeds for exactly the objects in use, named by both addresses. */
    method Free(cpu: nat, dma: nat) returns (ok: bool, ghost i: nat)
      requires Valid()
      modifies this
      ensures Valid() && chunks == old(chunks)
      ensures ok <==> exists j :: 0 <= j < |old(slots)| && old(slots)[j].inUse
                                  && old(slots)[j].cpu == cpu && old(slots)[j].dma == dma
      ensures ok ==> OnlyChanged(old(slots), i, false) && slots[i].cpu == cpu && Used(slots) == Used(old(slots)) - 1
      ensures !ok ==> slots == old(slots) && active == old(active) && head == old(head)
    {
      var s := FindSlot(cpu);
      if s == |slots| { return false, 0; }
      forall j | 0 <= j < |slots| && slots[j].cpu == cpu ensures j == s {
        if j < s { ObjectsDisjoint(pool, slots, chunks, j, s); }
        if s < j { ObjectsDisjoint(pool, slots, chunks, s, j); }
      }
      if !slots[s].inUse || slots[s].dma != dma { return false, 0; }
      PutBack(s);
      return true, s;
    }

    /** dma_pool_destroy: refused exactly while the 32-bit count of objects in use is not zero, which
        is while something is in use unless that is a multiple of 2^32. */
    method Destroy() returns (ok: bool)
      requires Valid()
      modifies this
      ensures ok <==> Used(old(slots)) % WORD32 == 0
      ensures Used(old(slots)) < WORD32 ==> (ok <==> forall i :: 0 <= i < |old(slots)| ==> !old(slots)[i].inUse)
      ensures !ok ==> Valid() && slots == old(slots) && chunks == old(chunks) && active == old(active)
    {
      UsedZero(slots);
      if active != 0 { return false; }
      slots, chunks, head, free := [], [], Nil, [];
      return true;
    }
  }
}
