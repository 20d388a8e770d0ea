/**
  Cutting a chunk of DMA memory into slots (lib/libasyncdriver/dmapool.c): alignment, boundary
  and mask constraints in 64-bit arithmetic.
*/
module DmaCarve {
  import opened Arith
  import opened Bits

  const MAX := 0xffff_ffff_ffff_ffff  // (size_t)-1 and (phys_bytes)-1
  const PAGE := 4096                  // ARCH_PG_SIZE
  const WORD32 := 0x1_0000_0000       // one more than the largest unsigned int

  datatype Config = Config(size: nat, align: nat, boundary: nat, mask: nat)

  datatype Pool = Pool(size: nat, align: nat, boundary: nat, mask: nat, stride: nat, chunkLen: nat)

  datatype Error = EInval | EOpnotsupp | EOverflow | ERange | ENomem

  datatype Result<T> = Success(value: T) | Failure(error: Error)

  // ---------------------------------------------------------------- align_up_sz

  /** The least multiple of a that is not below v. */
  ghost predicate IsRoundUp(v: nat, a: nat, r: nat)
    requires a > 0
  {
    r % a == 0 && v <= r < v + a
  }

  lemma RoundUp(v: nat, a: nat) returns (r: nat)
    requires a > 0
    ensures IsRoundUp(v, a, r) && r == if v % a == 0 then v else v - v % a + a
    ensures forall r': nat :: IsRoundUp(v, a, r') ==> r' == r
  {
    DivMod(v, a);
    var q := v / a;
    r := if v % a == 0 then v else v - v % a + a;
    var k := if v % a == 0 then q else q + 1;
    assert r == k * a by { assert (q + 1) * a == q * a + a; }
    DivModUnique(r, a, k, 0);
    forall r': nat | IsRoundUp(v, a, r') ensures r' == r {
      DivMod(r', a);
      SameMultiple(r' / a, k, a);
    }
  }

  lemma SameMultiple(x: nat, y: nat, a: nat)
    requires a > 0 && x * a < y * a + a && y * a < x * a + a
    ensures x == y
  {
    assert (x + 1) * a == x * a + a && (y + 1) * a == y * a + a;
    if x > y { Grows(y + 1, x, a, a); }
    if y > x { Grows(x + 1, y, a, a); }
  }

  /** align_up_sz: fails exactly when the result would not fit. */
  method AlignUp(v: nat, a: nat) returns (ok: bool, out: nat)
    requires IsPow2(a) && v <= MAX && a <= MAX
    ensures ok ==> out <= MAX && IsRoundUp(v, a, out)
    ensures !ok ==> forall r: nat :: IsRoundUp(v, a, r) ==> r > MAX
    ensures v % a == 0 ==> ok && out == v
  {
    Pow2Mask(v, a);
    ghost var r := RoundUp(v, a);
    var rem := And(v, a - 1);
    out := v;
    if rem != 0 {
      var pad := a - rem;
      if v > MAX - pad { return false, 0; }
      out := v + pad;
    }
    return true, out;
  }

  // ---------------------------------------------------------------- dma_pool_create

  ghost predicate PoolOk(p: Pool) {
    && 0 < p.size <= p.stride <= MAX && IsPow2(p.align) && p.align <= PAGE && p.stride % p.align == 0
    && (p.boundary != 0 ==> IsPow2(p.boundary) && p.stride <= p.boundary <= MAX)
    && 0 < p.mask <= MAX
    && p.chunkLen <= MAX && p.chunkLen % PAGE == 0 && PAGE <= p.chunkLen
    && p.stride + (if p.boundary == 0 then 0 else p.boundary - 1) <= p.chunkLen
  }

  lemma PageIsPow2()
    ensures IsPow2(PAGE)
  {
    assert IsPow2(2) && IsPow2(4) && IsPow2(8) && IsPow2(16) && IsPow2(32) && IsPow2(64) && IsPow2(128);
    assert IsPow2(256) && IsPow2(512) && IsPow2(1024) && IsPow2(2048);
  }

  ghost predicate Checked(c: Config) {
    && c.size > 0 && (c.align == 0 || IsPow2(c.align)) && c.align <= PAGE
    && (c.boundary == 0 || IsPow2(c.boundary))
    && c.mask != 0 && And(c.mask, (c.mask + 1) % (MAX + 1)) == 0
  }

  function AlignOf(c: Config): nat {
    if c.align == 0 then 1 else c.align
  }

  /** The memory for one object, and at least a page, behind any boundary. */
  function ChunkBase(stride: nat, boundary: nat): nat {
    (if stride > PAGE then stride else PAGE) + if boundary == 0 then 0 else boundary - 1
  }

  /** What dma_pool_create makes of a configuration. */
  ghost predicate Created(c: Config, r: Result<Pool>) {
    match r
    case Success(p) =>
      && Checked(c) && PoolOk(p) && p.size == c.size && p.boundary == c.boundary && p.mask == c.mask
      && p.align == AlignOf(c) && IsRoundUp(c.size, p.align, p.stride)
      && IsRoundUp(ChunkBase(p.stride, p.boundary), PAGE, p.chunkLen)
    case Failure(EOverflow) => c.size + c.boundary + 2 * PAGE > MAX
    case Failure(e) =>
      (e == EInval || e == EOpnotsupp) && (!Checked(c) || (c.boundary != 0 && c.boundary < c.size + AlignOf(c) - 1))
  }

  /** The length of a chunk: whole pages. */
  method ChunkLength(stride: nat, boundary: nat) returns (ok: bool, len: nat)
    requires 0 < stride <= MAX && boundary <= MAX
    ensures ok ==> len <= MAX && len % PAGE == 0 && PAGE <= len
    ensures ok ==> IsRoundUp(ChunkBase(stride, boundary), PAGE, len)
    ensures !ok ==> stride + boundary + PAGE > MAX || boundary + 2 * PAGE > MAX
  {
    var base := if stride > PAGE then stride else PAGE;
    if boundary != 0 {
      if base > MAX - (boundary - 1) { return false, 0; }
      base := base + boundary - 1;
    }
    PageIsPow2();
    ghost var up := RoundUp(base, PAGE);
    ok, len := AlignUp(base, PAGE);
  }

  /** The checks of dma_pool_create, and the alignment. */
  method CheckConfig(c: Config) returns (r: Result<nat>)
    requires c.size <= MAX && c.align <= MAX && c.boundary <= MAX && c.mask <= MAX
    ensures r.Success? ==> Checked(c) && r.value == AlignOf(c) && IsPow2(r.value) && r.value <= PAGE
    ensures r.Failure? ==> (r.error == EInval || r.error == EOpnotsupp) && !Checked(c)
  {
    if c.size == 0 { return Failure(EInval); }
    var align := if c.align != 0 then c.align else 1;
    Pow2Test(align);
    if And(align, align - 1) != 0 { return Failure(EInval); }
    if align > PAGE { return Failure(EOpnotsupp); }
    if c.boundary != 0 {
      Pow2Test(c.boundary);
      if And(c.boundary, c.boundary - 1) != 0 { return Failure(EInval); }
    }
    if c.mask == 0 || And(c.mask, (c.mask + 1) % (MAX + 1)) != 0 { return Failure(EInval); }
    return Success(align);
  }

  /** dma_pool_create: the parameters of a pool whose chunks can hold at least one object. */
  method Create(c: Config) returns (r: Result<Pool>)
    requires c.size <= MAX && c.align <= MAX && c.boundary <= MAX && c.mask <= MAX
    ensures Created(c, r)
  {
    var checked := CheckConfig(c);
    if checked.Failure? { return Failure(checked.error); }
    var align := checked.value;
    ghost var s := RoundUp(c.size, align);
    var ok, stride := AlignUp(c.size, align);
    if !ok { return Failure(EOverflow); }
    if c.boundary != 0 && c.boundary < stride { return Failure(EInval); }
    var fits, chunkLen := ChunkLength(stride, c.boundary);
    if !fits { return Failure(EOverflow); }
    return Success(Pool(c.size, align, c.boundary, c.mask, stride, chunkLen));
  }

  // ---------------------------------------------------------------- carving

  /** The object at this DMA address does not cross a boundary. */
  predicate Inside(p: Pool, dma: nat)
    requires p.size > 0
  {
    p.boundary == 0 || dma / p.boundary == (dma + p.size - 1) / p.boundary
  }

  /** What the users of a slot rely on. */
  ghost predicate SlotOk(p: Pool, base: nat, off: nat)
    requires PoolOk(p)
  {
    && (base + off) % p.align == 0
    && Inside(p, base + off)
    && off + p.stride <= p.chunkLen
    && base + off + p.size - 1 <= p.mask
  }

  ghost predicate Spaced(p: Pool, slots: seq<nat>) {
    forall i, j :: 0 <= i < j < |slots| ==> slots[i] + p.stride <= slots[j]
  }

  /** The first boundary above an address that is followed by a crossing. */
  lemma NextBoundary(dma: nat, b: nat, size: nat) returns (next: nat)
    requires b > 0 && 0 < size <= b && dma / b != (dma + size - 1) / b
    ensures next == (dma / b + 1) * b && dma < next <= dma + size - 1 && next < dma + b
    ensures next % b == 0 && next / b == (next + size - 1) / b
  {
    DivMod(dma, b);
    NotCrossing(dma, b, size);
    next := (dma / b + 1) * b;
    assert next == dma / b * b + b;
    DivModUnique(next, b, dma / b + 1, 0);
    NotCrossing(next, b, size);
  }

  lemma NotCrossing(dma: nat, b: nat, size: nat)
    requires b > 0 && size > 0
    ensures dma % b + size - 1 < b ==> (dma + size - 1) / b == dma / b
  {
    DivMod(dma, b);
    if dma % b + size - 1 < b { DivModUnique(dma + size - 1, b, dma / b, dma % b + size - 1); }
  }

  lemma SmallerQuotient(x: nat, y: nat, b: nat)
    requires b > 0 && x <= y
    ensures x / b <= y / b
  {
    DivMod(x, b);
    DivMod(y, b);
    var q, q' := x / b, y / b;
    assert (q' + 1) * b == q' * b + b;
    if q > q' { Grows(q' + 1, q, b, b); }
  }

  lemma AtLeastDivisor(x: nat, a: nat)
    requires x > 0 && a > 0 && x % a == 0
    ensures a <= x
  {
    DivMod(x, a);
    if x / a >= 1 { Grows(1, x / a, a, a); }
  }

  lemma MultipleOfDivisor(x: nat, b: nat, a: nat)
    requires a > 0 && b > 0 && x % b == 0 && b % a == 0
    ensures x % a == 0
  {
    DivMod(x, b);
    DivMod(b, a);
    var q, r := x / b, b / a;
    assert x == q * r * a by { assert q * (r * a) == q * r * a; }
    DivModUnique(x, a, q * r, 0);
  }

  lemma DifferenceOfMultiples(x: nat, y: nat, a: nat)
    requires a > 0 && x % a == 0 && y % a == 0
    ensures (x + y) % a == 0 && (x >= y ==> (x - y) % a == 0)
  {
    DivMod(x, a);
    DivMod(y, a);
    var q, r := x / a, y / a;
    assert x + y == (q + r) * a;
    DivModUnique(x + y, a, q + r, 0);
    if x >= y {
      assert x - y == (q - r) * a;
      assert q >= r by { SmallerQuotient(y, x, a); }
      DivModUnique(x - y, a, q - r, 0);
    }
  }

  lemma QuotientAtLeast(k: nat, a: nat, y: nat)
    requires a > 0 && k * a <= y
    ensures k <= y / a
  {
    DivMod(y, a);
    var q := y / a;
    assert (q + 1) * a == q * a + a;
    if k > q { Grows(q + 1, k, a, a); }
  }

  /** The offsets tried before the first slot: the start of the chunk, or the first boundary. */
  ghost predicate FirstTry(p: Pool, base: nat, off: nat) {
    off == 0 || (p.boundary != 0 && (base + off) % p.boundary == 0 && off < p.boundary)
  }

  lemma BaseAligned(p: Pool, base: nat)
    requires PoolOk(p) && base % PAGE == 0
    ensures base % p.align == 0 && (p.boundary != 0 ==> p.boundary % p.align == 0)
  {
    PageIsPow2();
    Pow2Divides(p.align, PAGE);
    MultipleOfDivisor(base, PAGE, p.align);
    AtLeastDivisor(p.stride, p.align);
    if p.boundary != 0 { Pow2Divides(p.align, p.boundary); }
  }

  lemma BoundaryOffset(base: nat, off: nat, b: nat, align: nat, size: nat)
    requires align > 0 && b > 0 && 0 < size <= b && base % align == 0 && b % align == 0 && (base + off) % b == 0
    ensures off % align == 0 && (base + off) / b == (base + off + size - 1) / b
  {
    MultipleOfDivisor(base + off, b, align);
    DifferenceOfMultiples(base + off, base, align);
    NotCrossing(base + off, b, size);
  }

  /** The first try fits and, at a boundary, always yields a slot. */
  lemma FirstTryFits(p: Pool, base: nat, off: nat)
    requires PoolOk(p) && base % PAGE == 0
    ensures FirstTry(p, base, off) ==> off + p.stride <= p.chunkLen && off % p.align == 0 && (off != 0 ==>
              Inside(p, base + off))
  {
    BaseAligned(p, base);
    if off == 0 {
      DivModUnique(0, p.align, 0, 0);
    } else if FirstTry(p, base, off) {
      BoundaryOffset(base, off, p.boundary, p.align, p.size);
    }
  }

  /** An aligned offset that does not cross a boundary is a good slot. */
  lemma GoodSlot(p: Pool, base: nat, off: nat)
    requires PoolOk(p) && base % PAGE == 0 && base + p.chunkLen - 1 <= p.mask
    requires off % p.align == 0 && off + p.stride <= p.chunkLen && Inside(p, base + off)
    ensures SlotOk(p, base, off)
  {
    BaseAligned(p, base);
    DifferenceOfMultiples(base, off, p.align);
  }

  /** Where to go on after a crossing; the 64-bit sum does not wrap. */
  method SkipToBoundary(p: Pool, base: nat, off: nat) returns (next: nat)
    requires PoolOk(p) && off + p.stride <= p.chunkLen && base + p.chunkLen - 1 <= p.mask && !Inside(p, base + off)
    ensures off < next && (off == 0 ==> FirstTry(p, base, next))
    ensures p.boundary != 0 && base + next == ((base + off) / p.boundary + 1) * p.boundary
  {
    var dma := base + off;
    ghost var nb := NextBoundary(dma, p.boundary, p.size);
    assert nb <= MAX;
    next := (dma / p.boundary + 1) * p.boundary - base;
  }

  /** The offsets that would do as a slot. */
  ghost function Good(p: Pool, base: nat): nat -> bool
    requires PoolOk(p)
  {
    (o: nat) => SlotOk(p, base, o)
  }

  /** Some slot of the list lies less than a stride below offset o, or at it. */
  ghost predicate Overlapped(stride: nat, offs: seq<nat>, o: nat) {
    exists i :: 0 <= i < |offs| && offs[i] <= o < offs[i] + stride
  }

  /** No good offset below `off` was passed over. */
  ghost predicate Swept(good: nat -> bool, stride: nat, offs: seq<nat>, off: nat) {
    forall o: nat {:trigger Overlapped(stride, offs, o)} :: o < off && good(o) ==> Overlapped(stride, offs, o)
  }

  /** The list a search from left to right makes: every offset is good, they are a stride apart, and
      no good one below `end` is left out. */
  ghost predicate FirstFit(good: nat -> bool, stride: nat, offs: seq<nat>, end: nat) {
    && (forall i :: 0 <= i < |offs| ==> good(offs[i]) && offs[i] < end)
    && (forall i, j :: 0 <= i < j < |offs| ==> offs[i] + stride <= offs[j])
    && Swept(good, stride, offs, end)
  }

  /** So much of the list is settled by what is good: where two lists differ first cannot be. */
  lemma FirstFitAgree(good: nat -> bool, stride: nat, a: seq<nat>, b: seq<nat>, end: nat, k: nat)
    requires FirstFit(good, stride, a, end) && FirstFit(good, stride, b, end) && stride > 0
    requires k < |a| && k <= |b| && forall i :: 0 <= i < k ==> a[i] == b[i]
    ensures k < |b| && b[k] <= a[k]
  {
    assert forall i :: 0 <= i < k ==> b[i] + stride <= a[k];
    assert Overlapped(stride, b, a[k]);
    var i :| 0 <= i < |b| && b[i] <= a[k] < b[i] + stride;
    assert k < i ==> b[k] + stride <= b[i];
  }

  lemma {:induction false} FirstFitPrefix(good: nat -> bool, stride: nat, a: seq<nat>, b: seq<nat>, end: nat, k: nat)
    requires FirstFit(good, stride, a, end) && FirstFit(good, stride, b, end) && stride > 0 && k <= |a|
    ensures k <= |b| && forall i :: 0 <= i < k ==> a[i] == b[i]
  {
    if k > 0 {
      FirstFitPrefix(good, stride, a, b, end, k - 1);
      FirstFitAgree(good, stride, a, b, end, k - 1);
      FirstFitAgree(good, stride, b, a, end, k - 1);
    }
  }

  /** There is one such list. */
  lemma FirstFitUnique(good: nat -> bool, stride: nat, a: seq<nat>, b: seq<nat>, end: nat)
    requires FirstFit(good, stride, a, end) && FirstFit(good, stride, b, end) && stride > 0
    ensures a == b
  {
    FirstFitPrefix(good, stride, a, b, end, |a|);
    FirstFitPrefix(good, stride, b, a, end, |b|);
  }

  lemma SweptOne(good: nat -> bool, stride: nat, offs: seq<nat>, off: nat)
    requires Swept(good, stride, offs, off)
    ensures Swept(good, stride, offs + [off], off + stride)
  {
    forall o: nat | o < off + stride && good(o) ensures Overlapped(stride, offs + [off], o) {
      if o < off {
        assert Overlapped(stride, offs, o);
        var i :| 0 <= i < |offs| && offs[i] <= o < offs[i] + stride;
        assert (offs + [off])[i] == offs[i];
      } else {
        assert (offs + [off])[|offs|] == off;
      }
    }
  }

  lemma SweptOver(good: nat -> bool, stride: nat, offs: seq<nat>, off: nat, next: nat)
    requires Swept(good, stride, offs, off) && forall o: nat :: off <= o < next ==> !good(o)
    ensures Swept(good, stride, offs, next)
  {
  }

  /** A good slot is at an aligned offset, so rounding up passes none over. */
  lemma UnalignedNotGood(p: Pool, base: nat, off: nat, next: nat, o: nat)
    requires PoolOk(p) && base % PAGE == 0 && IsRoundUp(off, p.align, next) && off <= o < next
    ensures !SlotOk(p, base, o)
  {
    BaseAligned(p, base);
    var r := RoundUp(off, p.align);
    assert IsRoundUp(off, p.align, o) ==> o == r;
    if (base + o) % p.align == 0 { DifferenceOfMultiples(base + o, base, p.align); }
  }

  lemma CrossingGap(dma: nat, b: nat, size: nat, x: nat)
    requires b > 0 && 0 < size <= b && dma / b != (dma + size - 1) / b && dma <= x < (dma / b + 1) * b
    ensures x / b != (x + size - 1) / b
  {
    var nb := NextBoundary(dma, b, size);
    QuotientBound(x, b, dma / b + 1);
    QuotientAtLeast(dma / b + 1, b, x + size - 1);
  }

  /** Offsets between a crossing and the next boundary cross it too. */
  lemma CrossingNotGood(p: Pool, base: nat, off: nat, next: nat, o: nat)
    requires PoolOk(p) && p.boundary != 0 && !Inside(p, base + off)
    requires base + next == ((base + off) / p.boundary + 1) * p.boundary && off <= o < next
    ensures !SlotOk(p, base, o)
  {
    CrossingGap(base + off, p.boundary, p.size, base + o);
    assert !Inside(p, base + o);
  }

  ghost predicate NoneGood(p: Pool, base: nat, from: nat, to: nat)
    requires PoolOk(p)
  {
    forall o: nat :: from <= o < to ==> !Good(p, base)(o)
  }

  /** What the loop has found when it is at `off`. */
  ghost predicate Packed(p: Pool, base: nat, offs: seq<nat>, off: nat)
    requires PoolOk(p)
  {
    && (forall i :: 0 <= i < |offs| ==> Good(p, base)(offs[i]) && offs[i] + p.stride <= off)
    && Spaced(p, offs) && Swept(Good(p, base), p.stride, offs, off)
  }

  lemma PackedOne(p: Pool, base: nat, offs: seq<nat>, off: nat)
    requires PoolOk(p) && Packed(p, base, offs, off) && SlotOk(p, base, off)
    ensures Packed(p, base, offs + [off], off + p.stride)
  {
    SweptOne(Good(p, base), p.stride, offs, off);
  }

  /** The slots of a chunk. */
  ghost predicate Carved(p: Pool, base: nat, offs: seq<nat>)
    requires PoolOk(p)
  {
    FirstFit(Good(p, base), p.stride, offs, p.chunkLen)
  }

  lemma PackedOver(p: Pool, base: nat, offs: seq<nat>, off: nat, next: nat)
    requires PoolOk(p) && Packed(p, base, offs, off) && off <= next && NoneGood(p, base, off, next)
    ensures Packed(p, base, offs, next)
  {
    SweptOver(Good(p, base), p.stride, offs, off, next);
  }

  lemma {:induction false} CountFits(stride: nat, offs: seq<nat>, off: nat)
    requires forall i :: 0 <= i < |offs| ==> offs[i] + stride <= off
    requires forall i, j :: 0 <= i < j < |offs| ==> offs[i] + stride <= offs[j]
    ensures |offs| * stride <= off
  {
    if offs != [] {
      var front, last := offs[..|offs| - 1], offs[|offs| - 1];
      CountFits(stride, front, last);
      assert |offs| * stride == |front| * stride + stride;
    }
  }

  /** The array has room for one more slot. */
  lemma RoomForOne(p: Pool, base: nat, offs: seq<nat>, off: nat)
    requires PoolOk(p) && Packed(p, base, offs, off) && off + p.stride <= p.chunkLen
    ensures |offs| < p.chunkLen / p.stride
  {
    CountFits(p.stride, offs, off);
    assert (|offs| + 1) * p.stride == |offs| * p.stride + p.stride;
    QuotientAtLeast(|offs| + 1, p.stride, p.chunkLen);
  }

  /** What one round of the loop does: leave, go on behind a boundary, or take a slot. */
  datatype Round = Leave | GoOn(next: nat) | Take(at: nat)

  /** Rounding up goes past nothing good. */
  lemma AlignedNoneGood(p: Pool, base: nat, off: nat, next: nat)
    requires PoolOk(p) && base % PAGE == 0 && IsRoundUp(off, p.align, next)
    ensures NoneGood(p, base, off, next)
  {
    forall o: nat | off <= o < next ensures !Good(p, base)(o) { UnalignedNotGood(p, base, off, next, o); }
  }

  lemma SkippedNoneGood(p: Pool, base: nat, off: nat, next: nat)
    requires PoolOk(p) && p.boundary != 0 && !Inside(p, base + off)
    requires base + next == ((base + off) / p.boundary + 1) * p.boundary
    ensures NoneGood(p, base, off, next)
  {
    forall o: nat | off <= o < next ensures !Good(p, base)(o) { CrossingNotGood(p, base, off, next, o); }
  }

  lemma EndNoneGood(p: Pool, base: nat, off: nat)
    requires PoolOk(p) && off > p.chunkLen - p.stride
    ensures NoneGood(p, base, off, p.chunkLen)
  {
    forall o: nat | off <= o < p.chunkLen ensures !Good(p, base)(o) {}
  }

  lemma PackedAll(p: Pool, base: nat, offs: seq<nat>, off: nat)
    requires PoolOk(p) && Packed(p, base, offs, off) && off > p.chunkLen - p.stride
    ensures Carved(p, base, offs) && |offs| <= p.chunkLen / p.stride
  {
    if off < p.chunkLen {
      EndNoneGood(p, base, off);
      PackedOver(p, base, offs, off, p.chunkLen);
    }
    forall i | 0 <= i < |offs| ensures offs[i] + p.stride <= p.chunkLen { assert Good(p, base)(offs[i]); }
    CountFits(p.stride, offs, p.chunkLen);
    QuotientAtLeast(|offs|, p.stride, p.chunkLen);
  }

  /** One round of the loop of dma_pool_grow. It passes over nothing good. */
  method OneRound(p: Pool, base: nat, off: nat) returns (r: Round)
    requires PoolOk(p) && base % PAGE == 0 && base + p.chunkLen - 1 <= p.mask && off + p.stride <= p.chunkLen
    ensures r.Leave? ==> NoneGood(p, base, off, p.chunkLen)
    ensures r.GoOn? ==> off < r.next && NoneGood(p, base, off, r.next)
    ensures r.Take? ==> off <= r.at && NoneGood(p, base, off, r.at) && SlotOk(p, base, r.at)
    ensures FirstTry(p, base, off) ==> !r.Leave? && (r.GoOn? ==> FirstTry(p, base, r.next))
  {
    FirstTryFits(p, base, off);
    ghost var up := RoundUp(off, p.align);
    var ok, at := AlignUp(off, p.align);
    AlignedNoneGood(p, base, off, up);
    if !ok { return Leave; }
    if at > p.chunkLen - p.stride {
      EndNoneGood(p, base, at);
      return Leave;
    }
    if !Inside(p, base + at) {
      var next := SkipToBoundary(p, base, at);
      SkippedNoneGood(p, base, at, next);
      return GoOn(next);
    }
    GoodSlot(p, base, at);
    return Take(at);
  }

  /** The array and its 32-bit counter after the slots `offs` were stored: the counter has gone
      round for the first ones, and the array starts with the others. */
  ghost predicate Stored(slots: seq<nat>, n: nat, offs: seq<nat>) {
    && n == |offs| % WORD32 && n <= |offs| <= |slots|
    && forall i :: 0 <= i < n ==> slots[i] == offs[|offs| - n + i]
  }

  lemma StoredSuffix(slots: seq<nat>, n: nat, offs: seq<nat>)
    requires Stored(slots, n, offs)
    ensures n <= |slots| && slots[..n] == offs[|offs| - n..] && (n == |offs| <==> |offs| < WORD32)
  {
  }

  /** slots[num_slots++]. */
  method Store(slots: array<nat>, n: nat, off: nat, ghost offs: seq<nat>) returns (next: nat)
    requires Stored(slots[..], n, offs) && |offs| < slots.Length
    modifies slots
    ensures Stored(slots[..], next, offs + [off])
  {
    slots[n] := off;
    next := (n + 1) % WORD32;
  }

  /** The loop of dma_pool_grow. Its counter num_slots has 32 bits. `offs` lists every slot it finds:
      the counter ends at their number modulo 2^32, which is their number exactly when there are
      fewer than 2^32. The array starts with the last `n` of them. */
  method Carve(p: Pool, base: nat) returns (slots: array<nat>, n: nat, ghost offs: seq<nat>)
    requires PoolOk(p) && base % PAGE == 0 && base + p.chunkLen - 1 <= p.mask
    ensures fresh(slots) && slots.Length == p.chunkLen / p.stride
    ensures Carved(p, base, offs) && 0 < |offs| <= slots.Length
    ensures n == |offs| % WORD32 && (n == |offs| <==> |offs| < WORD32)
    ensures n <= |offs| && slots[..n] == offs[|offs| - n..]
  {
    slots := new nat[p.chunkLen / p.stride];
    offs := [];
    n := 0;
    var off := 0;
    while off <= p.chunkLen - p.stride
      invariant Stored(slots[..], n, offs) && Packed(p, base, offs, off) && (offs == [] ==> FirstTry(p, base, off))
      decreases p.chunkLen - off
    {
      var round := OneRound(p, base, off);
      match round
      case Leave =>
        PackedOver(p, base, offs, off, p.chunkLen);
        off := p.chunkLen;
        break;
      case GoOn(next) =>
        PackedOver(p, base, offs, off, next);
        off := next;
      case Take(at) =>
        PackedOver(p, base, offs, off, at);
        RoomForOne(p, base, offs, at);
        PackedOne(p, base, offs, at);
        n := Store(slots, n, at, offs);
        offs := offs + [at];
        off := at + p.stride;
    }
    FirstTryFits(p, base, off);
    PackedAll(p, base, offs, off);
    StoredSuffix(slots[..], n, offs);
    assert slots[..n] == slots[..][..n];
  }

  // ---------------------------------------------------------------- a chunk with too many slots

  /** What a caller can check: with fewer than 2^32 strides in a chunk the counter never wraps. */
  lemma NoWrap(p: Pool, base: nat, offs: seq<nat>)
    requires PoolOk(p) && Carved(p, base, offs) && p.chunkLen / p.stride < WORD32
    ensures |offs| % WORD32 == |offs|
  {
    forall i | 0 <= i < |offs| ensures offs[i] + p.stride <= p.chunkLen { assert Good(p, base)(offs[i]); }
    CountFits(p.stride, offs, p.chunkLen);
    QuotientAtLeast(|offs|, p.stride, p.chunkLen);
  }

  /** One-byte objects that may not cross 4 GB, and the pool for them. */
  const BYTES_CONFIG := Config(1, 1, 0x1_0000_0000, MAX)

  const BYTES := Pool(1, 1, 0x1_0000_0000, MAX, 1, 0x1_0000_1000)

  lemma {:induction false} EveryOffset(offs: seq<nat>, len: nat, k: nat)
    requires (forall i, j :: 0 <= i < j < |offs| ==> offs[i] < offs[j]) && k <= len
    requires forall o: nat :: o < len ==> o in offs
    ensures k <= |offs| && forall i :: 0 <= i < k ==> offs[i] == i
  {
    if k > 0 {
      EveryOffset(offs, len, k - 1);
      assert k - 1 in offs;
      var j :| 0 <= j < |offs| && offs[j] == k - 1;
      assert 2 <= k <= |offs| ==> offs[k - 2] < offs[k - 1];
    }
  }

  lemma WideIsPow2()
    ensures IsPow2(WORD32)
  {
    PageIsPow2();
    assert IsPow2(0x2000) && IsPow2(0x4000) && IsPow2(0x8000) && IsPow2(0x1_0000) && IsPow2(0x2_0000);
    assert IsPow2(0x4_0000) && IsPow2(0x8_0000) && IsPow2(0x10_0000) && IsPow2(0x20_0000) && IsPow2(0x40_0000);
    assert IsPow2(0x80_0000) && IsPow2(0x100_0000) && IsPow2(0x200_0000) && IsPow2(0x400_0000) && IsPow2(0x800_0000);
    assert IsPow2(0x1000_0000) && IsPow2(0x2000_0000) && IsPow2(0x4000_0000) && IsPow2(0x8000_0000);
  }

  /** The configuration is accepted, and makes that pool. */
  lemma BytesOk(r: Result<Pool>)
    requires Created(BYTES_CONFIG, r)
    ensures r == Success(BYTES) && PoolOk(BYTES)
  {
    WideIsPow2();
    assert IsPow2(1) && (MAX + 1) % (MAX + 1) == 0;
    assert Checked(BYTES_CONFIG);
    var s := RoundUp(1, 1);
    var len := RoundUp(ChunkBase(1, WORD32), PAGE);
  }

  /** A chunk of it has 2^32 + 4096 slots. The counter ends at 4096, so all but the last 4096 are
      lost to the pool. */
  lemma BytesWrap(base: nat, offs: seq<nat>)
    requires PoolOk(BYTES) && base % PAGE == 0 && base + BYTES.chunkLen - 1 <= MAX && Carved(BYTES, base, offs)
    ensures |offs| == WORD32 + PAGE && |offs| % WORD32 == PAGE
  {
    var len := BYTES.chunkLen;
    forall o: nat | o < len ensures o in offs {
      GoodSlot(BYTES, base, o);
      assert Good(BYTES, base)(o) && Overlapped(1, offs, o);
    }
    EveryOffset(offs, len, len);
    CountFits(1, offs, len);
  }
}
