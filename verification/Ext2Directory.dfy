/**
  A whole directory: ext2_search_dir over all its blocks, with the hint where to start looking
  for room and the block added when there is none (fs/ext2/path.c). Making an entry marks the
  buffer of its block dirty, deleting one does not.
*/
module Ext2Directory {
  import opened Ext2Cache
  import opened Ext2Record
  import opened Ext2Dir

  datatype Status = Done | NoEntry | ReadOnly | NoSpace

  const DOT: Name := [46]
  const DOTDOT: Name := [46, 46]

  // ---------------------------------------------------------------- entries as a map

  /** The entries are the map m, each name once. */
  ghost predicate Represents(es: multiset<Entry>, m: map<Name, nat>) {
    && (forall e :: e in es ==> es[e] == 1 && e.name in m && m[e.name] == e.inode)
    && (forall n :: n in m ==> Entry(n, m[n]) in es)
  }

  /** Adding an entry with a new name is inserting into the map. */
  lemma MapInsert(es: multiset<Entry>, m: map<Name, nat>, e: Entry)
    requires Represents(es, m) && NoName(es, e.name)
    ensures e.name !in m && Represents(es + multiset{e}, m[e.name := e.inode])
  {
    forall n | n in m ensures n != e.name { assert Entry(n, m[n]) in es; }
  }

  /** Removing an entry is removing its name from the map. */
  lemma MapRemove(es: multiset<Entry>, m: map<Name, nat>, e: Entry)
    requires Represents(es + multiset{e}, m)
    ensures e.name in m && Represents(es, m - {e.name})
  {
    var es' := es + multiset{e};
    assert e in es' && es'[e] == es[e] + 1;
    forall f | f in es ensures es[f] == 1 && f.name in m - {e.name} && m[f.name] == f.inode {
      assert f in es' && (f != e ==> es'[f] == es[f]);
      assert f.name == e.name ==> f == e;
    }
    forall n | n in m - {e.name} ensures Entry(n, m[n]) in es {
      assert Entry(n, m[n]) in es' && Entry(n, m[n]) != e;
    }
  }

  lemma MapsRemoved(es: multiset<Entry>, e: Entry)
    ensures forall m :: Represents(es + multiset{e}, m) ==> e.name in m && Represents(es, m - {e.name})
  {
    forall m | Represents(es + multiset{e}, m) ensures e.name in m && Represents(es, m - {e.name}) {
      MapRemove(es, m, e);
    }
  }

  lemma MapsInserted(es: multiset<Entry>, e: Entry)
    ensures forall m :: Represents(es, m) && e.name !in m ==> Represents(es + multiset{e}, m[e.name := e.inode])
  {
    forall m | Represents(es, m) && e.name !in m ensures Represents(es + multiset{e}, m[e.name := e.inode]) {
      MapInsert(es, m, e);
    }
  }

  lemma MapsWithout(es: multiset<Entry>, name: Name)
    requires NoName(es, name)
    ensures forall m :: Represents(es, m) ==> name !in m && m - {name} == m
  {
    forall m | Represents(es, m) ensures name !in m && m - {name} == m { MapInsert(es, m, Entry(name, 0)); }
  }

  // ---------------------------------------------------------------- all blocks

  ghost function Sum(parts: seq<multiset<Entry>>): multiset<Entry> {
    if parts == [] then multiset{} else Sum(parts[..|parts| - 1]) + parts[|parts| - 1]
  }

  lemma {:induction false} SumHas(parts: seq<multiset<Entry>>, k: nat)
    requires k < |parts|
    ensures parts[k] <= Sum(parts)
  {
    if k < |parts| - 1 { SumHas(parts[..|parts| - 1], k); }
  }

  lemma {:induction false} SumNone(parts: seq<multiset<Entry>>, name: Name)
    requires forall i :: 0 <= i < |parts| ==> NoName(parts[i], name)
    ensures NoName(Sum(parts), name)
  {
    if parts != [] { SumNone(parts[..|parts| - 1], name); }
  }

  /** What is added to one block is added to the directory. */
  lemma {:induction false} SumAdded(parts: seq<multiset<Entry>>, k: nat, es: multiset<Entry>)
    requires k < |parts|
    ensures Sum(parts[k := parts[k] + es]) == Sum(parts) + es
  {
    var front, last, parts' := parts[..|parts| - 1], parts[|parts| - 1], parts[k := parts[k] + es];
    if k < |front| {
      assert parts'[..|parts| - 1] == front[k := front[k] + es];
      SumAdded(front, k, es);
      assert Sum(parts') == Sum(front) + es + last;
    } else {
      assert parts'[..|parts| - 1] == front;
    }
  }

  lemma SumRemoved(parts: seq<multiset<Entry>>, k: nat, p: multiset<Entry>, es: multiset<Entry>)
    requires k < |parts| && parts[k] == p + es
    ensures Sum(parts) == Sum(parts[k := p]) + es
  {
    SumAdded(parts[k := p], k, es);
    assert parts[k := p][k := p + es] == parts;
  }

  ghost predicate Holds(b: seq<byte>, size: nat, part: multiset<Entry>) {
    |b| == size && BlockOk(b) && BlockEntries(b) == part
  }

  /** No record of the block has room. */
  ghost predicate Full(b: seq<byte>, need: nat) {
    BlockOk(b) ==> !HasRoom(b, 0, |b|, need)
  }

  /** A block that has no room has none for anything larger. */
  lemma {:induction false} RoomShrinks(b: seq<byte>, lo: nat, hi: nat, less: nat, more: nat)
    requires Tiled(b, lo, hi) && less <= more && HasRoom(b, lo, hi, more)
    ensures HasRoom(b, lo, hi, less)
    decreases hi - lo
  {
    if !Room(b, lo, more) { RoomShrinks(b, lo + RecLen(b, lo), hi, less, more); }
  }

  lemma FullForMore(b: seq<byte>, less: nat, more: nat)
    requires less <= more && Full(b, less)
    ensures Full(b, more)
  {
    if BlockOk(b) && HasRoom(b, 0, |b|, more) { RoomShrinks(b, 0, |b|, less, more); }
  }

  // ---------------------------------------------------------------- the hint

  /** No block before the hint has room for the size it remembers. */
  ghost predicate HintOk(blocks: seq<seq<byte>>, hint: nat, size: nat) {
    forall i :: 0 <= i < hint && i < |blocks| ==> Full(blocks[i], size)
  }

  /** Where the search for room starts: the hint, if the room asked for last was no larger. */
  function StartOf(n: nat, hint: nat, size: nat, need: nat): (k: nat)
    ensures k <= n
  {
    if hint < n && size <= need then hint else 0
  }

  /** With a good hint the blocks before the start have no room. */
  lemma HintSkips(blocks: seq<seq<byte>>, hint: nat, size: nat, need: nat)
    requires HintOk(blocks, hint, size)
    ensures forall i :: 0 <= i < StartOf(|blocks|, hint, size, need) ==> Full(blocks[i], need)
  {
    forall i | 0 <= i < StartOf(|blocks|, hint, size, need) ensures Full(blocks[i], need) {
      FullForMore(blocks[i], size, need);
    }
  }

  /** The search that ends at block k leaves a good hint. */
  lemma HintFound(blocks: seq<seq<byte>>, after: seq<seq<byte>>, hint: nat, size: nat, need: nat, k: nat)
    requires HintOk(blocks, hint, size) && |after| == |blocks| && k <= |blocks|
    requires forall i :: 0 <= i < |blocks| && i != k ==> after[i] == blocks[i]
    requires forall i :: StartOf(|blocks|, hint, size, need) <= i < k ==> Full(after[i], need)
    ensures HintOk(after, k, need)
  {
    HintSkips(blocks, hint, size, need);
  }

  lemma HintExtends(blocks: seq<seq<byte>>, b: seq<byte>, hint: nat, size: nat)
    requires HintOk(blocks, hint, size) && hint <= |blocks|
    ensures HintOk(blocks + [b], hint, size)
  {
  }

  /** The hint stays good when block k changes, and it moves back to k if it was behind, with a size no
      smaller. */
  lemma HintMovesBack(blocks: seq<seq<byte>>, after: seq<seq<byte>>, hint: nat, size: nat, k: nat,
    hint': nat, size': nat)
    requires HintOk(blocks, hint, size) && size <= size' && |after| == |blocks|
    requires forall i :: 0 <= i < |blocks| && i != k ==> after[i] == blocks[i]
    requires if k < hint then hint' == k else hint' == hint
    ensures HintOk(after, hint', size')
  {
    forall i | 0 <= i < hint' && i < |after| ensures Full(after[i], size') { FullForMore(blocks[i], size, size'); }
  }

  /** A deletion that spoils the hint: the record is shorter than the size remembered, its block lies
      before the hint, and a block before that has room for as much. The next search for the length
      of the record passes over that block. */
  lemma DeletionSpoilsHint(blocks: seq<seq<byte>>, after: seq<seq<byte>>, hint: nat, size: nat, k: nat,
    len: nat, i: nat)
    requires HintOk(blocks, hint, size) && i < k < hint <= |blocks| == |after| && len < size
    requires after[i] == blocks[i] && !Full(blocks[i], len)
    ensures !HintOk(after, k, len) && i < StartOf(|after|, k, len, len) && !Full(after[i], len)
  {
  }

  // ---------------------------------------------------------------- deletion and the cache

  ghost predicate Without(b: seq<byte>, e: Entry) {
    BlockOk(b) ==> e !in BlockEntries(b)
  }

  /** What a buffer that is not dirty lacks, the disk may still have, but not the other way round. */
  ghost predicate Behind(s: Store<seq<byte>>, k: nat)
    requires StoreOk(s) && k < |s.seen|
  {
    BlockOk(s.seen[k]) && (k !in s.dirty ==> BlockOk(s.disk[k]) && BlockEntries(s.seen[k]) <= BlockEntries(s.disk[k]))
  }

  ghost predicate Gains(b: seq<byte>, b': seq<byte>, x: Entry) {
    BlockOk(b) && BlockOk(b') && BlockEntries(b') == BlockEntries(b) + multiset{x}
  }

  /** What the directory does to the buffers: entry x is deleted without a mark, made with a mark, or
      made in a new block. Flushing and eviction come from anywhere. */
  ghost predicate DirStep(s: Store<seq<byte>>, step: Step<seq<byte>>, x: Entry)
    requires StoreOk(s)
  {
    match step
    case Change(k, b) => k < |s.seen| && Gains(b, s.seen[k], x)
    case Rewrite(k, b) => k < |s.seen| && Gains(s.seen[k], b, x)
    case Append(_, b) => BlockOk(b) && BlockEntries(b) == multiset{x}
    case Flush => true
    case Evict(k) => k < |s.seen|
  }

  /** The directory has made this step. */
  ghost predicate Made(s: Store<seq<byte>>, step: Step<seq<byte>>, s': Store<seq<byte>>, x: Entry) {
    StoreOk(s) && DirStep(s, step, x) && s' == Next(s, step)
  }

  lemma MadeChange(s: Store<seq<byte>>, k: nat, b: seq<byte>, x: Entry)
    requires StoreOk(s) && k < |s.seen| && Gains(b, s.seen[k], x)
    ensures Made(s, Change(k, b), s.(seen := s.seen[k := b]), x)
  {
  }

  lemma MadeRewrite(s: Store<seq<byte>>, k: nat, b: seq<byte>, x: Entry)
    requires StoreOk(s) && k < |s.seen| && Gains(s.seen[k], b, x)
    ensures Made(s, Rewrite(k, b), s.(seen := s.seen[k := b], dirty := s.dirty + {k}), x)
  {
  }

  lemma MadeAppend(s: Store<seq<byte>>, d: seq<byte>, b: seq<byte>, x: Entry)
    requires StoreOk(s) && Holds(b, |b|, multiset{x})
    ensures Made(s, Append(d, b), Store(s.disk + [d], s.seen + [b], s.dirty + {|s.seen|}), x)
  {
  }

  lemma MadeHint(s: Store<seq<byte>>, k: nat, b: seq<byte>, s': Store<seq<byte>>, e: Entry, hint: nat, size: nat,
    hint': nat, size': nat)
    requires Made(s, Change(k, b), s', e) && if k < hint then hint' == k else hint' == hint
    ensures HintOk(s.seen, hint, size) && size <= size' ==> HintOk(s'.seen, hint', size')
  {
    if HintOk(s.seen, hint, size) && size <= size' { HintMovesBack(s.seen, s'.seen, hint, size, k, hint', size'); }
  }

  /** A run of such steps, on entries xs, that does not delete or make entry e itself in block k. */
  ghost predicate DirRun(s: Store<seq<byte>>, steps: seq<Step<seq<byte>>>, xs: seq<Entry>, k: nat, e: Entry)
    requires StoreOk(s)
    decreases |steps|
  {
    |xs| == |steps| && (steps == [] || (
      && DirStep(s, steps[0], xs[0]) && (Writes(steps[0], k) ==> xs[0] != e)
      && DirRun(Next(s, steps[0]), steps[1..], xs[1..], k, e)))
  }

  /** Deleting or making another entry is neutral. */
  lemma OtherEntry(b: seq<byte>, b': seq<byte>, x: Entry, e: Entry)
    requires Gains(b, b', x) && x != e
    ensures Without(b, e) <==> Without(b', e)
  {
  }

  lemma {:induction false} DirNeutral(s: Store<seq<byte>>, steps: seq<Step<seq<byte>>>, xs: seq<Entry>, k: nat,
    e: Entry)
    requires StoreOk(s) && k < |s.seen| && DirRun(s, steps, xs, k, e)
    ensures Neutral(s, steps, k, (c: seq<byte>) => Without(c, e))
    decreases |steps|
  {
    if steps != [] {
      if Writes(steps[0], k) {
        if steps[0].Change? {
          OtherEntry(steps[0].b, s.seen[k], xs[0], e);
        } else {
          OtherEntry(s.seen[k], steps[0].b, xs[0], e);
        }
      }
      DirNeutral(Next(s, steps[0]), steps[1..], xs[1..], k, e);
    }
  }

  /** An entry deleted from block k stays deleted there, while any other entries are made and deleted,
      in that block and elsewhere, and buffers are flushed and evicted, exactly if the buffer was dirty
      when it was deleted or is marked dirty before it is evicted. */
  lemma DeletionKept(s: Store<seq<byte>>, k: nat, b: seq<byte>, e: Entry, steps: seq<Step<seq<byte>>>, xs: seq<Entry>)
    requires StoreOk(s) && k < |s.seen| && Behind(s, k) && DirStep(s, Change(k, b), e) && e !in BlockEntries(b)
    requires DirRun(Next(s, Change(k, b)), steps, xs, k, e)
    ensures var end := Run(Next(s, Change(k, b)), steps);
      Without(end.seen[k], e) <==> k in s.dirty || MarkedInTime(steps, k)
  {
    var s1 := Next(s, Change(k, b));
    DirNeutral(s1, steps, xs, k, e);
    Survives(s1, steps, k, (c: seq<byte>) => Without(c, e));
  }

  /** A deletion that is lost: the buffer was clean, and is evicted next. The entry is back. */
  lemma DeletionLost(s: Store<seq<byte>>, k: nat, b: seq<byte>, e: Entry)
    requires StoreOk(s) && k < |s.seen| && Behind(s, k) && k !in s.dirty
    requires DirStep(s, Change(k, b), e) && e !in BlockEntries(b)
    ensures var end := Run(Next(s, Change(k, b)), [Evict(k)]); BlockOk(end.seen[k]) && e in BlockEntries(end.seen[k])
  {
    var s1 := Next(s, Change(k, b));
    assert Run(s1, [Evict(k)]) == Evicted(s1, k);
  }

  /** The loop of fsdriver_flush_dev: the disk with the dirty blocks written. */
  method Written(disk: seq<seq<byte>>, blocks: seq<seq<byte>>, dirty: set<nat>) returns (r: seq<seq<byte>>)
    requires |disk| == |blocks|
    ensures |r| == |disk| && forall j :: 0 <= j < |disk| ==> r[j] == if j in dirty then blocks[j] else disk[j]
  {
    r := disk;
    var i := 0;
    while i < |blocks|
      invariant 0 <= i <= |blocks| && |r| == |disk|
      invariant forall j :: 0 <= j < |disk| ==> r[j] == if j < i && j in dirty then blocks[j] else disk[j]
    {
      if i in dirty { r := r[i := blocks[i]]; }
      i := i + 1;
    }
  }

  /** One record that spans the block. */
  method OneEntry(buf: array<byte>, name: Name, inode: nat)
    requires 1024 <= buf.Length < 65536 && buf.Length % ALIGN == 0 && |name| < 256 && 0 < inode < 0x1_0000_0000
    modifies buf
    ensures Holds(buf[..], buf.Length, multiset{Entry(name, inode)})
  {
    Put16(buf, 4, buf.Length);
    Fill(buf, 0, name, inode);
    OneRecord(buf[..], 0);
  }

  ghost function Merged(a: seq<multiset<Entry>>, b: seq<multiset<Entry>>, which: set<nat>): (r: seq<multiset<Entry>>)
    requires |a| == |b|
    ensures |r| == |a| && forall j :: 0 <= j < |a| ==> r[j] == if j in which then b[j] else a[j]
  {
    seq(|a|, j requires 0 <= j < |a| => if j in which then b[j] else a[j])
  }

  class Directory {
    const blockSize: nat
    const readOnly: bool
    var blocks: seq<seq<byte>>  // as they read: the buffers, or the disk where there is none
    var disk: seq<seq<byte>>
    var dirty: set<nat>         // blocks whose buffers are marked dirty
    ghost var diskParts: seq<multiset<Entry>>  // what the disk holds where it is up to date
    var lastBlock: nat  // i_last_dpos, counted in blocks
    var lastSize: nat   // i_last_dentry_size
    ghost var parts: seq<multiset<Entry>>  // what each block holds

    ghost predicate Valid()
      reads `blocks, `parts, `disk, `diskParts, `dirty
    {
      && 1024 <= blockSize < 65536 && blockSize % ALIGN == 0
      && |parts| == |blocks|
      && (forall i :: 0 <= i < |blocks| ==> Holds(blocks[i], blockSize, parts[i]))
      && CacheOk()
    }

    /** The disk has a directory block wherever no dirty buffer stands for it, and in it at least the
        entries of the buffer. */
    ghost predicate CacheOk()
      requires |parts| == |blocks|
      reads `blocks, `parts, `disk, `diskParts, `dirty
    {
      && |disk| == |diskParts| == |blocks| && (forall i :: i in dirty ==> i < |blocks|)
      && forall i :: 0 <= i < |blocks| && i !in dirty ==>
           Holds(disk[i], blockSize, diskParts[i]) && parts[i] <= diskParts[i]
    }

    ghost function Cache(): Store<seq<byte>>
      reads `blocks, `disk, `dirty
    {
      Store(disk, blocks, dirty)
    }

    ghost function Contents(): multiset<Entry>
      reads `parts
    {
      Sum(parts)
    }

    constructor (blockSize: nat, readOnly: bool)
      requires 1024 <= blockSize < 65536 && blockSize % ALIGN == 0
      ensures Valid() && Represents(Contents(), map[])
    {
      this.blockSize, this.readOnly := blockSize, readOnly;
      blocks, lastBlock, lastSize, parts := [], 0, 0, [];
      disk, dirty, diskParts := [], {}, [];
    }

    // ---------------------------------------------------------------- the buffers

    /** fsdriver_flush_dev. */
    method WriteDirty()
      requires Valid()
      modifies this`disk, this`diskParts, this`dirty
      ensures Valid() && Cache() == Next(old(Cache()), Flush)
      ensures forall i :: i in old(dirty) ==> diskParts[i] == parts[i]
    {
      disk := Written(disk, blocks, dirty);
      diskParts := Merged(diskParts, parts, dirty);
      dirty := {};
    }

    /** A buffer gets new contents, and is marked dirty or not. */
    method PutBlock(k: nat, b: seq<byte>, ghost p: multiset<Entry>, mark: bool)
      requires Valid() && k < |blocks| && Holds(b, blockSize, p) && (mark || p <= parts[k])
      modifies this`blocks, this`parts, this`dirty
      ensures Valid() && blocks == old(blocks)[k := b] && parts == old(parts)[k := p]
      ensures dirty == if mark then old(dirty) + {k} else old(dirty)
    {
      blocks, parts := blocks[k := b], parts[k := p];
      if mark { dirty := dirty + {k}; }
    }

    /** The buffer of block k is taken for another block (get_block). What a clean buffer has lost
        since it was read, the disk still has. */
    method Recycle(k: nat)
      requires Valid() && k < |blocks|
      modifies this
      ensures Valid() && Cache() == Next(old(Cache()), Evict(k))
      ensures k in old(dirty) ==> blocks == old(blocks) && Contents() == old(Contents())
      ensures k !in old(dirty) ==> parts == old(parts)[k := old(diskParts)[k]]
    {
      if k in dirty {
        WriteDirty();
        assert blocks[k := disk[k]] == blocks && parts[k := diskParts[k]] == parts;
      }
      blocks, parts := blocks[k := disk[k]], parts[k := diskParts[k]];
    }

    /** fsdriver_get_block: a buffer with the bytes of block k. */
    method GetBlock(k: nat) returns (buf: array<byte>)
      requires k < |blocks|
      ensures fresh(buf) && buf[..] == blocks[k]
    {
      var b := blocks[k];
      buf := new byte[|b|](i requires 0 <= i < |b| => b[i]);
    }

    /** Every valid directory is one that DeletionKept speaks of. */
    lemma CacheBehind(k: nat)
      requires Valid() && k < |blocks|
      ensures StoreOk(Cache()) && Behind(Cache(), k)
    {
      assert Holds(blocks[k], blockSize, parts[k]);
    }

    // ---------------------------------------------------------------- SD_LOOK_UP and SD_DELETE

    /** The loop over the blocks. */
    method Locate(name: Name) returns (k: nat, o: nat, prev: int)
      requires Valid()
      ensures k <= |blocks|
      ensures k == |blocks| ==> NoName(Contents(), name)
      ensures k < |blocks| ==> var b := blocks[k];
                               Cursor(b, o) && Before(b, prev, o) && Inode(b, o) != 0 && NameAt(b, o) == name
    {
      k, o, prev := 0, 0, -1;
      while k < |blocks|
        invariant k <= |blocks|
        invariant forall i :: 0 <= i < k ==> NoName(parts[i], name)
      {
        assert Holds(blocks[k], blockSize, parts[k]);
        o, prev := FindMatch(blocks[k], name);
        if o < |blocks[k]| { return; }
        k := k + 1;
      }
      SumNone(parts, name);
    }

    /** SD_LOOK_UP. */
    method LookUp(name: Name) returns (status: Status, inode: nat)
      requires Valid()
      ensures status == Done || status == NoEntry
      ensures status == NoEntry ==> NoName(Contents(), name)
      ensures status == Done ==> inode != 0 && Entry(name, inode) in Contents()
      ensures forall m :: Represents(Contents(), m) ==>
                if name in m then status == Done && inode == m[name] else status == NoEntry
    {
      var k, o, prev := Locate(name);
      if k == |blocks| {
        forall m | Represents(Contents(), m) ensures name !in m { MapInsert(Contents(), m, Entry(name, 0)); }
        return NoEntry, 0;
      }
      assert Holds(blocks[k], blockSize, parts[k]);
      AtCursor(blocks[k], o);
      SumHas(parts, k);
      return Done, Inode(blocks[k], o);
    }

    /** SD_DELETE. */
    method Delete(name: Name) returns (status: Status, ghost inode: nat, ghost at: nat, ghost off: nat)
      requires Valid()
      modifies this
      ensures Valid() && |blocks| == |old(blocks)|
      ensures status == Done ==>
                at < |blocks| && Made(old(Cache()), Change(at, blocks[at]), Cache(), Entry(name, inode))
      ensures old(HintOk(blocks, lastBlock, lastSize)) && old(lastSize) <= lastSize ==>
                HintOk(blocks, lastBlock, lastSize)
      ensures status == Done ==> var b := old(blocks)[at]; Cursor(b, off) && NameAt(b, off) == name
      ensures status == Done ==> !Full(blocks[at], RecLen(old(blocks)[at], off))
      ensures (lastBlock, lastSize) == if status == Done && at < old(lastBlock) then (at, RecLen(old(blocks)[at], off))
                                       else (old(lastBlock), old(lastSize))
      ensures status != NoSpace && (status == ReadOnly <==> readOnly && (name == DOT || name == DOTDOT))
      ensures status == NoEntry ==> NoName(Contents(), name)
      ensures status == Done ==> old(Contents()) == Contents() + multiset{Entry(name, inode)}
      ensures status != Done ==> blocks == old(blocks) && Contents() == old(Contents())
      ensures forall m :: Represents(old(Contents()), m) && status != ReadOnly ==>
                Represents(Contents(), m - {name}) && (status == Done <==> name in m)
    {
      if readOnly && (name == DOT || name == DOTDOT) { return ReadOnly, 0, 0, 0; }
      var k, o, prev := Locate(name);
      if k == |blocks| {
        MapsWithout(Contents(), name);
        return NoEntry, 0, 0, 0;
      }
      inode := Inode(blocks[k], o);
      DeleteFound(k, o, prev, Entry(name, inode));
      MapsRemoved(Contents(), Entry(name, inode));
      return Done, inode, k, o;
    }

    /** The hint moves back to the block of the deleted record, and the record is deleted. */
    method DeleteFound(k: nat, o: nat, prev: int, ghost e: Entry)
      requires Valid() && k < |blocks| && Cursor(blocks[k], o) && Before(blocks[k], prev, o)
      requires EntryAt(blocks[k], o) == multiset{e}
      modifies this
      ensures Valid() && |blocks| == |old(blocks)| && old(Contents()) == Contents() + multiset{e}
      ensures Made(old(Cache()), Change(k, blocks[k]), Cache(), e)
      ensures old(HintOk(blocks, lastBlock, lastSize)) && old(lastSize) <= lastSize ==>
                HintOk(blocks, lastBlock, lastSize)
      ensures (lastBlock, lastSize) == if k < old(lastBlock) then (k, RecLen(old(blocks)[k], o))
                                       else (old(lastBlock), old(lastSize))
      ensures !Full(blocks[k], RecLen(old(blocks)[k], o))
    {
      ghost var s, hint, size := Cache(), lastBlock, lastSize;
      MoveHint(k, RecLen(blocks[k], o));
      DeleteAt(k, o, prev, e);
      MadeHint(s, k, blocks[k], Cache(), e, hint, size, lastBlock, lastSize);
    }

    method MoveHint(k: nat, len: nat)
      modifies `lastBlock, `lastSize
      ensures (lastBlock, lastSize) == if k < old(lastBlock) then (k, len) else old((lastBlock, lastSize))
    {
      if k < lastBlock { lastBlock, lastSize := k, len; }
    }

    /** The buffer is changed and put back without being marked dirty. */
    method DeleteAt(k: nat, o: nat, prev: int, ghost e: Entry)
      requires Valid() && k < |blocks| && Cursor(blocks[k], o) && Before(blocks[k], prev, o)
      requires EntryAt(blocks[k], o) == multiset{e}
      modifies this`blocks, this`parts, this`dirty
      ensures Valid() && dirty == old(dirty) && old(Contents()) == Contents() + multiset{e}
      ensures |blocks| == |old(blocks)| && Made(old(Cache()), Change(k, blocks[k]), Cache(), e)
      ensures !Full(blocks[k], RecLen(old(blocks)[k], o))
    {
      assert Holds(blocks[k], blockSize, parts[k]);
      var buf := GetBlock(k);
      DeleteRecord(buf, o, prev);
      ghost var p := BlockEntries(buf[..]);
      assert parts[k] == p + multiset{e};
      SumRemoved(parts, k, p, multiset{e});
      MadeChange(Cache(), k, buf[..], e);
      PutBlock(k, buf[..], p, false);
    }

    // ---------------------------------------------------------------- SD_MAKE

    /** Try to put the entry into block k. */
    method MakeAt(k: nat, name: Name, inode: nat) returns (hit: bool)
      requires Valid() && k < |blocks| && |name| < 256 && 0 < inode < 0x1_0000_0000
      modifies this`blocks, this`parts, this`dirty
      ensures Valid() && |blocks| == |old(blocks)|
      ensures !hit <==> Full(old(blocks[k]), Padded(|name|))
      ensures !hit ==> blocks == old(blocks) && parts == old(parts) && dirty == old(dirty)
      ensures hit ==> Made(old(Cache()), Rewrite(k, blocks[k]), Cache(), Entry(name, inode))
      ensures forall i :: 0 <= i < |blocks| && i != k ==> blocks[i] == old(blocks)[i]
      ensures hit ==> Contents() == old(Contents()) + multiset{Entry(name, inode)}
    {
      assert Holds(blocks[k], blockSize, parts[k]);
      var buf := GetBlock(k);
      hit := MakeInBlock(buf, name, inode);
      if hit {
        ghost var p := parts[k] + multiset{Entry(name, inode)};
        SumAdded(parts, k, multiset{Entry(name, inode)});
        MadeRewrite(Cache(), k, buf[..], Entry(name, inode));
        PutBlock(k, buf[..], p, true);
      }
    }

    /** The loop over the blocks. */
    method MakeLoop(start: nat, name: Name, inode: nat) returns (k: nat)
      requires Valid() && start <= |blocks| && |name| < 256 && 0 < inode < 0x1_0000_0000
      modifies this`blocks, this`parts, this`dirty
      ensures Valid() && start <= k <= |blocks| == |old(blocks)|
      ensures k < |blocks| ==> Contents() == old(Contents()) + multiset{Entry(name, inode)}
      ensures k < |blocks| ==> Made(old(Cache()), Rewrite(k, blocks[k]), Cache(), Entry(name, inode))
      ensures forall i :: 0 <= i < |blocks| && i != k ==> blocks[i] == old(blocks)[i]
      ensures k == |blocks| ==> blocks == old(blocks) && parts == old(parts) && dirty == old(dirty)
      ensures forall i :: start <= i < k ==> Full(blocks[i], Padded(|name|))
    {
      k := start;
      while k < |blocks|
        invariant start <= k <= |blocks| && Valid() && parts == old(parts) && blocks == old(blocks)
        invariant dirty == old(dirty)
        invariant forall i :: start <= i < k ==> Full(blocks[i], Padded(|name|))
      {
        var hit := MakeAt(k, name, inode);
        if hit { return; }
        k := k + 1;
      }
    }

    /** A new last block that holds only the new entry, spanning all of it. `buf` is the block
        ext2_new_block gives, with whatever was in it, there and on the disk. */
    method Extend(buf: array<byte>, name: Name, inode: nat)
      requires Valid() && |name| < 256 && 0 < inode < 0x1_0000_0000 && buf.Length == blockSize
      modifies buf, this`blocks, this`parts, this`disk, this`diskParts, this`dirty
      ensures Valid() && |blocks| == |old(blocks)| + 1 && Contents() == old(Contents()) + multiset{Entry(name, inode)}
      ensures Made(old(Cache()), Append(old(buf[..]), buf[..]), Cache(), Entry(name, inode))
      ensures blocks == old(blocks) + [buf[..]]
    {
      ghost var s, d := Cache(), buf[..];
      disk, diskParts, dirty := disk + [buf[..]], diskParts + [multiset{}], dirty + {|blocks|};
      OneEntry(buf, name, inode);
      ghost var p := multiset{Entry(name, inode)};
      MadeAppend(s, d, buf[..], Entry(name, inode));
      assert (parts + [p])[..|parts|] == parts;
      blocks, parts := blocks + [buf[..]], parts + [p];
    }

    /** The search for room from the hint on. The hint then is the block where it ended. */
    method MakeFromHint(name: Name, inode: nat)
      requires Valid() && |name| < 256 && 0 < inode < 0x1_0000_0000
      modifies `blocks, `parts, `dirty, `lastBlock, `lastSize
      ensures Valid() && lastBlock <= |blocks| == |old(blocks)| && lastSize == Padded(|name|)
      ensures lastBlock < |blocks| ==> Contents() == old(Contents()) + multiset{Entry(name, inode)}
      ensures lastBlock < |blocks| ==>
                Made(old(Cache()), Rewrite(lastBlock, blocks[lastBlock]), Cache(), Entry(name, inode))
      ensures lastBlock == |blocks| ==> Cache() == old(Cache()) && Contents() == old(Contents())
      ensures forall i :: 0 <= i < |blocks| && i != lastBlock ==> blocks[i] == old(blocks)[i]
      ensures forall i :: old(StartOf(|blocks|, lastBlock, lastSize, Padded(|name|))) <= i < lastBlock ==>
                            Full(blocks[i], Padded(|name|))
      ensures old(HintOk(blocks, lastBlock, lastSize)) ==> HintOk(blocks, lastBlock, lastSize)
    {
      ghost var before := blocks;
      var k := MakeLoop(StartOf(|blocks|, lastBlock, lastSize, Padded(|name|)), name, inode);
      if HintOk(before, lastBlock, lastSize) { HintFound(before, blocks, lastBlock, lastSize, Padded(|name|), k); }
      SetHint(k, Padded(|name|));
    }

    method SetHint(k: nat, len: nat)
      modifies `lastBlock, `lastSize
      ensures lastBlock == k && lastSize == len
    {
      lastBlock, lastSize := k, len;
    }

    /** SD_MAKE. `buf` is the block ext2_new_block would give, or null when the disk is full. A
        block is added only when no block from the hint on has room, and with a good hint only when
        no block at all has. */
    method Make(name: Name, inode: nat, buf: array?<byte>) returns (status: Status, ghost step: Step<seq<byte>>)
      requires Valid() && |name| < 256 && 0 < inode < 0x1_0000_0000
      requires buf != null ==> buf.Length == blockSize
      modifies this, buf
      ensures Valid() && status != NoEntry && |blocks| >= |old(blocks)|
      ensures status == ReadOnly <==> readOnly && (name == DOT || name == DOTDOT)
      ensures status == Done ==> Contents() == old(Contents()) + multiset{Entry(name, inode)}
      ensures status != Done ==> blocks == old(blocks) && Contents() == old(Contents())
      ensures status == Done ==> Made(old(Cache()), step, Cache(), Entry(name, inode))
      ensures status == NoSpace || |blocks| > |old(blocks)| ==>
                forall i :: old(StartOf(|blocks|, lastBlock, lastSize, Padded(|name|))) <= i < |old(blocks)| ==>
                              Full(old(blocks)[i], Padded(|name|))
      ensures status == NoSpace ==> buf == null
      ensures status != ReadOnly ==> lastSize == Padded(|name|)
      ensures status != ReadOnly ==>
                lastBlock == if status == Done && step.Rewrite? then step.k else |old(blocks)|
      ensures old(HintOk(blocks, lastBlock, lastSize)) ==> HintOk(blocks, lastBlock, lastSize)
      ensures old(HintOk(blocks, lastBlock, lastSize)) && (status == NoSpace || |blocks| > |old(blocks)|) ==>
                forall i :: 0 <= i < |old(blocks)| ==> Full(old(blocks)[i], Padded(|name|))
      ensures forall m :: Represents(old(Contents()), m) && name !in m && status == Done ==>
                Represents(Contents(), m[name := inode])
    {
      MapsInserted(Contents(), Entry(name, inode));
      if readOnly && (name == DOT || name == DOTDOT) { return ReadOnly, Flush; }
      if HintOk(blocks, lastBlock, lastSize) { HintSkips(blocks, lastBlock, lastSize, Padded(|name|)); }
      MakeFromHint(name, inode);
      if lastBlock < |blocks| { return Done, Rewrite(lastBlock, blocks[lastBlock]); }
      if buf == null { return NoSpace, Flush; }
      step := Append(buf[..], []);
      ghost var before := blocks;
      Extend(buf, name, inode);
      if HintOk(before, lastBlock, lastSize) { HintExtends(before, buf[..], lastBlock, lastSize); }
      return Done, Append(step.d, buf[..]);
    }
  }
}
