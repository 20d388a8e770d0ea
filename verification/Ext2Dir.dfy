/**
  ext2_search_dir (fs/ext2/path.c): look a name up in a directory, add it or delete it. The
  directory is a sequence of blocks; every operation keeps each block tiled by records and acts
  on the directory as the same operation on a finite map from names to inode numbers.
*/
module Ext2Dir {
  import opened Ext2Record

  // ---------------------------------------------------------------- one block

  ghost predicate BlockOk(b: seq<byte>) {
    |b| < 65536 && Tiled(b, 0, |b|)
  }

  ghost function BlockEntries(b: seq<byte>): multiset<Entry>
    requires BlockOk(b)
  {
    Live(b, 0, |b|)
  }

  /** Rewriting the records of one stretch changes only their entries. */
  lemma Replaced(b: seq<byte>, b': seq<byte>, lo: nat, hi: nat)
    requires lo <= hi <= |b| && Tiled(b, 0, lo) && Tiled(b, lo, hi) && Tiled(b, hi, |b|)
    requires Within(b, b', lo, hi) && Tiled(b', lo, hi)
    ensures Tiled(b, 0, |b|) && Live(b, 0, |b|) == Live(b, 0, lo) + Live(b, lo, hi) + Live(b, hi, |b|)
    ensures Tiled(b', 0, |b'|) && Live(b', 0, |b'|) == Live(b, 0, lo) + Live(b', lo, hi) + Live(b, hi, |b|)
  {
    Frame(b, b', 0, lo);
    Frame(b, b', hi, |b|);
    Joined(b, 0, lo, hi);
    Joined(b, 0, hi, |b|);
    Joined(b', 0, lo, hi);
    Joined(b', 0, hi, |b'|);
  }

  /** `o` is where a record starts, reached by walking from the start of the block. */
  ghost predicate Cursor(b: seq<byte>, o: nat) {
    o < |b| && Tiled(b, 0, o) && RecordAt(b, o) && Tiled(b, o + RecLen(b, o), |b|)
  }

  lemma AtCursor(b: seq<byte>, o: nat)
    requires Cursor(b, o)
    ensures var hi := o + RecLen(b, o);
      && Tiled(b, o, hi) && Tiled(b, hi, |b|) && Live(b, o, hi) == EntryAt(b, o)
      && Tiled(b, 0, |b|) && Live(b, 0, |b|) == Live(b, 0, o) + EntryAt(b, o) + Live(b, hi, |b|)
  {
    var hi := o + RecLen(b, o);
    OneRecord(b, o);
    Joined(b, 0, o, hi);
    Joined(b, 0, hi, |b|);
  }

  // ---------------------------------------------------------------- deleting

  /** The record before o, if there is one. */
  ghost predicate Before(b: seq<byte>, prev: int, o: nat) {
    if prev < 0 then o == 0 else Tiled(b, 0, prev) && RecordAt(b, prev) && prev + RecLen(b, prev) == o
  }

  /** The first record of a block is emptied in place. */
  lemma EmptiedEntries(b: seq<byte>, b': seq<byte>, o: nat)
    requires Cursor(b, o) && Within(b, b', o, o + RecLen(b, o))
    requires RecordAt(b', o) && RecLen(b', o) == RecLen(b, o) && EntryAt(b', o) == multiset{}
    ensures Tiled(b', 0, |b'|) && Live(b', 0, |b'|) == Live(b, 0, o) + Live(b, o + RecLen(b, o), |b|)
  {
    var hi := o + RecLen(b, o);
    AtCursor(b, o);
    OneRecord(b', o);
    Replaced(b, b', o, hi);
    NothingBetween(Live(b, 0, o), Live(b', o, hi), Live(b, hi, |b|));
  }

  lemma NothingBetween(x: multiset<Entry>, y: multiset<Entry>, z: multiset<Entry>)
    requires y == multiset{}
    ensures x + y + z == x + z
  {
  }

  /** One more record after a tiled stretch. */
  lemma OneMore(b: seq<byte>, o: nat, hi: nat)
    requires Tiled(b, 0, o) && RecordAt(b, o) && hi == o + RecLen(b, o)
    ensures Tiled(b, 0, hi) && Live(b, 0, hi) == Live(b, 0, o) + EntryAt(b, o)
  {
    OneRecord(b, o);
    Joined(b, 0, o, hi);
  }

  /** The merged record and everything before it. */
  lemma MergedFront(b: seq<byte>, b': seq<byte>, prev: nat, o: nat, hi: nat)
    requires Tiled(b, 0, prev) && RecordAt(b, prev) && prev + RecLen(b, prev) == o && Same(b, b', 0, prev)
    requires RecordAt(b', prev) && prev + RecLen(b', prev) == hi && EntryAt(b', prev) == EntryAt(b, prev)
    ensures Tiled(b', 0, hi) && Tiled(b, 0, o) && Live(b', 0, hi) == Live(b, 0, o)
  {
    OneMore(b, prev, o);
    Frame(b, b', 0, prev);
    OneMore(b', prev, hi);
  }

  lemma SameTail(b: seq<byte>, b': seq<byte>, hi: nat)
    requires Tiled(b', 0, hi) && hi <= |b| && Tiled(b, hi, |b|) && Same(b, b', hi, |b|)
    ensures Tiled(b', 0, |b'|) && Live(b', 0, |b'|) == Live(b', 0, hi) + Live(b, hi, |b|)
  {
    Frame(b, b', hi, |b|);
    Joined(b', 0, hi, |b'|);
  }

  lemma MergedEntries(b: seq<byte>, b': seq<byte>, prev: nat, o: nat, hi: nat)
    requires Before(b, prev, o) && hi <= |b| && Tiled(b, hi, |b|) && Within(b, b', prev, hi)
    requires RecordAt(b', prev) && prev + RecLen(b', prev) == hi && EntryAt(b', prev) == EntryAt(b, prev)
    ensures Tiled(b', 0, |b'|) && Tiled(b, 0, o) && Live(b', 0, |b'|) == Live(b, 0, o) + Live(b, hi, |b|)
  {
    MergedFront(b, b', prev, o, hi);
    SameTail(b, b', hi);
  }

  // ---------------------------------------------------------------- making

  /** A free record that is long enough, or one whose unused end is. */
  predicate Room(b: seq<byte>, o: nat, need: nat)
    requires RecordAt(b, o)
  {
    (Inode(b, o) == 0 && need <= RecLen(b, o)) || need <= RecLen(b, o) - Padded(b[o + 6])
  }

  ghost predicate HasRoom(b: seq<byte>, lo: nat, hi: nat, need: nat)
    requires Tiled(b, lo, hi)
    decreases hi - lo
  {
    lo < hi && (Room(b, lo, need) || HasRoom(b, lo + RecLen(b, lo), hi, need))
  }

  /** The record at o, now shorter, is followed by a new one for e. */
  lemma SplitEntries(b: seq<byte>, c: seq<byte>, f: seq<byte>, o: nat, mid: nat, hi: nat, e: Entry)
    requires RecordAt(b, o) && hi == o + RecLen(b, o) && o < mid && mid + HEADER <= hi <= |b|
    requires Within(b, c, o, hi) && RecordAt(c, o) && o + RecLen(c, o) == mid && EntryAt(c, o) == EntryAt(b, o)
    requires Within(c, f, mid, hi) && RecordAt(f, mid) && mid + RecLen(f, mid) == hi && EntryAt(f, mid) == multiset{e}
    ensures Within(b, f, o, hi) && Tiled(f, o, hi) && Live(f, o, hi) == EntryAt(b, o) + multiset{e}
  {
    RecordFrame(c, f, o);
    OneRecord(f, o);
    OneRecord(f, mid);
    Joined(f, o, mid, hi);
  }

  lemma GrownEntries(b: seq<byte>, b': seq<byte>, o: nat, hi: nat, e: Entry)
    requires Cursor(b, o) && hi == o + RecLen(b, o) && Within(b, b', o, hi)
    requires Tiled(b', o, hi) && Live(b', o, hi) == EntryAt(b, o) + multiset{e}
    ensures Tiled(b, 0, |b|) && Tiled(b', 0, |b'|) && Live(b', 0, |b'|) == Live(b, 0, |b|) + multiset{e}
  {
    OneRecord(b, o);
    Replaced(b, b', o, hi);
  }

  // ---------------------------------------------------------------- the loops over one block

  ghost predicate NoName(es: multiset<Entry>, name: Name) {
    forall e :: e in es ==> e.name != name
  }

  lemma StepOver(b: seq<byte>, o: nat)
    requires o < |b| && Tiled(b, 0, o) && Tiled(b, o, |b|)
    ensures RecordAt(b, o) && Cursor(b, o)
    ensures var next := o + RecLen(b, o);
      && o < next <= |b| && Tiled(b, 0, next) && Tiled(b, next, |b|)
      && Live(b, 0, next) == Live(b, 0, o) + EntryAt(b, o)
  {
    OneRecord(b, o);
    Joined(b, 0, o, o + RecLen(b, o));
  }

  /** Search for the record of a name; `prev` is the record before it, or negative. */
  method FindMatch(b: seq<byte>, name: Name) returns (o: nat, prev: int)
    requires BlockOk(b)
    ensures o <= |b|
    ensures o == |b| ==> NoName(BlockEntries(b), name)
    ensures o < |b| ==> Cursor(b, o) && Before(b, prev, o) && Inode(b, o) != 0 && NameAt(b, o) == name
  {
    o, prev := 0, -1;
    while o < |b|
      invariant 0 <= o <= |b| && Tiled(b, 0, o) && Tiled(b, o, |b|) && Before(b, prev, o)
      invariant NoName(Live(b, 0, o), name)
      decreases |b| - o
    {
      StepOver(b, o);
      if Inode(b, o) != 0 && NameAt(b, o) == name { return; }
      prev := o;
      o := o + RecLen(b, o);
    }
  }

  /** Search for a record with room for `need` bytes. */
  method FindRoom(b: seq<byte>, need: nat) returns (o: nat)
    requires BlockOk(b)
    ensures o <= |b|
    ensures o == |b| <==> !HasRoom(b, 0, |b|, need)
    ensures o < |b| ==> Cursor(b, o) && Room(b, o, need)
  {
    o := 0;
    while o < |b|
      invariant 0 <= o <= |b| && Tiled(b, 0, o) && Tiled(b, o, |b|)
      invariant HasRoom(b, 0, |b|, need) == HasRoom(b, o, |b|, need)
      decreases |b| - o
    {
      StepOver(b, o);
      if Room(b, o, need) { return; }
      o := o + RecLen(b, o);
    }
  }

  lemma WithinBoth(b: seq<byte>, e: seq<byte>, m: seq<byte>, lo: nat, mid: nat, hi: nat)
    requires Within(b, e, mid, hi) && Within(e, m, lo, hi) && lo <= mid
    ensures Within(b, m, lo, hi)
  {
  }

  lemma Regroup(x: multiset<Entry>, e: multiset<Entry>, y: multiset<Entry>)
    ensures x + e + y == x + y + e
  {
  }

  lemma DeletedByMerge(b: seq<byte>, c: seq<byte>, prev: nat, o: nat, hi: nat)
    requires BlockOk(b) && Cursor(b, o) && Before(b, prev, o) && hi == o + RecLen(b, o) && Within(b, c, prev, hi)
    requires RecordAt(c, prev) && prev + RecLen(c, prev) == hi && EntryAt(c, prev) == EntryAt(b, prev)
    ensures BlockOk(c) && BlockEntries(b) == BlockEntries(c) + EntryAt(b, o)
  {
    AtCursor(b, o);
    MergedEntries(b, c, prev, o, hi);
    Regroup(Live(b, 0, o), EntryAt(b, o), Live(b, hi, |b|));
  }

  lemma DeletedInPlace(b: seq<byte>, e: seq<byte>, o: nat)
    requires BlockOk(b) && Cursor(b, o) && Within(b, e, o, o + RecLen(b, o))
    requires RecordAt(e, o) && RecLen(e, o) == RecLen(b, o) && EntryAt(e, o) == multiset{}
    ensures BlockOk(e) && BlockEntries(b) == BlockEntries(e) + EntryAt(b, o)
  {
    AtCursor(b, o);
    EmptiedEntries(b, e, o);
    Regroup(Live(b, 0, o), EntryAt(b, o), Live(b, o + RecLen(b, o), |b|));
  }

  lemma {:induction false} RoomSeen(b: seq<byte>, lo: nat, o: nat, hi: nat, need: nat)
    requires Tiled(b, lo, o) && Tiled(b, lo, hi) && RecordAt(b, o) && o < hi && Room(b, o, need)
    ensures HasRoom(b, lo, hi, need)
    decreases hi - lo
  {
    if lo < o { RoomSeen(b, lo + RecLen(b, lo), o, hi, need); }
  }

  /** A record that took in its neighbour has the neighbour's length to spare. */
  lemma RoomAfterMerge(b: seq<byte>, c: seq<byte>, prev: nat, o: nat)
    requires BlockOk(c) && Before(b, prev, o) && RecordAt(b, o) && Same(b, c, 0, prev)
    requires RecordAt(c, prev) && prev + RecLen(c, prev) == o + RecLen(b, o) && c[prev + 6] == b[prev + 6]
    ensures HasRoom(c, 0, |c|, RecLen(b, o))
  {
    Frame(b, c, 0, prev);
    RoomSeen(c, 0, prev, |c|, RecLen(b, o));
  }

  /** Erase the record at o, and merge it into the one before if there is one. Its whole length
      can be used again. */
  method DeleteRecord(a: array<byte>, o: nat, prev: int)
    requires BlockOk(a[..]) && Cursor(a[..], o) && Before(a[..], prev, o)
    modifies a
    ensures BlockOk(a[..]) && BlockEntries(old(a[..])) == BlockEntries(a[..]) + EntryAt(old(a[..]), o)
    ensures HasRoom(a[..], 0, a.Length, RecLen(old(a[..]), o))
  {
    ghost var b := a[..];
    Erase(a, o);
    ghost var e := a[..];
    if prev >= 0 {
      RecordFrame(b, e, prev);
      Merge(a, prev, o);
      WithinBoth(b, e, a[..], prev, o, o + RecLen(b, o));
      DeletedByMerge(b, a[..], prev, o, o + RecLen(b, o));
      RoomAfterMerge(b, a[..], prev, o);
    } else {
      DeletedInPlace(b, e, o);
    }
  }

  method MakeInBlock(a: array<byte>, name: Name, inode: nat) returns (hit: bool)
    requires BlockOk(a[..]) && |name| < 256 && 0 < inode < 0x1_0000_0000
    modifies a
    ensures BlockOk(a[..])
    ensures hit == HasRoom(old(a[..]), 0, a.Length, Padded(|name|))
    ensures !hit ==> a[..] == old(a[..])
    ensures hit ==> BlockEntries(a[..]) == BlockEntries(old(a[..])) + multiset{Entry(name, inode)}
  {
    var o := FindRoom(a[..], Padded(|name|));
    if o == a.Length { return false; }
    ghost var b := a[..];
    ghost var hi := o + RecLen(b, o);
    if Inode(a[..], o) == 0 && Padded(|name|) <= RecLen(a[..], o) {
      Fill(a, o, name, inode);
      OneRecord(a[..], o);
    } else {
      var mid := Cut(a, o);
      ghost var c := a[..];
      Fill(a, mid, name, inode);
      SplitEntries(b, c, a[..], o, mid, hi, Entry(name, inode));
    }
    GrownEntries(b, a[..], o, hi, Entry(name, inode));
    return true;
  }
}
