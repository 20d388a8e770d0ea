/**
  Directory records inside one block of bytes (fs/ext2/ext2_fs.h, fs/ext2/path.c): a block is
  tiled by variable-length records, and its meaning is the multiset of entries in use.
*/
module Ext2Record {

  type byte = x: int | 0 <= x < 256

  type Name = seq<byte>

  datatype Entry = Entry(name: Name, inode: nat)

  const HEADER := 8        // EXT2_MIN_DIR_ENTRY_SIZE
  const ALIGN := 4         // EXT2_DIR_ENTRY_ALIGN
  const INO_BYTES := 8     // sizeof(ino_t)

  // ---------------------------------------------------------------- little-endian fields

  function Get16(b: seq<byte>, o: nat): nat
    requires o + 2 <= |b|
  {
    (b[o] as int) + 256 * (b[o + 1] as int)
  }

  function Get32(b: seq<byte>, o: nat): nat
    requires o + 4 <= |b|
  {
    (b[o] as int) + 256 * (b[o + 1] as int) + 65536 * (b[o + 2] as int) + 16777216 * (b[o + 3] as int)
  }

  // ---------------------------------------------------------------- one record

  function Inode(b: seq<byte>, o: nat): nat
    requires o + HEADER <= |b|
  {
    Get32(b, o)
  }

  function RecLen(b: seq<byte>, o: nat): nat
    requires o + HEADER <= |b|
  {
    Get16(b, o + 4)
  }

  /** Size with padding: EXT2_DIR_ENTRY_ACTUAL_SIZE, and the space a new name of this length needs. */
  function Padded(nameLen: nat): (r: nat)
    ensures r % ALIGN == 0 && HEADER + nameLen <= r < HEADER + nameLen + ALIGN
  {
    var c := HEADER + nameLen;
    if c % 4 == 0 then c else c + (ALIGN - c % 4)
  }

  function NameAt(b: seq<byte>, o: nat): Name
    requires o + HEADER <= |b| && o + HEADER + b[o + 6] <= |b|
  {
    b[o + HEADER..o + HEADER + b[o + 6]]
  }

  /** A record: long enough for its name, aligned, and inside the block. */
  predicate RecordAt(b: seq<byte>, o: nat) {
    && o + HEADER <= |b|
    && Padded(b[o + 6]) <= RecLen(b, o) && RecLen(b, o) % ALIGN == 0 && o + RecLen(b, o) <= |b|
  }

  function EntryAt(b: seq<byte>, o: nat): multiset<Entry>
    requires RecordAt(b, o)
  {
    if Inode(b, o) == 0 then multiset{} else multiset{Entry(NameAt(b, o), Inode(b, o))}
  }

  // ---------------------------------------------------------------- a tiled stretch

  /** Records follow each other without a gap from lo to hi. */
  ghost predicate Tiled(b: seq<byte>, lo: nat, hi: nat)
    decreases hi - lo
  {
    lo == hi || (RecordAt(b, lo) && lo + RecLen(b, lo) <= hi && Tiled(b, lo + RecLen(b, lo), hi))
  }

  /** The entries in use. */
  ghost function Live(b: seq<byte>, lo: nat, hi: nat): multiset<Entry>
    requires Tiled(b, lo, hi)
    decreases hi - lo
  {
    if lo == hi then multiset{} else EntryAt(b, lo) + Live(b, lo + RecLen(b, lo), hi)
  }

  ghost predicate Same(b: seq<byte>, b': seq<byte>, lo: nat, hi: nat) {
    |b| == |b'| && forall i :: lo <= i < hi && i < |b| ==> b[i] == b'[i]
  }

  lemma RecordFrame(b: seq<byte>, b': seq<byte>, o: nat)
    requires RecordAt(b, o) && Same(b, b', o, o + RecLen(b, o))
    ensures RecordAt(b', o) && RecLen(b', o) == RecLen(b, o) && EntryAt(b', o) == EntryAt(b, o)
  {
    assert NameAt(b', o) == NameAt(b, o);
  }

  /** A stretch that is not written keeps its records. */
  lemma {:induction false} Frame(b: seq<byte>, b': seq<byte>, lo: nat, hi: nat)
    requires Tiled(b, lo, hi) && Same(b, b', lo, hi)
    ensures Tiled(b', lo, hi) && Live(b', lo, hi) == Live(b, lo, hi)
    decreases hi - lo
  {
    if lo < hi {
      RecordFrame(b, b', lo);
      Frame(b, b', lo + RecLen(b, lo), hi);
    }
  }

  /** Neighbouring stretches join. */
  lemma {:induction false} Joined(b: seq<byte>, lo: nat, mid: nat, hi: nat)
    requires Tiled(b, lo, mid) && Tiled(b, mid, hi) && lo <= mid <= hi
    ensures Tiled(b, lo, hi) && Live(b, lo, hi) == Live(b, lo, mid) + Live(b, mid, hi)
    decreases mid - lo
  {
    if lo < mid {
      Joined(b, lo + RecLen(b, lo), mid, hi);
    }
  }

  lemma OneRecord(b: seq<byte>, o: nat)
    requires RecordAt(b, o)
    ensures Tiled(b, o, o + RecLen(b, o)) && Live(b, o, o + RecLen(b, o)) == EntryAt(b, o)
  {
    assert Tiled(b, o + RecLen(b, o), o + RecLen(b, o));
  }

  // ---------------------------------------------------------------- changing records

  /** Only the bytes of [lo, hi) differ. */
  ghost predicate Within(b: seq<byte>, b': seq<byte>, lo: nat, hi: nat) {
    Same(b, b', 0, lo) && Same(b, b', hi, |b|)
  }

  method Put16(a: array<byte>, o: nat, v: nat)
    requires o + 2 <= a.Length && v < 65536
    modifies a
    ensures Within(old(a[..]), a[..], o, o + 2) && Get16(a[..], o) == v
  {
    a[o], a[o + 1] := v % 256, v / 256;
  }

  method Put32(a: array<byte>, o: nat, v: nat)
    requires o + 4 <= a.Length && v < 0x1_0000_0000
    modifies a
    ensures Within(old(a[..]), a[..], o, o + 4) && Get32(a[..], o) == v
  {
    Bytes32(v);
    a[o], a[o + 1], a[o + 2], a[o + 3] := v % 256, v / 256 % 256, v / 65536 % 256, v / 16777216;
  }

  /** A number is made of its bytes. */
  lemma Bytes32(v: nat)
    requires v < 0x1_0000_0000
    ensures v / 16777216 < 256
    ensures v == v % 256 + 256 * (v / 256 % 256) + 65536 * (v / 65536 % 256) + 16777216 * (v / 16777216)
  {
    var x, y := v / 256, v / 65536;
    assert x / 256 == y && y / 256 == v / 16777216;
  }

  /** memcpy of s to o. */
  method PutBytes(a: array<byte>, o: nat, s: seq<byte>)
    requires o + |s| <= a.Length
    modifies a
    ensures Within(old(a[..]), a[..], o, o + |s|) && a[o..o + |s|] == s
  {
    for i := 0 to |s|
      invariant Within(old(a[..]), a[..], o, o + |s|)
      invariant forall j :: 0 <= j < i ==> a[o + j] == s[j]
    {
      a[o + i] := s[i];
    }
  }

  /** The entry does not depend on the length field or on what follows the name. */
  lemma SameEntry(b: seq<byte>, r: seq<byte>, o: nat)
    requires RecordAt(b, o) && |r| == |b|
    requires forall i :: o <= i < o + 4 ==> r[i] == b[i]
    requires forall i :: o + 6 <= i < o + HEADER + b[o + 6] ==> r[i] == b[i]
    ensures Inode(r, o) == Inode(b, o) && r[o + 6] == b[o + 6] && NameAt(r, o) == NameAt(b, o)
  {
  }

  lemma AlignedDifference(x: int, y: int)
    requires x % ALIGN == 0 && y % ALIGN == 0
    ensures (x - y) % ALIGN == 0
  {
  }

  /** Erase the entry; its inode number is kept in the tail of its name, for recovery. */
  method Erase(a: array<byte>, o: nat)
    requires RecordAt(a[..], o)
    modifies a
    ensures Within(old(a[..]), a[..], o, o + RecLen(old(a[..]), o))
    ensures RecordAt(a[..], o) && RecLen(a[..], o) == RecLen(old(a[..]), o) && EntryAt(a[..], o) == multiset{}
  {
    var nl := a[o + 6];
    if nl >= INO_BYTES {
      PutBytes(a, o + HEADER + nl - INO_BYTES, a[o..o + 4]);
    }
    Put32(a, o, 0);
  }

  /** The record at `prev` swallows its neighbour at o. */
  method Merge(a: array<byte>, prev: nat, o: nat)
    requires RecordAt(a[..], prev) && prev + RecLen(a[..], prev) == o && RecordAt(a[..], o) && a.Length < 65536
    modifies a
    ensures Within(old(a[..]), a[..], prev, o + RecLen(old(a[..]), o))
    ensures RecordAt(a[..], prev) && prev + RecLen(a[..], prev) == o + RecLen(old(a[..]), o)
    ensures EntryAt(a[..], prev) == EntryAt(old(a[..]), prev) && a[prev + 6] == old(a[prev + 6])
  {
    ghost var b := a[..];
    AlignedDifference(RecLen(b, prev), 0 - RecLen(b, o));
    Put16(a, prev + 4, RecLen(a[..], prev) + RecLen(a[..], o));
    SameEntry(b, a[..], prev);
  }

  /** Cut the unused end of the record at o off into a free record of its own, at mid. */
  method Cut(a: array<byte>, o: nat) returns (mid: nat)
    requires RecordAt(a[..], o) && HEADER <= RecLen(a[..], o) - Padded(a[o + 6])
    modifies a
    ensures mid == o + Padded(old(a[o + 6])) && mid + HEADER <= o + RecLen(old(a[..]), o)
    ensures Within(old(a[..]), a[..], o, o + RecLen(old(a[..]), o))
    ensures RecordAt(a[..], o) && o + RecLen(a[..], o) == mid && EntryAt(a[..], o) == EntryAt(old(a[..]), o)
    ensures RecLen(a[..], mid) % ALIGN == 0 && mid + RecLen(a[..], mid) == o + RecLen(old(a[..]), o)
  {
    ghost var b := a[..];
    var actual := Padded(a[o + 6]);
    var rest := RecLen(a[..], o) - actual;
    AlignedDifference(RecLen(b, o), actual);
    mid := o + actual;
    Put16(a, o + 4, actual);
    Put16(a, mid + 4, rest);
    Put32(a, mid, 0);
    SameEntry(b, a[..], o);
  }

  /** Fill in the name and inode number of the record at o. */
  method Fill(a: array<byte>, o: nat, name: Name, inode: nat)
    requires o + HEADER <= a.Length && |name| < 256 && 0 < inode < 0x1_0000_0000
    requires Padded(|name|) <= RecLen(a[..], o) && RecLen(a[..], o) % ALIGN == 0 && o + RecLen(a[..], o) <= a.Length
    modifies a
    ensures Within(old(a[..]), a[..], o, o + RecLen(old(a[..]), o))
    ensures RecordAt(a[..], o) && RecLen(a[..], o) == RecLen(old(a[..]), o)
    ensures EntryAt(a[..], o) == multiset{Entry(name, inode)}
  {
    a[o + 6] := |name|;
    PutBytes(a, o + HEADER, name);
    Put32(a, o, inode);
    assert NameAt(a[..], o) == name;
  }
}
