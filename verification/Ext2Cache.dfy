/**
  The buffer cache under the file system (lib/libfsdriver/cache.c): what a block reads as, what the
  disk holds, and which buffers are marked dirty. A buffer that was changed and not marked is read
  back from the disk as it was when it has been evicted.
*/
module Ext2Cache {

  /** `seen` is what each block reads as: its buffer, or the disk when it has none. */
  datatype Store<B> = Store(disk: seq<B>, seen: seq<B>, dirty: set<nat>)

  /** A buffer is changed and not marked, or changed and marked; a block is added, with whatever the
      disk has there, and marked; all dirty buffers are written; a buffer is taken for another block. */
  datatype Step<B> = Change(k: nat, b: B) | Rewrite(k: nat, b: B) | Append(d: B, b: B) | Flush | Evict(k: nat)

  ghost predicate StoreOk<B>(s: Store<B>) {
    |s.disk| == |s.seen| && forall k :: k in s.dirty ==> k < |s.seen|
  }

  /** fsdriver_flush_dev: every dirty buffer is written and becomes clean. */
  ghost function Flushed<B>(s: Store<B>): Store<B>
    requires StoreOk(s)
  {
    var disk := seq(|s.disk|, i requires 0 <= i < |s.disk| => if i in s.dirty then s.seen[i] else s.disk[i]);
    s.(disk := disk, dirty := {})
  }

  /** The buffer is flushed first if it is dirty, and then gone. */
  ghost function Evicted<B>(s: Store<B>, k: nat): Store<B>
    requires StoreOk(s) && k < |s.seen|
  {
    var f := if k in s.dirty then Flushed(s) else s;
    f.(seen := f.seen[k := f.disk[k]])
  }

  ghost function Next<B>(s: Store<B>, step: Step<B>): (r: Store<B>)
    requires StoreOk(s)
    ensures StoreOk(r) && |r.seen| >= |s.seen|
  {
    match step
    case Change(k, b) => if k < |s.seen| then s.(seen := s.seen[k := b]) else s
    case Rewrite(k, b) => if k < |s.seen| then s.(seen := s.seen[k := b], dirty := s.dirty + {k}) else s
    case Append(d, b) => Store(s.disk + [d], s.seen + [b], s.dirty + {|s.seen|})
    case Flush => Flushed(s)
    case Evict(k) => if k < |s.seen| then Evicted(s, k) else s
  }

  ghost function Run<B>(s: Store<B>, steps: seq<Step<B>>): (r: Store<B>)
    requires StoreOk(s)
    ensures StoreOk(r) && |r.seen| >= |s.seen|
    decreases |steps|
  {
    if steps == [] then s else Run(Next(s, steps[0]), steps[1..])
  }

  /** The step writes to the buffer of block k. */
  predicate Writes<B>(step: Step<B>, k: nat) {
    (step.Change? || step.Rewrite?) && step.k == k
  }

  predicate Marks<B>(step: Step<B>, k: nat) {
    step.Rewrite? && step.k == k
  }

  predicate Evicts<B>(step: Step<B>, k: nat) {
    step.Evict? && step.k == k
  }

  /** Block k is marked dirty before it is evicted for the first time, if it ever is. */
  ghost predicate MarkedInTime<B>(steps: seq<Step<B>>, k: nat) {
    forall j :: 0 <= j < |steps| && Evicts(steps[j], k) ==> exists i :: 0 <= i < j && Marks(steps[i], k)
  }

  lemma MarkedNow<B>(steps: seq<Step<B>>, k: nat)
    requires steps != []
    ensures Marks(steps[0], k) ==> MarkedInTime(steps, k)
    ensures Evicts(steps[0], k) ==> !MarkedInTime(steps, k)
    ensures !Marks(steps[0], k) && !Evicts(steps[0], k) ==> (MarkedInTime(steps, k) <==> MarkedInTime(steps[1..], k))
  {
    var rest := steps[1..];
    if !Marks(steps[0], k) && !Evicts(steps[0], k) {
      forall j | 0 <= j < |rest| && Evicts(rest[j], k) && MarkedInTime(steps, k)
        ensures exists i :: 0 <= i < j && Marks(rest[i], k)
      {
        assert steps[j + 1] == rest[j];
        var i :| 0 <= i < j + 1 && Marks(steps[i], k);
        assert rest[i - 1] == steps[i];
      }
      forall j | 0 <= j < |steps| && Evicts(steps[j], k) && MarkedInTime(rest, k)
        ensures exists i :: 0 <= i < j && Marks(steps[i], k)
      {
        assert rest[j - 1] == steps[j];
        var i :| 0 <= i < j - 1 && Marks(rest[i], k);
        assert steps[i + 1] == rest[i];
      }
    }
  }

  /** Whenever the run writes to block k, marked or not, what it writes has the property exactly if
      what it replaces has it. */
  ghost predicate Neutral<B>(s: Store<B>, steps: seq<Step<B>>, k: nat, good: B -> bool)
    requires StoreOk(s) && k < |s.seen|
    decreases |steps|
  {
    steps == [] || (
      && (Writes(steps[0], k) ==> (good(steps[0].b) <==> good(s.seen[k])))
      && Neutral(Next(s, steps[0]), steps[1..], k, good))
  }

  /** Once a property is on the disk or about to be, or is on neither, it stays so. */
  lemma {:induction false} Decided<B>(s: Store<B>, steps: seq<Step<B>>, k: nat, good: B -> bool)
    requires StoreOk(s) && k < |s.seen| && Neutral(s, steps, k, good)
    requires k in s.dirty || (good(s.seen[k]) <==> good(s.disk[k]))
    ensures good(Run(s, steps).seen[k]) <==> good(s.seen[k])
    decreases |steps|
  {
    if steps != [] {
      Decided(Next(s, steps[0]), steps[1..], k, good);
    }
  }

  /** A property that block k reads as having, and the disk has not, is kept by every such run exactly
      if the buffer is already dirty, or is marked dirty before it is evicted. */
  lemma {:induction false} Survives<B>(s: Store<B>, steps: seq<Step<B>>, k: nat, good: B -> bool)
    requires StoreOk(s) && k < |s.seen| && Neutral(s, steps, k, good)
    requires good(s.seen[k]) && (k !in s.dirty ==> !good(s.disk[k]))
    ensures good(Run(s, steps).seen[k]) <==> k in s.dirty || MarkedInTime(steps, k)
    decreases |steps|
  {
    if k in s.dirty {
      Decided(s, steps, k, good);
    } else if steps != [] {
      MarkedNow(steps, k);
      var s1 := Next(s, steps[0]);
      if Marks(steps[0], k) || Evicts(steps[0], k) {
        Decided(s1, steps[1..], k, good);
      } else {
        Survives(s1, steps[1..], k, good);
      }
    }
  }
}
