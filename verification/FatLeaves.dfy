/** The index of a directory's first 16 entries and the reads that go through it
    (unsafe_maybe_fill_leaves and fat_vfs_node_get_leaf_node of kernel/kernel/fs/fat_vfs.c). */
module FatLeaves {
  import opened Base
  import opened FatEntries

  const CACHE_LEAVES: nat := 16   // FAT_VFS_CACHE_LEAVES

  /** The code of a scan: reading entry after entry from `idx` into one result, `count` times; the last
      outcome, or the first that is no entry. */
  function Walk(dir: seq<Entry>, idx: nat, count: nat, buf: seq<Byte>): (r: Outcome)
    requires |buf| == BUF && count > 0
    ensures |r.lfn| == BUF
    decreases count
  {
    var r := ReadEntry(dir, idx, buf);
    if count == 1 || !r.Read? then r else Walk(dir, r.next, count - 1, r.lfn)
  }

  /** A read into a clear result. */
  function Plain(dir: seq<Entry>, idx: nat): Outcome {
    ReadEntry(dir, idx, Zeros(BUF))
  }

  /** The index entry `n` of the directory starts at, if there are that many before it. */
  function Start(dir: seq<Entry>, n: nat): Option<nat> {
    if n == 0 then Some(0)
    else
      match Start(dir, n - 1)
      case None => None
      case Some(i) => if Plain(dir, i).Read? then Some(Plain(dir, i).next) else None
  }

  lemma PlainSame(dir: seq<Entry>, idx: nat, buf: seq<Byte>)
    requires |buf| == BUF
    ensures SameReading(ReadEntry(dir, idx, buf), Plain(dir, idx))
  {
    ScanSame(dir, idx, buf, Zeros(BUF));
  }

  /** A walk that starts at entry m and reads n - m + 1 entries ends by reading entry n. */
  lemma {:induction false} WalkReads(dir: seq<Entry>, m: nat, n: nat, buf: seq<Byte>)
    requires |buf| == BUF && m <= n && Start(dir, n).Some?
    ensures Start(dir, m).Some?
    ensures SameReading(Walk(dir, Start(dir, m).value, n - m + 1, buf), Plain(dir, Start(dir, n).value))
    decreases n - m
  {
    hide ReadEntry, SameReading;
    StartBefore(dir, m, n);
    var i := Start(dir, m).value;
    PlainSame(dir, i, buf);
    if m < n {
      StartBefore(dir, m + 1, n);
      ReadingFacts(ReadEntry(dir, i, buf), Plain(dir, i));
      WalkReads(dir, m + 1, n, ReadEntry(dir, i, buf).lfn);
    }
  }

  lemma ReadingFacts(a: Outcome, b: Outcome)
    requires SameReading(a, b)
    ensures (a.Read? <==> b.Read?) && (a.Read? ==> a.next == b.next) && (a.Last? <==> b.Last?)
  {
  }

  lemma {:induction false} StartBefore(dir: seq<Entry>, m: nat, n: nat)
    requires m <= n && Start(dir, n).Some?
    ensures Start(dir, m).Some?
    decreases n - m
  {
    if m < n {
      StartBefore(dir, m, n - 1);
    }
  }

  /** What reading a leaf gives its caller. */
  datatype Leaf = Leaf(status: Status, name: seq<Byte>)

  function LeafOf(o: Outcome): Leaf {
    Leaf(StatusOf(o), if o.Read? then CString(o.lfn) else [])
  }

  lemma SameLeaf(a: Outcome, b: Outcome)
    requires SameReading(a, b)
    ensures LeafOf(a) == LeafOf(b)
  {
  }

  /** The directory's part of struct fat_vfs_node_data. */
  class DirectoryNode {
    const dir: seq<Entry>
    var dirty: bool            // FAT_VFS_LEAVES_DIRTY
    var numLeaves: nat
    const leaves: array<nat>

    /** A clean index has the number of the entries and the starts of the first 16. */
    ghost predicate Valid()
      reads this, leaves
    {
      && leaves.Length == CACHE_LEAVES
      && (!dirty ==>
            Filled(dir, numLeaves, leaves[..]) && Start(dir, numLeaves).Some? && Plain(dir, Start(dir, numLeaves).value).Last?)
    }

    constructor (dir: seq<Entry>)
      ensures Valid() && dirty && this.dir == dir && fresh(leaves)
    {
      this.dir, dirty, numLeaves := dir, true, 0;
      leaves := new nat[CACHE_LEAVES](_ => 0);
    }

    /** unsafe_maybe_fill_leaves; false where it panics on an entry it cannot read. */
    method MaybeFillLeaves() returns (ok: bool)
      requires Valid()
      modifies this, leaves
      ensures Valid() && (ok ==> !dirty)
      ensures !ok ==> exists n :: Unreadable(dir, n)
      ensures !old(dirty) ==> ok && numLeaves == old(numLeaves) && leaves[..] == old(leaves[..])
    {
      hide ReadEntry, Start, Plain, Filled;
      if !dirty {
        return true;
      }
      numLeaves := 0;
      var idx := 0;
      var buf := new Byte[BUF](_ => 0);
      StartZero(dir);
      FilledNone(dir, leaves[..]);
      while true
        invariant dirty && leaves.Length == CACHE_LEAVES && buf.Length == BUF && fresh(buf)
        invariant Start(dir, numLeaves) == Some(idx) && idx <= |dir| && Filled(dir, numLeaves, leaves[..])
        decreases |dir| - idx
      {
        ghost var before := buf[..];
        var r := ReadEntryInto(dir, idx, buf);
        NextStart(dir, numLeaves, idx, before);
        if r == EntryError || r == Stopped {
          assert Unreadable(dir, numLeaves);
          return false;
        }
        if r == LastEntry {
          break;
        }
        FilledMore(dir, numLeaves, leaves[..], idx);
        if numLeaves < CACHE_LEAVES {
          leaves[numLeaves] := idx;
        }
        numLeaves := numLeaves + 1;
        idx := r.idx;
      }
      dirty := false;
      return true;
    }

    /** fat_vfs_node_get_leaf_node up to the entry it finds, for n > 0: what a scan of n + 1 entries from
        the start of the directory reads. `None` is its panics: an entry cannot be read, or there are
        not that many. */
    method GetLeafNode(n: nat, buf: array<Byte>) returns (r: Option<Leaf>)
      requires Valid() && n > 0 && buf.Length == BUF
      modifies this, leaves, buf
      ensures Valid()
      ensures r.Some? ==> !dirty && n < numLeaves && r.value.status.Next?
      ensures r.Some? ==> forall b :: |b| == BUF ==> r.value == LeafOf(Walk(dir, 0, n + 1, b))
      ensures r.None? ==> (exists m :: Unreadable(dir, m)) || (!dirty && n >= numLeaves)
    {
      hide Start, Walk, Plain, Unreadable;
      var ok := MaybeFillLeaves();
      if !ok || n >= numLeaves {
        return None;
      }
      var leaf := ReadLeaf(n, buf);
      r := Some(leaf);
    }

    /** The read itself, with the index filled: from the index, or on from its last entry. */
    method ReadLeaf(n: nat, buf: array<Byte>) returns (r: Leaf)
      requires Valid() && !dirty && 1 <= n < numLeaves && buf.Length == BUF
      modifies buf
      ensures forall b :: |b| == BUF ==> r == LeafOf(Walk(dir, 0, n + 1, b))
      ensures r.status.Next?
    {
      hide Start, Walk, Plain, Nth;
      forall b | |b| == BUF ensures LeafOf(Walk(dir, 0, n + 1, b)) == Nth(dir, n) {
        WalkIsNth(dir, n, numLeaves, b);
      }
      var status: Status;
      if n < CACHE_LEAVES {
        status := ReadKnown(dir, n, numLeaves, leaves[n], buf);
      } else {
        var idx := leaves[CACHE_LEAVES - 1];
        status := EntryError;
        var i := 0;
        while i < n - CACHE_LEAVES + 2
          invariant 0 <= i <= n - CACHE_LEAVES + 2 && Start(dir, CACHE_LEAVES - 1 + i) == Some(idx)
          invariant i > 0 ==> status.Next? && Leaf(status, CString(buf[..])) == Nth(dir, CACHE_LEAVES + i - 2)
        {
          status := ReadKnown(dir, CACHE_LEAVES - 1 + i, numLeaves, idx, buf);
          idx := status.idx;
          i := i + 1;
        }
      }
      r := Leaf(status, CString(buf[..]));
    }
  }

  /** What a clear read of entry `n` gives. */
  function Nth(dir: seq<Entry>, n: nat): Leaf {
    if Start(dir, n).Some? then LeafOf(Plain(dir, Start(dir, n).value)) else Leaf(EntryError, [])
  }

  lemma WalkIsNth(dir: seq<Entry>, n: nat, numLeaves: nat, buf: seq<Byte>)
    requires |buf| == BUF && n < numLeaves && Start(dir, numLeaves).Some?
    ensures LeafOf(Walk(dir, 0, n + 1, buf)) == Nth(dir, n)
  {
    hide Walk, Plain;
    EntryExists(dir, n, numLeaves);
    WalkReads(dir, 0, n, buf);
    SameLeaf(Walk(dir, 0, n + 1, buf), Plain(dir, Start(dir, n).value));
  }

  /** Reads entry `n`, which is before the end and starts at `idx`. */
  method ReadKnown(dir: seq<Entry>, ghost n: nat, ghost numLeaves: nat, idx: nat,
                   buf: array<Byte>) returns (status: Status)
    requires buf.Length == BUF && n < numLeaves && Start(dir, numLeaves).Some? && Start(dir, n) == Some(idx)
    modifies buf
    ensures status.Next? && Leaf(status, CString(buf[..])) == Nth(dir, n) && Start(dir, n + 1) == Some(status.idx)
  {
    hide ReadEntry, Start;
    ghost var before := buf[..];
    EntryExists(dir, n, numLeaves);
    status := ReadEntryInto(dir, idx, buf);
    PlainSame(dir, idx, before);
    SameLeaf(ReadEntry(dir, idx, before), Plain(dir, idx));
    NextStart(dir, n, idx, before);
  }

  /** The first 16 starts, as far as there are entries. */
  ghost predicate Filled(dir: seq<Entry>, numLeaves: nat, leaves: seq<nat>) {
    |leaves| == CACHE_LEAVES && forall k :: 0 <= k < numLeaves && k < CACHE_LEAVES ==> Start(dir, k) == Some(leaves[k])
  }

  lemma FilledNone(dir: seq<Entry>, leaves: seq<nat>)
    requires |leaves| == CACHE_LEAVES
    ensures Filled(dir, 0, leaves)
  {
  }

  lemma FilledMore(dir: seq<Entry>, n: nat, leaves: seq<nat>, idx: nat)
    requires Filled(dir, n, leaves) && Start(dir, n) == Some(idx)
    ensures Filled(dir, n + 1, if n < CACHE_LEAVES then leaves[n := idx] else leaves)
  {
  }

  /** Entry `n` is neither read nor the end: the directory is cut short, or breaks the code's assertions. */
  predicate Unreadable(dir: seq<Entry>, n: nat) {
    Start(dir, n).Some? && !Plain(dir, Start(dir, n).value).Read? && !Plain(dir, Start(dir, n).value).Last?
  }

  lemma StartZero(dir: seq<Entry>)
    ensures Start(dir, 0) == Some(0)
  {
  }

  lemma NextStart(dir: seq<Entry>, n: nat, idx: nat, buf: seq<Byte>)
    requires Start(dir, n) == Some(idx) && |buf| == BUF
    ensures var r := ReadEntry(dir, idx, buf);
            && (r.Read? <==> Plain(dir, idx).Read?) && (r.Last? <==> Plain(dir, idx).Last?)
            && (r.Read? ==> Start(dir, n + 1) == Some(r.next) && idx < r.next <= |dir|)
            && StatusOf(r) == StatusOf(Plain(dir, idx))
  {
    PlainSame(dir, idx, buf);
  }

  /** Entries before the end can be read. */
  lemma EntryExists(dir: seq<Entry>, n: nat, numLeaves: nat)
    requires n < numLeaves && Start(dir, numLeaves).Some?
    ensures Start(dir, n).Some? && Plain(dir, Start(dir, n).value).Read?
  {
    StartBefore(dir, n + 1, numLeaves);
    StartBefore(dir, n, numLeaves);
  }
}
