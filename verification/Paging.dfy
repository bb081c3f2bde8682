/** palloc.c and paging/core.c over the bytes of physical memory. The kernel's page tables are in
    use throughout, and its directory's global entries do not change. */
module Paging {
  import opened Base
  import opened Pages
  import opened AddressSpaces
  import opened FreeList
  import opened PagingSteps

  class Machine {
    const kernel: seq<Word>   // kernel_pd
    var mem: Memory           // the pages of palloc's region
    var firstFree: Frame      // first_free_page
    var remaining: nat        // remaining_pages
    ghost var owner: Owners   // the frames added to palloc
    ghost var free: seq<Frame>

    ghost predicate Valid()
      reads this
    {
      && Inv(mem, owner, kernel)
      && FreeOk(mem, owner, free)
      && firstFree == First(free)
      && remaining == |free|
    }

    /** init_palloc, over pages that nothing has been put in yet. */
    constructor (kernel: seq<Word>, mem: Memory)
      requires |kernel| == LENGTH && FramesOk(mem)
      ensures Valid() && this.kernel == kernel && this.mem == mem && owner == map[] && free == []
    {
      this.kernel, this.mem := kernel, mem;
      firstFree, remaining := 0, 0;
      owner, free := map[], [];
    }

    method Palloc() returns (p: Frame)
      requires Valid()
      modifies this
      ensures Valid()
      ensures old(free) == [] ==> p == 0 && mem == old(mem) && owner == old(owner) && free == []
      ensures old(free) != [] ==>
                && p == old(free)[0] && p in mem && free == old(free)[1..]
                && owner == old(owner)[p := Taken] && mem[p] == Zeros()
                && Kept(old(mem), old(owner), mem)
    {
      p := firstFree;
      if p == 0 {
        HeadInMemory();
        return;
      }
      HeadInMemory();
      if Entry(mem, p, 0) != MAGIC {
        assert false;  // kpanic
      }
      firstFree := Entry(mem, p, NEXT);
      if firstFree != 0 {
        mem := SetEntry(mem, firstFree, PREV, 0);
      }
      remaining := remaining - 1;
      mem := mem[p := Zeros()];

      owner := owner[p := Taken];
      free := free[1..];
      PopKeeps(old(mem), old(owner), old(free), firstFree, kernel);
    }

    /** The first word of the list is a frame of it, or 0. */
    lemma HeadInMemory()
      requires Valid()
      ensures firstFree == 0 <==> free == []
      ensures free != [] ==> firstFree in mem && |mem[firstFree]| == PAGE_SIZE && Owned(owner, firstFree, Free)
                             && NodeAt(mem, firstFree) == NodeFor(free, 0)
      ensures |free| > 1 ==> free[1] in mem && |mem[free[1]]| == PAGE_SIZE && free[1] != 0 && free[1] != free[0]
    {
      if free != [] {
        assert free[0] in free && Owned(owner, free[0], Free);
      }
      if |free| > 1 {
        assert free[1] in free && Owned(owner, free[1], Free);
      }
    }

    /** `p` is given up by its last user; or it is new, and becomes a frame of palloc's. */
    method PFree(p: Frame)
      requires Valid() && p in mem && (p in owner ==> owner[p] == Taken)
      modifies this
      ensures Valid() && free == [p] + old(free) && owner == old(owner)[p := Free]
      ensures Kept(old(mem), old(owner)[p := Free], mem)
    {
      hide Inv, FreeOk, NodeAt, NodeFor, Entry, SetEntry, PushMem, Kept;
      HeadInMemory();
      InvFrames(mem, owner, kernel);
      PushSteps(mem, p, firstFree);
      PushKeeps(mem, owner, free, p, kernel);
      mem := SetEntry(mem, p, 0, MAGIC);
      mem := SetEntry(mem, p, PREV, 0);
      mem := SetEntry(mem, p, NEXT, firstFree);
      if firstFree != 0 {
        mem := SetEntry(mem, firstFree, PREV, p);
      }
      firstFree := p;
      remaining := remaining + 1;

      owner := owner[p := Free];
      free := [p] + free;
    }

    /** palloc_add_free_region: pages already free, or marked as if they were, are passed over. A page in
        use must be so marked, or the code would free it. */
    method AddFreeRegion(from: Frame, to: Frame)
      requires Valid() && from % PAGE_SIZE == 0 && to % PAGE_SIZE == 0
      requires forall f :: f in mem && from <= f < to && f in owner && owner[f] != Free ==> Entry(mem, f, 0) == MAGIC
      modifies this
      ensures Valid()
      ensures forall f: Frame :: f in owner <==> f in old(owner) || Unmarked(old(mem), from, to, f)
      ensures forall f :: f in owner ==> owner[f] == Role(old(owner), f)
      ensures Kept(old(mem), owner, mem)
    {
      hide Inv, FreeOk, Entry, Kept, FramesOk, Added;
      InvFrames(mem, owner, kernel);
      KeptAll(mem, owner);
      AddedNone(old(mem), old(owner), from, to);
      var p: int := from;
      while p < to
        invariant from <= p && p % PAGE_SIZE == 0 && Valid()
        invariant Added(old(mem), old(owner), from, to, p, owner) && Kept(old(mem), owner, mem)
      {
        KeptKeys(old(mem), owner, mem);
        AddedMore(old(mem), old(owner), from, to, p, owner);
        if p in mem {
          AddedAt(old(mem), old(owner), from, to, p, owner);
          FreeHasMagic();
          if !Owned(owner, p, Free) {
            SameEntry(old(mem), mem, owner, p);
          }
          if Entry(mem, p, 0) != MAGIC {
            ghost var before, was := mem, owner;
            PFree(p);
            KeptStill(old(mem), was, before, owner, mem);
          }
        }
        p := p + PAGE_SIZE;
      }
      AddedAll(old(mem), old(owner), from, to, p, owner);
    }

    lemma FreeHasMagic()
      requires Valid()
      ensures forall f :: f in owner && owner[f] == Free ==> Entry(mem, f, 0) == MAGIC
    {
      forall f | f in owner && owner[f] == Free ensures Entry(mem, f, 0) == MAGIC {
        assert Owned(owner, f, Free);
        assert f in free;
        var k :| 0 <= k < |free| && free[k] == f;
        assert NodeAt(mem, free[k]) == NodeFor(free, k);
      }
    }

    method AllocDir() returns (pd: Frame)
      requires Valid() && free != []
      modifies this
      ensures Valid() && pd == old(free)[0] && free == old(free)[1..]
      ensures owner == old(owner)[pd := Dir] && Kept(old(mem), old(owner), mem)
      ensures pd in mem
      ensures forall i: nat :: i < LENGTH ==> Entry(mem, pd, i) == if KernelEntry(kernel, i) then kernel[i] else 0
    {
      hide Inv, FreeOk, Entry, SetEntry, Global;
      HeadOwned(mem, owner, free, kernel);
      pd := Palloc();
      ZeroPage(mem, pd);
      for i := 0 to LENGTH
        invariant Valid() && owner == old(owner)[pd := Taken]
        invariant free == old(free)[1..] && Kept(old(mem), old(owner), mem)
        invariant pd in mem && |mem[pd]| == PAGE_SIZE && |kernel| == LENGTH
        invariant forall k: nat :: k < LENGTH ==>
                    Entry(mem, pd, k) == if k < i && KernelEntry(kernel, k) then kernel[k] else 0
      {
        if Global(kernel[i]) {
          WriteWord(mem, owner, free, kernel, pd, i, kernel[i]);
          mem := SetEntry(mem, pd, i, kernel[i]);
        }
      }
      DirKeeps(mem, owner, kernel, pd);
      TakenToUse(mem, owner, free, pd, Dir);
      owner := owner[pd := Dir];
    }

    /** The first half of paging_map: entry `i` of `pd` leads to a table, and has the flags. */
    method EnsureTable(pd: Frame, i: nat, flags: Flags) returns (t: Frame)
      requires Valid() && Owned(owner, pd, Dir) && i < LENGTH && !KernelEntry(kernel, i) && !Bit(flags, 8)
      requires Entry(mem, pd, i) == 0 ==> free != []
      modifies this
      ensures Valid() && Owned(owner, t, Table(pd, i)) && AddressOf(Entry(mem, pd, i)) == t
      ensures Gains(Entry(old(mem), pd, i), Entry(mem, pd, i), OrFlags(flags, PRESENT))
      ensures forall j: nat :: j < LENGTH ==> Entry(mem, t, j) == Pte(old(mem), pd, i, j)
      ensures forall k: nat :: k != i ==> Entry(mem, pd, k) == Entry(old(mem), pd, k)
      ensures free == (if Entry(old(mem), pd, i) == 0 then old(free)[1..] else old(free))
      ensures owner == old(owner)[t := Table(pd, i)]
      ensures t == if Entry(old(mem), pd, i) == 0 then old(free)[0] else AddressOf(Entry(old(mem), pd, i))
      ensures mem.Keys == old(mem).Keys
      ensures forall f :: f in old(mem) && f != pd && !Owned(old(owner), f, Free) ==> mem[f] == old(mem)[f]
    {
      hide Inv, FreeOk, Entry, SetEntry, AddressOf, KernelEntry, Construct, Marked, Bit, LeadsTo, Gains, FlagsOf;
      DirEntry(mem, owner, kernel, pd, i);
      InvFrame(mem, owner, kernel, pd);
      var e := Entry(mem, pd, i);
      ghost var m := mem;
      if AddressOf(e) == 0 {
        HeadOwned(mem, owner, free, kernel);
        t := Palloc();
        SameEntries(old(mem), mem, pd);
        ZeroPage(mem, t);
        InvFrame(mem, owner, kernel, pd);
        InvFrame(mem, owner, kernel, t);
        FreshEntry(t, flags);
        m := mem;
        e := Construct(t, 0);
        ConstructParts(t, 0);
        MarkedGains(e, flags);
        FreshGains(e, Marked(e, flags), OrFlags(flags, PRESENT));
        SetTwice(mem, pd, i, e, Marked(e, flags));
        mem := SetEntry(mem, pd, i, e);
        KeepsPages(m, pd, i, e);
      } else {
        t := AddressOf(e);
        MarkedLeads(e, flags);
        MarkedGains(e, flags);
      }
      mem := SetEntry(mem, pd, i, Marked(e, flags));
      TableStep(m, owner, free, kernel, pd, i, t, Marked(e, flags));
      owner := owner[t := Table(pd, i)];
    }

    /** paging_map. Its panics, a global flag and a kernel entry, are what it demands of its caller. */
    method Map(pd: Frame, v: Word, p: Frame, flags: Flags)
      requires Valid() && Owned(owner, pd, Dir) && UserPage(kernel, PageOf(v))
      requires Owned(owner, p, Taken) && !Bit(flags, 8)
      requires Entry(mem, pd, DirIndex(PageOf(v))) == 0 ==> free != []
      modifies this
      ensures Valid()
      ensures MapsOne(old(mem), old(owner), mem, owner, kernel, pd, PageOf(v), p, Construct(p, OrFlags(flags, PRESENT)))
      ensures free == (if Entry(old(mem), pd, DirIndex(PageOf(v))) == 0 then old(free)[1..] else old(free))
    {
      hide Inv, FreeOk, Entry, SetEntry, AddressOf, KernelEntry, Construct, OrFlags, Bit, LeadsTo, MapOwners, MapsOne,
          Pte, Gains, FlagsOf;
      IndexParts(PageOf(v));
      var i, j := DirIndex(PageOf(v)), TableIndex(PageOf(v));
      if Entry(mem, pd, i) == 0 {
        HeadOwned(mem, owner, free, kernel);
      } else {
        DirEntry(mem, owner, kernel, pd, i);
      }
      var t := EnsureTable(pd, i, flags);
      InvFrame(mem, owner, kernel, t);
      InvFrame(mem, owner, kernel, p);
      var w := Construct(p, OrFlags(flags, PRESENT));
      ghost var m := mem;
      mem := SetEntry(mem, t, j, w);
      EntryLeads(p, flags);
      MapStep(m, owner, free, kernel, pd, i, j, t, p, w);
      ConstructParts(p, OrFlags(flags, PRESENT));
      assert MapsOne(old(mem), old(owner), mem, MapOwners(m, owner, t, pd, i, j, p), kernel, pd, PageOf(v), p, w) by {
        MapsOneProof(old(mem), old(owner), m, kernel, pd, PageOf(v), t, p, w);
      }
      owner := MapOwners(m, owner, t, pd, i, j, p);
    }

    /** paging_get_entry. */
    method GetEntry(pd: Frame, v: Word) returns (w: Word)
      requires Valid() && Owned(owner, pd, Dir) && UserPage(kernel, PageOf(v))
      ensures w == PageEntry(mem, pd, PageOf(v))
      ensures AddressOf(w) != 0 ==> Owned(owner, AddressOf(w), Data(pd, DirIndex(PageOf(v)), TableIndex(PageOf(v))))
    {
      BeforeOwned(mem, owner, kernel, pd, PageOf(v));
      hide Inv, FreeOk, AddressOf, Entry;
      var e := Entry(mem, pd, DirIndex(PageOf(v)));
      if AddressOf(e) == 0 {
        return 0;
      }
      w := Entry(mem, AddressOf(e), TableIndex(PageOf(v)));
    }

    /** vmxchg, writing. */
    method VmWrite(pd: Frame, v: nat, buf: seq<Byte>)
      requires Valid() && Owned(owner, pd, Dir) && v + |buf| <= PAGES * PAGE_SIZE
      requires forall a: nat :: v <= a < v + |buf| ==> Mapped(mem, kernel, pd, PageOf(a))
      modifies this
      ensures Valid() && owner == old(owner) && free == old(free)
      ensures View(mem, kernel, pd) == Overwrite(old(View(mem, kernel, pd)), v, buf)
      ensures forall d :: Owned(owner, d, Dir) && d != pd ==> View(mem, kernel, d) == old(View(mem, kernel, d))
    {
      hide Inv, FreeOk, Mapped, View, PageOf, FrameOf, Overwrite;
      var u: nat, num: nat, bufOff: nat := v, |buf|, 0;
      OverwriteNothing(View(mem, kernel, pd), v);
      assert buf[..0] == [];
      while num > 0
        invariant bufOff + num == |buf| && (num > 0 ==> u == v + bufOff)
        invariant Valid() && owner == old(owner) && free == old(free)
        invariant forall a: nat :: v <= a < v + |buf| ==> Mapped(mem, kernel, pd, PageOf(a))
        invariant View(mem, kernel, pd) == Overwrite(old(View(mem, kernel, pd)), v, buf[..bufOff])
        invariant forall d :: Owned(owner, d, Dir) && d != pd ==> View(mem, kernel, d) == old(View(mem, kernel, d))
      {
        var p := FrameOf(mem, pd, PageOf(u));
        var off := u % PAGE_SIZE;
        var batch := if PAGE_SIZE - off < num then PAGE_SIZE - off else num;
        ghost var m := mem;
        var bytes := buf[bufOff..bufOff + batch];
        WriteBatch(mem, owner, free, kernel, pd, u, bytes);
        mem := mem[p := Spliced(mem[p], off, bytes)];
        OverwriteTwice(old(View(mem, kernel, pd)), v, buf[..bufOff], bytes);
        assert buf[..bufOff] + bytes == buf[..bufOff + batch];
        num, bufOff := num - batch, bufOff + batch;
        u := u - off + PAGE_SIZE;
      }
      assert buf[..bufOff] == buf;
    }

    /** vmxchg, reading. */
    method VmRead(pd: Frame, v: nat, size: nat) returns (buf: seq<Byte>)
      requires Valid() && Owned(owner, pd, Dir) && v + size <= PAGES * PAGE_SIZE
      requires forall a: nat :: v <= a < v + size ==> Mapped(mem, kernel, pd, PageOf(a))
      ensures |buf| == size
      ensures forall a: nat :: v <= a < v + size ==>
                a in View(mem, kernel, pd) && buf[a - v] == View(mem, kernel, pd)[a]
    {
      hide Inv, FreeOk, Mapped, View, PageOf, FrameOf;
      var u: nat, num: nat := v, size;
      buf := [];
      while num > 0
        invariant |buf| + num == size && (num > 0 ==> u == v + |buf|)
        invariant forall a: nat :: v <= a < v + |buf| ==>
                    a in View(mem, kernel, pd) && buf[a - v] == View(mem, kernel, pd)[a]
      {
        var p := FrameOf(mem, pd, PageOf(u));
        var off := u % PAGE_SIZE;
        var batch := if PAGE_SIZE - off < num then PAGE_SIZE - off else num;
        ReadBatch(mem, owner, kernel, pd, u, batch);
        buf := buf + mem[p][off..off + batch];
        num := num - batch;
        u := u - off + PAGE_SIZE;
      }
    }

    /** paging_free_table, for entry `i` of a directory of the owners `was` over the memory `m`. */
    method FreeTable(t: Frame, ghost was: Owners, ghost m: Memory, ghost pd: Frame, ghost i: nat)
      requires Valid() && Inv(m, was, kernel) && Owned(was, t, Table(pd, i))
      requires owner == Stage(was, pd, i, 0) && Kept(m, owner, mem)
      modifies this
      ensures Valid() && owner == Stage(was, pd, i + 1, 0) && Kept(m, owner, mem)
    {
      hide Inv, FreeOk, AddressOf, Entry, Stage, Kept, Present, Global;
      TableFrame(was, m, kernel, pd, i, t);
      for j := 0 to LENGTH
        invariant Valid() && owner == Stage(was, pd, i, j) && Kept(m, owner, mem)
      {
        StageTable(was, m, mem, owner, kernel, pd, i, j, t);
        if Present(Entry(mem, t, j)) && !Global(Entry(mem, t, j)) {
          var f := AddressOf(Entry(mem, t, j));
          StagePage(was, m, kernel, pd, i, j, t);
          InvFrame(mem, owner, kernel, f);
          ghost var before := mem;
          PFree(f);
          KeptMore(m, Stage(was, pd, i, j), before, owner, mem, f);
        } else {
          StageNoPage(was, m, kernel, pd, i, j, t);
        }
      }
      StageLast(was, m, kernel, pd, i, t);
      InvFrame(mem, owner, kernel, t);
      ghost var before, all := mem, owner;
      PFree(t);
      KeptMore(m, all, before, owner, mem, t);
    }

    /** paging_free_dir: the frames `pd` took go back, every one of them and no other. */
    method FreeDir(pd: Frame)
      requires Valid() && Owned(owner, pd, Dir)
      modifies this
      ensures Valid() && owner == Released(old(owner), pd)
      ensures forall f :: f in free <==> f in old(free) || f in FramesOf(old(owner), pd)
      ensures remaining == old(remaining) + |FramesOf(old(owner), pd)|
      ensures forall d :: Owned(old(owner), d, Dir) && d != pd ==>
                Owned(owner, d, Dir) && View(mem, kernel, d) == old(View(mem, kernel, d))
    {
      hide Inv, FreeOk, AddressOf, Entry, Stage, Kept, Present, Global, View, FramesOf, Released;
      ghost var was, m := owner, mem;
      InvFrame(mem, owner, kernel, pd);
      InvFrames(mem, owner, kernel);
      owner := Dismantled(owner, pd);
      DismantleKeeps(m, was, kernel, pd);
      DismantleFree(m, was, free, pd);
      StageFirst(was, m, kernel, pd);
      KeptSame(m, owner);
      for i := 0 to LENGTH
        invariant Valid() && owner == Stage(was, pd, i, 0) && Kept(m, owner, mem)
      {
        StageDir(was, m, mem, owner, kernel, pd, i);
        if Present(Entry(mem, pd, i)) && !Global(Entry(mem, pd, i)) {
          FreeTable(AddressOf(Entry(mem, pd, i)), was, m, pd, i);
        }
      }
      StageEnd(was, m, kernel, pd);
      InvFrame(mem, owner, kernel, pd);
      ghost var before, all := mem, owner;
      PFree(pd);
      KeptMore(m, all, before, owner, mem, pd);
      ReleasedFree(was, m, old(free), mem, owner, free, pd);
      forall d | Owned(was, d, Dir) && d != pd
        ensures Owned(owner, d, Dir) && View(mem, kernel, d) == View(m, kernel, d)
      {
        ReleasedOthers(was, m, mem, owner, kernel, pd, d);
      }
    }

    /** duplicate_pt: copies the pages of table `srcPt` into the empty table `destPt`, both entry `i`
        of their directories. `was` and `m` are the owners and the memory vmdup began with. */
    method DuplicatePt(destPt: Frame, srcPt: Frame, ghost was: Owners, ghost m: Memory, ghost dest: Frame,
                       ghost src: Frame, ghost i: nat)
      requires Valid() && Owned(owner, srcPt, Table(src, i)) && Owned(owner, destPt, Table(dest, i)) && dest != src
      requires Inv(m, was, kernel) && Owned(was, srcPt, Table(src, i))
      requires srcPt in m && srcPt in mem && mem[srcPt] == m[srcPt]
      requires forall k: nat :: k < LENGTH ==> Entry(mem, destPt, k) == 0
      requires |free| + |Past(was, src, i, 0)| + 2 >= |FramesOf(was, src)|
      modifies this
      ensures Valid() && Duplicated(old(mem), old(owner), mem, owner, dest, i, destPt, srcPt, LENGTH)
      ensures |free| + |Past(was, src, i + 1, 0)| == old(|free|) + |Past(was, src, i, 0)| + 1
    {
      hide Inv, FreeOk, AddressOf, Entry, Present, Global, FramesOf, Past, Duplicated, Construct, FlagsOf, LeadsTo,
          SetEntry;
      DuplicatedNone(mem, owner, dest, i, destPt, srcPt);
      for j := 0 to LENGTH
        invariant Valid() && Duplicated(old(mem), old(owner), mem, owner, dest, i, destPt, srcPt, j)
        invariant |free| + |Past(was, src, i, j)| == old(|free|) + |Past(was, src, i, 0)|
      {
        DuplicatedFacts(old(mem), old(owner), mem, owner, kernel, dest, src, i, destPt, srcPt, j);
        SameEntries(m, mem, srcPt);
        TableLeads(m, was, kernel, src, i, j, srcPt);
        var e := Entry(mem, srcPt, j);
        if Present(e) && !Global(e) {
          PastPage(m, was, kernel, src, i, j, srcPt);
          HeadOwned(mem, owner, free, kernel);
          ghost var before, beforeOwner := mem, owner;
          var p := Palloc();
          SameEntries(before, mem, destPt);
          InvFrame(mem, owner, kernel, destPt);
          InvFrame(mem, owner, kernel, p);
          InvFrame(mem, owner, kernel, AddressOf(e));
          CopyPageStep(mem, owner, free, kernel, dest, i, j, destPt, p, e);
          mem := SetEntry(mem, destPt, j, Construct(p, FlagsOf(e)));
          mem := mem[p := mem[AddressOf(e)]];
          owner := owner[p := Data(dest, i, j)];
          DuplicatedStep(old(mem), old(owner), before, beforeOwner, mem, owner, kernel, dest, src, i, destPt, srcPt, j,
                         p);
        } else {
          PastNoPage(m, was, kernel, src, i, j, srcPt);
          DuplicatedSkip(old(mem), old(owner), mem, owner, dest, i, destPt, srcPt, j);
        }
      }
      PastTable(m, was, kernel, src, i, srcPt);
    }

    /** vmdup into a directory that has only the kernel's entries: the same user pages, with the same
        flags and bytes, in frames that were free. It takes one frame for each the source has. */
    method VmDup(dest: Frame, src: Frame)
      requires Valid() && Owned(owner, dest, Dir) && Owned(owner, src, Dir) && dest != src
      requires forall i: nat :: i < LENGTH && !KernelEntry(kernel, i) ==> Entry(mem, dest, i) == 0
      requires |free| + 1 >= |FramesOf(owner, src)|
      modifies this
      ensures Valid() && KeptBut(old(mem), old(owner), mem, owner, dest) && Owned(owner, dest, Dir)
      ensures forall page: nat :: UserPage(kernel, page) ==>
                SameSlot(mem, PageEntry(mem, src, page), PageEntry(mem, dest, page))
      ensures forall page: nat :: Mapped(mem, kernel, dest, page) ==> Owned(old(owner), FrameOf(mem, dest, page), Free)
      ensures forall i: nat :: i < LENGTH && !KernelEntry(kernel, i) ==>
                FlagsOf(Entry(mem, dest, i)) == FlagsOf(Entry(mem, src, i))
      ensures View(mem, kernel, dest) == old(View(mem, kernel, src))
      ensures forall d :: Owned(old(owner), d, Dir) && d != dest ==> View(mem, kernel, d) == old(View(mem, kernel, d))
      ensures |free| + |FramesOf(old(owner), src)| == old(|free|) + 1
    {
      hide Inv, FreeOk, AddressOf, Entry, Present, Global, FramesOf, Past, Duplicated, Construct, FlagsOf, LeadsTo,
          SetEntry, KeptBut, CopyInv, SameSlot, PageEntry, Mapped, View, FrameOf, KernelEntry;
      ghost var m, was := mem, owner;
      InvFrames(m, was, kernel);
      CopyNone(mem, owner, kernel, src, dest);
      PastNone(was, src);
      for i := 0 to LENGTH
        invariant Valid() && CopyInv(m, was, mem, owner, kernel, src, dest, i)
        invariant |free| + |Past(was, src, i, 0)| == old(|free|)
      {
        CopyFacts(m, was, mem, owner, kernel, src, dest, i);
        var e := Entry(mem, src, i);
        if Present(e) && !Global(e) {
          PastRoom(m, was, kernel, src, i, AddressOf(e));
          HeadOwned(mem, owner, free, kernel);
          ghost var memA, ownerA := mem, owner;
          var p := Palloc();
          SameEntries(memA, mem, dest);
          ZeroPage(mem, p);
          InvFrame(mem, owner, kernel, dest);
          InvFrame(mem, owner, kernel, p);
          CopiedEntry(p, e);
          ZeroEntry();
          TableStep(mem, owner, free, kernel, dest, i, p, Construct(p, FlagsOf(e)));
          ghost var taken := mem;
          SetEntryAt(mem, dest, i, Construct(p, FlagsOf(e)));
          mem := SetEntry(mem, dest, i, Construct(p, FlagsOf(e)));
          owner := owner[p := Table(dest, i)];
          ghost var memB, ownerB := mem, owner;
          DuplicatePt(AddressOf(Entry(mem, dest, i)), AddressOf(e), was, m, dest, src, i);
          CopyTable(m, was, memA, ownerA, memB, ownerB, mem, owner, kernel, src, dest, i, p);
        } else {
          CopySkip(m, was, mem, owner, kernel, src, dest, i);
        }
      }
      PastAll(m, was, kernel, src);
      CopyDone(m, was, mem, owner, kernel, src, dest);
    }

    /** After vmdup, what is written through one directory is not what is read through the other. */
    method DupThenWrite(dest: Frame, src: Frame, toDest: bool, v: nat, data: seq<Byte>, u: nat,
                        size: nat) returns (seen: seq<Byte>)
      requires Valid() && Owned(owner, dest, Dir) && Owned(owner, src, Dir) && dest != src
      requires forall i: nat :: i < LENGTH && !KernelEntry(kernel, i) ==> Entry(mem, dest, i) == 0
      requires |free| + 1 >= |FramesOf(owner, src)|
      requires v + |data| <= PAGES * PAGE_SIZE && forall a: nat :: v <= a < v + |data| ==> a in View(mem, kernel, src)
      requires u + size <= PAGES * PAGE_SIZE && forall a: nat :: u <= a < u + size ==> a in View(mem, kernel, src)
      modifies this
      ensures Valid() && |seen| == size
      ensures forall a: nat :: u <= a < u + size ==>
                a in old(View(mem, kernel, src)) && seen[a - u] == old(View(mem, kernel, src))[a]
      ensures View(mem, kernel, if toDest then dest else src) == Overwrite(old(View(mem, kernel, src)), v, data)
      ensures View(mem, kernel, if toDest then src else dest) == old(View(mem, kernel, src))
    {
      hide Inv, FreeOk, KeptBut, SameSlot, PageEntry, Mapped, View, FrameOf, KernelEntry, Entry, FramesOf, PageOf,
          Overwrite;
      ghost var view := View(mem, kernel, src);
      VmDup(dest, src);
      assert Owned(owner, src, Dir) by {
        InvFrames(old(mem), old(owner), kernel);
        DirKept(old(mem), old(owner), mem, owner, src, dest);
      }
      var written, other := if toDest then dest else src, if toDest then src else dest;
      ViewMapped(mem, kernel, written, v, |data|);
      VmWrite(written, v, data);
      ViewMapped(mem, kernel, other, u, size);
      seen := VmRead(other, u, size);
    }
  }

  /** A page of the region that palloc_add_free_region gives to palloc unless it has it. */
  predicate Unmarked(mem: Memory, from: Frame, to: Frame, f: Frame) {
    f in mem && from <= f < to && Entry(mem, f, 0) != MAGIC
  }

  /** What palloc has once the pages of the region below `p` have been looked at. */
  ghost predicate Added(mem: Memory, owner: Owners, from: Frame, to: Frame, p: int, owner': Owners) {
    && (forall f: Frame :: f in owner' <==> f in owner || (Unmarked(mem, from, to, f) && f < p))
    && (forall f :: f in owner' ==> owner'[f] == Role(owner, f))
  }

  lemma AddedNone(mem: Memory, owner: Owners, from: Frame, to: Frame)
    ensures Added(mem, owner, from, to, from, owner)
  {
  }

  lemma AddedAt(mem: Memory, owner: Owners, from: Frame, to: Frame, p: Frame, owner': Owners)
    requires Added(mem, owner, from, to, p, owner')
    ensures p in owner' <==> p in owner
    ensures p in owner' ==> owner'[p] == owner[p]
  {
  }

  lemma AddedMore(mem: Memory, owner: Owners, from: Frame, to: Frame, p: Frame, owner': Owners)
    requires FramesOk(mem) && Added(mem, owner, from, to, p, owner') && p % PAGE_SIZE == 0 && from <= p < to
    ensures Added(mem, owner, from, to, p + PAGE_SIZE, if Unmarked(mem, from, to, p) && p !in owner then owner'[p := Free] else owner')
  {
    Aligned(mem, p);
  }

  lemma AddedAll(mem: Memory, owner: Owners, from: Frame, to: Frame, p: int, owner': Owners)
    requires Added(mem, owner, from, to, p, owner') && to <= p
    ensures forall f: Frame :: f in owner' <==> f in owner || Unmarked(mem, from, to, f)
    ensures forall f :: f in owner' ==> owner'[f] == Role(owner, f)
  {
  }

  lemma KeptAll(mem: Memory, owner: Owners)
    ensures Kept(mem, owner, mem)
  {
  }

  lemma KeptKeys(mem: Memory, owner: Owners, mem': Memory)
    requires Kept(mem, owner, mem')
    ensures mem'.Keys == mem.Keys
  {
  }

  /** Keeping the frames that are not free once more, with more of them free. */
  lemma KeptStill(mem: Memory, owner: Owners, mem': Memory, owner': Owners, mem'': Memory)
    requires Kept(mem, owner, mem') && Kept(mem', owner', mem'')
    requires forall f :: Owned(owner, f, Free) ==> Owned(owner', f, Free)
    ensures Kept(mem, owner', mem'')
  {
  }

  lemma DirKept(mem: Memory, owner: Owners, mem': Memory, owner': Owners, pd: Frame, x: Frame)
    requires KeptBut(mem, owner, mem', owner', x) && owner.Keys <= mem.Keys && Owned(owner, pd, Dir) && pd != x
    ensures Owned(owner', pd, Dir)
  {
  }

  /** The addresses of a flat memory are those of mapped pages. */
  lemma ViewMapped(mem: Memory, kernel: seq<Word>, pd: Frame, v: nat, size: nat)
    requires forall a: nat :: v <= a < v + size ==> a in View(mem, kernel, pd)
    ensures forall a: nat :: v <= a < v + size ==> Mapped(mem, kernel, pd, PageOf(a))
  {
    hide FrameOf, PageOf;
    forall a: nat | v <= a < v + size ensures Mapped(mem, kernel, pd, PageOf(a)) {
      assert a in View(mem, kernel, pd);
    }
  }
}
