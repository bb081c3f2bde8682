/** What each step of the frame allocator and of the page table code does to memory and to the
    owners of frames; the methods of Paging are put together from these. */
module PagingSteps {
  import opened Base
  import opened Pages
  import opened AddressSpaces
  import opened FreeList

  /** Memory once palloc has taken the page `first` off the list, before `second`. */
  function PopMem(mem: Memory, first: Frame, second: Frame): Memory
    requires second != 0 ==> second in mem && |mem[second]| == PAGE_SIZE
  {
    (if second != 0 then SetEntry(mem, second, PREV, 0) else mem)[first := Zeros()]
  }

  lemma PopMemNodes(mem: Memory, first: Frame, second: Frame)
    requires first in mem && first != second && FramesOk(mem) && (second != 0 ==> second in mem)
    ensures var mem' := PopMem(mem, first, second);
            && mem'.Keys == mem.Keys && FramesOk(mem') && mem'[first] == Zeros()
            && (forall f :: f in mem && f != first && f != second ==> mem'[f] == mem[f])
            && (second != 0 ==> NodeAt(mem', second) == NodeAt(mem, second).(prev := 0))
  {
    if second != 0 {
      SetEntryAt(mem, second, PREV, 0);
    }
  }

  /** Memory once pfree has put the page `p` in front of `first`. */
  function PushMem(mem: Memory, p: Frame, first: Frame): Memory
    requires p in mem && |mem[p]| == PAGE_SIZE
    requires first != 0 ==> first in mem && |mem[first]| == PAGE_SIZE
  {
    var m := SetEntry(SetEntry(SetEntry(mem, p, 0, MAGIC), p, PREV, 0), p, NEXT, first);
    if first != 0 then SetEntry(m, first, PREV, p) else m
  }

  lemma PushSteps(mem: Memory, p: Frame, first: Frame)
    requires p in mem && |mem[p]| == PAGE_SIZE
    requires first != 0 ==> first in mem && |mem[first]| == PAGE_SIZE
    ensures var m := SetEntry(mem, p, 0, MAGIC);
            && p in m && |m[p]| == PAGE_SIZE
            && var m := SetEntry(m, p, PREV, 0);
               && p in m && |m[p]| == PAGE_SIZE
               && var m := SetEntry(m, p, NEXT, first);
                  && (first == 0 ==> PushMem(mem, p, first) == m)
                  && (first != 0 ==>
                        first in m && |m[first]| == PAGE_SIZE && PushMem(mem, p, first) == SetEntry(m, first, PREV, p))
  {
    hide WithWord;
  }

  lemma PushMemNodes(mem: Memory, p: Frame, first: Frame)
    requires p in mem && first != p && FramesOk(mem) && (first != 0 ==> first in mem)
    ensures var mem' := PushMem(mem, p, first);
            && mem'.Keys == mem.Keys && FramesOk(mem')
            && (forall f :: f in mem && f != p && f != first ==> mem'[f] == mem[f])
            && NodeAt(mem', p) == Node(MAGIC, 0, first)
            && (first != 0 ==> NodeAt(mem', first) == NodeAt(mem, first).(prev := p))
  {
    var m1 := SetEntry(mem, p, 0, MAGIC);
    var m2 := SetEntry(m1, p, PREV, 0);
    var m3 := SetEntry(m2, p, NEXT, first);
    SetEntryAt(mem, p, 0, MAGIC);
    SetEntryAt(m1, p, PREV, 0);
    SetEntryAt(m2, p, NEXT, first);
    if first != 0 {
      SetEntryAt(m3, first, PREV, p);
    }
    hide WithWord, Entry;
  }

  lemma PopKeeps(mem: Memory, owner: Owners, free: seq<Frame>, second: Frame, kernel: seq<Word>)
    requires Inv(mem, owner, kernel) && FreeOk(mem, owner, free) && free != [] && second == First(free[1..])
    requires second != 0 ==> second in mem
    ensures var mem', owner' := PopMem(mem, free[0], second), owner[free[0] := Taken];
            Inv(mem', owner', kernel) && FreeOk(mem', owner', free[1..]) && Kept(mem, owner, mem')
  {
    hide PopMem, NodeAt, OwnerOk;
    var mem', owner' := PopMem(mem, free[0], second), owner[free[0] := Taken];
    assert free[0] in free && Owned(owner, free[0], Free);
    if |free| > 1 {
      assert free[1] in free && Owned(owner, free[1], Free);
    }
    PopMemNodes(mem, free[0], second);
    forall k | 1 <= k < |free|
      ensures NodeAt(mem', free[k]) == if k == 1 then NodeAt(mem, free[1]).(prev := 0) else NodeAt(mem, free[k])
    {
      assert free[k] in free && free[k] in mem;
      if k > 1 {
        SameNode(mem, mem', free[k]);
      }
    }
    PopFree(mem, owner, free, mem');
    UntouchedKeeps(mem, owner, mem', owner', kernel);
  }

  lemma SameNode(mem: Memory, mem': Memory, f: Frame)
    requires f in mem && f in mem' && mem'[f] == mem[f]
    ensures NodeAt(mem', f) == NodeAt(mem, f)
  {
  }

  lemma PushKeeps(mem: Memory, owner: Owners, free: seq<Frame>, p: Frame, kernel: seq<Word>)
    requires Inv(mem, owner, kernel) && FreeOk(mem, owner, free) && p in mem && (p in owner ==> owner[p] == Taken)
    requires First(free) != 0 ==> First(free) in mem
    ensures var mem', owner' := PushMem(mem, p, First(free)), owner[p := Free];
            Inv(mem', owner', kernel) && FreeOk(mem', owner', [p] + free) && Kept(mem, owner', mem')
  {
    hide PushMem, NodeAt, OwnerOk;
    var mem', owner' := PushMem(mem, p, First(free)), owner[p := Free];
    if free != [] {
      assert free[0] in free && Owned(owner, free[0], Free);
    }
    PushMemNodes(mem, p, First(free));
    forall k | 0 <= k < |free|
      ensures NodeAt(mem', free[k]) == if k == 0 then NodeAt(mem, free[0]).(prev := p) else NodeAt(mem, free[k])
    {
      assert free[k] in free && free[k] in mem;
      if k > 0 {
        SameNode(mem, mem', free[k]);
      }
    }
    PushFree(mem, owner, free, p, mem');
    UntouchedKeeps(mem, owner, mem', owner', kernel);
  }

  lemma Aligned(mem: Memory, p: int)
    requires FramesOk(mem) && p % PAGE_SIZE == 0
    ensures forall f :: f in mem && p <= f < p + PAGE_SIZE ==> f == p
  {
  }

  /** Writing a page that is in a caller's hands, or user data, disturbs no structure. */
  lemma WriteKeeps(mem: Memory, owner: Owners, free: seq<Frame>, kernel: seq<Word>, f: Frame, page: Page)
    requires Inv(mem, owner, kernel) && FreeOk(mem, owner, free) && |page| == PAGE_SIZE
    requires f in owner && (owner[f].Taken? || owner[f].Data?)
    ensures Inv(mem[f := page], owner, kernel) && FreeOk(mem[f := page], owner, free)
  {
    hide OwnerOk, NodeAt;
    UntouchedKeeps(mem, owner, mem[f := page], owner, kernel);
    assert forall g :: g in free ==> Owned(owner, g, Free);
    FreeKept(mem, owner, mem[f := page], owner, free);
  }

  lemma InvFrames(mem: Memory, owner: Owners, kernel: seq<Word>)
    requires Inv(mem, owner, kernel)
    ensures FramesOk(mem) && owner.Keys <= mem.Keys && |kernel| == LENGTH
  {
  }

  lemma SameEntry(mem: Memory, mem': Memory, owner: Owners, f: Frame)
    requires Kept(mem, owner, mem') && f in mem && !Owned(owner, f, Free)
    ensures Entry(mem', f, 0) == Entry(mem, f, 0)
  {
  }

  lemma HeadOwned(mem: Memory, owner: Owners, free: seq<Frame>, kernel: seq<Word>)
    requires Inv(mem, owner, kernel) && FreeOk(mem, owner, free) && free != []
    ensures |kernel| == LENGTH && Owned(owner, free[0], Free) && free[0] in mem && free[0] != 0
  {
    assert free[0] in free;
  }

  lemma ZeroPage(mem: Memory, f: Frame)
    requires f in mem && mem[f] == Zeros()
    ensures |mem[f]| == PAGE_SIZE && forall k: nat :: k < LENGTH ==> Entry(mem, f, k) == 0
  {
    forall k: nat | k < LENGTH ensures Entry(mem, f, k) == 0 {
      ZeroWords(k);
    }
  }

  /** Writing a word of a page that is in a caller's hands. */
  lemma WriteWord(mem: Memory, owner: Owners, free: seq<Frame>, kernel: seq<Word>, f: Frame, i: nat, w: Word)
    requires Inv(mem, owner, kernel) && FreeOk(mem, owner, free) && Owned(owner, f, Taken) && i < LENGTH
    ensures var mem' := SetEntry(mem, f, i, w);
            && Inv(mem', owner, kernel) && FreeOk(mem', owner, free)
            && mem'.Keys == mem.Keys && |mem'[f]| == PAGE_SIZE && (forall g :: g in mem && g != f ==> mem'[g] == mem[g])
            && (forall k: nat :: Entry(mem', f, k) == if k == i then w else Entry(mem, f, k))
  {
    hide OwnerOk, FreeOk;
    SetEntryAt(mem, f, i, w);
    WriteKeeps(mem, owner, free, kernel, f, WithWord(mem[f], i, w));
  }

  lemma TakenToUse(mem: Memory, owner: Owners, free: seq<Frame>, f: Frame, o: Owner)
    requires FreeOk(mem, owner, free) && Owned(owner, f, Taken) && o != Free
    ensures FreeOk(mem, owner[f := o], free)
  {
  }

  lemma InvFrame(mem: Memory, owner: Owners, kernel: seq<Word>, f: Frame)
    requires Inv(mem, owner, kernel) && f in owner
    ensures f in mem && |mem[f]| == PAGE_SIZE && f % PAGE_SIZE == 0 && f != 0
  {
  }

  /** A user entry of a directory is empty, or leads to a table of its own. */
  lemma DirEntry(mem: Memory, owner: Owners, kernel: seq<Word>, pd: Frame, i: nat)
    requires Inv(mem, owner, kernel) && Owned(owner, pd, Dir) && i < LENGTH && !KernelEntry(kernel, i)
    ensures var e := Entry(mem, pd, i);
            && (e == 0 <==> AddressOf(e) == 0)
            && (e != 0 ==> LeadsTo(e, AddressOf(e)) && Owned(owner, AddressOf(e), Table(pd, i)) && AddressOf(e) in mem)
  {
    ZeroEntry();
    assert OwnerOk(mem, owner, kernel, pd, Dir);
  }

  lemma SameEntries(mem: Memory, mem': Memory, f: Frame)
    requires f in mem && f in mem' && mem'[f] == mem[f]
    ensures forall k: nat :: Entry(mem', f, k) == Entry(mem, f, k)
  {
  }

  lemma FreshEntry(t: Frame, flags: Flags)
    requires t % PAGE_SIZE == 0 && !Bit(flags, 8)
    ensures LeadsTo(Marked(Construct(t, 0), flags), t)
  {
    ConstructParts(t, 0);
    ZeroBits(8);
    MarkedParts(Construct(t, 0), flags);
  }

  lemma MarkedLeads(e: Word, flags: Flags)
    requires !Bit(flags, 8) && LeadsTo(e, AddressOf(e))
    ensures LeadsTo(Marked(e, flags), AddressOf(e))
  {
    MarkedParts(e, flags);
  }

  lemma SetTwice(mem: Memory, f: Frame, i: nat, a: Word, b: Word)
    requires f in mem && |mem[f]| == PAGE_SIZE && i < LENGTH
    ensures SetEntry(SetEntry(mem, f, i, a), f, i, b) == SetEntry(mem, f, i, b)
  {
    assert WithWord(WithWord(mem[f], i, a), i, b) == WithWord(mem[f], i, b);
  }

  lemma KeepsPages(mem: Memory, f: Frame, i: nat, w: Word)
    requires f in mem && |mem[f]| == PAGE_SIZE && i < LENGTH
    ensures f in SetEntry(mem, f, i, w) && |SetEntry(mem, f, i, w)[f]| == PAGE_SIZE
  {
  }

  lemma TableStep(mem: Memory, owner: Owners, free: seq<Frame>, kernel: seq<Word>, pd: Frame, i: nat, t: Frame, w: Word)
    requires Inv(mem, owner, kernel) && FreeOk(mem, owner, free)
    requires Owned(owner, pd, Dir) && i < LENGTH && !KernelEntry(kernel, i)
    requires LeadsTo(w, t)
    requires if Entry(mem, pd, i) == 0 then Owned(owner, t, Taken) && mem[t] == Zeros()
             else AddressOf(Entry(mem, pd, i)) == t
    ensures var mem', owner' := SetEntry(mem, pd, i, w), owner[t := Table(pd, i)];
            && Inv(mem', owner', kernel) && FreeOk(mem', owner', free)
            && mem'.Keys == mem.Keys && (forall f :: f in mem && f != pd ==> mem'[f] == mem[f])
            && AddressOf(Entry(mem', pd, i)) == t && Entry(mem', pd, i) == w
            && (forall j: nat :: Entry(mem', t, j) == Entry(mem, t, j))
            && (forall k: nat :: k != i ==> Entry(mem', pd, k) == Entry(mem, pd, k))
  {
    hide OwnerOk, Linked;
    TableKeeps(mem, owner, kernel, pd, i, t, w);
    TableWas(mem, owner, kernel, pd, i, t);
    SetEntryAt(mem, pd, i, w);
    FreeFrames(mem, owner, free, kernel);
    FreeKept(mem, owner, SetEntry(mem, pd, i, w), owner[t := Table(pd, i)], free);
  }

  lemma FreeFrames(mem: Memory, owner: Owners, free: seq<Frame>, kernel: seq<Word>)
    requires Inv(mem, owner, kernel) && FreeOk(mem, owner, free)
    ensures forall f :: f in free ==> f in mem && Owned(owner, f, Free)
  {
  }

  lemma EntryLeads(p: Frame, flags: Flags)
    requires p % PAGE_SIZE == 0 && !Bit(flags, 8)
    ensures LeadsTo(Construct(p, OrFlags(flags, PRESENT)), p)
  {
    PresentEntry(p, flags);
  }

  lemma MapStep(mem: Memory, owner: Owners, free: seq<Frame>, kernel: seq<Word>, pd: Frame, i: nat, j: nat, t: Frame,
                p: Frame, w: Word)
    requires Inv(mem, owner, kernel) && FreeOk(mem, owner, free) && Owned(owner, t, Table(pd, i)) && j < LENGTH
    requires Owned(owner, p, Taken) && LeadsTo(w, p)
    ensures var mem', owner' := SetEntry(mem, t, j, w), MapOwners(mem, owner, t, pd, i, j, p);
            Inv(mem', owner', kernel) && FreeOk(mem', owner', free)
  {
    hide OwnerOk, Linked;
    MapKeeps(mem, owner, kernel, pd, i, j, t, p, w);
    TableLeads(mem, owner, kernel, pd, i, j, t);
    FreeFrames(mem, owner, free, kernel);
    FreeKept(mem, owner, SetEntry(mem, t, j, w), MapOwners(mem, owner, t, pd, i, j, p), free);
  }

  lemma TableLeads(mem: Memory, owner: Owners, kernel: seq<Word>, pd: Frame, i: nat, j: nat, t: Frame)
    requires Inv(mem, owner, kernel) && Owned(owner, t, Table(pd, i)) && j < LENGTH
    ensures var e := Entry(mem, t, j);
            (e == 0 <==> AddressOf(e) == 0) && (e != 0 ==> Owned(owner, AddressOf(e), Data(pd, i, j)))
    ensures i < LENGTH && !KernelEntry(kernel, i) && Owned(owner, pd, Dir) && AddressOf(Entry(mem, pd, i)) == t
  {
    assert OwnerOk(mem, owner, kernel, t, Table(pd, i));
    assert TableEntryOk(owner, Entry(mem, t, j), pd, i, j);
    ZeroEntry();
  }

  /** `m` is `mem` once entry `i` of `pd` leads to the table `t`. */
  ghost predicate TableReady(mem: Memory, owner: Owners, m: Memory, pd: Frame, i: nat, t: Frame) {
    && AddressOf(Entry(m, pd, i)) == t && t != 0 && t in m && |m[t]| == PAGE_SIZE
    && (Owned(owner, t, Free) || Owned(owner, t, Table(pd, i)))
    && (forall j: nat :: j < LENGTH ==> Entry(m, t, j) == Pte(mem, pd, i, j))
    && (forall k: nat :: k != i ==> Entry(m, pd, k) == Entry(mem, pd, k))
    && m.Keys == mem.Keys && (forall f :: f in mem && f != pd && !Owned(owner, f, Free) ==> m[f] == mem[f])
  }

  lemma MapsOneProof(mem: Memory, owner: Owners, m: Memory, kernel: seq<Word>, pd: Frame, page: nat, t: Frame,
                     p: Frame, w: Word)
    requires Inv(mem, owner, kernel) && UserPage(kernel, page) && Owned(owner, pd, Dir) && TableIndex(page) < LENGTH
    requires TableReady(mem, owner, m, pd, DirIndex(page), t)
    requires Owned(owner, p, Taken) && Gains(Entry(mem, pd, DirIndex(page)), Entry(m, pd, DirIndex(page)), FlagsOf(w))
    ensures MapsOne(mem, owner, SetEntry(m, t, TableIndex(page), w),
        MapOwners(m, owner[t := Table(pd, DirIndex(page))], t, pd, DirIndex(page), TableIndex(page), p), kernel, pd,
        page, p, w)
  {
    hide OwnerOk, AddressOf, WordAt, KernelEntry, WithWord, Pte, Entry, Gains;
    var i, j := DirIndex(page), TableIndex(page);
    var mem', owner' := SetEntry(m, t, j, w), MapOwners(m, owner[t := Table(pd, i)], t, pd, i, j, p);
    forall q: nat | UserPage(kernel, q)
      ensures PageEntry(mem', pd, q) == if q == page then w else PageEntry(mem, pd, q)
    {
      MapsPage(mem, owner, m, kernel, pd, page, t, w, q);
    }
    BeforeOwned(mem, owner, kernel, pd, page);
    assert FrameOf(mem, pd, page) == AddressOf(Entry(m, t, j));
    SameEntries(m, mem', pd);
    ZeroEntry();
  }

  lemma BeforeOwned(mem: Memory, owner: Owners, kernel: seq<Word>, pd: Frame, page: nat)
    requires Inv(mem, owner, kernel) && UserPage(kernel, page) && Owned(owner, pd, Dir)
    ensures FrameOf(mem, pd, page) != 0 ==>
              Owned(owner, FrameOf(mem, pd, page), Data(pd, DirIndex(page), TableIndex(page)))
  {
    if FrameOf(mem, pd, page) != 0 {
      FrameOwned(mem, owner, kernel, pd, page);
    }
  }

  lemma MapsPage(mem: Memory, owner: Owners, m: Memory, kernel: seq<Word>, pd: Frame, page: nat, t: Frame, w: Word,
                 q: nat)
    requires Inv(mem, owner, kernel) && UserPage(kernel, page) && Owned(owner, pd, Dir) && TableIndex(page) < LENGTH
    requires TableReady(mem, owner, m, pd, DirIndex(page), t) && UserPage(kernel, q)
    ensures PageEntry(SetEntry(m, t, TableIndex(page), w), pd, q) == if q == page then w else PageEntry(mem, pd, q)
  {
    var i, j := DirIndex(page), TableIndex(page);
    var mem' := SetEntry(m, t, j, w);
    SetEntryAt(m, t, j, w);
    IndexParts(q);
    DirLeads(mem, owner, kernel, pd, q);
    hide OwnerOk, AddressOf, WordAt, KernelEntry, Entry;
    assert forall k: nat :: Entry(mem', pd, k) == Entry(m, pd, k);
    if DirIndex(q) == i {
      if q != page {
        assert TableIndex(q) != j by {
          if TableIndex(q) == j {
            SameIndex(q, page);
          }
        }
      }
    } else {
      OtherTable(mem, owner, m, pd, t, i, q);
    }
  }

  lemma OtherTable(mem: Memory, owner: Owners, m: Memory, pd: Frame, t: Frame, i: nat, q: nat)
    requires DirIndex(q) != i && TableReady(mem, owner, m, pd, i, t)
    requires var e := Entry(mem, pd, DirIndex(q));
             AddressOf(e) != 0 ==> Owned(owner, AddressOf(e), Table(pd, DirIndex(q)))
    requires Owned(owner, pd, Dir) && owner.Keys <= mem.Keys
    ensures PageEntry(m, pd, q) == PageEntry(mem, pd, q) && AddressOf(Entry(m, pd, DirIndex(q))) != t
  {
  }

  // Reading and writing virtual memory.

  /** A flat memory with `bytes` written at `v`. */
  ghost function Overwrite(view: map<nat, Byte>, v: nat, bytes: seq<Byte>): map<nat, Byte> {
    map a | a in view :: if v <= a < v + |bytes| then bytes[a - v] else view[a]
  }

  lemma OverwriteNothing(view: map<nat, Byte>, v: nat)
    ensures Overwrite(view, v, []) == view
  {
  }

  lemma OverwriteTwice(view: map<nat, Byte>, v: nat, a: seq<Byte>, b: seq<Byte>)
    ensures Overwrite(Overwrite(view, v, a), v + |a|, b) == Overwrite(view, v, a + b)
  {
  }

  /** kmemcpy into a page. */
  function Spliced(page: Page, off: nat, bytes: seq<Byte>): (p: Page)
    requires |page| == PAGE_SIZE && off + |bytes| <= PAGE_SIZE
    ensures |p| == PAGE_SIZE
  {
    page[..off] + bytes + page[off + |bytes|..]
  }

  /** No directory or table is a data page, so writing one moves no translation. */
  lemma DataWriteTranslates(mem: Memory, owner: Owners, kernel: seq<Word>, f: Frame, page: Page, d: Frame, q: nat)
    requires Inv(mem, owner, kernel) && f in owner && owner[f].Data? && |page| == PAGE_SIZE
    requires Owned(owner, d, Dir) && UserPage(kernel, q)
    ensures PageEntry(mem[f := page], d, q) == PageEntry(mem, d, q)
  {
    DirLeads(mem, owner, kernel, d, q);
  }

  /** One page's share of a write. */
  lemma WriteBatch(mem: Memory, owner: Owners, free: seq<Frame>, kernel: seq<Word>, pd: Frame, u: nat, bytes: seq<Byte>)
    requires Inv(mem, owner, kernel) && FreeOk(mem, owner, free) && Owned(owner, pd, Dir) && u < PAGES * PAGE_SIZE
    requires Mapped(mem, kernel, pd, PageOf(u)) && u % PAGE_SIZE + |bytes| <= PAGE_SIZE
    ensures FrameOf(mem, pd, PageOf(u)) in mem && |mem[FrameOf(mem, pd, PageOf(u))]| == PAGE_SIZE
    ensures var f := FrameOf(mem, pd, PageOf(u));
            var mem' := mem[f := Spliced(mem[f], u % PAGE_SIZE, bytes)];
            && Inv(mem', owner, kernel) && FreeOk(mem', owner, free)
            && (forall q: nat :: Mapped(mem', kernel, pd, q) <==> Mapped(mem, kernel, pd, q))
            && View(mem', kernel, pd) == Overwrite(View(mem, kernel, pd), u, bytes)
            && (forall d :: Owned(owner, d, Dir) && d != pd ==> View(mem', kernel, d) == View(mem, kernel, d))
  {
    var f := FrameOf(mem, pd, PageOf(u));
    FrameOwned(mem, owner, kernel, pd, PageOf(u));
    InvFrame(mem, owner, kernel, f);
    var page := Spliced(mem[f], u % PAGE_SIZE, bytes);
    var mem' := mem[f := page];
    WriteKeeps(mem, owner, free, kernel, f, page);
    hide Inv, FreeOk, PageEntry;
    forall d, q: nat | Owned(owner, d, Dir) && UserPage(kernel, q)
      ensures PageEntry(mem', d, q) == PageEntry(mem, d, q)
    {
      DataWriteTranslates(mem, owner, kernel, f, page, d, q);
    }
    forall d | Owned(owner, d, Dir) && d != pd ensures View(mem', kernel, d) == View(mem, kernel, d) {
      SplicedOther(mem, owner, kernel, pd, u, d, page);
    }
    SplicedView(mem, owner, kernel, pd, u, bytes);
  }

  lemma SplicedOther(mem: Memory, owner: Owners, kernel: seq<Word>, pd: Frame, u: nat, d: Frame, page: Page)
    requires Inv(mem, owner, kernel) && Owned(owner, pd, Dir) && Owned(owner, d, Dir) && d != pd
    requires Mapped(mem, kernel, pd, PageOf(u)) && |page| == PAGE_SIZE
    ensures View(mem[FrameOf(mem, pd, PageOf(u)) := page], kernel, d) == View(mem, kernel, d)
  {
    hide OwnerOk, View;
    FrameOwned(mem, owner, kernel, pd, PageOf(u));
    KeptView(mem, owner, mem[FrameOf(mem, pd, PageOf(u)) := page], owner, kernel, d);
  }

  lemma SplicedView(mem: Memory, owner: Owners, kernel: seq<Word>, pd: Frame, u: nat, bytes: seq<Byte>)
    requires Inv(mem, owner, kernel) && Owned(owner, pd, Dir) && u < PAGES * PAGE_SIZE
    requires Mapped(mem, kernel, pd, PageOf(u)) && u % PAGE_SIZE + |bytes| <= PAGE_SIZE
    requires FrameOf(mem, pd, PageOf(u)) in mem && |mem[FrameOf(mem, pd, PageOf(u))]| == PAGE_SIZE
    requires var f := FrameOf(mem, pd, PageOf(u));
             forall q: nat :: UserPage(kernel, q) ==>
               PageEntry(mem[f := Spliced(mem[f], u % PAGE_SIZE, bytes)], pd, q) == PageEntry(mem, pd, q)
    ensures var f := FrameOf(mem, pd, PageOf(u));
            View(mem[f := Spliced(mem[f], u % PAGE_SIZE, bytes)], kernel, pd) == Overwrite(View(mem, kernel, pd), u, bytes)
  {
    hide Inv, PageEntry;
    var f := FrameOf(mem, pd, PageOf(u));
    var mem' := mem[f := Spliced(mem[f], u % PAGE_SIZE, bytes)];
    forall a: nat | a < PAGES * PAGE_SIZE && Mapped(mem, kernel, pd, PageOf(a))
      ensures ByteAt(mem', pd, a) == if u <= a < u + |bytes| then bytes[a - u] else ByteAt(mem, pd, a)
    {
      if PageOf(a) != PageOf(u) {
        if FrameOf(mem, pd, PageOf(a)) == f {
          PagesApart(mem, owner, kernel, pd, PageOf(a), pd, PageOf(u));
        }
      }
    }
  }

  lemma ReadBatch(mem: Memory, owner: Owners, kernel: seq<Word>, pd: Frame, u: nat, n: nat)
    requires Inv(mem, owner, kernel) && Owned(owner, pd, Dir) && u + n <= PAGES * PAGE_SIZE
    requires Mapped(mem, kernel, pd, PageOf(u)) && u % PAGE_SIZE + n <= PAGE_SIZE
    ensures var f := FrameOf(mem, pd, PageOf(u));
            && f in mem && |mem[f]| == PAGE_SIZE
            && forall a: nat :: u <= a < u + n ==>
                 a in View(mem, kernel, pd) && View(mem, kernel, pd)[a] == mem[f][u % PAGE_SIZE + a - u]
  {
    hide Inv, PageEntry, FrameOf, PageOf, UserPage;
    FrameOwned(mem, owner, kernel, pd, PageOf(u));
    InvFrame(mem, owner, kernel, FrameOf(mem, pd, PageOf(u)));
    forall a: nat | u <= a < u + n ensures PageOf(a) == PageOf(u) && a % PAGE_SIZE == u % PAGE_SIZE + a - u {
      SamePage(u, a);
    }
  }

  lemma SamePage(u: nat, a: nat)
    requires u <= a && u % PAGE_SIZE + a - u < PAGE_SIZE
    ensures PageOf(a) == PageOf(u) && a % PAGE_SIZE == u % PAGE_SIZE + a - u
  {
  }

  // Taking an address space apart.

  /** paging_free_dir has given the frame back once it is past entry `j` of table `i`. */
  predicate GivenBack(o: Owner, pd: Frame, i: nat, j: nat) {
    match o
    case Table(pd', i') => pd' == pd && i' < i
    case Data(pd', i', j') => pd' == pd && (i' < i || (i' == i && j' < j))
    case _ => false
  }

  /** The owners at that point: what is left of `pd` is in the caller's hands. */
  function Stage(was: Owners, pd: Frame, i: nat, j: nat): Owners {
    map f | f in was :: if GivenBack(was[f], pd, i, j) then Free else if PartOf(f, was[f], pd) then Taken else was[f]
  }

  /** All of `pd` given back. */
  function Released(was: Owners, pd: Frame): Owners {
    map f | f in was :: if PartOf(f, was[f], pd) then Free else was[f]
  }

  /** Which frames the owners allow: the pages of a table are those its entries lead to. */
  lemma DataFrame(was: Owners, m: Memory, kernel: seq<Word>, f: Frame, pd: Frame, i: nat, j: nat)
    requires Inv(m, was, kernel) && Owned(was, f, Data(pd, i, j))
    ensures i < LENGTH && j < LENGTH && AddressOf(Entry(m, pd, i)) in was
    ensures was[AddressOf(Entry(m, pd, i))] == Table(pd, i)
    ensures AddressOf(Entry(m, AddressOf(Entry(m, pd, i)), j)) == f && f != 0
  {
    assert OwnerOk(m, was, kernel, f, Data(pd, i, j));
  }

  lemma TableFrame(was: Owners, m: Memory, kernel: seq<Word>, pd: Frame, i: nat, t: Frame)
    requires Inv(m, was, kernel) && Owned(was, t, Table(pd, i))
    ensures t in m && t != 0 && i < LENGTH && AddressOf(Entry(m, pd, i)) == t && Owned(was, pd, Dir)
  {
    assert OwnerOk(m, was, kernel, t, Table(pd, i));
  }

  lemma StageFirst(was: Owners, m: Memory, kernel: seq<Word>, pd: Frame)
    requires Inv(m, was, kernel)
    ensures Stage(was, pd, 0, 0) == Dismantled(was, pd)
  {
  }

  /** The table being emptied is still in the caller's hands, and unchanged. */
  lemma StageTable(was: Owners, m: Memory, mem: Memory, owner: Owners, kernel: seq<Word>, pd: Frame, i: nat, j: nat,
                   t: Frame)
    requires Inv(m, was, kernel) && Owned(was, t, Table(pd, i)) && j < LENGTH
    requires owner == Stage(was, pd, i, j) && Kept(m, owner, mem) && t in m
    ensures Entry(mem, t, j) == Entry(m, t, j)
    ensures var e := Entry(m, t, j);
            if Present(e) && !Global(e) then Owned(was, AddressOf(e), Data(pd, i, j)) else e == 0
  {
    assert OwnerOk(m, was, kernel, t, Table(pd, i));
    assert TableEntryOk(was, Entry(m, t, j), pd, i, j);
    ZeroEntry();
  }

  lemma StagePage(was: Owners, m: Memory, kernel: seq<Word>, pd: Frame, i: nat, j: nat, t: Frame)
    requires Inv(m, was, kernel) && Owned(was, t, Table(pd, i)) && j < LENGTH
    requires Owned(was, AddressOf(Entry(m, t, j)), Data(pd, i, j))
    ensures Owned(Stage(was, pd, i, j), AddressOf(Entry(m, t, j)), Taken)
    ensures Stage(was, pd, i, j + 1) == Stage(was, pd, i, j)[AddressOf(Entry(m, t, j)) := Free]
  {
    hide OwnerOk;
    TableFrame(was, m, kernel, pd, i, t);
    forall f | f in was && was[f] == Data(pd, i, j) ensures f == AddressOf(Entry(m, t, j)) {
      DataFrame(was, m, kernel, f, pd, i, j);
    }
  }

  lemma StageNoPage(was: Owners, m: Memory, kernel: seq<Word>, pd: Frame, i: nat, j: nat, t: Frame)
    requires Inv(m, was, kernel) && Owned(was, t, Table(pd, i)) && j < LENGTH && Entry(m, t, j) == 0
    ensures Stage(was, pd, i, j + 1) == Stage(was, pd, i, j)
  {
    hide OwnerOk;
    TableFrame(was, m, kernel, pd, i, t);
    forall f | f in was ensures was[f] != Data(pd, i, j) {
      if was[f] == Data(pd, i, j) {
        DataFrame(was, m, kernel, f, pd, i, j);
      }
    }
  }

  lemma StageLast(was: Owners, m: Memory, kernel: seq<Word>, pd: Frame, i: nat, t: Frame)
    requires Inv(m, was, kernel) && Owned(was, t, Table(pd, i))
    ensures Owned(Stage(was, pd, i, LENGTH), t, Taken)
    ensures Stage(was, pd, i + 1, 0) == Stage(was, pd, i, LENGTH)[t := Free]
  {
    hide OwnerOk;
    TableFrame(was, m, kernel, pd, i, t);
    forall f | f in was && was[f] == Table(pd, i) ensures f == t {
      TableFrame(was, m, kernel, pd, i, f);
    }
    forall f | f in was && was[f].Data? ensures was[f].j < LENGTH {
      DataFrame(was, m, kernel, f, was[f].pd, was[f].i, was[f].j);
    }
  }

  /** Entry `i` of the directory leads to a table to free, or there is nothing of `pd` under it. */
  lemma StageDir(was: Owners, m: Memory, mem: Memory, owner: Owners, kernel: seq<Word>, pd: Frame, i: nat)
    requires Inv(m, was, kernel) && Owned(was, pd, Dir) && i < LENGTH
    requires owner == Stage(was, pd, i, 0) && Kept(m, owner, mem)
    ensures Entry(mem, pd, i) == Entry(m, pd, i)
    ensures var e := Entry(m, pd, i);
            if Present(e) && !Global(e) then Owned(was, AddressOf(e), Table(pd, i))
            else Stage(was, pd, i + 1, 0) == Stage(was, pd, i, 0)
  {
    assert OwnerOk(m, was, kernel, pd, Dir);
    assert !Owned(owner, pd, Free);
    ZeroEntry();
    var e := Entry(m, pd, i);
    if !(Present(e) && !Global(e)) {
      forall f | f in was ensures !Under(was[f], pd, i) {
        UnderEntry(was, m, kernel, pd, i, f);
      }
    }
  }

  predicate Under(o: Owner, pd: Frame, i: nat) {
    o == Table(pd, i) || (o.Data? && o.pd == pd && o.i == i)
  }

  lemma UnderEntry(was: Owners, m: Memory, kernel: seq<Word>, pd: Frame, i: nat, f: Frame)
    requires Inv(m, was, kernel) && Owned(was, pd, Dir) && f in was
    ensures var e := Entry(m, pd, i); Under(was[f], pd, i) ==> Present(e) && !Global(e)
  {
    assert OwnerOk(m, was, kernel, pd, Dir);
    assert OwnerOk(m, was, kernel, f, was[f]);
    if was[f].Data? {
      assert OwnerOk(m, was, kernel, AddressOf(Entry(m, was[f].pd, was[f].i)), Table(was[f].pd, was[f].i));
    }
    ZeroEntry();
  }

  lemma StageEnd(was: Owners, m: Memory, kernel: seq<Word>, pd: Frame)
    requires Inv(m, was, kernel) && Owned(was, pd, Dir)
    ensures Owned(Stage(was, pd, LENGTH, 0), pd, Taken)
    ensures Released(was, pd) == Stage(was, pd, LENGTH, 0)[pd := Free]
  {
    hide OwnerOk;
    forall f | f in was && was[f].Data? ensures was[f].i < LENGTH {
      DataFrame(was, m, kernel, f, was[f].pd, was[f].i, was[f].j);
    }
    forall f | f in was && was[f].Table? ensures was[f].i < LENGTH {
      TableFrame(was, m, kernel, was[f].pd, was[f].i, f);
    }
  }

  lemma KeptSame(m: Memory, owner: Owners)
    ensures Kept(m, owner, m)
  {
  }

  lemma KeptMore(m: Memory, owner: Owners, mem: Memory, owner': Owners, mem': Memory, f: Frame)
    requires Kept(m, owner, mem) && owner' == owner[f := Free] && Kept(mem, owner', mem')
    ensures Kept(m, owner', mem')
  {
  }

  lemma DismantleFree(m: Memory, was: Owners, free: seq<Frame>, pd: Frame)
    requires FreeOk(m, was, free)
    ensures FreeOk(m, Dismantled(was, pd), free)
  {
    hide Linked, NoDup;
  }

  lemma ReleasedFree(was: Owners, m: Memory, wasFree: seq<Frame>, mem: Memory, owner: Owners, free: seq<Frame>,
                     pd: Frame)
    requires FreeOk(m, was, wasFree)
    requires owner == Released(was, pd) && FreeOk(mem, owner, free)
    ensures forall f :: f in free <==> f in wasFree || f in FramesOf(was, pd)
    ensures |free| == |wasFree| + |FramesOf(was, pd)|
  {
    hide Linked, NoDup;
    DistinctCount(free);
    DistinctCount(wasFree);
    forall f ensures f in free <==> f in wasFree || f in FramesOf(was, pd) {
      assert f in free <==> Owned(owner, f, Free);
    }
    assert Elements(free) == Elements(wasFree) + FramesOf(was, pd);
    assert Elements(wasFree) !! FramesOf(was, pd);
  }

  lemma ReleasedOthers(was: Owners, m: Memory, mem: Memory, owner: Owners, kernel: seq<Word>, pd: Frame, d: Frame)
    requires Inv(m, was, kernel) && owner == Released(was, pd) && Kept(m, owner, mem) && Owned(was, d, Dir) && d != pd
    ensures Owned(owner, d, Dir) && View(mem, kernel, d) == View(m, kernel, d)
  {
    hide OwnerOk, View;
    KeptView(m, was, mem, owner, kernel, d);
  }

  // Copying an address space.

  /** Everything in use but the frame `x` keeps its owner and its bytes. */
  ghost predicate KeptBut(mem: Memory, owner: Owners, mem': Memory, owner': Owners, x: Frame) {
    && mem'.Keys == mem.Keys && owner'.Keys == owner.Keys
    && (forall f :: f in owner && f in mem && owner[f] != Free && f != x ==> owner'[f] == owner[f] && mem'[f] == mem[f])
  }

  /** Two entries are both empty, or lead to equal pages with equal flags. */
  predicate SameSlot(mem: Memory, w: Word, w': Word) {
    if w == 0 then w' == 0
    else w' != 0 && FlagsOf(w') == FlagsOf(w) && AddressOf(w) in mem && AddressOf(w') in mem && mem[AddressOf(w')] == mem[AddressOf(w)]
  }

  /** duplicate_pt before entry `j`: the entries below it are copied, into frames that were free. */
  ghost predicate Duplicated(m: Memory, was: Owners, mem: Memory, owner: Owners, dest: Frame, i: nat, destPt: Frame,
                             srcPt: Frame, j: nat) {
    && KeptBut(m, was, mem, owner, destPt) && Owned(owner, destPt, Table(dest, i))
    && (forall k: nat {:trigger Entry(mem, destPt, k)} :: k < j ==>
          SameSlot(mem, Entry(mem, srcPt, k), Entry(mem, destPt, k)))
    && (forall k: nat {:trigger Entry(mem, destPt, k)} :: k < j && Entry(mem, destPt, k) != 0 ==>
          Owned(was, AddressOf(Entry(mem, destPt, k)), Free))
    && (forall k: nat {:trigger Entry(mem, destPt, k)} :: j <= k < LENGTH ==> Entry(mem, destPt, k) == 0)
  }

  lemma DuplicatedNone(mem: Memory, owner: Owners, dest: Frame, i: nat, destPt: Frame, srcPt: Frame)
    requires Owned(owner, destPt, Table(dest, i)) && forall k: nat :: k < LENGTH ==> Entry(mem, destPt, k) == 0
    ensures Duplicated(mem, owner, mem, owner, dest, i, destPt, srcPt, 0)
  {
  }

  lemma DuplicatedFacts(m: Memory, was: Owners, mem: Memory, owner: Owners, kernel: seq<Word>, dest: Frame,
      src: Frame, i: nat, destPt: Frame, srcPt: Frame, j: nat)
    requires Inv(m, was, kernel) && Inv(mem, owner, kernel)
    requires Duplicated(m, was, mem, owner, dest, i, destPt, srcPt, j) && j < LENGTH
    requires Owned(was, srcPt, Table(src, i)) && dest != src && Owned(was, destPt, Table(dest, i))
    ensures srcPt in mem && srcPt in m && mem[srcPt] == m[srcPt] && Owned(owner, srcPt, Table(src, i))
    ensures Owned(owner, destPt, Table(dest, i)) && srcPt != destPt
    ensures destPt in mem && Entry(mem, destPt, j) == 0
    ensures var e := Entry(mem, srcPt, j);
            if Present(e) && !Global(e) then e != 0 && Owned(owner, AddressOf(e), Data(src, i, j)) else e == 0
  {
    hide SameSlot;
    assert OwnerOk(mem, owner, kernel, srcPt, Table(src, i));
    assert TableEntryOk(owner, Entry(mem, srcPt, j), src, i, j);
    ZeroEntry();
  }

  lemma DuplicatedSkip(m: Memory, was: Owners, mem: Memory, owner: Owners, dest: Frame, i: nat, destPt: Frame,
                       srcPt: Frame, j: nat)
    requires Duplicated(m, was, mem, owner, dest, i, destPt, srcPt, j) && j < LENGTH && Entry(mem, srcPt, j) == 0
    ensures Duplicated(m, was, mem, owner, dest, i, destPt, srcPt, j + 1)
  {
  }

  /** One page copied: the entry written, and the bytes of the page the source's entry leads to. */
  lemma CopyPageStep(mem: Memory, owner: Owners, free: seq<Frame>, kernel: seq<Word>, dest: Frame, i: nat, j: nat,
                     destPt: Frame, p: Frame, e: Word)
    requires Inv(mem, owner, kernel) && FreeOk(mem, owner, free)
    requires Owned(owner, destPt, Table(dest, i)) && j < LENGTH && Entry(mem, destPt, j) == 0
    requires Owned(owner, p, Taken) && Present(e) && !Global(e) && AddressOf(e) in owner && owner[AddressOf(e)].Data?
    ensures var w := Construct(p, FlagsOf(e));
            var written := SetEntry(mem, destPt, j, w);
            var mem', owner' := written[p := written[AddressOf(e)]], owner[p := Data(dest, i, j)];
            && written.Keys == mem.Keys && Inv(mem', owner', kernel) && FreeOk(mem', owner', free)
            && mem'.Keys == mem.Keys && (forall f :: f in mem && f != p && f != destPt ==>
                  mem'[f] == mem[f]) && mem'[p] == mem[AddressOf(e)]
            && (forall k: nat :: Entry(mem', destPt, k) == if k == j then w else Entry(mem, destPt, k))
            && AddressOf(w) == p && w != 0 && FlagsOf(w) == FlagsOf(e)
  {
    hide OwnerOk, FreeOk;
    var w := Construct(p, FlagsOf(e));
    ConstructParts(p, FlagsOf(e));
    ZeroEntry();
    InvFrame(mem, owner, kernel, p);
    assert LeadsTo(w, p);
    MapStep(mem, owner, free, kernel, dest, i, j, destPt, p, w);
    SetEntryAt(mem, destPt, j, w);
    InvFrame(mem, owner, kernel, AddressOf(e));
    var written := SetEntry(mem, destPt, j, w);
    WriteKeeps(written, owner[p := Data(dest, i, j)], free, kernel, p, written[AddressOf(e)]);
  }

  lemma DuplicatedStep(m: Memory, was: Owners, before: Memory, beforeOwner: Owners, mem: Memory, owner: Owners,
                       kernel: seq<Word>,
                       dest: Frame, src: Frame, i: nat, destPt: Frame, srcPt: Frame, j: nat, p: Frame)
    requires Duplicated(m, was, before, beforeOwner, dest, i, destPt, srcPt, j)
    requires j < LENGTH && Inv(before, beforeOwner, kernel)
    requires Owned(beforeOwner, srcPt, Table(src, i)) && Owned(beforeOwner, p, Free) && dest != src
    requires owner == beforeOwner[p := Data(dest, i, j)] && mem.Keys == before.Keys
    requires forall f :: f in before && f != destPt && !Owned(beforeOwner, f, Free) ==> mem[f] == before[f]
    requires var e, w := Entry(before, srcPt, j), Entry(mem, destPt, j);
             && e != 0 && AddressOf(w) == p && w != 0 && FlagsOf(w) == FlagsOf(e)
             && AddressOf(e) in before && p in mem && mem[p] == before[AddressOf(e)]
    requires forall k: nat :: k != j ==> Entry(mem, destPt, k) == Entry(before, destPt, k)
    ensures Duplicated(m, was, mem, owner, dest, i, destPt, srcPt, j + 1)
  {
    hide AddressOf, FlagsOf, OwnerOk;
    InvFrame(before, beforeOwner, kernel, srcPt);
    SameEntries(before, mem, srcPt);
    StillFree(m, was, before, beforeOwner, destPt, p);
    forall k: nat | k <= j ensures SameSlot(mem, Entry(mem, srcPt, k), Entry(mem, destPt, k)) {
      TableLeads(before, beforeOwner, kernel, src, i, k, srcPt);
      TableLeads(before, beforeOwner, kernel, dest, i, k, destPt);
    }
  }

  lemma StillFree(m: Memory, was: Owners, mem: Memory, owner: Owners, x: Frame, p: Frame)
    requires KeptBut(m, was, mem, owner, x) && Owned(owner, p, Free)
    requires x in owner && owner[x] != Free && was.Keys <= m.Keys
    ensures Owned(was, p, Free)
  {
  }

  /** The frames of `src` that lie before entry `j` of table `i`. */
  ghost function Past(was: Owners, src: Frame, i: nat, j: nat): set<Frame> {
    set f | f in was && GivenBack(was[f], src, i, j)
  }

  lemma PastPage(m: Memory, was: Owners, kernel: seq<Word>, src: Frame, i: nat, j: nat, t: Frame)
    requires Inv(m, was, kernel) && Owned(was, t, Table(src, i)) && j < LENGTH
    requires Owned(was, AddressOf(Entry(m, t, j)), Data(src, i, j))
    ensures |Past(was, src, i, j + 1)| == |Past(was, src, i, j)| + 1
    ensures |Past(was, src, i, j)| + 3 <= |FramesOf(was, src)|
  {
    hide OwnerOk;
    var f := AddressOf(Entry(m, t, j));
    TableFrame(was, m, kernel, src, i, t);
    forall g | g in was && was[g] == Data(src, i, j) ensures g == f {
      DataFrame(was, m, kernel, g, src, i, j);
    }
    assert Past(was, src, i, j + 1) == Past(was, src, i, j) + {f};
    SmallerSet(Past(was, src, i, j) + {f} + {t} + {src}, FramesOf(was, src));
  }

  lemma PastNoPage(m: Memory, was: Owners, kernel: seq<Word>, src: Frame, i: nat, j: nat, t: Frame)
    requires Inv(m, was, kernel) && Owned(was, t, Table(src, i)) && j < LENGTH && Entry(m, t, j) == 0
    ensures Past(was, src, i, j + 1) == Past(was, src, i, j)
  {
    StageNoPage(was, m, kernel, src, i, j, t);
    hide OwnerOk;
    forall f | f in was ensures was[f] != Data(src, i, j) {
      NoPage(was, m, kernel, src, i, j, t, f);
    }
  }

  lemma NoPage(was: Owners, m: Memory, kernel: seq<Word>, pd: Frame, i: nat, j: nat, t: Frame, f: Frame)
    requires Inv(m, was, kernel) && Owned(was, t, Table(pd, i)) && f in was
    ensures was[f] == Data(pd, i, j) ==> Entry(m, t, j) != 0
  {
    hide OwnerOk;
    TableFrame(was, m, kernel, pd, i, t);
    ZeroEntry();
    if was[f] == Data(pd, i, j) {
      DataFrame(was, m, kernel, f, pd, i, j);
    }
  }

  lemma PastTable(m: Memory, was: Owners, kernel: seq<Word>, src: Frame, i: nat, t: Frame)
    requires Inv(m, was, kernel) && Owned(was, t, Table(src, i))
    ensures |Past(was, src, i + 1, 0)| == |Past(was, src, i, LENGTH)| + 1
  {
    hide OwnerOk;
    forall f | f in was && was[f] == Table(src, i) ensures f == t {
      TableFrame(was, m, kernel, src, i, f);
      TableFrame(was, m, kernel, src, i, t);
    }
    forall f | f in was && was[f].Data? ensures was[f].j < LENGTH {
      DataFrame(was, m, kernel, f, was[f].pd, was[f].i, was[f].j);
    }
    assert Past(was, src, i + 1, 0) == Past(was, src, i, LENGTH) + {t};
  }

  lemma SmallerSet<T>(a: set<T>, b: set<T>)
    requires a <= b
    ensures |a| <= |b|
  {
    assert b == a + (b - a);
  }

  /** Entry `i` of both directories is empty, or leads to tables with the same pages. */
  ghost predicate Mirrored(was: Owners, mem: Memory, src: Frame, dest: Frame, i: nat) {
    var a, b := Entry(mem, src, i), Entry(mem, dest, i);
    if a == 0 then b == 0
    else
      && b != 0 && FlagsOf(b) == FlagsOf(a)
      && (forall k: nat {:trigger Entry(mem, AddressOf(b), k)} :: k < LENGTH ==>
            && SameSlot(mem, Entry(mem, AddressOf(a), k), Entry(mem, AddressOf(b), k))
            && (Entry(mem, AddressOf(b), k) != 0 ==> Owned(was, AddressOf(Entry(mem, AddressOf(b), k)), Free)))
  }

  /** vmdup before entry `i`. */
  ghost predicate CopyInv(m: Memory, was: Owners, mem: Memory, owner: Owners, kernel: seq<Word>, src: Frame,
                          dest: Frame, i: nat) {
    && KeptBut(m, was, mem, owner, dest) && Owned(owner, dest, Dir)
    && (forall k: nat :: k < i && !KernelEntry(kernel, k) ==> Mirrored(was, mem, src, dest, k))
    && (forall k: nat :: i <= k < LENGTH && !KernelEntry(kernel, k) ==> Entry(mem, dest, k) == 0)
  }

  lemma CopyNone(mem: Memory, owner: Owners, kernel: seq<Word>, src: Frame, dest: Frame)
    requires Owned(owner, dest, Dir)
    requires forall i: nat :: i < LENGTH && !KernelEntry(kernel, i) ==> Entry(mem, dest, i) == 0
    ensures CopyInv(mem, owner, mem, owner, kernel, src, dest, 0)
  {
  }

  lemma CopyFacts(m: Memory, was: Owners, mem: Memory, owner: Owners, kernel: seq<Word>, src: Frame, dest: Frame,
                  i: nat)
    requires Inv(m, was, kernel) && Inv(mem, owner, kernel)
    requires CopyInv(m, was, mem, owner, kernel, src, dest, i) && i < LENGTH
    requires Owned(was, src, Dir) && src != dest && Owned(was, dest, Dir)
    ensures dest in mem && src in mem && Owned(owner, src, Dir) && Owned(owner, dest, Dir)
    ensures var e := Entry(mem, src, i);
            if Present(e) && !Global(e) then
              && e != 0 && !KernelEntry(kernel, i) && Entry(mem, dest, i) == 0
              && Owned(was, AddressOf(e), Table(src, i)) && Owned(owner, AddressOf(e), Table(src, i))
              && AddressOf(e) in m && AddressOf(e) in mem
              && mem[AddressOf(e)] == m[AddressOf(e)] && e == Entry(m, src, i)
            else KernelEntry(kernel, i) || (e == 0 && Entry(m, src, i) == 0)
  {
    hide Mirrored;
    assert OwnerOk(m, was, kernel, src, Dir);
    assert Entry(mem, src, i) == Entry(m, src, i);
    ZeroEntry();
  }

  lemma CopySkip(m: Memory, was: Owners, mem: Memory, owner: Owners, kernel: seq<Word>, src: Frame, dest: Frame, i: nat)
    requires Inv(m, was, kernel) && CopyInv(m, was, mem, owner, kernel, src, dest, i)
    requires i < LENGTH && Owned(was, src, Dir)
    requires KernelEntry(kernel, i) || (Entry(mem, src, i) == 0 && Entry(m, src, i) == 0)
    ensures CopyInv(m, was, mem, owner, kernel, src, dest, i + 1)
    ensures Past(was, src, i + 1, 0) == Past(was, src, i, 0)
  {
    hide OwnerOk;
    forall f | f in was ensures !Under(was[f], src, i) {
      UnderUser(was, m, kernel, src, i, f);
    }
  }

  lemma UnderUser(was: Owners, m: Memory, kernel: seq<Word>, pd: Frame, i: nat, f: Frame)
    requires Inv(m, was, kernel) && f in was
    ensures Under(was[f], pd, i) ==> !KernelEntry(kernel, i) && Entry(m, pd, i) != 0
  {
    ZeroEntry();
    assert OwnerOk(m, was, kernel, f, was[f]);
    if was[f].Data? {
      assert OwnerOk(m, was, kernel, AddressOf(Entry(m, was[f].pd, was[f].i)), Table(was[f].pd, was[f].i));
    }
  }

  lemma CopiedEntry(p: Frame, e: Word)
    requires p % PAGE_SIZE == 0 && Present(e) && !Global(e)
    ensures LeadsTo(Construct(p, FlagsOf(e)), p) && FlagsOf(Construct(p, FlagsOf(e))) == FlagsOf(e)
  {
    ConstructParts(p, FlagsOf(e));
  }

  lemma PastNone(was: Owners, src: Frame)
    ensures Past(was, src, 0, 0) == {}
  {
  }

  lemma PastRoom(m: Memory, was: Owners, kernel: seq<Word>, src: Frame, i: nat, t: Frame)
    requires Inv(m, was, kernel) && Owned(was, t, Table(src, i))
    ensures |Past(was, src, i, 0)| + 2 <= |FramesOf(was, src)|
  {
    hide OwnerOk;
    TableFrame(was, m, kernel, src, i, t);
    SmallerSet(Past(was, src, i, 0) + {t} + {src}, FramesOf(was, src));
  }

  lemma PastAll(m: Memory, was: Owners, kernel: seq<Word>, src: Frame)
    requires Inv(m, was, kernel) && Owned(was, src, Dir)
    ensures |Past(was, src, LENGTH, 0)| + 1 == |FramesOf(was, src)|
  {
    hide OwnerOk;
    forall f | f in was && was[f].Data? ensures was[f].i < LENGTH {
      DataFrame(was, m, kernel, f, was[f].pd, was[f].i, was[f].j);
    }
    forall f | f in was && was[f].Table? ensures was[f].i < LENGTH {
      TableFrame(was, m, kernel, was[f].pd, was[f].i, f);
    }
    assert FramesOf(was, src) == Past(was, src, LENGTH, 0) + {src};
  }

  /** A mirrored entry stays so while the frames in use keep their bytes. */
  lemma MirroredKept(was: Owners, mem: Memory, owner: Owners, mem': Memory, owner': Owners, kernel: seq<Word>,
                     src: Frame, dest: Frame, k: nat)
    requires Inv(mem, owner, kernel) && Owned(owner, src, Dir) && Owned(owner, dest, Dir) && src != dest
    requires KeptBut(mem, owner, mem', owner', dest) && Entry(mem', dest, k) == Entry(mem, dest, k)
    requires k < LENGTH && !KernelEntry(kernel, k) && Mirrored(was, mem, src, dest, k)
    ensures Mirrored(was, mem', src, dest, k)
  {
    hide AddressOf, FlagsOf, OwnerOk, KernelEntry;
    var a, b := Entry(mem, src, k), Entry(mem, dest, k);
    InvFrame(mem, owner, kernel, src);
    SameEntries(mem, mem', src);
    if a != 0 {
      DirEntry(mem, owner, kernel, src, k);
      DirEntry(mem, owner, kernel, dest, k);
      SameEntries(mem, mem', AddressOf(a));
      SameEntries(mem, mem', AddressOf(b));
      forall j: nat | j < LENGTH ensures SameSlot(mem', Entry(mem', AddressOf(a), j), Entry(mem', AddressOf(b), j)) {
        assert SameSlot(mem, Entry(mem, AddressOf(a), j), Entry(mem, AddressOf(b), j));
        TableLeads(mem, owner, kernel, src, k, j, AddressOf(a));
        TableLeads(mem, owner, kernel, dest, k, j, AddressOf(b));
      }
    }
  }

  lemma MirroredNow(was: Owners, memB: Memory, ownerB: Owners, mem: Memory, owner: Owners, src: Frame, dest: Frame,
      i: nat, destPt: Frame, srcPt: Frame)
    requires Duplicated(memB, ownerB, mem, owner, dest, i, destPt, srcPt, LENGTH)
    requires Entry(mem, src, i) != 0 && AddressOf(Entry(mem, src, i)) == srcPt
    requires Entry(mem, dest, i) != 0 && AddressOf(Entry(mem, dest, i)) == destPt
    requires FlagsOf(Entry(mem, dest, i)) == FlagsOf(Entry(mem, src, i))
    requires forall f :: Owned(ownerB, f, Free) ==> Owned(was, f, Free)
    ensures Mirrored(was, mem, src, dest, i)
  {
    hide AddressOf, FlagsOf, SameSlot;
  }

  lemma CopyTable(m: Memory, was: Owners, memA: Memory, ownerA: Owners, memB: Memory, ownerB: Owners, mem: Memory,
                  owner: Owners, kernel: seq<Word>,
                  src: Frame, dest: Frame, i: nat, p: Frame)
    requires Inv(memA, ownerA, kernel) && CopyInv(m, was, memA, ownerA, kernel, src, dest, i)
    requires i < LENGTH && was.Keys <= m.Keys
    requires Owned(ownerA, src, Dir) && Owned(ownerA, dest, Dir) && src != dest
    requires !KernelEntry(kernel, i) && Entry(memA, src, i) != 0
    requires Owned(ownerA, p, Free) && ownerB == ownerA[p := Table(dest, i)]
    requires memB.Keys == memA.Keys
    requires forall f :: f in memA && f != dest && !Owned(ownerA, f, Free) ==> memB[f] == memA[f]
    requires forall k: nat :: k != i ==> Entry(memB, dest, k) == Entry(memA, dest, k)
    requires var w := Entry(memB, dest, i); AddressOf(w) == p && w != 0 && FlagsOf(w) == FlagsOf(Entry(memA, src, i))
    requires Duplicated(memB, ownerB, mem, owner, dest, i, p, AddressOf(Entry(memA, src, i)), LENGTH)
    ensures CopyInv(m, was, mem, owner, kernel, src, dest, i + 1)
  {
    hide AddressOf, FlagsOf, OwnerOk, KernelEntry, Mirrored, Duplicated, KeptBut, Entry;
    CopyTableKept(memA, ownerA, memB, ownerB, mem, owner, kernel, src, dest, i, p, AddressOf(Entry(memA, src, i)));
    KeptTwice(m, was, memA, ownerA, mem, owner, dest);
    forall f | Owned(ownerB, f, Free) ensures Owned(was, f, Free) {
      StillFree(m, was, memA, ownerA, dest, f);
    }
    MirroredNow(was, memB, ownerB, mem, owner, src, dest, i, p, AddressOf(Entry(memA, src, i)));
    forall k: nat | k < i && !KernelEntry(kernel, k) ensures Mirrored(was, mem, src, dest, k) {
      MirroredKept(was, memA, ownerA, mem, owner, kernel, src, dest, k);
    }
  }

  lemma KeptTwice(m: Memory, was: Owners, memA: Memory, ownerA: Owners, mem: Memory, owner: Owners, x: Frame)
    requires KeptBut(m, was, memA, ownerA, x) && KeptBut(memA, ownerA, mem, owner, x)
    ensures KeptBut(m, was, mem, owner, x)
  {
  }

  lemma CopyTableKept(memA: Memory, ownerA: Owners, memB: Memory, ownerB: Owners, mem: Memory, owner: Owners,
                      kernel: seq<Word>,
                      src: Frame, dest: Frame, i: nat, p: Frame, srcPt: Frame)
    requires Inv(memA, ownerA, kernel) && Owned(ownerA, src, Dir) && Owned(ownerA, dest, Dir) && src != dest
    requires Owned(ownerA, p, Free) && ownerB == ownerA[p := Table(dest, i)]
    requires memB.Keys == memA.Keys
    requires forall f :: f in memA && f != dest && !Owned(ownerA, f, Free) ==> memB[f] == memA[f]
    requires Duplicated(memB, ownerB, mem, owner, dest, i, p, srcPt, LENGTH)
    ensures KeptBut(memA, ownerA, mem, owner, dest) && Owned(owner, dest, Dir)
    ensures forall k: nat :: Entry(mem, dest, k) == Entry(memB, dest, k) && Entry(mem, src, k) == Entry(memA, src, k)
  {
    hide OwnerOk, Duplicated;
    DuplicatedKept(memB, ownerB, mem, owner, dest, i, p, srcPt);
    SameEntries(memB, mem, dest);
    SameEntries(memA, mem, src);
  }

  lemma DuplicatedKept(m: Memory, was: Owners, mem: Memory, owner: Owners, dest: Frame, i: nat, destPt: Frame,
                       srcPt: Frame)
    requires Duplicated(m, was, mem, owner, dest, i, destPt, srcPt, LENGTH)
    ensures KeptBut(m, was, mem, owner, destPt)
  {
  }

  lemma MirroredPage(was: Owners, mem: Memory, owner: Owners, kernel: seq<Word>, src: Frame, dest: Frame, page: nat)
    requires Inv(mem, owner, kernel) && Owned(owner, src, Dir) && Owned(owner, dest, Dir)
    requires UserPage(kernel, page) && Mirrored(was, mem, src, dest, DirIndex(page))
    ensures SameSlot(mem, PageEntry(mem, src, page), PageEntry(mem, dest, page))
    ensures FrameOf(mem, dest, page) != 0 ==> Owned(was, FrameOf(mem, dest, page), Free)
  {
    hide FlagsOf, OwnerOk, KernelEntry, Entry;
    IndexParts(page);
    ZeroEntry();
    DirEntry(mem, owner, kernel, src, DirIndex(page));
    DirEntry(mem, owner, kernel, dest, DirIndex(page));
    var a, b := Entry(mem, src, DirIndex(page)), Entry(mem, dest, DirIndex(page));
    if a != 0 {
      assert SameSlot(mem, Entry(mem, AddressOf(a), TableIndex(page)), Entry(mem, AddressOf(b), TableIndex(page)));
    }
  }

  /** Equal slots make equal memories. */
  lemma SlotsView(mem: Memory, owner: Owners, kernel: seq<Word>, src: Frame, dest: Frame)
    requires Inv(mem, owner, kernel) && Owned(owner, src, Dir) && Owned(owner, dest, Dir)
    requires forall page: nat :: UserPage(kernel, page) ==>
               SameSlot(mem, PageEntry(mem, src, page), PageEntry(mem, dest, page))
    ensures View(mem, kernel, dest) == View(mem, kernel, src)
  {
    hide Inv, PageEntry, KernelEntry;
    ZeroEntry();
    forall page: nat | UserPage(kernel, page)
      ensures Mapped(mem, kernel, dest, page) <==> Mapped(mem, kernel, src, page)
    {
      assert SameSlot(mem, PageEntry(mem, src, page), PageEntry(mem, dest, page));
      NonzeroSlot(mem, owner, kernel, src, page);
      NonzeroSlot(mem, owner, kernel, dest, page);
    }
    forall v: nat | v < PAGES * PAGE_SIZE && Mapped(mem, kernel, src, PageOf(v))
      ensures ByteAt(mem, dest, v) == ByteAt(mem, src, v)
    {
      assert SameSlot(mem, PageEntry(mem, src, PageOf(v)), PageEntry(mem, dest, PageOf(v)));
    }
  }

  lemma NonzeroSlot(mem: Memory, owner: Owners, kernel: seq<Word>, pd: Frame, page: nat)
    requires Inv(mem, owner, kernel) && Owned(owner, pd, Dir) && UserPage(kernel, page)
    ensures PageEntry(mem, pd, page) == 0 <==> FrameOf(mem, pd, page) == 0
  {
    hide OwnerOk, KernelEntry, Entry;
    IndexParts(page);
    ZeroEntry();
    DirEntry(mem, owner, kernel, pd, DirIndex(page));
    var t := AddressOf(Entry(mem, pd, DirIndex(page)));
    if t != 0 {
      TableLeads(mem, owner, kernel, pd, DirIndex(page), TableIndex(page), t);
    }
  }

  lemma MirroredFlags(was: Owners, mem: Memory, src: Frame, dest: Frame, i: nat)
    requires Mirrored(was, mem, src, dest, i)
    ensures FlagsOf(Entry(mem, dest, i)) == FlagsOf(Entry(mem, src, i))
  {
  }

  lemma CopyDone(m: Memory, was: Owners, mem: Memory, owner: Owners, kernel: seq<Word>, src: Frame, dest: Frame)
    requires Inv(m, was, kernel) && Inv(mem, owner, kernel) && CopyInv(m, was, mem, owner, kernel, src, dest, LENGTH)
    requires Owned(was, src, Dir) && Owned(was, dest, Dir) && src != dest
    ensures KeptBut(m, was, mem, owner, dest) && Owned(owner, dest, Dir)
    ensures forall page: nat :: UserPage(kernel, page) ==>
              SameSlot(mem, PageEntry(mem, src, page), PageEntry(mem, dest, page))
    ensures forall page: nat :: Mapped(mem, kernel, dest, page) ==> Owned(was, FrameOf(mem, dest, page), Free)
    ensures View(mem, kernel, dest) == View(m, kernel, src)
    ensures forall d :: Owned(was, d, Dir) && d != dest ==> View(mem, kernel, d) == View(m, kernel, d)
    ensures forall i: nat :: i < LENGTH && !KernelEntry(kernel, i) ==>
              FlagsOf(Entry(mem, dest, i)) == FlagsOf(Entry(mem, src, i))
  {
    forall i: nat | i < LENGTH && !KernelEntry(kernel, i)
      ensures FlagsOf(Entry(mem, dest, i)) == FlagsOf(Entry(mem, src, i))
    {
      MirroredFlags(was, mem, src, dest, i);
    }
    hide OwnerOk, KernelEntry, SameSlot, PageEntry, FrameOf, View, Mirrored;
    forall page: nat | UserPage(kernel, page)
      ensures SameSlot(mem, PageEntry(mem, src, page), PageEntry(mem, dest, page))
      ensures FrameOf(mem, dest, page) != 0 ==> Owned(was, FrameOf(mem, dest, page), Free)
    {
      IndexParts(page);
      MirroredPage(was, mem, owner, kernel, src, dest, page);
    }
    forall d | Owned(was, d, Dir) && d != dest ensures View(mem, kernel, d) == View(m, kernel, d) {
      KeptView(m, was, mem, owner, kernel, d);
    }
    SlotsView(mem, owner, kernel, src, dest);
  }

  // The partition.

  /** A walk of the tables of `pd` meets the frame: the directory, a table or a page. */
  ghost predicate Reached(mem: Memory, kernel: seq<Word>, pd: Frame, f: Frame) {
    || f == pd
    || (exists i: nat :: i < LENGTH && !KernelEntry(kernel, i) && f != 0 && AddressOf(Entry(mem, pd, i)) == f)
    || (exists page: nat :: Mapped(mem, kernel, pd, page) && FrameOf(mem, pd, page) == f)
  }

  /** The frames an address space took are those its tables reach. */
  lemma FramesAreReached(mem: Memory, owner: Owners, kernel: seq<Word>, pd: Frame, f: Frame)
    requires Inv(mem, owner, kernel) && Owned(owner, pd, Dir)
    ensures f in FramesOf(owner, pd) <==> Reached(mem, kernel, pd, f)
  {
    hide AddressOf, Entry;
    if f in FramesOf(owner, pd) {
      match owner[f]
      case Dir =>
      case Table(_, i) => TableFrame(owner, mem, kernel, pd, i, f);
                          assert OwnerOk(mem, owner, kernel, f, owner[f]);
      case Data(_, i, j) => DataReached(mem, owner, kernel, pd, f, i, j);
    }
    if Reached(mem, kernel, pd, f) && f != pd {
      ReachedOwned(mem, owner, kernel, pd, f);
    }
  }

  lemma DataReached(mem: Memory, owner: Owners, kernel: seq<Word>, pd: Frame, f: Frame, i: nat, j: nat)
    requires Inv(mem, owner, kernel) && Owned(owner, f, Data(pd, i, j))
    ensures Reached(mem, kernel, pd, f)
  {
    hide AddressOf, Entry;
    DataFrame(owner, mem, kernel, f, pd, i, j);
    var t := AddressOf(Entry(mem, pd, i));
    TableFrame(owner, mem, kernel, pd, i, t);
    assert OwnerOk(mem, owner, kernel, t, Table(pd, i));
    var page := i * LENGTH + j;
    assert DirIndex(page) == i && TableIndex(page) == j && page < PAGES;
    assert Mapped(mem, kernel, pd, page) && FrameOf(mem, pd, page) == f;
  }

  lemma ReachedOwned(mem: Memory, owner: Owners, kernel: seq<Word>, pd: Frame, f: Frame)
    requires Inv(mem, owner, kernel) && Owned(owner, pd, Dir) && Reached(mem, kernel, pd, f) && f != pd
    ensures f in FramesOf(owner, pd)
  {
    hide AddressOf, Entry, OwnerOk;
    if i: nat :| i < LENGTH && !KernelEntry(kernel, i) && f != 0 && AddressOf(Entry(mem, pd, i)) == f {
      DirEntry(mem, owner, kernel, pd, i);
    } else {
      var page: nat :| Mapped(mem, kernel, pd, page) && FrameOf(mem, pd, page) == f;
      FrameOwned(mem, owner, kernel, pd, page);
    }
  }

  /** Every frame palloc has been given is on the free list, in a caller's hands, or part of exactly
      one live address space. */
  lemma Partition(mem: Memory, owner: Owners, free: seq<Frame>, kernel: seq<Word>, f: Frame)
    requires Inv(mem, owner, kernel) && FreeOk(mem, owner, free) && f in owner
    ensures f in free <==> owner[f] == Free
    ensures f in free || owner[f] == Taken <==> forall pd :: Owned(owner, pd, Dir) ==> !Reached(mem, kernel, pd, f)
    ensures forall pd, pd' ::
              Owned(owner, pd, Dir) && Owned(owner, pd', Dir) && Reached(mem, kernel, pd, f) && Reached(mem, kernel, pd', f) ==>
                pd == pd'
  {
    hide Linked, Reached, NoDup;
    assert f in free <==> Owned(owner, f, Free);
    forall pd | Owned(owner, pd, Dir) ensures f in FramesOf(owner, pd) <==> Reached(mem, kernel, pd, f) {
      FramesAreReached(mem, owner, kernel, pd, f);
    }
    if InUse(owner[f]) {
      var pd := if owner[f].Dir? then f else owner[f].pd;
      InUseSpace(mem, owner, kernel, f);
      assert Owned(owner, pd, Dir) && f in FramesOf(owner, pd);
    }
  }

  lemma InUseSpace(mem: Memory, owner: Owners, kernel: seq<Word>, f: Frame)
    requires Inv(mem, owner, kernel) && f in owner && InUse(owner[f])
    ensures Owned(owner, if owner[f].Dir? then f else owner[f].pd, Dir)
  {
    hide AddressOf, Entry, OwnerOk;
    match owner[f]
    case Table(pd, i) => TableFrame(owner, mem, kernel, pd, i, f);
    case Data(pd, i, j) =>
      DataFrame(owner, mem, kernel, f, pd, i, j);
      TableFrame(owner, mem, kernel, pd, i, AddressOf(Entry(mem, pd, i)));
    case Dir =>
  }
}
