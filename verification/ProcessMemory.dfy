/** The memory of a process: page reservation, the break, and the address space a fork copies
    (kernel/arch/i386/proc.c), on top of Paging. Each call runs under the process's pd_mutex. */
module ProcessMemory {
  import opened Base
  import opened Pages
  import opened AddressSpaces
  import opened FreeList
  import opened PagingSteps
  import opened Paging

  type Bytes = map<nat, Byte>

  const EUNSPEC: int := 2

  /** A flat memory with one more page, of zeros. */
  ghost function Grown(view: Bytes, page: nat): Bytes {
    (map v: nat | v < PAGES * PAGE_SIZE && PageOf(v) == page :: 0) + view
  }

  /** Frames that reserving one page takes: the page, and a table if it is the first under its entry. */
  ghost function Cost(mem: Memory, pd: Frame, page: nat): nat {
    if FrameOf(mem, pd, page) != 0 then 0 else if Entry(mem, pd, DirIndex(page)) == 0 then 2 else 1
  }

  ghost predicate OthersKept(mem: Memory, owner: Owners, mem': Memory, owner': Owners, kernel: seq<Word>, pd: Frame) {
    forall d :: Owned(owner, d, Dir) && d != pd ==>
      Owned(owner', d, Dir) && View(mem', kernel, d) == View(mem, kernel, d)
  }

  ghost predicate InUseKept(owner: Owners, owner': Owners) {
    owner'.Keys == owner.Keys && forall f :: f in owner && owner[f] != Free ==> owner'[f] == owner[f]
  }

  /** No flag of the entry is taken away. */
  ghost predicate KeepsFlags(w: Word, w': Word) {
    forall k: nat :: Bit(FlagsOf(w), k) ==> Bit(FlagsOf(w'), k)
  }

  /** The process may read and write the page. */
  ghost predicate UserWritable(mem: Memory, pd: Frame, page: nat) {
    Rights(mem, pd, page, 0) && Rights(mem, pd, page, 1) && Rights(mem, pd, page, 2)
  }

  /** One page is mapped that was not, or it was already: its bytes are zero or as they were, nothing
      else of this or another address space changes, and no frame in use changes hands. */
  ghost predicate HasPage(mem: Memory, owner: Owners, mem': Memory, owner': Owners, kernel: seq<Word>, pd: Frame,
                          page: nat) {
    && Mapped(mem', kernel, pd, page) && View(mem', kernel, pd) == Grown(View(mem, kernel, pd), page)
    && (forall q: nat :: UserPage(kernel, q) && q != page ==> PageEntry(mem', pd, q) == PageEntry(mem, pd, q))
    && (forall q: nat :: Mapped(mem, kernel, pd, q) ==> Mapped(mem', kernel, pd, q))
    && Entry(mem', pd, DirIndex(page)) != 0
    && (forall k: nat :: k != DirIndex(page) ==> Entry(mem', pd, k) == Entry(mem, pd, k))
    && KeepsFlags(Entry(mem, pd, DirIndex(page)), Entry(mem', pd, DirIndex(page)))
    && OthersKept(mem, owner, mem', owner', kernel, pd) && InUseKept(owner, owner') && Owned(owner', pd, Dir)
  }

  lemma MapsOneOthers(mem: Memory, owner: Owners, mem': Memory, owner': Owners, kernel: seq<Word>, pd: Frame,
                      page: nat, p: Frame, w: Word)
    requires Inv(mem, owner, kernel) && MapsOne(mem, owner, mem', owner', kernel, pd, page, p, w)
    requires UserPage(kernel, page)
    requires Owned(owner, pd, Dir) && Owned(owner, p, Taken) && FrameOf(mem, pd, page) == 0
    ensures OthersKept(mem, owner, mem', owner', kernel, pd)
  {
    hide OwnerOk, View, FrameOf, PageEntry;
    InvFrames(mem, owner, kernel);
    forall d | Owned(owner, d, Dir) && d != pd ensures View(mem', kernel, d) == View(mem, kernel, d) {
      forall f | f in owner && PartOf(f, owner[f], d)
        ensures Owned(owner', f, owner[f]) && f in mem && f in mem' && mem'[f] == mem[f]
      {
        InvFrame(mem, owner, kernel, f);
      }
      KeptView(mem, owner, mem', owner', kernel, d);
    }
  }

  lemma MapsOneView(mem: Memory, owner: Owners, mem': Memory, owner': Owners, kernel: seq<Word>, pd: Frame, page: nat,
                    p: Frame, w: Word)
    requires Inv(mem, owner, kernel) && MapsOne(mem, owner, mem', owner', kernel, pd, page, p, w)
    requires UserPage(kernel, page)
    requires Owned(owner, pd, Dir) && Owned(owner, p, Taken) && p in mem
    requires mem[p] == Zeros() && AddressOf(w) == p && p != 0
    requires FrameOf(mem, pd, page) == 0
    ensures View(mem', kernel, pd) == Grown(View(mem, kernel, pd), page)
  {
    hide OwnerOk, PageEntry, AddressOf, KernelEntry;
    forall q: nat | UserPage(kernel, q) && q != page
      ensures FrameOf(mem', pd, q) == FrameOf(mem, pd, q)
      ensures Mapped(mem, kernel, pd, q) ==>
                FrameOf(mem, pd, q) in mem && mem'[FrameOf(mem, pd, q)] == mem[FrameOf(mem, pd, q)]
    {
      if Mapped(mem, kernel, pd, q) {
        FrameOwned(mem, owner, kernel, pd, q);
      }
    }
    ViewWithPage(mem, mem', kernel, pd, page, p);
  }

  lemma ViewWithPage(mem: Memory, mem': Memory, kernel: seq<Word>, pd: Frame, page: nat, p: Frame)
    requires UserPage(kernel, page) && FrameOf(mem, pd, page) == 0 && FrameOf(mem', pd, page) == p && p != 0
    requires p in mem' && mem'[p] == Zeros()
    requires forall q: nat :: UserPage(kernel, q) && q != page ==> FrameOf(mem', pd, q) == FrameOf(mem, pd, q)
    requires forall q: nat :: q != page && Mapped(mem, kernel, pd, q) ==>
               FrameOf(mem, pd, q) in mem && FrameOf(mem, pd, q) in mem' && mem'[FrameOf(mem, pd, q)] == mem[FrameOf(mem, pd, q)]
    ensures View(mem', kernel, pd) == Grown(View(mem, kernel, pd), page)
  {
    hide FrameOf, KernelEntry;
    var view, view' := View(mem, kernel, pd), View(mem', kernel, pd);
    forall v: nat ensures v in view' <==> v in Grown(view, page) {
    }
    forall v: nat | v in view' ensures view'[v] == Grown(view, page)[v] {
    }
  }

  class Process {
    const machine: Machine
    var pd: Frame
    var vfrom: Word
    var vto: Word
    var vbreak: Word
    var curBreak: Word   // cur_vbreak

    /** The break region below the current break is mapped, and all user pages lie in [vfrom, vto]. */
    ghost predicate Valid()
      reads this, machine
    {
      && machine.Valid() && Owned(machine.owner, pd, Dir)
      && (forall v: nat :: vbreak <= v < curBreak ==> Mapped(machine.mem, machine.kernel, pd, PageOf(v)))
      && Spanned(machine.mem, machine.kernel, pd, vfrom, vto)
    }

    ghost function Memory(): Bytes
      reads this, machine
    {
      View(machine.mem, machine.kernel, pd)
    }

    /** proc_alloc, the memory part. */
    constructor (machine: Machine)
      requires machine.Valid() && machine.free != []
      modifies machine
      ensures Valid() && this.machine == machine && pd == old(machine.free)[0]
      ensures machine.free == old(machine.free)[1..] && machine.owner == old(machine.owner)[pd := Dir]
      ensures Kept(old(machine.mem), old(machine.owner), machine.mem)
      ensures forall i: nat :: i < LENGTH && !KernelEntry(machine.kernel, i) ==> Entry(machine.mem, pd, i) == 0
      ensures vfrom == 0 && vto == 0 && vbreak == 0 && curBreak == 0
    {
      this.machine := machine;
      vfrom, vto, vbreak, curBreak := 0, 0, 0, 0;
      var d := machine.AllocDir();
      pd := d;
      new;
      EmptySpace(machine.mem, machine.owner, machine.kernel, pd);
    }

    /** unsafe_vmreserve. */
    method Reserve(v: Word, user: bool, write: bool)
      requires Valid() && UserPage(machine.kernel, PageOf(v)) && v >= PAGE_SIZE
      requires |machine.free| >= Cost(machine.mem, pd, PageOf(v))
      modifies machine, this`vfrom, this`vto
      ensures Valid()
      ensures HasPage(old(machine.mem), old(machine.owner), machine.mem, machine.owner, machine.kernel, pd, PageOf(v))
      ensures |machine.free| == old(|machine.free|) - old(Cost(machine.mem, pd, PageOf(v)))
      ensures old(FrameOf(machine.mem, pd, PageOf(v))) != 0 ==> machine.mem == old(machine.mem)
      ensures old(FrameOf(machine.mem, pd, PageOf(v))) == 0 ==>
                && Rights(machine.mem, pd, PageOf(v), 0)
                && (Rights(machine.mem, pd, PageOf(v), 1) <==> write)
                && (Rights(machine.mem, pd, PageOf(v), 2) <==> user)
    {
      hide Inv, FreeOk, View, PageEntry, AddressOf, Entry, Spanned, HasPage, UserPage, KernelEntry, OrFlags, Mapped,
          Rights, Bit;
      ghost var m, o, kernel := machine.mem, machine.owner, machine.kernel;
      var page := v - v % PAGE_SIZE;
      assert PageOf(page) == PageOf(v);
      var w := machine.GetEntry(pd, page);
      if AddressOf(w) != 0 {
        AlreadyMapped(m, o, kernel, pd, PageOf(v));
        return;
      }
      var flags := OrFlags(OrFlags(PRESENT, if user then USER else 0), if write then RW else 0);
      ReserveFlags(user, write);
      MapNew(page, flags);
      HasPageFacts(m, o, machine.mem, machine.owner, kernel, pd, PageOf(v));
      if vfrom == 0 {
        vfrom := page;
      }
      if vto == 0 {
        vto := page;
      }
      if vfrom > page {
        vfrom := page;
      }
      if vto < page {
        vto := page;
      }
      SpanMore(m, machine.mem, kernel, pd, PageOf(v), old(vfrom), old(vto), vfrom, vto);
    }

    /** Maps a page just taken from palloc. */
    method MapNew(page: Word, flags: Flags)
      requires machine.Valid() && Owned(machine.owner, pd, Dir)
      requires UserPage(machine.kernel, PageOf(page)) && !Bit(flags, 8)
      requires FrameOf(machine.mem, pd, PageOf(page)) == 0 && |machine.free| >= Cost(machine.mem, pd, PageOf(page))
      modifies machine
      ensures machine.Valid()
      ensures HasPage(old(machine.mem), old(machine.owner), machine.mem, machine.owner, machine.kernel, pd, PageOf(page))
      ensures |machine.free| == old(|machine.free|) - old(Cost(machine.mem, pd, PageOf(page)))
      ensures forall k: nat :: Rights(machine.mem, pd, PageOf(page), k) <==> Bit(OrFlags(flags, PRESENT), k)
    {
      hide Inv, FreeOk, AddressOf, Entry, MapsOne, HasPage, KernelEntry, Bit, OrFlags, Construct, Kept, PageEntry,
          Rights, FlagsOf;
      ghost var m, o, kernel := machine.mem, machine.owner, machine.kernel;
      HeadOwned(m, o, machine.free, kernel);
      var p := machine.Palloc();
      ghost var taken := machine.mem;
      AfterPalloc(m, o, taken, kernel, pd, PageOf(page), p);
      InvFrame(taken, machine.owner, kernel, p);
      EntryLeads(p, flags);
      machine.Map(pd, page, p, flags);
      ConstructParts(p, OrFlags(flags, PRESENT));
      MappedRights(taken, o[p := Taken], machine.mem, machine.owner, kernel, pd, PageOf(page), p,
                   Construct(p, OrFlags(flags, PRESENT)));
      Reserved(m, o, taken, machine.mem, machine.owner, kernel, pd, PageOf(page), p,
               Construct(p, OrFlags(flags, PRESENT)));
    }

    /** proc_set_break. */
    method SetBreak(v: Word)
      requires Valid()
      modifies this`vbreak, this`curBreak
      ensures Valid() && vbreak == v && curBreak == v && Memory() == old(Memory())
    {
      vbreak, curBreak := v, v;
    }

    /** unsafe_brk goes on: `inGlobalRegion` is whether the memory map makes the address the kernel's. */
    predicate Accepts(v: Word, inGlobalRegion: bool)
      reads this, machine
    {
      v >= vbreak && !inGlobalRegion && v - vbreak <= machine.remaining * PAGE_SIZE
    }

    /** The pages a break at `v` adds lie outside the kernel's entries and below the last page, and palloc
        has the frames. */
    ghost predicate CanServe(v: Word, inGlobalRegion: bool)
      reads this, machine
    {
      Accepts(v, inGlobalRegion) ==>
        && PageOf(v) + 1 < PAGES && (forall q: nat :: PageOf(curBreak) <= q <= PageOf(v) ==>
              UserPage(machine.kernel, q))
        && Need(machine.mem, pd, PageOf(curBreak), PageOf(v) + 1) <= |machine.free|
    }

    /** unsafe_brk. A refusal changes nothing; a lower break leaves its pages mapped, and raising it
        again finds them as they were. The pages come from palloc, which must have them. */
    method Brk(v: Word, inGlobalRegion: bool) returns (r: int)
      requires Valid() && curBreak >= PAGE_SIZE && CanServe(v, inGlobalRegion)
      modifies machine, this`vfrom, this`vto, this`curBreak
      ensures Valid() && r == if old(Accepts(v, inGlobalRegion)) then 0 else -EUNSPEC
      ensures r != 0 ==>
                && curBreak == old(curBreak) && machine.mem == old(machine.mem)
                && machine.owner == old(machine.owner) && machine.free == old(machine.free)
      ensures r == 0 ==>
                && curBreak == v
                && Memory() == GrownTo(old(Memory()), PageOf(old(curBreak)), PageOf(v) + 1)
                && OthersKept(old(machine.mem), old(machine.owner), machine.mem, machine.owner, machine.kernel, pd)
                && InUseKept(old(machine.owner), machine.owner)
                && |machine.free| == old(|machine.free|) - old(Need(machine.mem, pd, PageOf(curBreak), PageOf(v) + 1))
                && NewWritable(old(machine.mem), machine.mem, machine.kernel, pd, PageOf(old(curBreak)), PageOf(v) + 1)
                && PagesKept(old(machine.mem), machine.mem, machine.kernel, pd, PageOf(old(curBreak)), PageOf(v) + 1)
    {
      hide Inv, FreeOk, View, FrameOf, Entry, Spanned, HasPage, UserPage, Mapped, Need, GrownTo, OthersKept, InUseKept,
          Cost, PageOf, NewWritable, PagesKept, Rights, PageEntry, Bit, Progress;
      if v < vbreak || inGlobalRegion {
        return -EUNSPEC;
      }
      if v - vbreak > machine.remaining * PAGE_SIZE {
        return -EUNSPEC;
      }
      ghost var m, o, kernel := machine.mem, machine.owner, machine.kernel;
      ghost var first, last := PageOf(curBreak), PageOf(v);
      var from: Word, to: Word := curBreak - curBreak % PAGE_SIZE, v - v % PAGE_SIZE;
      ghost var page: nat := first;
      MaskedPage(curBreak);
      MaskedPage(v);
      ProgressNone(m, o, kernel, pd, first, last);
      while from <= to
        invariant from == page * PAGE_SIZE && first <= page
        invariant to == last * PAGE_SIZE && (page <= last + 1 || page == first)
        invariant Valid() && curBreak == old(curBreak)
        invariant Progress(m, o, machine.mem, machine.owner, kernel, pd, first, page, last,
                           old(|machine.free|) - |machine.free|)
      {
        PageTurn(from, page);
        ghost var before, beforeOwner := machine.mem, machine.owner;
        ProgressRoom(m, o, before, beforeOwner, kernel, pd, first, page, last, old(|machine.free|) - |machine.free|);
        Reserve(from, true, true);
        ProgressStep(m, o, before, beforeOwner, machine.mem, machine.owner, kernel, pd, first, page, last,
                     old(|machine.free|) - |machine.free|);
        from := (from + PAGE_SIZE) % WORDS;
        page := page + 1;
      }
      ProgressEnd(m, o, machine.mem, machine.owner, kernel, pd, first, page, last,
                  old(|machine.free|) - |machine.free|);
      BreakPages(machine.mem, kernel, pd, vbreak, curBreak, v);
      BreakPage(machine.mem, kernel, pd, vbreak, curBreak, v);
      SpanReaches(machine.mem, kernel, pd, vfrom, vto, to);
      curBreak := v;
      if vto < to {
        assert false;  // vto is no less: the page of the break is mapped
      }
      r := 0;
    }

    /** proc_sbrk: the break before the call, or the error as an address. */
    method Sbrk(diff: int, inGlobalRegion: bool) returns (ret: Word)
      requires Valid() && curBreak >= PAGE_SIZE && CanServe((curBreak + diff) % WORDS, inGlobalRegion)
      modifies machine, this`vfrom, this`vto, this`curBreak
      ensures Valid()
      ensures var v: Word := (old(curBreak) + diff) % WORDS;
              if old(Accepts((curBreak + diff) % WORDS, inGlobalRegion))
              then ret == old(curBreak) && curBreak == v && Memory() == GrownTo(old(Memory()), PageOf(old(curBreak)), PageOf(v) + 1)
              else ret == WORDS - EUNSPEC && curBreak == old(curBreak) && Memory() == old(Memory())
    {
      hide Inv, FreeOk, View, FrameOf, Entry, Spanned, UserPage, Mapped, Need, GrownTo, OthersKept, InUseKept;
      ret := curBreak;
      var r := Brk((curBreak + diff) % WORDS, inGlobalRegion);
      if r < 0 {
        ret := r + WORDS;
      }
    }

    /** proc_fork, the memory part: the child has the parent's memory, flags and break, in frames of
        its own. It takes a directory, and one frame for each table and page of the parent. */
    method Fork() returns (child: Process)
      requires Valid() && |machine.free| >= |FramesOf(machine.owner, pd)|
      modifies machine
      ensures Valid() && fresh(child) && child.machine == machine && child.Valid() && child.pd != pd
      ensures child.Memory() == old(Memory()) && Memory() == old(Memory())
      ensures forall page: nat :: UserPage(machine.kernel, page) ==>
                SameSlot(machine.mem, PageEntry(machine.mem, pd, page), PageEntry(machine.mem, child.pd, page))
      ensures forall page: nat, k: nat :: UserPage(machine.kernel, page) ==>
                (Rights(machine.mem, child.pd, page, k) <==> Rights(machine.mem, pd, page, k))
      ensures forall d :: Owned(old(machine.owner), d, Dir) ==>
                && Owned(machine.owner, d, Dir)
                && View(machine.mem, machine.kernel, d) == old(View(machine.mem, machine.kernel, d))
      ensures child.vfrom == vfrom && child.vto == vto && child.vbreak == vbreak && child.curBreak == curBreak
      ensures |machine.free| == old(|machine.free|) - old(|FramesOf(machine.owner, pd)|)
    {
      hide Inv, FreeOk, View, PageEntry, Entry, Spanned, UserPage, Mapped, FramesOf, Kept, SameSlot, KeptBut,
          KernelEntry;
      ghost var m, o, kernel, parent, n := machine.mem, machine.owner, machine.kernel, pd, |machine.free|;
      HasDir(m, o, machine.free, kernel, pd);
      HeadOwned(m, o, machine.free, kernel);
      child := new Process(machine);
      ghost var m1, o1 := machine.mem, machine.owner;
      InvFrames(m1, o1, kernel);
      ForkDir(m, o, m1, kernel, parent, child.pd);
      machine.VmDup(child.pd, pd);
      ForkDone(m, o, m1, o1, machine.mem, machine.owner, kernel, parent, child.pd, vbreak, curBreak, vfrom, vto);
      SameRights(machine.mem, kernel, parent, child.pd);
      child.vfrom, child.vto, child.vbreak, child.curBreak := vfrom, vto, vbreak, curBreak;
    }
  }

  /** The address unsafe_brk's loop comes to after `n` turns. */
  function LoopAt(from: Word, n: nat): Word {
    (from + n * PAGE_SIZE) % WORDS
  }

  /** The loop gets past the page of the new break if and only if that is not the last page. */
  lemma LoopEndsExactly(from: Word, to: Word)
    requires from % PAGE_SIZE == 0 && to % PAGE_SIZE == 0
    ensures (exists n: nat :: LoopAt(from, n) > to) <==> to + PAGE_SIZE < WORDS
  {
    if to + PAGE_SIZE < WORDS {
      var n := if from <= to then (to - from) / PAGE_SIZE + 1 else 0;
      assert LoopAt(from, n) > to;
    } else {
      forall n: nat ensures LoopAt(from, n) <= to {
        StaysAligned(from, n);
      }
    }
  }

  lemma PageTurn(from: Word, page: nat)
    requires from == page * PAGE_SIZE && page + 1 < PAGES
    ensures PageOf(from) == page && (from + PAGE_SIZE) % WORDS == (page + 1) * PAGE_SIZE
    ensures from >= PAGE_SIZE <==> page > 0
  {
  }

  lemma MaskedPage(v: Word)
    ensures v - v % PAGE_SIZE == PageOf(v) * PAGE_SIZE && PageOf(v) < PAGES
    ensures v >= PAGE_SIZE ==> PageOf(v) > 0
  {
  }

  lemma StaysAligned(from: Word, n: nat)
    requires from % PAGE_SIZE == 0
    ensures LoopAt(from, n) + PAGE_SIZE <= WORDS
  {
  }

  /** All user pages lie from `vfrom` to `vto`, and these are user pages themselves, or 0 if there is none. */
  ghost predicate Spanned(mem: Memory, kernel: seq<Word>, pd: Frame, vfrom: Word, vto: Word) {
    && (forall page: nat :: Mapped(mem, kernel, pd, page) ==> 0 < vfrom <= page * PAGE_SIZE <= vto)
    && (forall v | v == vfrom || v == vto :: v != 0 ==>
          v == PageOf(v) * PAGE_SIZE && Mapped(mem, kernel, pd, PageOf(v)))
  }

  lemma EmptySpace(mem: Memory, owner: Owners, kernel: seq<Word>, pd: Frame)
    requires Inv(mem, owner, kernel) && Owned(owner, pd, Dir)
    requires forall i: nat :: i < LENGTH && !KernelEntry(kernel, i) ==> Entry(mem, pd, i) == 0
    ensures forall page: nat :: !Mapped(mem, kernel, pd, page)
  {
    ZeroEntry();
    forall page: nat | UserPage(kernel, page) ensures FrameOf(mem, pd, page) == 0 {
      IndexParts(page);
    }
  }

  lemma AlreadyMapped(mem: Memory, owner: Owners, kernel: seq<Word>, pd: Frame, page: nat)
    requires Inv(mem, owner, kernel) && Owned(owner, pd, Dir) && UserPage(kernel, page) && FrameOf(mem, pd, page) != 0
    ensures HasPage(mem, owner, mem, owner, kernel, pd, page) && Cost(mem, pd, page) == 0
  {
    hide Inv, PageEntry;
    ZeroEntry();
    MappedTable(mem, pd, page);
  }

  lemma HasPageFacts(mem: Memory, owner: Owners, mem': Memory, owner': Owners, kernel: seq<Word>, pd: Frame, page: nat)
    requires HasPage(mem, owner, mem', owner', kernel, pd, page)
    ensures forall q: nat :: UserPage(kernel, q) && q != page ==> PageEntry(mem', pd, q) == PageEntry(mem, pd, q)
    ensures forall q: nat :: Mapped(mem, kernel, pd, q) ==> Mapped(mem', kernel, pd, q)
    ensures Mapped(mem', kernel, pd, page) && Owned(owner', pd, Dir)
  {
  }

  lemma MappedTable(mem: Memory, pd: Frame, page: nat)
    requires FrameOf(mem, pd, page) != 0
    ensures Entry(mem, pd, DirIndex(page)) != 0
  {
    ZeroEntry();
  }

  lemma ReserveFlags(user: bool, write: bool)
    ensures var flags := OrFlags(OrFlags(PRESENT, if user then USER else 0), if write then RW else 0);
            && !Bit(flags, 8) && Bit(OrFlags(flags, PRESENT), 0)
            && (Bit(OrFlags(flags, PRESENT), 1) <==> write) && (Bit(OrFlags(flags, PRESENT), 2) <==> user)
  {
    FlagBits();
    PresentBit();
    ReserveBit(user, write, 0);
    ReserveBit(user, write, 1);
    ReserveBit(user, write, 2);
    ReserveBit(user, write, 8);
    hide Bit, OrFlags;
  }

  lemma ReserveBit(user: bool, write: bool, k: nat)
    ensures var flags := OrFlags(OrFlags(PRESENT, if user then USER else 0), if write then RW else 0);
            && (Bit(flags, k) <==> Bit(PRESENT, k) || (user && Bit(USER, k)) || (write && Bit(RW, k)))
            && (Bit(OrFlags(flags, PRESENT), k) <==> Bit(flags, k) || Bit(PRESENT, k))
  {
    var first := OrFlags(PRESENT, if user then USER else 0);
    var flags := OrFlags(first, if write then RW else 0);
    ZeroBits(k);
    OrBits(PRESENT, if user then USER else 0, k);
    OrBits(first, if write then RW else 0, k);
    OrBits(flags, PRESENT, k);
    hide Bit;
  }

  lemma FlagBits()
    ensures !Bit(USER, 0) && !Bit(USER, 1) && Bit(USER, 2) && !Bit(USER, 8)
    ensures !Bit(RW, 0) && Bit(RW, 1) && !Bit(RW, 2) && !Bit(RW, 8)
  {
    ZeroBits(5);
    ZeroBits(6);
    assert !Bit(1, 6) && !Bit(1, 7);
    assert !Bit(2, 7);
  }

  /** The rights on a page just mapped are the flags it was mapped with. */
  lemma MappedRights(mem: Memory, owner: Owners, mem': Memory, owner': Owners, kernel: seq<Word>, pd: Frame, page: nat,
                     p: Frame, w: Word)
    requires MapsOne(mem, owner, mem', owner', kernel, pd, page, p, w)
    ensures forall k: nat :: Rights(mem', pd, page, k) <==> Bit(FlagsOf(w), k)
  {
    hide Bit, PageEntry, Entry;
  }

  /** palloc gives a clear page and moves nothing that is in use. */
  lemma AfterPalloc(m: Memory, o: Owners, taken: Memory, kernel: seq<Word>, pd: Frame, page: nat, p: Frame)
    requires Inv(m, o, kernel) && Owned(o, pd, Dir) && Owned(o, p, Free) && Kept(m, o, taken)
    requires UserPage(kernel, page)
    ensures pd != p && forall k: nat :: Entry(taken, pd, k) == Entry(m, pd, k)
    ensures forall q: nat :: UserPage(kernel, q) ==> PageEntry(taken, pd, q) == PageEntry(m, pd, q)
  {
    hide OwnerOk;
    InvFrame(m, o, kernel, pd);
    SpaceAfterPalloc(m, o, taken, kernel, pd, p);
    SameEntries(m, taken, pd);
    forall q: nat | UserPage(kernel, q) ensures PageEntry(taken, pd, q) == PageEntry(m, pd, q) {
      KeptPage(m, o, taken, o[p := Taken], kernel, pd, q);
    }
  }

  lemma SpaceAfterPalloc(m: Memory, o: Owners, taken: Memory, kernel: seq<Word>, d: Frame, p: Frame)
    requires Inv(m, o, kernel) && Owned(o, p, Free) && Kept(m, o, taken)
    ensures SpaceKept(m, o, taken, o[p := Taken], d)
  {
    hide OwnerOk;
  }

  lemma Reserved(m: Memory, o: Owners, taken: Memory, mem: Memory, owner: Owners, kernel: seq<Word>, pd: Frame,
                 page: nat, p: Frame, w: Word)
    requires Inv(m, o, kernel) && Owned(o, pd, Dir) && Owned(o, p, Free)
    requires Kept(m, o, taken) && UserPage(kernel, page) && FrameOf(m, pd, page) == 0
    requires Inv(taken, o[p := Taken], kernel) && p in taken && taken[p] == Zeros()
    requires MapsOne(taken, o[p := Taken], mem, owner, kernel, pd, page, p, w) && AddressOf(w) == p
    ensures HasPage(m, o, mem, owner, kernel, pd, page)
  {
    hide OwnerOk, View, PageEntry, AddressOf, Entry, KernelEntry;
    var o1 := o[p := Taken];
    InvFrame(taken, o1, kernel, p);
    AfterPalloc(m, o, taken, kernel, pd, page, p);
    SpaceAfterPalloc(m, o, taken, kernel, pd, p);
    KeptView(m, o, taken, o1, kernel, pd);
    MapsOneView(taken, o1, mem, owner, kernel, pd, page, p, w);
    MapsOneOthers(taken, o1, mem, owner, kernel, pd, page, p, w);
    forall d | Owned(o, d, Dir) && d != pd ensures Owned(owner, d, Dir) && View(mem, kernel, d) == View(m, kernel, d) {
      SpaceAfterPalloc(m, o, taken, kernel, d, p);
      KeptView(m, o, taken, o1, kernel, d);
      assert Owned(o1, d, Dir);
    }
  }

  lemma SpanMore(m: Memory, mem: Memory, kernel: seq<Word>, pd: Frame, page: nat, vfrom: Word, vto: Word, vfrom': Word,
                 vto': Word)
    requires Spanned(m, kernel, pd, vfrom, vto) && page > 0 && page * PAGE_SIZE < WORDS
    requires forall q: nat :: UserPage(kernel, q) && q != page ==> PageEntry(mem, pd, q) == PageEntry(m, pd, q)
    requires vfrom' == if vfrom == 0 || vfrom > page * PAGE_SIZE then page * PAGE_SIZE else vfrom
    requires vto' == if vto < page * PAGE_SIZE then page * PAGE_SIZE else vto
    requires Mapped(mem, kernel, pd, page) && (forall q: nat :: Mapped(m, kernel, pd, q) ==> Mapped(mem, kernel, pd, q))
    ensures Spanned(mem, kernel, pd, vfrom', vto')
  {
    hide PageEntry, AddressOf, KernelEntry;
    assert PageOf(page * PAGE_SIZE) == page;
    forall q: nat | Mapped(mem, kernel, pd, q) ensures 0 < vfrom' <= q * PAGE_SIZE <= vto' {
      if q != page {
        assert Mapped(m, kernel, pd, q);
      }
    }
  }

  // Growing the break.

  /** A flat memory with the pages of [from, to) added, zero where they were not there. */
  ghost function GrownTo(view: Bytes, from: nat, to: nat): Bytes {
    (map v: nat | v < PAGES * PAGE_SIZE && from <= PageOf(v) < to :: 0) + view
  }

  /** Pages of [from, to) with no frame. */
  ghost function Unmapped(mem: Memory, pd: Frame, from: nat, to: nat): nat
    decreases (to as int) - from
  {
    if from >= to then 0 else (if FrameOf(mem, pd, from) == 0 then 1 else 0) + Unmapped(mem, pd, from + 1, to)
  }

  /** Entries of [i, k) with no table. */
  ghost function EmptyEntries(mem: Memory, pd: Frame, i: nat, k: nat): nat
    decreases (k as int) - i
  {
    if i >= k then 0 else (if Entry(mem, pd, i) == 0 then 1 else 0) + EmptyEntries(mem, pd, i + 1, k)
  }

  /** Frames that mapping all of [from, to) takes. */
  ghost function Need(mem: Memory, pd: Frame, from: nat, to: nat): nat {
    if from >= to then 0 else Unmapped(mem, pd, from, to) + EmptyEntries(mem, pd, DirIndex(from), DirIndex(to - 1) + 1)
  }

  lemma {:induction false} SameUnmapped(mem: Memory, mem': Memory, pd: Frame, from: nat, to: nat)
    requires forall q: nat :: from <= q < to ==> FrameOf(mem', pd, q) == FrameOf(mem, pd, q)
    ensures Unmapped(mem', pd, from, to) == Unmapped(mem, pd, from, to)
    decreases (to as int) - from
  {
    if from < to {
      SameUnmapped(mem, mem', pd, from + 1, to);
    }
  }

  lemma {:induction false} SameEmpty(mem: Memory, mem': Memory, pd: Frame, i: nat, k: nat)
    requires forall n: nat :: i <= n < k ==> Entry(mem', pd, n) == Entry(mem, pd, n)
    ensures EmptyEntries(mem', pd, i, k) == EmptyEntries(mem, pd, i, k)
    decreases (k as int) - i
  {
    if i < k {
      SameEmpty(mem, mem', pd, i + 1, k);
    }
  }

  lemma NeedFirst(mem: Memory, pd: Frame, from: nat, to: nat)
    requires from < to
    ensures Cost(mem, pd, from) <= Need(mem, pd, from, to)
  {
    hide FrameOf, Entry;
    DirOrder(from, to);
    MappedEntry(mem, pd, from);
  }

  lemma MappedEntry(mem: Memory, pd: Frame, page: nat)
    ensures FrameOf(mem, pd, page) != 0 ==> Entry(mem, pd, DirIndex(page)) != 0
  {
    ZeroEntry();
  }

  lemma DirOrder(from: nat, to: nat)
    requires from < to
    ensures DirIndex(from) <= DirIndex(to - 1)
    ensures from + 1 < to ==> DirIndex(from) <= DirIndex(from + 1) <= DirIndex(from) + 1
  {
  }

  /** Reserving the first page of a range takes its cost out of what the range needs. */
  lemma NeedNext(mem: Memory, mem': Memory, pd: Frame, from: nat, to: nat)
    requires from < to && Entry(mem', pd, DirIndex(from)) != 0
    requires forall q: nat :: from < q < to ==> FrameOf(mem', pd, q) == FrameOf(mem, pd, q)
    requires forall k: nat :: k != DirIndex(from) ==> Entry(mem', pd, k) == Entry(mem, pd, k)
    ensures Need(mem, pd, from, to) == Cost(mem, pd, from) + Need(mem', pd, from + 1, to)
  {
    hide FrameOf, Entry, DirIndex;
    MappedEntry(mem, pd, from);
    DirOrder(from, to);
    var i, k := DirIndex(from), DirIndex(to - 1) + 1;
    SameUnmapped(mem, mem', pd, from + 1, to);
    SameEmpty(mem, mem', pd, i + 1, k);
    if from + 1 == to {
      assert EmptyEntries(mem, pd, i + 1, k) == 0;
    } else if DirIndex(from + 1) == i {
      assert EmptyEntries(mem', pd, i, k) == EmptyEntries(mem', pd, i + 1, k);
    }
  }

  lemma GrowsNothing(mem: Memory, owner: Owners, kernel: seq<Word>, pd: Frame, first: nat)
    ensures GrownTo(View(mem, kernel, pd), first, first) == View(mem, kernel, pd)
    ensures OthersKept(mem, owner, mem, owner, kernel, pd) && InUseKept(owner, owner)
  {
    hide View;
  }

  lemma OthersTwice(m: Memory, o: Owners, mem1: Memory, owner1: Owners, mem: Memory, owner: Owners, kernel: seq<Word>,
                    pd: Frame)
    requires OthersKept(m, o, mem1, owner1, kernel, pd) && OthersKept(mem1, owner1, mem, owner, kernel, pd)
    requires InUseKept(o, owner1) && InUseKept(owner1, owner)
    ensures OthersKept(m, o, mem, owner, kernel, pd) && InUseKept(o, owner)
  {
    hide View;
  }

  lemma GrownMore(view: Bytes, first: nat, page: nat)
    requires first <= page
    ensures Grown(GrownTo(view, first, page), page) == GrownTo(view, first, page + 1)
  {
  }

  lemma ReserveStep(m: Memory, o: Owners, mem1: Memory, owner1: Owners, mem: Memory, owner: Owners, kernel: seq<Word>,
      pd: Frame, first: nat, page: nat, to: nat)
    requires HasPage(mem1, owner1, mem, owner, kernel, pd, page) && first <= page < to
    requires forall q: nat :: page <= q < to ==> UserPage(kernel, q)
    requires OthersKept(m, o, mem1, owner1, kernel, pd) && InUseKept(o, owner1)
    requires View(mem1, kernel, pd) == GrownTo(View(m, kernel, pd), first, page)
    ensures OthersKept(m, o, mem, owner, kernel, pd) && InUseKept(o, owner)
    ensures View(mem, kernel, pd) == GrownTo(View(m, kernel, pd), first, page + 1)
    ensures Mapped(mem, kernel, pd, page) && forall q: nat :: Mapped(mem1, kernel, pd, q) ==> Mapped(mem, kernel, pd, q)
    ensures Need(mem1, pd, page, to) == Cost(mem1, pd, page) + Need(mem, pd, page + 1, to)
  {
    hide View, Need, Cost, Entry, PageEntry, UserPage, Grown, GrownTo, OthersKept, InUseKept, AddressOf;
    GrownMore(View(m, kernel, pd), first, page);
    OthersTwice(m, o, mem1, owner1, mem, owner, kernel, pd);
    NeedNext(mem1, mem, pd, page, to);
  }

  /** The pages of [from, to) that had no frame are the process's to read and write. */
  ghost predicate NewWritable(m: Memory, mem: Memory, kernel: seq<Word>, pd: Frame, from: nat, to: nat) {
    forall q: nat :: from <= q < to && UserPage(kernel, q) && FrameOf(m, pd, q) == 0 ==> UserWritable(mem, pd, q)
  }

  /** The other pages, and those that had one, have the entry they had. */
  ghost predicate PagesKept(m: Memory, mem: Memory, kernel: seq<Word>, pd: Frame, from: nat, to: nat) {
    forall q: nat :: UserPage(kernel, q) && (q < from || q >= to || FrameOf(m, pd, q) != 0) ==>
      PageEntry(mem, pd, q) == PageEntry(m, pd, q)
  }

  lemma NothingNew(m: Memory, kernel: seq<Word>, pd: Frame, first: nat)
    ensures NewWritable(m, m, kernel, pd, first, first) && PagesKept(m, m, kernel, pd, first, first)
  {
  }

  lemma NewAtEnd(m: Memory, mem: Memory, kernel: seq<Word>, pd: Frame, first: nat, page: nat, last: nat)
    requires page == last + 1 || (page == first && last < first)
    requires NewWritable(m, mem, kernel, pd, first, page) && PagesKept(m, mem, kernel, pd, first, page)
    ensures NewWritable(m, mem, kernel, pd, first, last + 1) && PagesKept(m, mem, kernel, pd, first, last + 1)
  {
    hide UserWritable, UserPage, FrameOf, PageEntry;
  }

  lemma RightsKept(mem: Memory, owner: Owners, mem': Memory, owner': Owners, kernel: seq<Word>, pd: Frame, page: nat,
                   q: nat)
    requires HasPage(mem, owner, mem', owner', kernel, pd, page) && UserPage(kernel, q) && q != page
    ensures UserWritable(mem, pd, q) ==> UserWritable(mem', pd, q)
  {
    hide Bit, Entry, PageEntry, Mapped, View;
  }

  lemma WritableStep(m: Memory, mem: Memory, owner: Owners, mem': Memory, owner': Owners, kernel: seq<Word>, pd: Frame,
                     first: nat, page: nat)
    requires HasPage(mem, owner, mem', owner', kernel, pd, page) && first <= page && UserPage(kernel, page)
    requires NewWritable(m, mem, kernel, pd, first, page) && PagesKept(m, mem, kernel, pd, first, page)
    requires FrameOf(mem, pd, page) != 0 ==> mem' == mem
    requires FrameOf(mem, pd, page) == 0 ==> UserWritable(mem', pd, page)
    ensures NewWritable(m, mem', kernel, pd, first, page + 1) && PagesKept(m, mem', kernel, pd, first, page + 1)
  {
    hide UserWritable, HasPage, UserPage, PageEntry, AddressOf;
    HasPageFacts(mem, owner, mem', owner', kernel, pd, page);
    assert FrameOf(mem, pd, page) == FrameOf(m, pd, page);
    forall q: nat | first <= q < page && UserPage(kernel, q)
      ensures UserWritable(mem, pd, q) ==> UserWritable(mem', pd, q)
    {
      RightsKept(mem, owner, mem', owner', kernel, pd, page, q);
    }
  }

  /** unsafe_brk's loop before `page`, having taken `taken` frames. */
  ghost predicate Progress(m: Memory, o: Owners, mem: Memory, owner: Owners, kernel: seq<Word>, pd: Frame, first: nat,
                           page: nat, last: nat, taken: int) {
    && first <= page && (forall q: nat :: first <= q < page ==> Mapped(mem, kernel, pd, q))
    && View(mem, kernel, pd) == GrownTo(View(m, kernel, pd), first, page)
    && OthersKept(m, o, mem, owner, kernel, pd) && InUseKept(o, owner)
    && NewWritable(m, mem, kernel, pd, first, page) && PagesKept(m, mem, kernel, pd, first, page)
    && taken == Need(m, pd, first, last + 1) - Need(mem, pd, page, last + 1)
  }

  lemma ProgressNone(m: Memory, o: Owners, kernel: seq<Word>, pd: Frame, first: nat, last: nat)
    ensures Progress(m, o, m, o, kernel, pd, first, first, last, 0)
  {
    hide View, Need, GrownTo, OthersKept, InUseKept, NewWritable, PagesKept;
    GrowsNothing(m, o, kernel, pd, first);
    NothingNew(m, kernel, pd, first);
  }

  lemma ProgressRoom(m: Memory, o: Owners, mem: Memory, owner: Owners, kernel: seq<Word>, pd: Frame, first: nat,
                     page: nat, last: nat, taken: int)
    requires Progress(m, o, mem, owner, kernel, pd, first, page, last, taken) && page <= last
    ensures Cost(mem, pd, page) + taken <= Need(m, pd, first, last + 1)
  {
    hide View, Need, GrownTo, OthersKept, InUseKept, NewWritable, PagesKept, Cost;
    NeedFirst(mem, pd, page, last + 1);
  }

  lemma ProgressStep(m: Memory, o: Owners, mem: Memory, owner: Owners, mem': Memory, owner': Owners, kernel: seq<Word>,
                     pd: Frame, first: nat, page: nat, last: nat, taken: int)
    requires Progress(m, o, mem, owner, kernel, pd, first, page, last, taken - Cost(mem, pd, page)) && page <= last
    requires HasPage(mem, owner, mem', owner', kernel, pd, page)
    requires forall q: nat :: page <= q <= last ==> UserPage(kernel, q)
    requires FrameOf(mem, pd, page) != 0 ==> mem' == mem
    requires FrameOf(mem, pd, page) == 0 ==> UserWritable(mem', pd, page)
    ensures Progress(m, o, mem', owner', kernel, pd, first, page + 1, last, taken)
  {
    hide View, Need, GrownTo, OthersKept, InUseKept, NewWritable, PagesKept, Cost, HasPage, FrameOf, UserPage, Mapped,
        UserWritable;
    WritableStep(m, mem, owner, mem', owner', kernel, pd, first, page);
    ReserveStep(m, o, mem, owner, mem', owner', kernel, pd, first, page, last + 1);
  }

  lemma ProgressEnd(m: Memory, o: Owners, mem: Memory, owner: Owners, kernel: seq<Word>, pd: Frame, first: nat,
                    page: nat, last: nat, taken: int)
    requires Progress(m, o, mem, owner, kernel, pd, first, page, last, taken)
    requires page == last + 1 || (page == first && last < first)
    ensures View(mem, kernel, pd) == GrownTo(View(m, kernel, pd), first, last + 1)
    ensures OthersKept(m, o, mem, owner, kernel, pd) && InUseKept(o, owner)
    ensures NewWritable(m, mem, kernel, pd, first, last + 1) && PagesKept(m, mem, kernel, pd, first, last + 1)
    ensures taken == Need(m, pd, first, last + 1)
    ensures forall q: nat :: first <= q <= last ==> Mapped(mem, kernel, pd, q)
  {
    hide View, Need, GrownTo, OthersKept, InUseKept, NewWritable, PagesKept, Mapped;
    AtEnd(m, o, mem, owner, kernel, pd, first, page, last);
    NewAtEnd(m, mem, kernel, pd, first, page, last);
  }

  lemma AtEnd(m: Memory, o: Owners, mem: Memory, owner: Owners, kernel: seq<Word>, pd: Frame, first: nat, page: nat,
              last: nat)
    requires page == last + 1 || (page == first && last < first)
    requires View(mem, kernel, pd) == GrownTo(View(m, kernel, pd), first, page)
    ensures View(mem, kernel, pd) == GrownTo(View(m, kernel, pd), first, last + 1)
    ensures Need(mem, pd, page, last + 1) == 0
  {
    hide View, Unmapped, EmptyEntries;
  }

  lemma BreakPages(mem: Memory, kernel: seq<Word>, pd: Frame, vbreak: Word, curBreak: Word, v: Word)
    requires forall a: nat :: vbreak <= a < curBreak ==> Mapped(mem, kernel, pd, PageOf(a))
    requires forall q: nat :: PageOf(curBreak) <= q <= PageOf(v) ==> Mapped(mem, kernel, pd, q)
    ensures forall a: nat :: vbreak <= a < v ==> Mapped(mem, kernel, pd, PageOf(a))
  {
    hide Mapped;
    forall a: nat | vbreak <= a < v ensures Mapped(mem, kernel, pd, PageOf(a)) {
      if a >= curBreak {
        assert PageOf(curBreak) <= PageOf(a) <= PageOf(v);
      }
    }
  }

  lemma BreakPage(mem: Memory, kernel: seq<Word>, pd: Frame, vbreak: Word, curBreak: Word, v: Word)
    requires forall a: nat :: vbreak <= a < curBreak ==> Mapped(mem, kernel, pd, PageOf(a))
    requires forall q: nat :: PageOf(curBreak) <= q <= PageOf(v) ==> Mapped(mem, kernel, pd, q)
    requires vbreak <= v
    ensures Mapped(mem, kernel, pd, PageOf(v)) && v - v % PAGE_SIZE == PageOf(v - v % PAGE_SIZE) * PAGE_SIZE
    ensures PageOf(v - v % PAGE_SIZE) == PageOf(v)
  {
    hide Mapped;
    if v >= curBreak {
      assert PageOf(curBreak) <= PageOf(v);
    }
  }

  lemma SpanReaches(mem: Memory, kernel: seq<Word>, pd: Frame, vfrom: Word, vto: Word, to: Word)
    requires Spanned(mem, kernel, pd, vfrom, vto) && to == PageOf(to) * PAGE_SIZE && Mapped(mem, kernel, pd, PageOf(to))
    ensures to <= vto
  {
    hide Mapped;
  }

  // Forking.

  lemma HasDir(mem: Memory, owner: Owners, free: seq<Frame>, kernel: seq<Word>, pd: Frame)
    requires Inv(mem, owner, kernel) && Owned(owner, pd, Dir) && |free| >= |FramesOf(owner, pd)|
    ensures free != []
  {
    hide OwnerOk;
    SmallerSet({pd}, FramesOf(owner, pd));
  }

  /** The new directory is no part of any other address space. */
  lemma ForkDir(m: Memory, o: Owners, mem: Memory, kernel: seq<Word>, pd: Frame, child: Frame)
    requires Inv(m, o, kernel) && Owned(o, pd, Dir) && Owned(o, child, Free) && Kept(m, o, mem)
    ensures child != pd && FramesOf(o[child := Dir], pd) == FramesOf(o, pd) && Owned(o[child := Dir], pd, Dir)
    ensures forall d :: Owned(o, d, Dir) ==> View(mem, kernel, d) == View(m, kernel, d)
  {
    hide OwnerOk, View;
    forall d | Owned(o, d, Dir) ensures View(mem, kernel, d) == View(m, kernel, d) {
      KeptView(m, o, mem, o[child := Dir], kernel, d);
    }
  }

  lemma ForkDone(m: Memory, o: Owners, m1: Memory, o1: Owners, mem: Memory, owner: Owners, kernel: seq<Word>,
                 pd: Frame, child: Frame,
                 vbreak: Word, curBreak: Word, vfrom: Word, vto: Word)
    requires Inv(m, o, kernel) && Inv(mem, owner, kernel) && Owned(o, pd, Dir)
    requires o1 == o[child := Dir] && Owned(o, child, Free)
    requires KeptBut(m1, o1, mem, owner, child) && Owned(owner, child, Dir) && o1.Keys <= m1.Keys
    requires forall d :: Owned(o, d, Dir) ==> View(m1, kernel, d) == View(m, kernel, d)
    requires forall d :: Owned(o1, d, Dir) && d != child ==> View(mem, kernel, d) == View(m1, kernel, d)
    requires View(mem, kernel, child) == View(m1, kernel, pd)
    requires forall a: nat :: vbreak <= a < curBreak ==> Mapped(m, kernel, pd, PageOf(a))
    requires Spanned(m, kernel, pd, vfrom, vto)
    ensures forall d :: Owned(o, d, Dir) ==> Owned(owner, d, Dir) && View(mem, kernel, d) == View(m, kernel, d)
    ensures View(mem, kernel, child) == View(m, kernel, pd) && Owned(owner, pd, Dir)
    ensures forall a: nat :: vbreak <= a < curBreak ==>
              Mapped(mem, kernel, pd, PageOf(a)) && Mapped(mem, kernel, child, PageOf(a))
    ensures Spanned(mem, kernel, pd, vfrom, vto) && Spanned(mem, kernel, child, vfrom, vto)
  {
    hide OwnerOk, View, Mapped;
    forall d | Owned(o, d, Dir) ensures Owned(owner, d, Dir) && View(mem, kernel, d) == View(m, kernel, d) {
      assert Owned(o1, d, Dir) && d in m1 && d != child;
    }
    MappedByView(m, mem, kernel, pd, pd);
    MappedByView(m, mem, kernel, pd, child);
  }

  /** Equal flags at both levels are equal rights. */
  lemma SameRights(mem: Memory, kernel: seq<Word>, pd: Frame, d: Frame)
    requires forall page: nat :: UserPage(kernel, page) ==>
               SameSlot(mem, PageEntry(mem, pd, page), PageEntry(mem, d, page))
    requires forall i: nat :: i < LENGTH && !KernelEntry(kernel, i) ==>
               FlagsOf(Entry(mem, d, i)) == FlagsOf(Entry(mem, pd, i))
    ensures forall page: nat, k: nat :: UserPage(kernel, page) ==>
              (Rights(mem, d, page, k) <==> Rights(mem, pd, page, k))
  {
    hide Bit, Entry, PageEntry, AddressOf, KernelEntry;
    forall page: nat, k: nat | UserPage(kernel, page) ensures Rights(mem, d, page, k) <==> Rights(mem, pd, page, k) {
      IndexParts(page);
      assert SameSlot(mem, PageEntry(mem, pd, page), PageEntry(mem, d, page));
    }
  }

  /** The pages of a flat memory are those of its addresses. */
  lemma MappedByView(m: Memory, mem: Memory, kernel: seq<Word>, pd: Frame, d: Frame)
    requires View(mem, kernel, d) == View(m, kernel, pd)
    ensures forall page: nat :: Mapped(mem, kernel, d, page) <==> Mapped(m, kernel, pd, page)
  {
    hide FrameOf, ByteAt, KernelEntry;
    forall page: nat ensures Mapped(mem, kernel, d, page) <==> Mapped(m, kernel, pd, page) {
      var v := page * PAGE_SIZE;
      assert PageOf(v) == page;
      assert v in View(mem, kernel, d) <==> v in View(m, kernel, pd);
    }
  }
}
