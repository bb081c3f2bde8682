/** Who owns each page frame, and the virtual memory a page directory describes: what
    kernel/arch/i386/palloc.c, kernel/arch/i386/paging/core.c and kernel/arch/i386/proc.c keep
    between calls, stated over the bytes of the frames. */
module AddressSpaces {
  import opened Base
  import opened Pages

  type Memory = map<Frame, Page>

  /** What a frame palloc has been given is used for. `Taken` frames are in the hands of a caller:
      palloc has returned them and nothing points at them yet. */
  datatype Owner =
    | Free
    | Taken
    | Dir
    | Table(pd: Frame, i: nat)
    | Data(pd: Frame, i: nat, j: nat)

  type Owners = map<Frame, Owner>

  ghost predicate FramesOk(mem: Memory) {
    forall f :: f in mem ==> f % PAGE_SIZE == 0 && 0 < f < WORDS && |mem[f]| == PAGE_SIZE
  }

  /** Word `i` of frame `f`. */
  function Entry(mem: Memory, f: Frame, i: nat): Word {
    if f in mem && |mem[f]| == PAGE_SIZE && i < LENGTH then WordAt(mem[f], i) else 0
  }

  /** paging_get_entry: the table entry the two levels of `pd` lead to. */
  function Pte(mem: Memory, pd: Frame, i: nat, j: nat): Word {
    if AddressOf(Entry(mem, pd, i)) == 0 then 0 else Entry(mem, AddressOf(Entry(mem, pd, i)), j)
  }

  predicate Owned(owner: Owners, f: Frame, o: Owner) {
    f in owner && owner[f] == o
  }

  /** Directory entry `i` belongs to the kernel. */
  predicate KernelEntry(kernel: seq<Word>, i: nat) {
    i < |kernel| && Global(kernel[i])
  }

  /** A directory has the kernel's global entries; its others are empty or lead to its own tables. */
  ghost predicate DirOk(mem: Memory, owner: Owners, kernel: seq<Word>, pd: Frame) {
    forall i {:trigger Entry(mem, pd, i)} :: 0 <= i < LENGTH ==>
      var w := Entry(mem, pd, i);
      if KernelEntry(kernel, i) then w == kernel[i]
      else w == 0 || (Present(w) && !Global(w) && Owned(owner, AddressOf(w), Table(pd, i)))
  }

  ghost predicate TableEntryOk(owner: Owners, w: Word, pd: Frame, i: nat, j: nat) {
    w == 0 || (Present(w) && !Global(w) && Owned(owner, AddressOf(w), Data(pd, i, j)))
  }

  /** Table `t` is entry `i` of the live directory `pd`; its entries are empty or lead to its own pages. */
  ghost predicate TableOk(mem: Memory, owner: Owners, kernel: seq<Word>, t: Frame, pd: Frame, i: nat) {
    && i < LENGTH && !KernelEntry(kernel, i) && Owned(owner, pd, Dir) && AddressOf(Entry(mem, pd, i)) == t
    && (forall j {:trigger Entry(mem, t, j)} :: 0 <= j < LENGTH ==> TableEntryOk(owner, Entry(mem, t, j), pd, i, j))
  }

  ghost predicate DataOk(mem: Memory, owner: Owners, f: Frame, pd: Frame, i: nat, j: nat) {
    && i < LENGTH && j < LENGTH
    && Owned(owner, AddressOf(Entry(mem, pd, i)), Table(pd, i))
    && AddressOf(Entry(mem, AddressOf(Entry(mem, pd, i)), j)) == f
  }

  ghost predicate OwnerOk(mem: Memory, owner: Owners, kernel: seq<Word>, f: Frame, o: Owner) {
    match o
    case Dir => DirOk(mem, owner, kernel, f)
    case Table(pd, i) => TableOk(mem, owner, kernel, f, pd, i)
    case Data(pd, i, j) => DataOk(mem, owner, f, pd, i, j)
    case _ => true
  }

  /** Every frame has one owner, and the page structures and the owners say the same. */
  ghost predicate Inv(mem: Memory, owner: Owners, kernel: seq<Word>) {
    && |kernel| == LENGTH && FramesOk(mem) && owner.Keys <= mem.Keys
    && (forall f :: f in owner ==> OwnerOk(mem, owner, kernel, f, owner[f]))
  }

  // The flat virtual memory.

  function PageOf(v: nat): nat { v / PAGE_SIZE }
  function DirIndex(page: nat): nat { page / LENGTH }
  function TableIndex(page: nat): nat { page % LENGTH }

  function PageEntry(mem: Memory, pd: Frame, page: nat): Word {
    Pte(mem, pd, DirIndex(page), TableIndex(page))
  }

  /** The frame behind a virtual page, or 0. */
  function FrameOf(mem: Memory, pd: Frame, page: nat): Frame {
    AddressOf(PageEntry(mem, pd, page))
  }

  /** The page lies outside the kernel's directory entries. */
  predicate UserPage(kernel: seq<Word>, page: nat) {
    page < PAGES && !KernelEntry(kernel, DirIndex(page))
  }

  ghost predicate Mapped(mem: Memory, kernel: seq<Word>, pd: Frame, page: nat) {
    UserPage(kernel, page) && FrameOf(mem, pd, page) != 0
  }

  function ByteAt(mem: Memory, pd: Frame, v: nat): Byte {
    var f := FrameOf(mem, pd, PageOf(v));
    if f in mem && |mem[f]| == PAGE_SIZE then mem[f][v % PAGE_SIZE] else 0
  }

  /** The bytes of every mapped user address. */
  ghost function View(mem: Memory, kernel: seq<Word>, pd: Frame): map<nat, Byte> {
    map v: nat | v < PAGES * PAGE_SIZE && Mapped(mem, kernel, pd, PageOf(v)) :: ByteAt(mem, pd, v)
  }

  lemma IndexParts(page: nat)
    requires page < PAGES
    ensures DirIndex(page) < LENGTH && TableIndex(page) < LENGTH && page == DirIndex(page) * LENGTH + TableIndex(page)
  {
  }

  lemma SameIndex(a: nat, b: nat)
    requires DirIndex(a) == DirIndex(b) && TableIndex(a) == TableIndex(b)
    ensures a == b
  {
  }

  // What owners imply.

  /** A mapped page leads to a frame owned by exactly that slot of exactly that directory. */
  lemma FrameOwned(mem: Memory, owner: Owners, kernel: seq<Word>, pd: Frame, page: nat)
    requires Inv(mem, owner, kernel) && Owned(owner, pd, Dir) && Mapped(mem, kernel, pd, page)
    ensures Owned(owner, FrameOf(mem, pd, page), Data(pd, DirIndex(page), TableIndex(page)))
  {
    IndexParts(page);
    ZeroEntry();
    var i, j := DirIndex(page), TableIndex(page);
    assert OwnerOk(mem, owner, kernel, pd, Dir);
    var t := AddressOf(Entry(mem, pd, i));
    assert Owned(owner, t, Table(pd, i));
    assert OwnerOk(mem, owner, kernel, t, Table(pd, i));
    assert TableEntryOk(owner, Entry(mem, t, j), pd, i, j);
  }

  /** No frame is behind two pages, of one directory or of two. */
  lemma PagesApart(mem: Memory, owner: Owners, kernel: seq<Word>, pd: Frame, page: nat, pd': Frame, page': nat)
    requires Inv(mem, owner, kernel) && Owned(owner, pd, Dir) && Owned(owner, pd', Dir)
    requires Mapped(mem, kernel, pd, page) && Mapped(mem, kernel, pd', page')
    requires FrameOf(mem, pd, page) == FrameOf(mem, pd', page')
    ensures pd == pd' && page == page'
  {
    FrameOwned(mem, owner, kernel, pd, page);
    FrameOwned(mem, owner, kernel, pd', page');
    SameIndex(page, page');
  }

  // What the operations do to frames and owners.

  function Role(owner: Owners, f: Frame): Owner {
    if f in owner then owner[f] else Free
  }

  predicate InUse(o: Owner) {
    o.Dir? || o.Table? || o.Data?
  }

  /** Only frames outside the page structures change hands, and the structures are not written. */
  ghost predicate Untouched(mem: Memory, owner: Owners, mem': Memory, owner': Owners) {
    && owner'.Keys <= mem'.Keys
    && (forall f :: InUse(Role(owner, f)) || InUse(Role(owner', f)) ==> Role(owner', f) == Role(owner, f))
    && (forall f :: f in mem && (Role(owner, f).Dir? || Role(owner, f).Table?) ==> f in mem' && mem'[f] == mem[f])
  }

  lemma UntouchedKeeps(mem: Memory, owner: Owners, mem': Memory, owner': Owners, kernel: seq<Word>)
    requires Inv(mem, owner, kernel) && FramesOk(mem') && Untouched(mem, owner, mem', owner')
    ensures Inv(mem', owner', kernel)
  {
    forall f | f in owner' ensures OwnerOk(mem', owner', kernel, f, owner'[f]) {
      if InUse(owner'[f]) {
        UntouchedFrame(mem, owner, mem', owner', kernel, f);
      }
    }
  }

  lemma UntouchedOwned(mem: Memory, owner: Owners, mem': Memory, owner': Owners, f: Frame, o: Owner)
    requires Untouched(mem, owner, mem', owner') && Owned(owner, f, o) && InUse(o) && f in mem
    ensures Owned(owner', f, o)
    ensures !o.Data? ==> forall i: nat :: Entry(mem', f, i) == Entry(mem, f, i)
  {
    assert Role(owner, f) == o;
  }

  lemma UntouchedFrame(mem: Memory, owner: Owners, mem': Memory, owner': Owners, kernel: seq<Word>, f: Frame)
    requires Inv(mem, owner, kernel) && Untouched(mem, owner, mem', owner')
    requires f in owner' && InUse(owner'[f])
    ensures OwnerOk(mem', owner', kernel, f, owner'[f])
  {
    assert Role(owner', f) == Role(owner, f);
    var o := owner[f];
    assert OwnerOk(mem, owner, kernel, f, o);
    UntouchedOwned(mem, owner, mem', owner', f, o);
    hide Untouched, Present, Global, KernelEntry, AddressOf;
    match o
    case Dir =>
      forall i: nat | i < LENGTH && Owned(owner, AddressOf(Entry(mem, f, i)), Table(f, i))
          ensures Owned(owner', AddressOf(Entry(mem, f, i)), Table(f, i)) {
        UntouchedOwned(mem, owner, mem', owner', AddressOf(Entry(mem, f, i)), Table(f, i));
      }
    case Table(pd, i) =>
      UntouchedOwned(mem, owner, mem', owner', pd, Dir);
      forall j: nat | j < LENGTH ensures TableEntryOk(owner', Entry(mem', f, j), pd, i, j) {
        assert TableEntryOk(owner, Entry(mem, f, j), pd, i, j);
        if Entry(mem, f, j) != 0 {
          UntouchedOwned(mem, owner, mem', owner', AddressOf(Entry(mem, f, j)), Data(pd, i, j));
        }
      }
    case Data(pd, i, j) =>
      var t := AddressOf(Entry(mem, pd, i));
      assert OwnerOk(mem, owner, kernel, t, Table(pd, i));
      UntouchedOwned(mem, owner, mem', owner', pd, Dir);
      UntouchedOwned(mem, owner, mem', owner', t, Table(pd, i));
    case _ =>
  }

  /** Memory with word `i` of frame `f` written. */
  function SetEntry(mem: Memory, f: Frame, i: nat, w: Word): Memory
    requires f in mem && |mem[f]| == PAGE_SIZE && i < LENGTH
  {
    mem[f := WithWord(mem[f], i, w)]
  }

  lemma SetEntryAt(mem: Memory, f: Frame, i: nat, w: Word)
    requires f in mem && |mem[f]| == PAGE_SIZE && i < LENGTH
    ensures var mem' := SetEntry(mem, f, i, w);
            forall g: Frame, k: nat :: Entry(mem', g, k) == if g == f && k == i then w else Entry(mem, g, k)
  {
    hide WordAt;
    var mem' := SetEntry(mem, f, i, w);
    forall g: Frame, k: nat ensures Entry(mem', g, k) == if g == f && k == i then w else Entry(mem, g, k) {
      if g == f && k < LENGTH {
        WithWordAt(mem[f], i, w, k);
      }
    }
  }

  lemma SetEntryFrames(mem: Memory, f: Frame, i: nat, w: Word)
    requires FramesOk(mem) && f in mem && i < LENGTH
    ensures FramesOk(SetEntry(mem, f, i, w))
  {
  }

  /** The entry leads a user page to `p`. */
  predicate LeadsTo(w: Word, p: Frame) {
    AddressOf(w) == p && Present(w) && !Global(w)
  }

  /** The owners once a table entry leads to `p`; the frame it led to before is back with the caller. */
  function MapOwners(mem: Memory, owner: Owners, t: Frame, pd: Frame, i: nat, j: nat, p: Frame): Owners {
    var before := AddressOf(Entry(mem, t, j));
    if before == 0 then owner[p := Data(pd, i, j)] else owner[p := Data(pd, i, j)][before := Taken]
  }

  /** Writing a table entry to lead to a frame in the caller's hands. */
  lemma MapKeeps(mem: Memory, owner: Owners, kernel: seq<Word>, pd: Frame, i: nat, j: nat, t: Frame, p: Frame, w: Word)
    requires Inv(mem, owner, kernel) && Owned(owner, t, Table(pd, i)) && j < LENGTH
    requires Owned(owner, p, Taken) && LeadsTo(w, p)
    ensures Inv(SetEntry(mem, t, j, w), MapOwners(mem, owner, t, pd, i, j, p), kernel)
  {
    var before := AddressOf(Entry(mem, t, j));
    var mem', owner' := SetEntry(mem, t, j, w), MapOwners(mem, owner, t, pd, i, j, p);
    SetEntryAt(mem, t, j, w);
    SetEntryFrames(mem, t, j, w);
    ZeroEntry();
    assert OwnerOk(mem, owner, kernel, t, Table(pd, i));
    assert TableEntryOk(owner, Entry(mem, t, j), pd, i, j);
    hide SetEntry, Present, Global, KernelEntry, AddressOf, Entry;
    forall f | f in owner' ensures OwnerOk(mem', owner', kernel, f, owner'[f]) {
      if f != p && f != before {
        assert OwnerOk(mem, owner, kernel, f, owner[f]);
        match owner[f]
        case Table(pd', i') => MapOtherTable(mem, owner, kernel, pd, i, j, t, p, w, f);
        case Data(pd', i', j') => MapOtherData(mem, owner, kernel, pd, i, j, t, p, w, f);
        case Dir => MapOtherDir(mem, owner, kernel, pd, i, j, t, p, w, f);
        case _ =>
      }
    }
  }

  lemma MapOtherTable(mem: Memory, owner: Owners, kernel: seq<Word>, pd: Frame, i: nat, j: nat, t: Frame, p: Frame,
                      w: Word, f: Frame)
    requires Inv(mem, owner, kernel) && Owned(owner, t, Table(pd, i)) && j < LENGTH
    requires Owned(owner, p, Taken) && LeadsTo(w, p)
    requires f in owner && owner[f].Table?
    ensures OwnerOk(SetEntry(mem, t, j, w), MapOwners(mem, owner, t, pd, i, j, p), kernel, f, owner[f])
  {
    var mem', owner' := SetEntry(mem, t, j, w), MapOwners(mem, owner, t, pd, i, j, p);
    SetEntryAt(mem, t, j, w);
    assert OwnerOk(mem, owner, kernel, t, Table(pd, i));
    assert TableEntryOk(owner, Entry(mem, t, j), pd, i, j);
    assert OwnerOk(mem, owner, kernel, f, owner[f]);
    var pd', i' := owner[f].pd, owner[f].i;
    hide SetEntry, Present, Global, KernelEntry, AddressOf, Entry;
    forall k: nat | k < LENGTH ensures TableEntryOk(owner', Entry(mem', f, k), pd', i', k) {
      assert TableEntryOk(owner, Entry(mem, f, k), pd', i', k);
    }
  }

  lemma MapOtherData(mem: Memory, owner: Owners, kernel: seq<Word>, pd: Frame, i: nat, j: nat, t: Frame, p: Frame,
                     w: Word, f: Frame)
    requires Inv(mem, owner, kernel) && Owned(owner, t, Table(pd, i)) && j < LENGTH
    requires Owned(owner, p, Taken) && LeadsTo(w, p)
    requires f in owner && owner[f].Data? && f != AddressOf(Entry(mem, t, j))
    ensures OwnerOk(SetEntry(mem, t, j, w), MapOwners(mem, owner, t, pd, i, j, p), kernel, f, owner[f])
  {
    SetEntryAt(mem, t, j, w);
    assert OwnerOk(mem, owner, kernel, t, Table(pd, i));
    assert TableEntryOk(owner, Entry(mem, t, j), pd, i, j);
    assert OwnerOk(mem, owner, kernel, f, owner[f]);
    var t' := AddressOf(Entry(mem, owner[f].pd, owner[f].i));
    assert OwnerOk(mem, owner, kernel, t', Table(owner[f].pd, owner[f].i));
    ZeroEntry();
    hide SetEntry, Present, Global, KernelEntry, AddressOf, Entry;
  }

  lemma MapOtherDir(mem: Memory, owner: Owners, kernel: seq<Word>, pd: Frame, i: nat, j: nat, t: Frame, p: Frame,
                    w: Word, f: Frame)
    requires Inv(mem, owner, kernel) && Owned(owner, t, Table(pd, i)) && j < LENGTH
    requires Owned(owner, p, Taken) && LeadsTo(w, p)
    requires f in owner && owner[f] == Dir
    ensures OwnerOk(SetEntry(mem, t, j, w), MapOwners(mem, owner, t, pd, i, j, p), kernel, f, Dir)
  {
    SetEntryAt(mem, t, j, w);
    assert OwnerOk(mem, owner, kernel, t, Table(pd, i));
    assert TableEntryOk(owner, Entry(mem, t, j), pd, i, j);
    assert OwnerOk(mem, owner, kernel, f, owner[f]);
    ZeroEntry();
    hide SetEntry, Present, Global, KernelEntry, AddressOf, Entry;
  }

  /** Writing a directory entry: a first table, or more flags on the table it has. */
  lemma TableKeeps(mem: Memory, owner: Owners, kernel: seq<Word>, pd: Frame, i: nat, t: Frame, w: Word)
    requires Inv(mem, owner, kernel) && Owned(owner, pd, Dir) && i < LENGTH && !KernelEntry(kernel, i) && LeadsTo(w, t)
    requires if Entry(mem, pd, i) == 0 then Owned(owner, t, Taken) && mem[t] == Zeros()
             else AddressOf(Entry(mem, pd, i)) == t
    ensures Inv(SetEntry(mem, pd, i, w), owner[t := Table(pd, i)], kernel)
  {
    hide OwnerOk, SetEntry, LeadsTo, KernelEntry, AddressOf, Entry;
    var mem', owner' := SetEntry(mem, pd, i, w), owner[t := Table(pd, i)];
    SetEntryFrames(mem, pd, i, w);
    SetEntryKeys(mem, pd, i, w);
    TableWas(mem, owner, kernel, pd, i, t);
    forall f | f in owner' ensures OwnerOk(mem', owner', kernel, f, owner'[f]) {
      if f == t && Entry(mem, pd, i) == 0 {
        NewTableOk(mem, owner, kernel, pd, i, t, w);
      } else if InUse(owner[f]) {
        TableOthers(mem, owner, kernel, pd, i, t, w, f);
      } else {
        assert OwnerOk(mem', owner', kernel, f, owner[f]) by {
          IdleOk(mem', owner', kernel, f, owner[f]);
        }
      }
    }
  }

  lemma SetEntryKeys(mem: Memory, f: Frame, i: nat, w: Word)
    requires f in mem && |mem[f]| == PAGE_SIZE && i < LENGTH
    ensures SetEntry(mem, f, i, w).Keys == mem.Keys
  {
  }

  lemma IdleOk(mem: Memory, owner: Owners, kernel: seq<Word>, f: Frame, o: Owner)
    requires !InUse(o)
    ensures OwnerOk(mem, owner, kernel, f, o)
  {
  }

  lemma TableWas(mem: Memory, owner: Owners, kernel: seq<Word>, pd: Frame, i: nat, t: Frame)
    requires Inv(mem, owner, kernel) && Owned(owner, pd, Dir) && i < LENGTH && !KernelEntry(kernel, i)
    requires Entry(mem, pd, i) != 0 ==> AddressOf(Entry(mem, pd, i)) == t
    ensures Entry(mem, pd, i) != 0 ==> Owned(owner, t, Table(pd, i))
  {
    assert OwnerOk(mem, owner, kernel, pd, Dir);
  }

  lemma NewTableOk(mem: Memory, owner: Owners, kernel: seq<Word>, pd: Frame, i: nat, t: Frame, w: Word)
    requires Inv(mem, owner, kernel) && Owned(owner, pd, Dir) && i < LENGTH && !KernelEntry(kernel, i) && LeadsTo(w, t)
    requires Owned(owner, t, Taken) && mem[t] == Zeros()
    ensures OwnerOk(SetEntry(mem, pd, i, w), owner[t := Table(pd, i)], kernel, t, Table(pd, i))
  {
    SetEntryAt(mem, pd, i, w);
    forall k: nat | k < LENGTH ensures Entry(mem, t, k) == 0 {
      ZeroWords(k);
    }
    hide SetEntry, Present, Global, KernelEntry, AddressOf, Entry, FramesOk;
  }

  lemma TableOthers(mem: Memory, owner: Owners, kernel: seq<Word>, pd: Frame, i: nat, t: Frame, w: Word, f: Frame)
    requires Inv(mem, owner, kernel) && Owned(owner, pd, Dir) && i < LENGTH && !KernelEntry(kernel, i) && LeadsTo(w, t)
    requires if Entry(mem, pd, i) == 0 then Owned(owner, t, Taken) else AddressOf(Entry(mem, pd, i)) == t
    requires f in owner && InUse(owner[f])
    ensures OwnerOk(SetEntry(mem, pd, i, w), owner[t := Table(pd, i)], kernel, f, owner[f])
  {
    var mem', owner' := SetEntry(mem, pd, i, w), owner[t := Table(pd, i)];
    SetEntryAt(mem, pd, i, w);
    assert OwnerOk(mem, owner, kernel, pd, Dir);
    assert OwnerOk(mem, owner, kernel, f, owner[f]);
    ZeroEntry();
    hide SetEntry, Present, Global, KernelEntry, AddressOf, Entry, FramesOk;
    assert forall g, o :: Owned(owner, g, o) && o != Taken ==> Owned(owner', g, o);
    match owner[f]
    case Dir =>
    case Table(pd', i') =>
      forall k: nat | k < LENGTH ensures TableEntryOk(owner', Entry(mem', f, k), pd', i', k) {
        assert TableEntryOk(owner, Entry(mem, f, k), pd', i', k);
      }
    case Data(pd', i', j') =>
      assert OwnerOk(mem, owner, kernel, AddressOf(Entry(mem, pd', i')), Table(pd', i'));
    case _ =>
  }

  /** A frame that holds just the kernel's entries becomes a directory. */
  lemma DirKeeps(mem: Memory, owner: Owners, kernel: seq<Word>, pd: Frame)
    requires Inv(mem, owner, kernel) && Owned(owner, pd, Taken)
    requires forall i: nat :: i < LENGTH ==> Entry(mem, pd, i) == if KernelEntry(kernel, i) then kernel[i] else 0
    ensures Inv(mem, owner[pd := Dir], kernel)
  {
    hide Present, Global, KernelEntry, AddressOf, Entry, FramesOk;
    var owner' := owner[pd := Dir];
    assert forall g, o :: Owned(owner, g, o) && o != Taken ==> Owned(owner', g, o);
    forall f | f in owner' ensures OwnerOk(mem, owner', kernel, f, owner'[f]) {
      if f != pd {
        assert OwnerOk(mem, owner, kernel, f, owner[f]);
        match owner[f]
        case Table(pd', i') =>
          forall k: nat | k < LENGTH ensures TableEntryOk(owner', Entry(mem, f, k), pd', i', k) {
            assert TableEntryOk(owner, Entry(mem, f, k), pd', i', k);
          }
        case _ =>
      }
    }
  }

  /** The frame is `pd` itself, one of its tables or one of its pages. */
  predicate PartOf(f: Frame, o: Owner, pd: Frame) {
    match o
    case Dir => f == pd
    case Table(pd', _) => pd' == pd
    case Data(pd', _, _) => pd' == pd
    case _ => false
  }

  /** Everything the address space of `pd` took from palloc. */
  ghost function FramesOf(owner: Owners, pd: Frame): set<Frame> {
    set f | f in owner && PartOf(f, owner[f], pd)
  }

  /** The frames of `pd` handed back to the caller. */
  function Dismantled(owner: Owners, pd: Frame): Owners {
    map f | f in owner :: if PartOf(f, owner[f], pd) then Taken else owner[f]
  }

  lemma DismantleKeeps(mem: Memory, owner: Owners, kernel: seq<Word>, pd: Frame)
    requires Inv(mem, owner, kernel)
    ensures Inv(mem, Dismantled(owner, pd), kernel)
  {
    hide Present, Global, KernelEntry, AddressOf, Entry, FramesOk;
    var owner' := Dismantled(owner, pd);
    assert forall g, o :: Owned(owner, g, o) && !PartOf(g, o, pd) ==> Owned(owner', g, o);
    forall f | f in owner' ensures OwnerOk(mem, owner', kernel, f, owner'[f]) {
      if !PartOf(f, owner[f], pd) {
        assert OwnerOk(mem, owner, kernel, f, owner[f]);
        match owner[f]
        case Table(pd', i') =>
          forall k: nat | k < LENGTH ensures TableEntryOk(owner', Entry(mem, f, k), pd', i', k) {
            assert TableEntryOk(owner, Entry(mem, f, k), pd', i', k);
          }
        case _ =>
      }
    }
  }

  /** The processor grants the right of flag bit `k` on the page: both levels have it. */
  ghost predicate Rights(mem: Memory, pd: Frame, page: nat, k: nat) {
    Bit(FlagsOf(Entry(mem, pd, DirIndex(page))), k) && Bit(FlagsOf(PageEntry(mem, pd, page)), k)
  }

  /** paging_map: `page` of `pd` now has entry `w`, which leads to `p`. No other translation changes,
      of this directory or another, and no byte outside the directory and its one table. */
  ghost predicate MapsOne(mem: Memory, owner: Owners, mem': Memory, owner': Owners, kernel: seq<Word>, pd: Frame,
                          page: nat, p: Frame, w: Word) {
    var i, j, before := DirIndex(page), TableIndex(page), FrameOf(mem, pd, page);
    && PageEntry(mem', pd, page) == w
    && (forall q: nat :: UserPage(kernel, q) && q != page ==> PageEntry(mem', pd, q) == PageEntry(mem, pd, q))
    && Entry(mem', pd, i) != 0 && (forall k: nat :: k != i ==> Entry(mem', pd, k) == Entry(mem, pd, k))
    && Gains(Entry(mem, pd, i), Entry(mem', pd, i), FlagsOf(w))
    && mem'.Keys == mem.Keys && owner'.Keys == owner.Keys
    && Owned(owner', p, Data(pd, i, j))
    && (before != 0 ==> Owned(owner', before, Taken))
    && (forall f :: f in owner && owner[f] != Free && f != p && f != before ==> owner'[f] == owner[f])
    && (forall f :: f in mem && f != pd && !Owned(owner, f, Free) && !Owned(owner, f, Table(pd, i)) ==>
          mem'[f] == mem[f])
  }

  // What others see.

  /** The frames of the address space of `pd` keep their owners and their bytes. */
  ghost predicate SpaceKept(mem: Memory, owner: Owners, mem': Memory, owner': Owners, pd: Frame) {
    forall f :: f in owner && PartOf(f, owner[f], pd) ==>
      Owned(owner', f, owner[f]) && f in mem && f in mem' && mem'[f] == mem[f]
  }

  lemma DirLeads(mem: Memory, owner: Owners, kernel: seq<Word>, pd: Frame, page: nat)
    requires Inv(mem, owner, kernel) && Owned(owner, pd, Dir) && UserPage(kernel, page)
    ensures pd in mem && DirIndex(page) < LENGTH
    ensures var e := Entry(mem, pd, DirIndex(page));
            AddressOf(e) != 0 ==> Owned(owner, AddressOf(e), Table(pd, DirIndex(page)))
  {
    IndexParts(page);
    ZeroEntry();
    assert OwnerOk(mem, owner, kernel, pd, Dir);
  }

  /** An address space is its own frames: kept frames, kept translations and kept bytes. */
  lemma KeptPage(mem: Memory, owner: Owners, mem': Memory, owner': Owners, kernel: seq<Word>, pd: Frame, page: nat)
    requires Inv(mem, owner, kernel) && Owned(owner, pd, Dir)
    requires SpaceKept(mem, owner, mem', owner', pd) && UserPage(kernel, page)
    ensures PageEntry(mem', pd, page) == PageEntry(mem, pd, page)
    ensures Mapped(mem, kernel, pd, page) ==>
              && FrameOf(mem, pd, page) in mem && FrameOf(mem, pd, page) in mem'
              && mem'[FrameOf(mem, pd, page)] == mem[FrameOf(mem, pd, page)]
  {
    DirLeads(mem, owner, kernel, pd, page);
    if Mapped(mem, kernel, pd, page) {
      FrameOwned(mem, owner, kernel, pd, page);
    }
    hide AddressOf, WordAt, OwnerOk;
  }

  lemma KeptView(mem: Memory, owner: Owners, mem': Memory, owner': Owners, kernel: seq<Word>, pd: Frame)
    requires Inv(mem, owner, kernel) && Owned(owner, pd, Dir) && SpaceKept(mem, owner, mem', owner', pd)
    ensures View(mem', kernel, pd) == View(mem, kernel, pd)
  {
    forall page: nat | UserPage(kernel, page)
      ensures PageEntry(mem', pd, page) == PageEntry(mem, pd, page)
      ensures Mapped(mem, kernel, pd, page) ==>
                && FrameOf(mem, pd, page) in mem && FrameOf(mem, pd, page) in mem'
                && mem'[FrameOf(mem, pd, page)] == mem[FrameOf(mem, pd, page)]
    {
      KeptPage(mem, owner, mem', owner', kernel, pd, page);
    }
    hide AddressOf, Pte, OwnerOk, PageEntry;
    assert forall v: nat :: v in View(mem, kernel, pd) <==> v in View(mem', kernel, pd);
  }
}
