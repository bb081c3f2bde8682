/** Page frames as bytes: the 32-bit words in them and the page directory and table entries those
    words encode (kernel/arch/i386/include/arch/paging_types.h, kernel/include/kernel/paging.h). */
module Pages {
  import opened Arithmetic
  import opened Base

  type Word = x: int | 0 <= x < WORDS
  type Frame = Word       // the physical address of a page
  type Page = seq<Byte>   // PAGE_SIZE bytes
  type Flags = x: int | 0 <= x < 0x1000

  const LENGTH: nat := 1024        // PD_LENGTH and PT_LENGTH
  const PAGES: nat := 0x10_0000    // pages of the virtual address space

  const PRESENT: Flags := 0x001
  const RW: Flags := 0x002
  const USER: Flags := 0x004
  const GLOBAL: Flags := 0x100

  /** A word as the machine stores it, least significant byte first. */
  function WordAt(p: Page, i: nat): Word
    requires |p| == PAGE_SIZE && i < LENGTH
  {
    var a, b, c, d := p[4 * i] as int, p[4 * i + 1] as int, p[4 * i + 2] as int, p[4 * i + 3] as int;
    a + 0x100 * b + 0x1_0000 * c + 0x100_0000 * d
  }

  function WithWord(p: Page, i: nat, w: Word): (q: Page)
    requires |p| == PAGE_SIZE && i < LENGTH
    ensures |q| == PAGE_SIZE
  {
    p[4 * i := w % 0x100][4 * i + 1 := w / 0x100 % 0x100][4 * i + 2 := w / 0x1_0000 % 0x100][4 * i + 3 := w / 0x100_0000]
  }

  function Zeros(): (p: Page)
    ensures |p| == PAGE_SIZE
  {
    seq(PAGE_SIZE, _ => 0)
  }

  lemma BytesOfWord(w: Word)
    ensures w ==
            w % 0x100 + 0x100 * (w / 0x100 % 0x100) + 0x1_0000 * (w / 0x1_0000 % 0x100) + 0x100_0000 * (w / 0x100_0000)
  {
    var a, b := w / 0x100, w / 0x1_0000;
    assert w == 0x100 * a + w % 0x100;
    assert b == a / 0x100 && a == 0x100 * b + a % 0x100;
    assert w / 0x100_0000 == b / 0x100 && b == 0x100 * (b / 0x100) + b % 0x100;
  }

  lemma WithWordAt(p: Page, i: nat, w: Word, k: nat)
    requires |p| == PAGE_SIZE && i < LENGTH && k < LENGTH
    ensures WordAt(WithWord(p, i, w), k) == if k == i then w else WordAt(p, k)
  {
    BytesOfWord(w);
  }

  lemma ZeroWords(i: nat)
    requires i < LENGTH
    ensures WordAt(Zeros(), i) == 0
  {
  }

  // Bits.

  predicate Bit(x: nat, k: nat) {
    if k == 0 then x % 2 == 1 else Bit(x / 2, k - 1)
  }

  /** Bitwise or. */
  function Or(a: nat, b: nat): nat
    decreases a + b
  {
    if a == 0 then b else if b == 0 then a
    else 2 * Or(a / 2, b / 2) + if a % 2 == 1 || b % 2 == 1 then 1 else 0
  }

  lemma {:induction false} ZeroBits(k: nat)
    ensures !Bit(0, k)
  {
    if k > 0 {
      ZeroBits(k - 1);
    }
  }

  lemma {:induction false} OrBits(a: nat, b: nat, k: nat)
    ensures Bit(Or(a, b), k) <==> Bit(a, k) || Bit(b, k)
    decreases k
  {
    ZeroBits(k);
    if a != 0 && b != 0 && k > 0 {
      OrBits(a / 2, b / 2, k - 1);
      assert Or(a, b) / 2 == Or(a / 2, b / 2);
    }
  }

  lemma {:induction false} OrBound(a: nat, b: nat, n: nat)
    requires a < Power(2, n) && b < Power(2, n)
    ensures Or(a, b) < Power(2, n)
    decreases n
  {
    if a != 0 && b != 0 {
      OrBound(a / 2, b / 2, n - 1);
    }
  }

  // Entries.

  function AddressOf(w: Word): Frame {
    w - w % PAGE_SIZE
  }

  function FlagsOf(w: Word): Flags {
    w % PAGE_SIZE
  }

  /** pte_construct and pde_construct, and `palloc() | flags` on a frame address. */
  function Construct(p: Word, flags: Flags): Word {
    AddressOf(p) + flags
  }

  predicate Present(w: Word) {
    Bit(FlagsOf(w), 0)
  }

  predicate Global(w: Word) {
    Bit(FlagsOf(w), 8)
  }

  function OrFlags(a: Flags, b: Flags): Flags {
    assert Power(2, 12) == 0x1000;
    OrBound(a, b, 12);
    Or(a, b)
  }

  lemma ConstructParts(p: Word, flags: Flags)
    ensures AddressOf(Construct(p, flags)) == AddressOf(p) && FlagsOf(Construct(p, flags)) == flags
  {
  }

  /** `*pde |= flags | PAGE_BIT_PRESENT`. */
  function Marked(w: Word, flags: Flags): Word {
    Construct(w, OrFlags(FlagsOf(w), OrFlags(flags, PRESENT)))
  }

  /** Marking an entry changes its flags only: it becomes present, and global only if asked to. */
  lemma MarkedParts(w: Word, flags: Flags)
    ensures AddressOf(Marked(w, flags)) == AddressOf(w) && Present(Marked(w, flags))
    ensures Global(Marked(w, flags)) <==> Global(w) || Bit(flags, 8)
  {
    var mark := OrFlags(flags, PRESENT);
    ConstructParts(w, OrFlags(FlagsOf(w), mark));
    PresentBit();
    OrBits(FlagsOf(w), mark, 0);
    OrBits(flags, PRESENT, 0);
    OrBits(FlagsOf(w), mark, 8);
    OrBits(flags, PRESENT, 8);
  }

  /** `w'` has the flags of `w`, and `flags`. */
  ghost predicate Gains(w: Word, w': Word, flags: Flags) {
    forall k: nat :: Bit(FlagsOf(w'), k) <==> Bit(FlagsOf(w), k) || Bit(flags, k)
  }

  /** Marking adds the flags asked for, and the present flag, and takes none away. */
  lemma MarkedGains(w: Word, flags: Flags)
    ensures Gains(w, Marked(w, flags), OrFlags(flags, PRESENT))
  {
    var mark := OrFlags(flags, PRESENT);
    ConstructParts(w, OrFlags(FlagsOf(w), mark));
    hide Bit, Construct, FlagsOf;
    forall k: nat ensures Bit(FlagsOf(Marked(w, flags)), k) <==> Bit(FlagsOf(w), k) || Bit(mark, k) {
      OrBits(FlagsOf(w), mark, k);
    }
  }

  lemma FreshGains(w: Word, w': Word, flags: Flags)
    requires FlagsOf(w) == 0 && Gains(w, w', flags)
    ensures Gains(0, w', flags)
  {
  }

  /** The entry paging_map writes. */
  lemma PresentEntry(p: Word, flags: Flags)
    ensures var w := Construct(p, OrFlags(flags, PRESENT));
            AddressOf(w) == AddressOf(p) && Present(w) && (Global(w) <==> Bit(flags, 8))
  {
    ConstructParts(p, OrFlags(flags, PRESENT));
    PresentBit();
    OrBits(flags, PRESENT, 0);
    OrBits(flags, PRESENT, 8);
  }

  lemma PresentBit()
    ensures Bit(PRESENT, 0) && forall k: nat :: k > 0 ==> !Bit(PRESENT, k)
  {
    forall k: nat | k > 0 ensures !Bit(PRESENT, k) {
      ZeroBits(k - 1);
    }
  }

  lemma ZeroEntry()
    ensures AddressOf(0) == 0 && !Present(0) && !Global(0)
  {
    ZeroBits(8);
  }
}
