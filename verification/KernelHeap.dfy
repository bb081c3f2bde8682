/** kalloc and kfree (kernel/arch/i386/heap.c). Sizes and addresses are 32-bit: where a sum can wrap
    around, the model wraps too. */
module KernelHeap {
  import opened Arithmetic
  import opened Base
  import opened HeapBlocks

  const HEADER: nat := 28       // sizeof(struct heap_alloc)
  const TOP_PAGE: nat := WORDS - PAGE_SIZE

  function NextPage(x: nat): nat {
    (x + PAGE_SIZE - 1) / PAGE_SIZE * PAGE_SIZE
  }

  /** The first `n` pages from `base`, in order. */
  function PagesFrom(base: Addr, n: nat): seq<Addr> {
    seq(n, k => base + k * PAGE_SIZE)
  }

  function PageCount(size: nat): nat {
    (size + PAGE_SIZE - 1) / PAGE_SIZE
  }

  /** The page an address is in. */
  function PageBase(x: nat): nat {
    x / PAGE_SIZE * PAGE_SIZE
  }

  ghost predicate InPages(pages: seq<Addr>, at: Addr, length: nat) {
    forall x: nat :: at <= x < at + length ==> PageBase(x) in pages
  }

  predicate IsAligned(v: nat, alignment: nat)
    requires alignment > 0
  {
    v % alignment == 0
  }

  /** No address from `from` up to `v` is aligned. */
  ghost predicate NoneBefore(from: nat, v: nat, alignment: nat)
    requires alignment > 0
  {
    forall x: nat :: from <= x < v ==> !IsAligned(x, alignment)
  }

  /** The gap kalloc leaves before a header. */
  function Gap(unaligned: nat, alignment: nat): nat
    requires alignment > 0
  {
    alignment - 1 - (unaligned + alignment - 1) % WORDS % alignment
  }

  /** The gap puts the payload at the least aligned address from `unaligned` on. */
  lemma LeastAligned(unaligned: nat, alignment: nat)
    requires alignment > 0 && unaligned + alignment - 1 < WORDS
    ensures IsAligned(unaligned + Gap(unaligned, alignment), alignment) && Gap(unaligned, alignment) < alignment
    ensures NoneBefore(unaligned, unaligned + Gap(unaligned, alignment), alignment)
  {
    var q, r := (unaligned + alignment - 1) / alignment, (unaligned + alignment - 1) % alignment;
    assert unaligned + alignment - 1 == q * alignment + r;
    var v := unaligned + Gap(unaligned, alignment);
    assert v == q * alignment;
    MultipleMod(q, alignment);
    forall x: nat | unaligned <= x < v ensures !IsAligned(x, alignment) {
      assert (q - 1) * alignment == q * alignment - alignment;
      BetweenMultiples(x, q - 1, alignment);
    }
  }

  /** Where the alignment sum wraps, the payload is put at the end of the address space, which is 0. */
  lemma WrappedGap(unaligned: nat, alignment: nat)
    requires 0 < unaligned < WORDS && 0 < alignment < WORDS && unaligned + alignment - 1 >= WORDS
    ensures unaligned + Gap(unaligned, alignment) == WORDS
  {
    assert (unaligned + alignment - 1) % WORDS == unaligned + alignment - 1 - WORDS;
    SmallDiv(unaligned + alignment - 1 - WORDS, alignment);
  }

  class Heap {
    const base: Addr         // heap_region->vbase
    const regionSize: nat    // heap_region->size
    const blocks: BlockList
    var heapSize: nat
    var mapped: seq<Addr>    // the pages kp_map has been called for, in order

    /** The blocks tile [base, base + blocks.curSize), and each page below heapSize has been mapped once. */
    ghost predicate Valid()
      reads this, blocks
    {
      && base % PAGE_SIZE == 0 && base + regionSize + PAGE_SIZE <= WORDS
      && blocks.Valid() && blocks.base == base && blocks.header == HEADER
      && blocks.curSize <= heapSize <= regionSize
      && mapped == PagesFrom(base, PageCount(heapSize))
    }

    ghost function Allocated(): map<Addr, nat>
      reads this, blocks
    {
      Live(blocks.headers, blocks.list)
    }

    /** init_kernel_heap. */
    constructor (base: Addr, regionSize: nat)
      requires base > 0 && base % PAGE_SIZE == 0 && base + regionSize + PAGE_SIZE <= WORDS
      ensures Valid() && fresh(blocks) && this.base == base && this.regionSize == regionSize && Allocated() == map[]
      ensures blocks.curSize == 0 && heapSize == 0 && mapped == []
    {
      this.base, this.regionSize := base, regionSize;
      blocks := new BlockList(base, HEADER);
      heapSize, mapped := 0, [];
    }

    /** Every byte of the header at `at` and of the payload behind it is in a page that was mapped. */
    ghost predicate Backed(at: Addr, size: nat)
      reads this
    {
      InPages(mapped, at, HEADER + size)
    }

    /** unsafe_grow_heap; false where it panics, the heap being past its region. */
    method Grow(newSize: nat) returns (ok: bool)
      requires newSize < WORDS && base % PAGE_SIZE == 0 && base + regionSize + PAGE_SIZE <= WORDS
      requires heapSize <= newSize && mapped == PagesFrom(base, PageCount(heapSize))
      modifies this`heapSize, this`mapped
      ensures ok <==> (base + newSize) % WORDS <= base + regionSize
      ensures heapSize == if ok then newSize else old(heapSize)
      ensures !ok ==> mapped == old(mapped)
      ensures base + newSize < WORDS ==> mapped == PagesFrom(base, PageCount(heapSize))
      ensures TOP_PAGE !in old(mapped) ==> TOP_PAGE !in mapped
    {
      hide NextPage, PageCount, PagesFrom;
      if (base + newSize) % WORDS > base + regionSize {
        return false;
      }
      var v: nat, to: nat := NextPage(base + heapSize) % WORDS, NextPage((base + newSize) % WORDS) % WORDS;
      ghost var n: nat := PageCount(heapSize);
      BelowTop((base + newSize) % WORDS);
      if base + newSize < WORDS {
        GrowRange(base, regionSize, heapSize, newSize);
      }
      while v < to
        invariant TOP_PAGE !in old(mapped) ==> TOP_PAGE !in mapped
        invariant base + newSize < WORDS ==>
                    n <= PageCount(newSize) && v == base + n * PAGE_SIZE && mapped == PagesFrom(base, n)
      {
        OnePage(base, n);
        mapped := mapped + [v];
        v := v + PAGE_SIZE;
        n := n + 1;
      }
      heapSize := newSize;
      ok := true;
    }

    /** The part of kalloc that grows the heap if the blocks do not fit below its size. */
    method MakeRoom(needed: nat) returns (ok: bool)
      requires Valid() && needed < WORDS
      modifies this`heapSize, this`mapped
      ensures ok <==> !PastRegion(base, regionSize, old(heapSize), needed)
      ensures !ok || needed <= old(heapSize) ==> heapSize == old(heapSize) && mapped == old(mapped)
      ensures ok ==> needed <= heapSize && TOP_PAGE !in mapped
      ensures ok && base + needed < WORDS ==> heapSize <= regionSize && mapped == PagesFrom(base, PageCount(heapSize))
    {
      hide PagesFrom, PageCount, BlockList.Valid;
      TopUnmapped(base, regionSize, heapSize);
      ok := true;
      if heapSize < needed {
        ok := Grow(needed);
      }
    }

    /** kalloc. `None` is the panic when the region is full, which leaves everything as it was. Without
        wrap-around the payload is at the least aligned address past the header and nothing else
        changes. With it, some byte of the returned block has no page behind it. */
    method Kalloc(alignment: nat, size: nat) returns (r: Option<Addr>)
      requires Valid() && 0 < alignment < WORDS && size < WORDS
      modifies this, blocks
      ensures r.None? <==>
              PastRegion(base, regionSize, old(heapSize), Needed(base, old(blocks.curSize), alignment, size) % WORDS)
      ensures r.None? ==>
                && Valid() && Allocated() == old(Allocated())
                && blocks.curSize == old(blocks.curSize) && heapSize == old(heapSize)
      ensures r.Some? ==> r.value == PayloadAt(base, old(blocks.curSize), alignment) && IsAligned(r.value, alignment)
      ensures r.Some? ==>
                (Backed(HeaderOf(r.value), size) <==> Fits(base, old(blocks.curSize), alignment, size))
      ensures r.Some? && base + old(blocks.curSize) + HEADER + alignment - 1 >= WORDS ==> r.value == 0
      ensures Needed(base, old(blocks.curSize), alignment, size) % WORDS <= old(heapSize) ==> mapped == old(mapped)
      ensures r.Some? && Fits(base, old(blocks.curSize), alignment, size) ==>
                && Valid() && base + old(blocks.curSize) + HEADER <= r.value
                && NoneBefore(base + old(blocks.curSize) + HEADER, r.value, alignment)
                && Allocated() == old(Allocated())[r.value - HEADER := size]
                && blocks.list == old(blocks.list) + [r.value - HEADER]
                && blocks.curSize == r.value + size - base
    {
      hide Gap, Live, PagesFrom, PageCount, BlockList.Valid, Fits, HeaderOf, InPages, Needed,
          PayloadAt, PastRegion, IsAligned, NoneBefore;
      var unaligned := base + blocks.curSize + HEADER;
      var offset := Gap(unaligned, alignment);
      var needed := (blocks.curSize + offset + HEADER + size) % WORDS;
      ghost var fits := Fits(base, blocks.curSize, alignment, size);
      Sums(base, regionSize, blocks.curSize, alignment, size);
      var ok := MakeRoom(needed);
      if !ok {
        return None;
      }
      var at := blocks.Append(offset, size);
      r := Some((at + HEADER) % WORDS);
      if fits {
        BelowSize(base, heapSize, at, HEADER + size);
      } else {
        PastTop(at, HEADER + size, mapped);
      }
    }

    /** kfree of a live pointer; false where it panics, the address being past the heap region. That
        takes an empty block at the very end of the region. The other panics are unreachable. */
    method Kfree(v: Addr) returns (ok: bool)
      requires Valid() && v >= HEADER && v - HEADER in Allocated()
      modifies this, blocks
      ensures Valid() && (ok <==> v < base + regionSize)
      ensures !ok ==> old(Allocated())[v - HEADER] == 0 && blocks.curSize == regionSize
      ensures Allocated() == if ok then old(Allocated()) - {v - HEADER} else old(Allocated())
      ensures heapSize == old(heapSize) && mapped == old(mapped) && blocks.curSize <= old(blocks.curSize)
    {
      var at := v - HEADER;
      assert Placed(blocks.headers, blocks.list, blocks.starts, base, HEADER);
      LiveHeader(blocks.headers, blocks.list, blocks.starts, base, HEADER, at);
      LiveInside(blocks.headers, blocks.list, blocks.starts, base, HEADER, at);
      assert Allocated()[at] == blocks.headers[at].size && blocks.curSize == blocks.starts[|blocks.list|];
      hide Live, PagesFrom, PageCount, BlockList.Valid;
      if v < base || v >= base + regionSize {
        return false;
      }
      if blocks.headers[at].magic1 != MAGIC || blocks.headers[at].magic2 != MAGIC {
        assert false;  // kpanic
      }
      blocks.Free(at);
      ok := true;
    }

    /** Every byte of a live block is in a mapped page, no page was mapped twice, and no other live block
        has any of those bytes. */
    lemma LiveBlockBacked(at: Addr)
      requires Valid() && at in Allocated()
      ensures Backed(at, Allocated()[at]) && NoDup(mapped)
      ensures forall b :: b in Allocated() && b != at ==>
                at + HEADER + Allocated()[at] <= b || b + HEADER + Allocated()[b] <= at
    {
      LiveInside(blocks.headers, blocks.list, blocks.starts, base, HEADER, at);
      hide PagesFrom, PageCount, PageBase;
      BelowSize(base, heapSize, at, HEADER + Allocated()[at]);
      PagesOnce(base, PageCount(heapSize));
    }

    /** cur_size is the end of the highest live block, 0 if there is none. */
    lemma EndsAtLiveBlock()
      requires Valid()
      ensures Allocated() == map[] <==> blocks.curSize == 0
      ensures forall b :: b in Allocated() ==> b + HEADER + Allocated()[b] <= base + blocks.curSize
      ensures blocks.curSize > 0 ==>
                exists b :: b in Allocated() && b + HEADER + Allocated()[b] == base + blocks.curSize
    {
      LastHeader(blocks.headers, blocks.list, blocks.starts, base, HEADER);
      EndIsHighest(blocks.headers, blocks.list, blocks.starts, base, HEADER);
      if blocks.list != [] {
        assert blocks.last in Allocated();
      }
    }
  }

  /** The header before a payload. */
  function HeaderOf(v: Addr): Addr {
    (v + WORDS - HEADER) % WORDS
  }

  /** The heap's size once kalloc has placed the block, over the integers. */
  function Needed(base: Addr, curSize: nat, alignment: nat, size: nat): nat
    requires alignment > 0
  {
    curSize + Gap(base + curSize + HEADER, alignment) + HEADER + size
  }

  /** Where kalloc puts the payload. */
  function PayloadAt(base: Addr, curSize: nat, alignment: nat): Addr
    requires alignment > 0
  {
    (base + curSize + HEADER + Gap(base + curSize + HEADER, alignment)) % WORDS
  }

  /** No sum kalloc computes wraps around: neither the one that aligns nor the end of the block. */
  predicate Fits(base: Addr, curSize: nat, alignment: nat, size: nat)
    requires alignment > 0
  {
    base + curSize + HEADER + alignment - 1 < WORDS && base + Needed(base, curSize, alignment, size) < WORDS
  }

  /** kalloc has to grow the heap to `needed`, and that is past the region as the code computes it. */
  predicate PastRegion(base: Addr, regionSize: nat, heapSize: nat, needed: nat) {
    heapSize < needed && (base + needed) % WORDS > base + regionSize
  }

  /** Where the mapping loop starts and ends, when nothing wraps. */
  lemma GrowRange(base: Addr, regionSize: nat, heapSize: nat, newSize: nat)
    requires base % PAGE_SIZE == 0 && base + regionSize + PAGE_SIZE <= WORDS && heapSize <= newSize <= regionSize
    ensures (base + newSize) % WORDS == base + newSize
    ensures NextPage(base + heapSize) % WORDS == base + PageCount(heapSize) * PAGE_SIZE
    ensures NextPage(base + newSize) % WORDS == base + PageCount(newSize) * PAGE_SIZE
    ensures PageCount(heapSize) <= PageCount(newSize)
  {
    hide NextPage, PageCount;
    PagesBelow(base, heapSize);
    PagesBelow(base, newSize);
    MorePages(heapSize, newSize);
  }

  lemma OnePage(base: Addr, n: nat)
    ensures PagesFrom(base, n + 1) == PagesFrom(base, n) + [base + n * PAGE_SIZE]
  {
  }

  lemma PagesOnce(base: Addr, n: nat)
    ensures NoDup(PagesFrom(base, n))
  {
  }

  lemma MorePages(a: nat, b: nat)
    requires a <= b
    ensures PageCount(a) <= PageCount(b)
  {
  }

  lemma PagesBelow(base: Addr, size: nat)
    requires base % PAGE_SIZE == 0
    ensures NextPage(base + size) == base + PageCount(size) * PAGE_SIZE
    ensures base + size + PAGE_SIZE <= WORDS ==> NextPage(base + size) < WORDS
  {
    var b := base / PAGE_SIZE;
    assert (base + size + PAGE_SIZE - 1) / PAGE_SIZE == b + PageCount(size);
  }

  lemma BelowTop(x: nat)
    requires x < WORDS
    ensures NextPage(x) % WORDS <= TOP_PAGE
  {
  }

  lemma TopUnmapped(base: Addr, regionSize: nat, heapSize: nat)
    requires heapSize <= regionSize && base + regionSize + PAGE_SIZE <= WORDS
    ensures TOP_PAGE !in PagesFrom(base, PageCount(heapSize))
  {
    forall k: nat | k < PageCount(heapSize) ensures PagesFrom(base, PageCount(heapSize))[k] < TOP_PAGE {
      assert k * PAGE_SIZE < heapSize;
    }
  }

  /** Where kalloc puts the payload: at the least aligned address, or at the end of the address space. */
  lemma PlacedAt(unaligned: nat, alignment: nat)
    requires 0 < unaligned < WORDS && 0 < alignment < WORDS
    ensures var v := unaligned + Gap(unaligned, alignment);
            && v <= WORDS && IsAligned(v % WORDS, alignment)
            && (v == WORDS <==> unaligned + alignment - 1 >= WORDS)
            && (v < WORDS ==> NoneBefore(unaligned, v, alignment))
  {
    hide Gap;
    if unaligned + alignment - 1 < WORDS {
      LeastAligned(unaligned, alignment);
      SmallDiv(unaligned + Gap(unaligned, alignment), WORDS);
    } else {
      WrappedGap(unaligned, alignment);
      SmallDiv(0, alignment);
    }
  }

  /** The sums of a kalloc: without wrap-around all is as over the integers, with it the block reaches the
      end of the address space. */
  lemma Sums(base: Addr, regionSize: nat, curSize: nat, alignment: nat, size: nat)
    requires base + regionSize + PAGE_SIZE <= WORDS && curSize <= regionSize && 0 < alignment < WORDS
    ensures var unaligned, v := base + curSize + HEADER, PayloadAt(base, curSize, alignment);
            var at, needed := unaligned + Gap(unaligned, alignment) - HEADER, Needed(base, curSize, alignment, size);
            && v == (at + HEADER) % WORDS && needed == curSize + Gap(unaligned, alignment) + HEADER + size
            && base + needed == at + HEADER + size && at < WORDS && IsAligned(v, alignment) && HeaderOf(v) == at
            && (unaligned + alignment - 1 >= WORDS ==> v == 0)
            && (!Fits(base, curSize, alignment, size) ==> at + HEADER + size >= WORDS)
            && (Fits(base, curSize, alignment, size) ==>
                  && base + needed < WORDS && v == at + HEADER
                  && needed % WORDS == needed && (base + needed) % WORDS == base + needed
                  && NoneBefore(unaligned, v, alignment))
  {
    hide Gap, IsAligned, NoneBefore;
    PlacedAt(base + curSize + HEADER, alignment);
  }

  /** The pages of a range below the heap's size have been mapped. */
  lemma BelowSize(base: Addr, heapSize: nat, at: Addr, length: nat)
    requires base % PAGE_SIZE == 0 && base <= at && at + length <= base + heapSize
    ensures InPages(PagesFrom(base, PageCount(heapSize)), at, length)
  {
    forall x: nat | at <= x < at + length ensures PageBase(x) in PagesFrom(base, PageCount(heapSize)) {
      var k := (x - base) / PAGE_SIZE;
      assert PageBase(x) == base + k * PAGE_SIZE;
      assert PagesFrom(base, PageCount(heapSize))[k] == PageBase(x);
    }
  }

  /** A range that reaches the end of the address space has a byte in its last page. */
  lemma PastTop(at: Addr, length: nat, mapped: seq<Addr>)
    requires at < WORDS <= at + length && TOP_PAGE !in mapped
    ensures !InPages(mapped, at, length)
  {
    assert PageBase(WORDS - 1) == TOP_PAGE;
  }

  /** A size just short of 4 GiB wraps: the heap does not grow, and kalloc returns a block of 4 GiB
      with no page behind it. */
  method KallocWraps() returns (heap: Heap, r: Option<Addr>)
    ensures r == Some(0xC100_001C) && !heap.Backed(HeaderOf(0xC100_001C), 0xffff_ffe4) && heap.mapped == []
  {
    heap := new Heap(0xC100_0000, 0x1000_0000);
    r := heap.Kalloc(1, 0xffff_ffe4);
  }

  /** An alignment that wraps: kalloc returns 0, for a header in the last bytes of memory. */
  method KallocNull() returns (heap: Heap, r: Option<Addr>)
    ensures r == Some(0) && !heap.Backed(HeaderOf(0), 0)
  {
    heap := new Heap(0xC100_0000, 0x1000_0000);
    r := heap.Kalloc(0xffff_ffff, 0);
  }
}
