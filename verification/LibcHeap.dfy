/** malloc and free (libc/stdlib/heap.c) over the break of the process, which nothing else moves. The
    object begins with lazily_init_heap. Sizes are 32-bit: where a sum can wrap around, the model
    wraps too. */
module LibcHeap {
  import opened Base
  import opened HeapBlocks
  import Pages
  import AddressSpaces
  import ProcessMemory

  const HEADER: nat := 24   // sizeof(struct heap_alloc)

  class Heap {
    const process: ProcessMemory.Process
    const blocks: BlockList
    var heapSize: nat

    ghost predicate Valid()
      reads this, process, process.machine, blocks
    {
      && process.Valid() && process.vbreak >= PAGE_SIZE
      && blocks.Valid() && blocks.base == process.vbreak && blocks.header == HEADER
      && blocks.curSize <= heapSize && process.curBreak == process.vbreak + heapSize
    }

    ghost function Allocated(): map<Addr, nat>
      reads this, blocks
    {
      Live(blocks.headers, blocks.list)
    }

    constructor (process: ProcessMemory.Process)
      requires process.Valid() && process.vbreak >= PAGE_SIZE && process.curBreak == process.vbreak
      requires process.CanServe(process.curBreak, false)
      modifies process, process.machine
      ensures Valid() && fresh(blocks) && this.process == process && Allocated() == map[]
    {
      hide BlockList.Valid, ProcessMemory.Process.Valid, ProcessMemory.Process.CanServe, ProcessMemory.GrownTo,
          ProcessMemory.OthersKept, ProcessMemory.InUseKept, ProcessMemory.Need, AddressSpaces.View;
      this.process := process;
      heapSize := 0;
      var heap := process.Sbrk(0, false);
      blocks := new BlockList(heap, HEADER);
    }

    /** Every byte of the header at `at` and of the payload behind it is in a mapped page of the process. */
    ghost predicate Backed(at: Addr, size: nat)
      reads this, process, process.machine
    {
      forall x: nat :: at <= x < at + HEADER + size ==> MappedByte(process, x % WORDS)
    }

    /** malloc. The break is raised only when the blocks do not fit below it, and a refusal changes
        nothing. Without wrap-around a block is added after the others, and the process has its pages;
        with it, a block is returned that the process does not have the pages of. */
    method Malloc(size: nat, inGlobalRegion: bool) returns (r: Option<Addr>)
      requires Valid() && size < WORDS
      requires heapSize < NewSize(blocks.curSize, size) ==>
                 process.CanServe(NewBreak(process.vbreak, blocks.curSize, size), inGlobalRegion)
      modifies this, blocks, process, process.machine
      ensures r.None? <==>
                && old(heapSize) < NewSize(old(blocks.curSize), size)
                && !old(process.Accepts(NewBreak(process.vbreak, blocks.curSize, size), inGlobalRegion))
      ensures r.None? ==>
                && Valid() && Allocated() == old(Allocated())
                && heapSize == old(heapSize) && blocks.curSize == old(blocks.curSize)
      ensures NewSize(old(blocks.curSize), size) <= old(heapSize) ==>
                heapSize == old(heapSize) && unchanged(process, process.machine)
      ensures r.Some? ==> r.value == (process.vbreak + old(blocks.curSize) + HEADER) % WORDS
      ensures r.Some? ==> (Backed(HeaderOf(r.value), size) <==> old(blocks.curSize) + HEADER + size < WORDS)
      ensures r.Some? && old(blocks.curSize) + HEADER + size < WORDS ==>
                && Valid() && r.value + size <= process.curBreak
                && r.value == process.vbreak + old(blocks.curSize) + HEADER
                && Allocated() == old(Allocated())[r.value - HEADER := size]
                && blocks.curSize == old(blocks.curSize) + HEADER + size
    {
      hide Live, BlockList.Valid, ProcessMemory.Process.Valid, ProcessMemory.Process.CanServe, ProcessMemory.GrownTo,
          ProcessMemory.OthersKept, ProcessMemory.InUseKept, ProcessMemory.Need, AddressSpaces.View, MappedByte,
          HeaderOf, NewSize, NewBreak;
      var newSize := (blocks.curSize + HEADER + size) % WORDS;
      Sums(process.vbreak, blocks.curSize, size);
      if heapSize < newSize {
        var failed := process.Brk((process.vbreak + newSize) % WORDS, inGlobalRegion);
        if failed != 0 {
          return None;
        }
        heapSize := newSize;
      }
      var at := blocks.Append(0, size);
      r := Some((at + HEADER) % WORDS);
      if old(blocks.curSize) + HEADER + size < WORDS {
        BelowBreak(process, at, HEADER + size);
      } else {
        WrapsToZero(process, at, HEADER + size);
      }
    }

    /** free of a live pointer. */
    method Free(ptr: Addr)
      requires Valid() && ptr >= HEADER && ptr - HEADER in Allocated()
      modifies this, blocks
      ensures Valid() && Allocated() == old(Allocated()) - {ptr - HEADER} && heapSize == old(heapSize)
    {
      hide Live, BlockList.Valid;
      blocks.Free(ptr - HEADER);
    }

    /** Every byte of a live block is in a mapped page of the process, and in no other live block. */
    lemma LiveBytesMapped(at: Addr, x: nat)
      requires Valid() && at in Allocated() && at in blocks.headers && at <= x < at + HEADER + blocks.headers[at].size
      ensures AddressSpaces.Mapped(process.machine.mem, process.machine.kernel, process.pd, AddressSpaces.PageOf(x))
      ensures forall b :: b in Allocated() && b != at ==>
                b in blocks.headers && !(b <= x < b + HEADER + blocks.headers[b].size)
    {
      hide AddressSpaces.Mapped;
      LiveInside(blocks.headers, blocks.list, blocks.starts, blocks.base, HEADER, at);
    }
  }

  /** The header before a payload. */
  function HeaderOf(ptr: Addr): Addr {
    (ptr + WORDS - HEADER) % WORDS
  }

  /** The heap's size once malloc has placed the block, and the break it asks for. */
  function NewSize(curSize: nat, size: nat): nat {
    (curSize + HEADER + size) % WORDS
  }

  function NewBreak(vbreak: nat, curSize: nat, size: nat): Pages.Word {
    (vbreak + NewSize(curSize, size)) % WORDS
  }

  lemma Sums(vbreak: Pages.Word, curSize: nat, size: nat)
    requires vbreak + curSize < WORDS && size < WORDS
    ensures NewSize(curSize, size) == (curSize + HEADER + size) % WORDS
    ensures NewBreak(vbreak, curSize, size) == (vbreak + NewSize(curSize, size)) % WORDS
    ensures HeaderOf((vbreak + curSize + HEADER) % WORDS) == vbreak + curSize
    ensures curSize + HEADER + size < WORDS ==>
              && NewSize(curSize, size) == curSize + HEADER + size
              && (NewBreak(vbreak, curSize, size) >= vbreak ==>
                    NewBreak(vbreak, curSize, size) == vbreak + NewSize(curSize, size))
  {
  }

  ghost predicate MappedByte(process: ProcessMemory.Process, x: nat)
    reads process, process.machine
  {
    AddressSpaces.Mapped(process.machine.mem, process.machine.kernel, process.pd, AddressSpaces.PageOf(x))
  }

  lemma ByteBelowBreak(process: ProcessMemory.Process, x: nat)
    requires process.Valid() && process.vbreak <= x < process.curBreak
    ensures MappedByte(process, x)
  {
    hide AddressSpaces.Mapped, ProcessMemory.Spanned;
  }

  /** The bytes of a range below the break are mapped. */
  lemma BelowBreak(process: ProcessMemory.Process, at: Addr, length: nat)
    requires process.Valid() && process.vbreak <= at && at + length <= process.curBreak
    ensures forall x: nat :: at <= x < at + length ==> MappedByte(process, x % WORDS)
  {
    hide MappedByte, ProcessMemory.Process.Valid;
    forall x: nat | at <= x < at + length ensures MappedByte(process, x % WORDS) {
      ByteBelowBreak(process, x);
      assert x % WORDS == x;
    }
  }

  /** A range that goes past the end of the address space has the byte at 0, which is never mapped. */
  lemma WrapsToZero(process: ProcessMemory.Process, at: Addr, length: nat)
    requires process.Valid() && at <= WORDS < at + length
    ensures exists x: nat :: at <= x < at + length && !MappedByte(process, x % WORDS)
  {
    assert !MappedByte(process, WORDS % WORDS);
  }

  /** A size just short of 4 GiB wraps to a heap of no bytes: malloc returns a block of 4 GiB, and the
      process has the memory it had. */
  method MallocWraps(heap: Heap) returns (r: Option<Addr>)
    requires heap.Valid() && heap.blocks.curSize == 0
    modifies heap, heap.blocks, heap.process, heap.process.machine
    ensures r == Some((heap.process.vbreak + HEADER) % WORDS) && !heap.Backed(HeaderOf(r.value), 0xffff_ffe8)
    ensures heap.heapSize == old(heap.heapSize) && unchanged(heap.process, heap.process.machine)
  {
    hide Heap.Valid, Heap.Backed, HeaderOf;
    r := heap.Malloc(0xffff_ffe8, false);
  }
}
