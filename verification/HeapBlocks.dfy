/** The list of blocks the kernel heap and the libc heap share the shape of
    (kernel/arch/i386/heap.c, libc/stdlib/heap.c): headers linked in address order, placed one after
    the other from the heap's base. */
module HeapBlocks {
  import opened Base

  type Addr = nat

  const MAGIC: nat := 0xA110_CA73   // HEAP_ALLOC_MAGIC

  /** struct heap_alloc; the libc's has no offset. */
  datatype Alloc = Alloc(magic1: nat, prev: Addr, next: Addr, offset: nat, size: nat, free: bool, magic2: nat)

  type Headers = map<Addr, Alloc>

  /** The address of the header at place `k` of the list, 0 past either end. */
  function HeaderAt(list: seq<Addr>, k: int): Addr {
    if 0 <= k < |list| then list[k] else 0
  }

  /** The bytes of a block: alignment gap, header, payload. */
  function Extent(a: Alloc, header: nat): nat {
    a.offset + header + a.size
  }

  /** Block `k` begins `starts[k]` bytes from the base, where the one before it ends, and is linked
      both ways. */
  ghost predicate BlockOk(headers: Headers, list: seq<Addr>, starts: seq<nat>, base: Addr, header: nat, k: nat) {
    && k < |list| && k + 1 < |starts| && list[k] in headers
    && var a := headers[list[k]];
       && list[k] == base + starts[k] + a.offset && starts[k + 1] == starts[k] + Extent(a, header)
       && a.magic1 == MAGIC && a.magic2 == MAGIC
       && a.prev == HeaderAt(list, k - 1) && a.next == HeaderAt(list, k + 1)
  }

  ghost predicate Placed(headers: Headers, list: seq<Addr>, starts: seq<nat>, base: Addr, header: nat) {
    && |starts| == |list| + 1 && starts[0] == 0
    && (forall k: nat {:trigger BlockOk(headers, list, starts, base, header, k)} :: k < |list| ==>
          BlockOk(headers, list, starts, base, header, k))
  }

  lemma {:induction false} StartsGrow(headers: Headers, list: seq<Addr>, starts: seq<nat>, base: Addr, header: nat,
                                      i: nat, k: nat)
    requires Placed(headers, list, starts, base, header) && i <= k <= |list|
    ensures starts[i] <= starts[k]
    decreases k
  {
    if i < k {
      StartsGrow(headers, list, starts, base, header, i, k - 1);
      assert BlockOk(headers, list, starts, base, header, k - 1);
    }
  }

  /** Two blocks do not overlap. */
  lemma BlocksApart(headers: Headers, list: seq<Addr>, starts: seq<nat>, base: Addr, header: nat, j: nat, k: nat)
    requires Placed(headers, list, starts, base, header) && j < k < |list| && header > 0
    ensures list[j] in headers && list[j] + header + headers[list[j]].size <= base + starts[k] <= list[k]
    ensures list[j] < list[k]
  {
    assert BlockOk(headers, list, starts, base, header, j) && BlockOk(headers, list, starts, base, header, k);
    StartsGrow(headers, list, starts, base, header, j + 1, k);
  }

  /** Every byte below the end is in a block. */
  lemma {:induction false} BlocksCover(headers: Headers, list: seq<Addr>, starts: seq<nat>, base: Addr, header: nat,
                                       n: nat, x: nat) returns (k: nat)
    requires Placed(headers, list, starts, base, header) && n <= |list| && x < starts[n]
    ensures k < n && starts[k] <= x < starts[k + 1]
  {
    if x < starts[n - 1] {
      k := BlocksCover(headers, list, starts, base, header, n - 1, x);
    } else {
      k := n - 1;
    }
  }

  // Adding and dropping at the end.

  /** Headers that differ in the next pointer only. */
  predicate SameBut(a: Alloc, b: Alloc) {
    a.(next := 0) == b.(next := 0)
  }

  function Appended(headers: Headers, last: Addr, at: Addr, a: Alloc): Headers {
    (if last in headers then headers[last := headers[last].(next := at)] else headers)[at := a]
  }

  lemma AppendPlaced(headers: Headers, list: seq<Addr>, starts: seq<nat>, base: Addr, header: nat, at: Addr, a: Alloc)
    requires Placed(headers, list, starts, base, header) && header > 0 && base > 0 && 0 !in headers
    requires at == base + starts[|list|] + a.offset
    requires a.magic1 == MAGIC && a.magic2 == MAGIC && a.prev == HeaderAt(list, |list| - 1) && a.next == 0
    ensures var headers' := Appended(headers, HeaderAt(list, |list| - 1), at, a);
            && Placed(headers', list + [at], starts + [starts[|list|] + Extent(a, header)], base, header)
            && (forall k :: 0 <= k < |list| ==>
                  && list[k] in headers && list[k] in headers' && list[k] != at
                  && SameBut(headers'[list[k]], headers[list[k]]))
  {
    var last := HeaderAt(list, |list| - 1);
    var headers', list', starts' := Appended(headers, last, at, a), list + [at], starts + [starts[|list|] + Extent(a, header)];
    forall k: nat | k < |list|
      ensures BlockOk(headers', list', starts', base, header, k)
      ensures list[k] in headers && list[k] in headers' && list[k] != at && SameBut(headers'[list[k]], headers[list[k]])
    {
      hide Placed, BlockOk, SameBut, Appended;
      AppendedBlock(headers, list, starts, base, header, at, a, k);
    }
    assert BlockOk(headers', list', starts', base, header, |list|);
  }

  lemma AppendedBlock(headers: Headers, list: seq<Addr>, starts: seq<nat>, base: Addr, header: nat, at: Addr, a: Alloc,
                      k: nat)
    requires Placed(headers, list, starts, base, header) && header > 0 && base > 0 && 0 !in headers
    requires at == base + starts[|list|] + a.offset && k < |list|
    ensures var headers' := Appended(headers, HeaderAt(list, |list| - 1), at, a);
            && BlockOk(headers', list + [at], starts + [starts[|list|] + Extent(a, header)], base, header, k)
            && list[k] in headers && list[k] in headers' && list[k] != at
            && SameBut(headers'[list[k]], headers[list[k]])
  {
    assert BlockOk(headers, list, starts, base, header, k);
    StartsGrow(headers, list, starts, base, header, k + 1, |list|);
    if k < |list| - 1 {
      BlocksApart(headers, list, starts, base, header, k, |list| - 1);
    }
    hide Placed;
  }

  function Cut(headers: Headers, last: Addr): Headers {
    if last in headers then headers[last := headers[last].(next := 0)] else headers
  }

  lemma DropPlaced(headers: Headers, list: seq<Addr>, starts: seq<nat>, base: Addr, header: nat, n: nat)
    requires Placed(headers, list, starts, base, header) && n <= |list| && header > 0 && 0 !in headers
    ensures var headers' := Cut(headers, HeaderAt(list[..n], n - 1));
            && Placed(headers', list[..n], starts[..n + 1], base, header)
            && (forall k :: 0 <= k < n ==>
                  list[k] in headers && list[k] in headers' && SameBut(headers'[list[k]], headers[list[k]]))
  {
    var list', starts' := list[..n], starts[..n + 1];
    var headers' := Cut(headers, HeaderAt(list', n - 1));
    forall k: nat | k < n
      ensures BlockOk(headers', list', starts', base, header, k)
      ensures list[k] in headers && list[k] in headers' && SameBut(headers'[list[k]], headers[list[k]])
    {
      assert BlockOk(headers, list, starts, base, header, k);
      if k < n - 1 {
        BlocksApart(headers, list, starts, base, header, k, n - 1);
      }
    }
  }

  lemma FreedPlaced(headers: Headers, list: seq<Addr>, starts: seq<nat>, base: Addr, header: nat, at: Addr)
    requires Placed(headers, list, starts, base, header) && at in headers
    ensures Placed(headers[at := headers[at].(free := true)], list, starts, base, header)
  {
    var headers' := headers[at := headers[at].(free := true)];
    forall k: nat {:trigger BlockOk(headers', list, starts, base, header, k)} | k < |list|
      ensures BlockOk(headers', list, starts, base, header, k)
    {
      assert BlockOk(headers, list, starts, base, header, k);
    }
  }

  /** The live blocks, by the address of their header, with their sizes. */
  ghost function Live(headers: Headers, list: seq<Addr>): map<Addr, nat> {
    map at | at in list && at in headers && !headers[at].free :: headers[at].size
  }

  lemma LiveAppended(headers: Headers, list: seq<Addr>, headers': Headers, at: Addr, a: Alloc)
    requires forall k :: 0 <= k < |list| ==>
               && list[k] in headers && list[k] in headers' && list[k] != at
               && SameBut(headers'[list[k]], headers[list[k]])
    requires at in headers' && headers'[at] == a && !a.free
    ensures Live(headers', list + [at]) == Live(headers, list)[at := a.size]
  {
    forall x | x in list ensures x in headers && x in headers' && x != at && SameBut(headers'[x], headers[x]) {
      var k :| 0 <= k < |list| && list[k] == x;
    }
  }

  /** Freed blocks at the end are not live: dropping them loses nothing. */
  lemma LiveDropped(headers: Headers, list: seq<Addr>, headers': Headers, n: nat)
    requires n <= |list| && forall k :: n <= k < |list| ==> list[k] in headers && headers[list[k]].free
    requires forall k :: 0 <= k < n ==>
               list[k] in headers && list[k] in headers' && SameBut(headers'[list[k]], headers[list[k]])
    ensures Live(headers', list[..n]) == Live(headers, list)
  {
    var list' := list[..n];
    forall x | x in list' ensures x in list && x in headers && x in headers' && SameBut(headers'[x], headers[x]) {
      var k :| 0 <= k < |list'| && list'[k] == x;
      assert list[k] == x;
    }
    forall x | x in list && x in headers && !headers[x].free ensures x in list' {
      var k :| 0 <= k < |list| && list[k] == x;
      assert k < n && list'[k] == x;
    }
  }

  lemma LiveFreed(headers: Headers, list: seq<Addr>, at: Addr)
    requires at in headers
    ensures Live(headers[at := headers[at].(free := true)], list) == Live(headers, list) - {at}
  {
  }

  /** A live block has its magic numbers, and is the last one or has a block after it. */
  lemma LiveHeader(headers: Headers, list: seq<Addr>, starts: seq<nat>, base: Addr, header: nat, at: Addr)
    requires Placed(headers, list, starts, base, header) && at in Live(headers, list) && base > 0 && header > 0
    ensures at in headers && headers[at].magic1 == MAGIC && headers[at].magic2 == MAGIC
    ensures headers[at].next == 0 <==> at == HeaderAt(list, |list| - 1)
    ensures headers[at].next != 0 ==> headers[at].next in headers
  {
    var k :| 0 <= k < |list| && list[k] == at;
    assert BlockOk(headers, list, starts, base, header, k);
    if k + 1 < |list| {
      assert BlockOk(headers, list, starts, base, header, k + 1);
      BlocksApart(headers, list, starts, base, header, k, |list| - 1);
    }
  }

  lemma PlacedLength(headers: Headers, list: seq<Addr>, starts: seq<nat>, base: Addr, header: nat)
    requires Placed(headers, list, starts, base, header)
    ensures |starts| == |list| + 1
  {
  }

  lemma BlockBefore(headers: Headers, list: seq<Addr>, starts: seq<nat>, base: Addr, header: nat, n: nat)
    requires Placed(headers, list, starts, base, header) && 0 < n <= |list|
    ensures list[n - 1] in headers && headers[list[n - 1]].prev == HeaderAt(list, n - 2) && |starts| == |list| + 1
    ensures starts[n] == starts[n - 1] + Extent(headers[list[n - 1]], header)
  {
    assert BlockOk(headers, list, starts, base, header, n - 1);
  }

  lemma FirstHeader(headers: Headers, list: seq<Addr>, starts: seq<nat>, base: Addr, header: nat)
    requires Placed(headers, list, starts, base, header) && base > 0
    ensures HeaderAt(list, 0) == 0 <==> list == []
  {
    if list != [] {
      assert BlockOk(headers, list, starts, base, header, 0);
    }
  }

  lemma CutLast(headers: Headers, list: seq<Addr>, starts: seq<nat>, base: Addr, header: nat, n: nat)
    requires Placed(headers, list, starts, base, header) && n <= |list| && base > 0
    ensures n > 0 ==> HeaderAt(list[..n], n - 1) in headers && HeaderAt(list[..n], n - 1) != 0
  {
    if n > 0 {
      assert BlockOk(headers, list, starts, base, header, n - 1);
    }
  }

  /** The list both heaps keep: `header` is the size of their struct heap_alloc. */
  class BlockList {
    const base: Addr
    const header: nat
    var headers: Headers     // the struct heap_alloc at each address one was written to
    var first: Addr
    var last: Addr
    var curSize: nat         // cur_size
    ghost var list: seq<Addr>
    ghost var starts: seq<nat>

    ghost predicate Linked()
      reads this
    {
      && base > 0 && header > 0 && 0 !in headers && Placed(headers, list, starts, base, header)
      && first == HeaderAt(list, 0) && last == HeaderAt(list, |list| - 1) && curSize == starts[|list|]
    }

    /** The blocks tile [base, base + curSize), and the last one is live. */
    ghost predicate Valid()
      reads this
    {
      Linked() && (list != [] && last in headers ==> !headers[last].free)
    }

    constructor (base: Addr, header: nat)
      requires base > 0 && header > 0
      ensures Valid() && this.base == base && this.header == header
      ensures list == [] && curSize == 0 && Live(headers, list) == map[]
    {
      this.base, this.header := base, header;
      headers, first, last, curSize := map[], 0, 0, 0;
      list, starts := [], [0];
    }

    /** The end of kalloc and malloc: the header is written and linked in. The sum may wrap. */
    method Append(offset: nat, size: nat) returns (at: Addr)
      requires Valid()
      modifies this
      ensures at == base + old(curSize) + offset && list == old(list) + [at]
      ensures Live(headers, list) == old(Live(headers, list))[at := size]
      ensures curSize == (old(curSize) + offset + header + size) % WORDS
      ensures old(curSize) + offset + header + size < WORDS ==> Valid()
    {
      hide Placed, Live;
      at := base + curSize + offset;
      var a := Alloc(MAGIC, last, 0, offset, size, false, MAGIC);
      AppendPlaced(headers, list, starts, base, header, at, a);
      LiveAppended(headers, list, Appended(headers, last, at, a), at, a);
      LastHeader(headers, list, starts, base, header);
      FirstHeader(headers, list, starts, base, header);
      PlacedLength(headers, list, starts, base, header);
      if last in headers {
        headers := headers[last := headers[last].(next := at)];
      }
      headers := headers[at := a];
      if first == 0 {
        first := at;
      }
      last := at;
      curSize := (curSize + offset + header + size) % WORDS;
      list, starts := list + [at], starts + [starts[|list|] + Extent(a, header)];
    }

    /** unsafe_truncate_heap: drops the freed blocks at the end. */
    method Truncate()
      requires Linked()
      modifies this
      ensures Valid() && curSize <= old(curSize) && Live(headers, list) == old(Live(headers, list))
    {
      hide Placed, Live;
      LastHeader(headers, list, starts, base, header);
      PlacedLength(headers, list, starts, base, header);
      if last == 0 {
        return;
      }
      ghost var n: nat := |list|;
      while last != 0 && last in headers && headers[last].free
        invariant headers == old(headers) && list == old(list) && starts == old(starts) && first == old(first)
        invariant n <= |list| && last == HeaderAt(list, n - 1) && curSize == starts[n] && curSize <= old(curSize)
        invariant forall k :: n <= k < |list| ==> list[k] in headers && headers[list[k]].free
        decreases n
      {
        BlockBefore(headers, list, starts, base, header, n);
        curSize := curSize - (headers[last].offset + header + headers[last].size);
        last := headers[last].prev;
        n := n - 1;
      }
      assert HeaderAt(list[..n], n - 1) == last;
      DropPlaced(headers, list, starts, base, header, n);
      LiveDropped(headers, list, Cut(headers, last), n);
      CutLast(headers, list, starts, base, header, n);
      if last == 0 {
        first := 0;
      } else if last in headers {
        headers := headers[last := headers[last].(next := 0)];
      }
      list, starts := list[..n], starts[..n + 1];
    }

    /** kfree and free of a live block. */
    method Free(at: Addr)
      requires Valid() && at in Live(headers, list)
      modifies this
      ensures Valid() && Live(headers, list) == old(Live(headers, list)) - {at} && curSize <= old(curSize)
    {
      hide Placed, Live;
      LiveHeader(headers, list, starts, base, header, at);
      FreedPlaced(headers, list, starts, base, header, at);
      LiveFreed(headers, list, at);
      headers := headers[at := headers[at].(free := true)];
      if headers[at].next == 0 || (headers[at].next in headers && headers[headers[at].next].free) {
        Truncate();
      }
    }
  }

  lemma LastHeader(headers: Headers, list: seq<Addr>, starts: seq<nat>, base: Addr, header: nat)
    requires Placed(headers, list, starts, base, header) && base > 0
    ensures HeaderAt(list, |list| - 1) == 0 <==> list == []
    ensures list != [] ==> HeaderAt(list, |list| - 1) in headers
  {
    if list != [] {
      assert BlockOk(headers, list, starts, base, header, |list| - 1);
    }
  }

  /** A live block lies below curSize, clear of every other live block. */
  lemma LiveInside(headers: Headers, list: seq<Addr>, starts: seq<nat>, base: Addr, header: nat, at: Addr)
    requires Placed(headers, list, starts, base, header) && at in Live(headers, list) && header > 0
    ensures at in headers && base <= at && at + header + headers[at].size <= base + starts[|list|]
    ensures forall b :: b in Live(headers, list) && b != at ==>
              at + header + headers[at].size <= b || b + header + headers[b].size <= at
  {
    var k :| 0 <= k < |list| && list[k] == at;
    assert BlockOk(headers, list, starts, base, header, k);
    StartsGrow(headers, list, starts, base, header, k + 1, |list|);
    forall b | b in Live(headers, list) && b != at
      ensures at + header + headers[at].size <= b || b + header + headers[b].size <= at
    {
      var j :| 0 <= j < |list| && list[j] == b;
      BlocksApart(headers, list, starts, base, header, if j < k then j else k, if j < k then k else j);
    }
  }

  /** With a live last block, the end of the list is the end of the highest live block, 0 if none. */
  lemma EndIsHighest(headers: Headers, list: seq<Addr>, starts: seq<nat>, base: Addr, header: nat)
    requires Placed(headers, list, starts, base, header) && header > 0
    requires list != [] ==> list[|list| - 1] in Live(headers, list)
    ensures Live(headers, list) == map[] <==> starts[|list|] == 0
    ensures forall b :: b in Live(headers, list) ==>
              b in headers && b + header + headers[b].size <= base + starts[|list|]
    ensures list != [] ==>
              var at := list[|list| - 1]; at in headers && at + header + headers[at].size == base + starts[|list|]
  {
    forall b | b in Live(headers, list) ensures b in headers && b + header + headers[b].size <= base + starts[|list|] {
      LiveInside(headers, list, starts, base, header, b);
    }
    if list != [] {
      assert BlockOk(headers, list, starts, base, header, |list| - 1);
    }
  }
}
