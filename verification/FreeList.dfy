/** The free list palloc keeps inside the free pages themselves (kernel/arch/i386/palloc.c). */
module FreeList {
  import opened Base
  import opened Pages
  import opened AddressSpaces

  const MAGIC: Word := 0x12345678   // PALLOC_PAGE_MAGIC

  /** struct page, at the start of a free page. */
  datatype Node = Node(magic: Word, prev: Frame, next: Frame)

  const PREV: nat := 1
  const NEXT: nat := 2

  function NodeAt(mem: Memory, f: Frame): Node {
    Node(Entry(mem, f, 0), Entry(mem, f, PREV), Entry(mem, f, NEXT))
  }

  function First(free: seq<Frame>): Frame {
    if free == [] then 0 else free[0]
  }

  /** What the page at place `k` of the list holds: it is linked both ways. */
  function NodeFor(free: seq<Frame>, k: nat): Node
    requires k < |free|
  {
    Node(MAGIC, if k == 0 then 0 else free[k - 1], First(free[k + 1..]))
  }

  ghost predicate Linked(mem: Memory, free: seq<Frame>) {
    forall k :: 0 <= k < |free| ==> NodeAt(mem, free[k]) == NodeFor(free, k)
  }

  ghost predicate FreeOk(mem: Memory, owner: Owners, free: seq<Frame>) {
    && NoDup(free) && Linked(mem, free)
    && (forall f :: f in free <==> Owned(owner, f, Free))
  }

  /** The frames that were not free keep their bytes. */
  ghost predicate Kept(mem: Memory, owner: Owners, mem': Memory) {
    && mem'.Keys == mem.Keys
    && (forall f :: f in mem && !Owned(owner, f, Free) ==> mem'[f] == mem[f])
  }

  /** Writes to frames that are not free leave the list alone. */
  lemma FreeKept(mem: Memory, owner: Owners, mem': Memory, owner': Owners, free: seq<Frame>)
    requires FreeOk(mem, owner, free)
    requires forall f :: Owned(owner', f, Free) <==> Owned(owner, f, Free)
    requires forall f :: f in free && f in mem ==> f in mem' && mem'[f] == mem[f]
    requires forall f :: f in free ==> f in mem
    ensures FreeOk(mem', owner', free)
  {
    forall k | 0 <= k < |free| ensures NodeAt(mem', free[k]) == NodeFor(free, k) {
      assert free[k] in free;
    }
  }

  lemma PopLinked(mem: Memory, free: seq<Frame>, mem': Memory)
    requires Linked(mem, free) && free != []
    requires forall k :: 1 <= k < |free| ==>
               NodeAt(mem', free[k]) == if k == 1 then NodeAt(mem, free[1]).(prev := 0) else NodeAt(mem, free[k])
    ensures Linked(mem', free[1..])
  {
    hide NodeAt;
    var free' := free[1..];
    forall k | 0 <= k < |free'| ensures NodeAt(mem', free'[k]) == NodeFor(free', k) {
      assert free'[k] == free[k + 1] && free'[k + 1..] == free[k + 2..];
    }
  }

  lemma PopFree(mem: Memory, owner: Owners, free: seq<Frame>, mem': Memory)
    requires FreeOk(mem, owner, free) && free != []
    requires forall k :: 1 <= k < |free| ==>
               NodeAt(mem', free[k]) == if k == 1 then NodeAt(mem, free[1]).(prev := 0) else NodeAt(mem, free[k])
    ensures FreeOk(mem', owner[free[0] := Taken], free[1..])
  {
    hide Linked, NodeAt;
    PopLinked(mem, free, mem');
    var free', owner' := free[1..], owner[free[0] := Taken];
    assert free == [free[0]] + free' && free[0] !in free';
    forall f ensures f in free' <==> Owned(owner', f, Free) {
      assert f in free <==> Owned(owner, f, Free);
    }
  }

  lemma PushFree(mem: Memory, owner: Owners, free: seq<Frame>, p: Frame, mem': Memory)
    requires FreeOk(mem, owner, free) && !Owned(owner, p, Free)
    requires NodeAt(mem', p) == Node(MAGIC, 0, First(free))
    requires forall k :: 0 <= k < |free| ==>
               NodeAt(mem', free[k]) == if k == 0 then NodeAt(mem, free[0]).(prev := p) else NodeAt(mem, free[k])
    ensures FreeOk(mem', owner[p := Free], [p] + free)
  {
    hide NodeAt;
    var free' := [p] + free;
    assert p !in free;
    forall k | 0 <= k < |free'| ensures NodeAt(mem', free'[k]) == NodeFor(free', k) {
      if k == 0 {
        assert free'[1..] == free;
      } else {
        assert free'[k] == free[k - 1] && free'[k + 1..] == free[k..];
      }
    }
  }
}
