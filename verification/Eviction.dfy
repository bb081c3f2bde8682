/** The search both caches make for the entry to reuse (kernel/kernel/drivers/ata/generic.c,
    kernel/kernel/fs/fat_vfs.c): unreferenced, hit least, first among those. */
module Eviction {
  import opened Base

  /** What the search looks at of an entry. */
  datatype Use = Use(ref: nat, hit: Uint)

  predicate Evictable(u: Use) {
    u.ref == 0 && u.hit < UINT_MAX
  }

  /** The first of the evictable entries below `n` that is hit least, or the number of entries. */
  function Victim(uses: seq<Use>, n: nat): (k: nat)
    requires n <= |uses|
    ensures k < n || k == |uses|
    ensures k < n ==> Evictable(uses[k])
    ensures forall j :: 0 <= j < n && Evictable(uses[j]) ==>
              k < n && uses[k].hit <= uses[j].hit && (uses[k].hit == uses[j].hit ==> k <= j)
  {
    if n == 0 then |uses|
    else
      var k := Victim(uses, n - 1);
      if uses[n - 1].ref == 0 && uses[n - 1].hit < (if k < |uses| then uses[k].hit else UINT_MAX) then n - 1 else k
  }

  /** The search itself. */
  method FindVictim(uses: seq<Use>) returns (lowest: nat)
    ensures lowest == Victim(uses, |uses|)
  {
    var lowestHit, i := UINT_MAX, 0;
    lowest := |uses|;
    while i < |uses|
      invariant i <= |uses| && lowest == Victim(uses, i)
      invariant lowestHit == if lowest < |uses| then uses[lowest].hit else UINT_MAX
    {
      if uses[i].ref == 0 && uses[i].hit < lowestHit {
        lowestHit, lowest := uses[i].hit, i;
      }
      i := i + 1;
    }
  }

  /** Unreferenced, and stuck in the cache for good or evictable. */
  predicate Unused(u: Use, stuck: bool) {
    u.ref == 0 && (u.hit == UINT_MAX <==> stuck)
  }

  /** The number of stuck, or of evictable, entries. */
  function Count(uses: seq<Use>, stuck: bool): nat {
    if uses == [] then 0 else (if Unused(uses[0], stuck) then 1 else 0) + Count(uses[1..], stuck)
  }

  /** Taking the entry at `k` apart from the rest. */
  lemma {:induction false} CountAt(uses: seq<Use>, k: nat, stuck: bool)
    requires k < |uses|
    ensures Count(uses, stuck) == Count(uses[..k] + uses[k + 1..], stuck) + (if Unused(uses[k], stuck) then 1 else 0)
  {
    var rest := uses[..k] + uses[k + 1..];
    if k == 0 {
      assert rest == uses[1..];
    } else {
      CountAt(uses[1..], k - 1, stuck);
      assert rest[1..] == uses[1..][..k - 1] + uses[1..][k..];
    }
  }

  lemma CountUpdate(uses: seq<Use>, k: nat, u: Use, stuck: bool)
    requires k < |uses|
    ensures Count(uses[k := u], stuck) + (if Unused(uses[k], stuck) then 1 else 0) ==
            Count(uses, stuck) + if Unused(u, stuck) then 1 else 0
  {
    hide Count;
    var uses' := uses[k := u];
    CountAt(uses, k, stuck);
    CountAt(uses', k, stuck);
    assert uses'[..k] == uses[..k];
    assert uses'[k + 1..] == uses[k + 1..];
  }

  lemma {:induction false} CountBound(uses: seq<Use>)
    ensures Count(uses, false) + Count(uses, true) <= |uses|
  {
    if uses != [] {
      CountBound(uses[1..]);
    }
  }

  lemma {:induction false} CountNone(uses: seq<Use>, stuck: bool)
    requires forall j :: 0 <= j < |uses| ==> !Unused(uses[j], stuck)
    ensures Count(uses, stuck) == 0
  {
    if uses != [] {
      CountNone(uses[1..], stuck);
    }
  }

  lemma {:induction false} CountAll(uses: seq<Use>, stuck: bool)
    requires forall j :: 0 <= j < |uses| ==> Unused(uses[j], stuck)
    ensures Count(uses, stuck) == |uses| && Count(uses, !stuck) == 0
  {
    if uses != [] {
      CountAll(uses[1..], stuck);
    }
  }

  /** There is a victim exactly when some entry is evictable. */
  lemma VictimExists(uses: seq<Use>)
    ensures Victim(uses, |uses|) < |uses| <==> Count(uses, false) > 0
  {
    var k := Victim(uses, |uses|);
    if k < |uses| {
      CountAt(uses, k, false);
    } else {
      CountNone(uses, false);
    }
  }
}
