/** Vocabulary shared by every component of the model. */
module Base {

  datatype Option<+T> = None | Some(value: T)

  const UINT_MAX: nat := 0xffff_ffff
  const WORDS: nat := 0x1_0000_0000   // 32-bit values
  const PAGE_SIZE: nat := 4096

  type Uint = x: nat | x <= UINT_MAX
  type Byte = x: int | 0 <= x < 0x100

  /** No element of `s` occurs at two positions. */
  ghost predicate NoDup<T>(s: seq<T>) {
    forall i, j :: 0 <= i < j < |s| ==> s[i] != s[j]
  }

  /** `s` with every occurrence of `x` taken out: what LIST_REMOVE leaves. */
  function Without<T(==, !new)>(s: seq<T>, x: T): (r: seq<T>)
    ensures forall y :: y in r <==> y in s && y != x
    ensures NoDup(s) ==> NoDup(r)
    ensures |r| <= |s|
  {
    if s == [] then []
    else if s[0] == x then
      assert s == [s[0]] + s[1..];
      Without(s[1..], x)
    else
      assert s == [s[0]] + s[1..];
      var w := Without(s[1..], x);
      assert NoDup(s) ==> NoDup(s[1..]) && s[0] !in s[1..];
      assert forall k :: 0 <= k < |w| ==> w[k] in s[1..];
      [s[0]] + w
  }

  function Elements<T>(s: seq<T>): set<T> {
    set x | x in s
  }

  lemma {:induction false} DistinctCount<T>(s: seq<T>)
    requires NoDup(s)
    ensures |Elements(s)| == |s|
  {
    if s != [] {
      DistinctCount(s[1..]);
      assert s == [s[0]] + s[1..] && s[0] !in s[1..];
      assert Elements(s) == Elements(s[1..]) + {s[0]};
    }
  }
}
