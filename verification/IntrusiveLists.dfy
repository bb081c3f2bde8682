/** The intrusive lists of kernel/include/kernel/queue.h, whose elements carry their own links and
    which store through the address of a link field. */
module IntrusiveLists {
  import opened Base

  type Elem = nat  // identity of an object that embeds the entry

  /** The address of a field that holds a link: the head's `first` or an element's `next`. */
  datatype Link = HeadFirst | NextOf(elem: Elem)

  /** The link the element at position `i` of `s` holds. */
  function After(s: seq<Elem>, i: nat): Option<Elem> {
    if i + 1 < |s| then Some(s[i + 1]) else None
  }

  /** The address of the link that points at position `i` of `s`. */
  function Before(s: seq<Elem>, i: nat): Link
    requires i <= |s|
  {
    if i == 0 then HeadFirst else NextOf(s[i - 1])
  }

  ghost predicate NextLinks(s: seq<Elem>, next: map<Elem, Option<Elem>>) {
    forall i :: 0 <= i < |s| ==> s[i] in next && next[s[i]] == After(s, i)
  }

  ghost predicate PrevLinks(s: seq<Elem>, prev: map<Elem, Link>) {
    forall i :: 0 <= i < |s| ==> s[i] in prev && prev[s[i]] == Before(s, i)
  }

  /** STAILQ: the head keeps the address of the last link, so a tail insertion is one store. */
  class TailQueue {
    var first: Option<Elem>            // stqh_first
    var last: Link                     // stqh_last
    var next: map<Elem, Option<Elem>>  // stqe_next of every element that has been queued
    ghost var contents: seq<Elem>

    /** The links spell out `contents`, the last link is NULL and `last` is its address. */
    ghost predicate Valid()
      reads this
    {
      && NoDup(contents)
      && first == (if contents == [] then None else Some(contents[0]))
      && last == Before(contents, |contents|)
      && NextLinks(contents, next)
    }

    // STAILQ_INIT
    constructor ()
      ensures Valid() && contents == []
    {
      first := None;
      last := HeadFirst;
      next := map[];
      contents := [];
    }

    // STAILQ_INSERT_HEAD
    method InsertHead(e: Elem)
      requires Valid() && e !in contents
      modifies this
      ensures Valid() && contents == [e] + old(contents)
    {
      hide NextLinks, NoDup;
      PushNext(contents, next, e);
      PushNoDup(contents, e);
      next := next[e := first];
      if first == None {
        last := NextOf(e);
      }
      first := Some(e);
      contents := [e] + contents;
    }

    // STAILQ_INSERT_TAIL
    method InsertTail(e: Elem)
      requires Valid() && e !in contents
      modifies this
      ensures Valid() && contents == old(contents) + [e]
    {
      next := next[e := None];
      match last {  // *(head)->stqh_last = (elm)
        case HeadFirst => first := Some(e);
        case NextOf(l) => next := next[l := Some(e)];
      }
      last := NextOf(e);
      contents := contents + [e];
    }

    // STAILQ_REMOVE_HEAD
    method RemoveHead() returns (e: Elem)
      requires Valid() && contents != []
      modifies this
      ensures Valid() && e == old(contents)[0] && contents == old(contents)[1..]
    {
      e := first.value;
      assert e == contents[0];
      first := next[e];
      if first == None {
        last := HeadFirst;
      }
      contents := contents[1..];
      forall i | 0 <= i < |contents| ensures contents[i] in next && next[contents[i]] == After(contents, i) {
        assert contents[i] == old(contents)[i + 1];
      }
    }
  }

  lemma {:induction false} WithoutSplit(a: seq<Elem>, e: Elem, b: seq<Elem>)
    requires e !in a && e !in b
    ensures Without(a + [e] + b, e) == a + b
  {
    if a == [] {
      assert a + [e] + b == [e] + b;
      WithoutAbsent(b, e);
    } else {
      assert (a + [e] + b)[1..] == a[1..] + [e] + b;
      WithoutSplit(a[1..], e, b);
    }
  }

  lemma {:induction false} WithoutAbsent(b: seq<Elem>, e: Elem)
    requires e !in b
    ensures Without(b, e) == b
  {
    if b != [] { WithoutAbsent(b[1..], e); }
  }

  /** Linking past position `i` spells out the list without it. */
  lemma UnlinkNext(s: seq<Elem>, next: map<Elem, Option<Elem>>, i: nat)
    requires NoDup(s) && NextLinks(s, next) && i < |s|
    ensures NextLinks(s[..i] + s[i + 1..], if i == 0 then next else next[s[i - 1] := next[s[i]]])
  {
    var rest := s[..i] + s[i + 1..];
    var next' := if i == 0 then next else next[s[i - 1] := next[s[i]]];
    hide NoDup, After;
    forall k | 0 <= k < |rest| ensures rest[k] in next' && next'[rest[k]] == After(rest, k) {
      UnlinkNextAt(s, next, i, k);
    }
  }

  lemma UnlinkNextAt(s: seq<Elem>, next: map<Elem, Option<Elem>>, i: nat, k: nat)
    requires NoDup(s) && NextLinks(s, next) && i < |s| && k < |s| - 1
    ensures var rest, next' := s[..i] + s[i + 1..], if i == 0 then next else next[s[i - 1] := next[s[i]]];
            rest[k] in next' && next'[rest[k]] == After(rest, k)
  {
    hide NoDup, NextLinks;
    NextAt(s, next, i);
    NextAt(s, next, Moved(i, k));
    RestAt(s, i, k);
    if i > 0 {
      AtOnePlace(s, Moved(i, k), i - 1);
    }
  }

  /** The place in the whole list of what is at `k` without place `i`. */
  function Moved(i: nat, k: nat): nat {
    if k < i then k else k + 1
  }

  lemma RestAt(s: seq<Elem>, i: nat, k: nat)
    requires i < |s| && k < |s| - 1
    ensures var rest := s[..i] + s[i + 1..];
            && rest[k] == s[Moved(i, k)]
            && (k > 0 ==> rest[k - 1] == s[Moved(i, k - 1)])
            && (k + 1 < |rest| ==> rest[k + 1] == s[Moved(i, k + 1)])
  {
  }

  lemma NextAt(s: seq<Elem>, next: map<Elem, Option<Elem>>, i: nat)
    requires NextLinks(s, next) && i < |s|
    ensures s[i] in next && next[s[i]] == After(s, i)
  {
  }

  lemma PrevAt(s: seq<Elem>, prev: map<Elem, Link>, i: nat)
    requires PrevLinks(s, prev) && i < |s|
    ensures s[i] in prev && prev[s[i]] == Before(s, i)
  {
  }

  lemma AtOnePlace(s: seq<Elem>, i: nat, j: nat)
    requires NoDup(s) && i < |s| && j < |s|
    ensures s[i] == s[j] <==> i == j
  {
  }

  lemma UnlinkPrev(s: seq<Elem>, prev: map<Elem, Link>, i: nat)
    requires NoDup(s) && PrevLinks(s, prev) && i < |s|
    ensures PrevLinks(s[..i] + s[i + 1..], if i + 1 == |s| then prev else prev[s[i + 1] := prev[s[i]]])
  {
    var rest := s[..i] + s[i + 1..];
    var prev' := if i + 1 == |s| then prev else prev[s[i + 1] := prev[s[i]]];
    hide NoDup, Before;
    forall k | 0 <= k < |rest| ensures rest[k] in prev' && prev'[rest[k]] == Before(rest, k) {
      UnlinkPrevAt(s, prev, i, k);
    }
  }

  lemma UnlinkPrevAt(s: seq<Elem>, prev: map<Elem, Link>, i: nat, k: nat)
    requires NoDup(s) && PrevLinks(s, prev) && i < |s| && k < |s| - 1
    ensures var rest, prev' := s[..i] + s[i + 1..], if i + 1 == |s| then prev else prev[s[i + 1] := prev[s[i]]];
            rest[k] in prev' && prev'[rest[k]] == Before(rest, k)
  {
    hide NoDup, PrevLinks;
    PrevAt(s, prev, i);
    PrevAt(s, prev, Moved(i, k));
    RestAt(s, i, k);
    if i + 1 < |s| {
      AtOnePlace(s, Moved(i, k), i + 1);
    }
  }

  lemma Unlink(s: seq<Elem>, next: map<Elem, Option<Elem>>, prev: map<Elem, Link>, i: nat)
    requires NoDup(s) && NextLinks(s, next) && PrevLinks(s, prev) && i < |s|
    ensures s[i] in next && next[s[i]] == After(s, i) && s[i] in prev && prev[s[i]] == Before(s, i)
    ensures s[..i] + s[i + 1..] == Without(s, s[i]) && NoDup(s[..i] + s[i + 1..])
    ensures NextLinks(s[..i] + s[i + 1..], if i == 0 then next else next[s[i - 1] := next[s[i]]])
    ensures PrevLinks(s[..i] + s[i + 1..], if i + 1 == |s| then prev else prev[s[i + 1] := prev[s[i]]])
  {
    hide NextLinks, PrevLinks, Without, NoDup, After, Before;
    NextAt(s, next, i);
    PrevAt(s, prev, i);
    UnlinkWithout(s, i);
    UnlinkNext(s, next, i);
    UnlinkPrev(s, prev, i);
  }

  lemma UnlinkWithout(s: seq<Elem>, i: nat)
    requires NoDup(s) && i < |s|
    ensures s[..i] + s[i + 1..] == Without(s, s[i]) && NoDup(s[..i] + s[i + 1..])
  {
    hide Without, NoDup;
    Alone(s, i);
    assert s == s[..i] + [s[i]] + s[i + 1..];
    WithoutSplit(s[..i], s[i], s[i + 1..]);
  }

  lemma Alone(s: seq<Elem>, i: nat)
    requires NoDup(s) && i < |s|
    ensures s[i] !in s[..i] && s[i] !in s[i + 1..]
  {
  }

  /** Linking `e` in front. */
  lemma PushNext(s: seq<Elem>, next: map<Elem, Option<Elem>>, e: Elem)
    requires NextLinks(s, next) && e !in s
    ensures NextLinks([e] + s, next[e := if s == [] then None else Some(s[0])])
  {
    var s', next' := [e] + s, next[e := if s == [] then None else Some(s[0])];
    forall k | 0 <= k < |s'| ensures s'[k] in next' && next'[s'[k]] == After(s', k) {
      if k > 0 {
        assert s'[k] == s[k - 1] && s[k - 1] in s;
      }
    }
  }

  lemma PushPrev(s: seq<Elem>, prev: map<Elem, Link>, e: Elem)
    requires PrevLinks(s, prev) && e !in s && NoDup(s)
    ensures PrevLinks([e] + s, (if s == [] then prev else prev[s[0] := NextOf(e)])[e := HeadFirst])
  {
    var s', prev' := [e] + s, (if s == [] then prev else prev[s[0] := NextOf(e)])[e := HeadFirst];
    forall k | 0 <= k < |s'| ensures s'[k] in prev' && prev'[s'[k]] == Before(s', k) {
      if k > 0 {
        assert s'[k] == s[k - 1] && s[k - 1] in s;
        assert s'[k - 1] == if k == 1 then e else s[k - 2];
      }
    }
  }

  lemma PushNoDup(s: seq<Elem>, e: Elem)
    requires NoDup(s) && e !in s
    ensures NoDup([e] + s)
  {
  }

  /** LIST: every element keeps the address of the link that points at it, so it can be taken out
      without a walk. */
  class LinkedList {
    var first: Option<Elem>            // lh_first
    var next: map<Elem, Option<Elem>>  // le_next
    var prev: map<Elem, Link>          // le_prev
    ghost var contents: seq<Elem>

    ghost predicate Valid()
      reads this
    {
      && NoDup(contents)
      && first == (if contents == [] then None else Some(contents[0]))
      && NextLinks(contents, next)
      && PrevLinks(contents, prev)
    }

    // LIST_INIT
    constructor ()
      ensures Valid() && contents == []
    {
      first := None;
      next := map[];
      prev := map[];
      contents := [];
    }

    /** Where LIST_FOREACH is after `i` turns. */
    ghost function At(i: nat): Option<Elem>
      reads this
    {
      if i < |contents| then Some(contents[i]) else None
    }

    /** The next turn: LIST_FOREACH visits `contents` in order, and then ends. */
    lemma Turn(i: nat)
      requires Valid()
      ensures first == At(0)
      ensures i < |contents| ==> contents[i] in next && next[contents[i]] == At(i + 1)
    {
    }

    // LIST_INSERT_HEAD
    method InsertHead(e: Elem)
      requires Valid() && e !in contents
      modifies this
      ensures Valid() && contents == [e] + old(contents)
    {
      hide NextLinks, PrevLinks, NoDup;
      PushNext(contents, next, e);
      PushPrev(contents, prev, e);
      PushNoDup(contents, e);
      next := next[e := first];
      if first.Some? {
        prev := prev[first.value := NextOf(e)];
      }
      first := Some(e);
      prev := prev[e := HeadFirst];
      contents := [e] + contents;
    }

    // LIST_REMOVE
    method Remove(e: Elem)
      requires Valid() && e in contents
      modifies this
      ensures Valid() && contents == Without(old(contents), e)
    {
      ghost var i :| 0 <= i < |contents| && contents[i] == e;
      ghost var s := contents;
      Unlink(s, next, prev, i);
      hide NextLinks, PrevLinks, NoDup, Without;
      if next[e].Some? {
        prev := prev[next[e].value := prev[e]];
      }
      match prev[e] {  // *(elm)->le_prev = (elm)->le_next
        case HeadFirst => first := next[e];
        case NextOf(l) => next := next[l := next[e]];
      }
      contents := s[..i] + s[i + 1..];
    }
  }
}
