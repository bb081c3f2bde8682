/** fat_read_entry (kernel/kernel/fs/fat_core.c) over a directory of 32-byte entries, and the layout of
    long names it reads (section 7, Long File Name Implementation, of the Microsoft FAT File System
    Specification; kernel/include/kernel/fs/fat_types.h). */
module FatEntries {
  import opened Base

  const ENTRY_SIZE: nat := 32
  const LAST_ENTRY: Byte := 0        // FAT_LAST_ENTRY
  const UNUSED_ENTRY: Byte := 0xe5   // FAT_UNUSED_ENTRY
  const LFN: Byte := 0x0f            // FAT_LFN
  const LFN_LAST: Byte := 0x40
  const LFN_DELETED: Byte := 0x80
  const CHARS: nat := 13             // FAT_LFN_CHARS
  const BUF: nat := 261              // FAT_LFN_NAME_BUF_SIZE
  const NAME_MAX: nat := 255         // FAT_LFN_NAME_SIZE - 1

  /** The bytes of a struct fat_entry or struct fat_lfn. */
  type Entry = e: seq<Byte> | |e| == ENTRY_SIZE witness seq(32, _ => 0)

  predicate IsLfn(e: Entry) {
    e[11] == LFN
  }

  /** ordinal & FAT_LFN_DELETED. */
  predicate IsDeleted(e: Entry) {
    e[0] >= LFN_DELETED
  }

  /** ordinal & 0x3f. */
  function Number(e: Entry): nat {
    e[0] % 0x40
  }

  /** Where character `i` of an LFN entry is: 5 at byte 1, 6 at byte 14, 2 at byte 28. */
  function CharAt(i: nat): (k: nat)
    requires i < CHARS
    ensures k + 1 < ENTRY_SIZE
  {
    if i < 5 then 1 + 2 * i else if i < 11 then 14 + 2 * (i - 5) else 28 + 2 * (i - 11)
  }

  /** The characters as ucs2_to_ascii cuts them. */
  function Chars(e: Entry): (c: seq<Byte>)
    ensures |c| == CHARS
  {
    seq(CHARS, i requires 0 <= i < CHARS => e[CharAt(i)])
  }

  function Splice(buf: seq<Byte>, at: nat, bytes: seq<Byte>): (r: seq<Byte>)
    requires at + |bytes| <= |buf|
    ensures |r| == |buf|
    ensures forall k :: 0 <= k < |r| ==> r[k] == if at <= k < at + |bytes| then bytes[k - at] else buf[k]
  {
    buf[..at] + bytes + buf[at + |bytes|..]
  }

  function Zeros(n: nat): (z: seq<Byte>)
    ensures |z| == n
  {
    seq(n, _ => 0)
  }

  /** kstrlen, within the buffer. */
  function StrLen(buf: seq<Byte>): (n: nat)
    ensures n <= |buf| && (n < |buf| ==> buf[n] == 0) && forall k :: 0 <= k < n ==> buf[k] != 0
  {
    if buf == [] || buf[0] == 0 then 0 else 1 + StrLen(buf[1..])
  }

  /** The string a buffer holds. */
  function CString(buf: seq<Byte>): seq<Byte> {
    buf[..StrLen(buf)]
  }

  lemma StrLenIs(buf: seq<Byte>, n: nat)
    requires n < |buf| && buf[n] == 0 && forall k :: 0 <= k < n ==> buf[k] != 0
    ensures StrLen(buf) == n
  {
  }

  /** The name of an entry without long name: 8 characters, a dot, 3 more. */
  function ShortName(buf: seq<Byte>, e: Entry): (r: seq<Byte>)
    requires |buf| == BUF
    ensures |r| == BUF
  {
    var name := Splice(Splice(buf, 0, Zeros(CHARS)), 0, e[..8]);
    if e[8] == 0 then name
    else
      var n := StrLen(name);
      assert name[8] == 0;
      var dotted := name[n := '.' as Byte];
      assert dotted[9] == 0;
      Splice(dotted, StrLen(dotted), e[8..11])
  }

  /** `lfn` is the result's name buffer, which the code writes even if it finds nothing. */
  datatype Outcome =
    | Read(next: nat, entry: Entry, lfn: seq<Byte>)
    | Last(lfn: seq<Byte>)
    | Error(lfn: seq<Byte>)
    | Panic(lfn: seq<Byte>)

  /** The code of fat_read_entry from a turn of its loop on. */
  function Scan(dir: seq<Entry>, idx: nat, inSequence: bool, iseq: int, buf: seq<Byte>): (r: Outcome)
    requires |buf| == BUF && (inSequence ==> 0 <= iseq < 20)
    ensures |r.lfn| == BUF && (r.Read? ==> idx < r.next <= |dir| && r.entry == dir[r.next - 1])
    decreases |dir| - idx
  {
    if idx >= |dir| then Error(buf)
    else
      var e := dir[idx];
      if e[0] == LAST_ENTRY then Last(buf)
      else if e[0] == UNUSED_ENTRY then Scan(dir, idx + 1, inSequence, iseq, buf)
      else if IsLfn(e) && !IsDeleted(e) then
        var seq' := if inSequence then iseq - 1 else Number(e) - 1;
        if !inSequence && (seq' + 1) * CHARS >= BUF then Panic(buf)
        else
          var buf' := if inSequence then buf else Zeros(BUF);
          if seq' < 0 then Panic(buf')
          else Scan(dir, idx + 1, true, seq', Splice(buf', seq' * CHARS, Chars(e)))
      else if !IsLfn(e) then Read(idx + 1, e, if inSequence then buf else ShortName(buf, e))
      else Scan(dir, idx + 1, inSequence, iseq, buf)
  }

  /** fat_read_entry. */
  function ReadEntry(dir: seq<Entry>, idx: nat, buf: seq<Byte>): (r: Outcome)
    requires |buf| == BUF
    ensures |r.lfn| == BUF && (r.Read? ==> idx < r.next <= |dir| && r.entry == dir[r.next - 1])
  {
    Scan(dir, idx, false, 0, buf)
  }

  datatype Status = Next(idx: nat, entry: Entry) | LastEntry | EntryError | Stopped

  function StatusOf(o: Outcome): Status {
    match o
    case Read(next, entry, _) => Next(next, entry)
    case Last(_) => LastEntry
    case Error(_) => EntryError
    case Panic(_) => Stopped
  }

  /** fat_copy_all_ascii_chars, to place `to` of the buffer. */
  method CopyChars(lfn: array<Byte>, to: nat, e: Entry)
    requires to + CHARS <= lfn.Length
    modifies lfn
    ensures lfn[..] == Splice(old(lfn[..]), to, Chars(e))
  {
    var i := 0;
    while i < CHARS
      invariant i <= CHARS
      invariant forall k :: 0 <= k < lfn.Length ==> lfn[k] == if to <= k < to + i then Chars(e)[k - to] else old(lfn[k])
    {
      lfn[to + i] := e[CharAt(i)];
      i := i + 1;
    }
  }

  /** kmemset and kmemcpy into the buffer. */
  method Fill(lfn: array<Byte>, to: nat, bytes: seq<Byte>)
    requires to + |bytes| <= lfn.Length
    modifies lfn
    ensures lfn[..] == Splice(old(lfn[..]), to, bytes)
  {
    var i := 0;
    while i < |bytes|
      invariant i <= |bytes|
      invariant forall k :: 0 <= k < lfn.Length ==> lfn[k] == if to <= k < to + i then bytes[k - to] else old(lfn[k])
    {
      lfn[to + i] := bytes[i];
      i := i + 1;
    }
  }

  /** The name of an entry without long name, written in place. */
  method FillShortName(lfn: array<Byte>, e: Entry)
    requires lfn.Length == BUF
    modifies lfn
    ensures lfn[..] == ShortName(old(lfn[..]), e)
  {
    Fill(lfn, 0, Zeros(CHARS));
    Fill(lfn, 0, e[..8]);
    if e[8] != 0 {
      assert lfn[..][8] == 0;
      var n := StrLen(lfn[..]);
      ghost var name := lfn[..];
      lfn[n] := '.' as Byte;
      assert lfn[..] == name[n := '.' as Byte] && lfn[..][9] == 0;
      var m := StrLen(lfn[..]);
      Fill(lfn, m, e[8..11]);
    }
  }

  /** fat_read_entry as the code runs it: every write is inside the 261-byte buffer. */
  method ReadEntryInto(dir: seq<Entry>, start: nat, lfn: array<Byte>) returns (r: Status)
    requires lfn.Length == BUF
    modifies lfn
    ensures r == StatusOf(ReadEntry(dir, start, old(lfn[..]))) && lfn[..] == ReadEntry(dir, start, old(lfn[..])).lfn
  {
    hide ShortName, Splice, Zeros, Chars, Number, IsLfn, IsDeleted, Scan;
    var idx, iseq, inSequence := start, 0, false;
    ghost var result := ReadEntry(dir, start, lfn[..]);
    hide ReadEntry;
    while idx < |dir|
      invariant inSequence ==> 0 <= iseq < 20
      invariant result == Scan(dir, idx, inSequence, iseq, lfn[..])
    {
      var e := dir[idx];
      ghost var was := lfn[..];
      ScanTurn(dir, idx, inSequence, iseq, was);
      idx := idx + 1;
      if e[0] == LAST_ENTRY {
        return LastEntry;
      } else if e[0] == UNUSED_ENTRY {
        continue;
      }
      if IsLfn(e) && !IsDeleted(e) {
        if !inSequence {
          iseq := Number(e) - 1;
          if (iseq + 1) * CHARS >= BUF {
            return Stopped;
          }
          inSequence := true;
          Fill(lfn, 0, Zeros(BUF));
          SpliceAll(was, Zeros(BUF));
        } else {
          iseq := iseq - 1;
        }
        if iseq < 0 {
          return Stopped;
        }
        CopyChars(lfn, iseq * CHARS, e);
      } else if !IsLfn(e) {
        if !inSequence {
          FillShortName(lfn, e);
        }
        return Next(idx, e);
      }
    }
    ScanOut(dir, idx, inSequence, iseq, lfn[..]);
    return EntryError;
  }

  /** One turn of the loop. */
  lemma ScanTurn(dir: seq<Entry>, idx: nat, inSequence: bool, iseq: int, buf: seq<Byte>)
    requires idx < |dir| && |buf| == BUF && (inSequence ==> 0 <= iseq < 20)
    ensures var e, r := dir[idx], Scan(dir, idx, inSequence, iseq, buf);
            var seq', buf' := if inSequence then iseq - 1 else Number(e) - 1, if inSequence then buf else Zeros(BUF);
            if e[0] == LAST_ENTRY then r == Last(buf)
            else if e[0] == UNUSED_ENTRY || (IsLfn(e) && IsDeleted(e)) then r == Scan(dir, idx + 1, inSequence, iseq, buf)
            else if !IsLfn(e) then r == Read(idx + 1, e, if inSequence then buf else ShortName(buf, e))
            else if !inSequence && (seq' + 1) * CHARS >= BUF then r == Panic(buf)
            else if seq' < 0 then r == Panic(buf')
            else r == Scan(dir, idx + 1, true, seq', Splice(buf', seq' * CHARS, Chars(e)))
  {
    hide ShortName, Splice, Zeros, Chars, Number, IsLfn, IsDeleted;
  }

  lemma ScanOut(dir: seq<Entry>, idx: nat, inSequence: bool, iseq: int, buf: seq<Byte>)
    requires idx >= |dir| && |buf| == BUF && (inSequence ==> 0 <= iseq < 20)
    ensures Scan(dir, idx, inSequence, iseq, buf) == Error(buf)
  {
  }

  lemma SpliceAll(buf: seq<Byte>, bytes: seq<Byte>)
    requires |bytes| == |buf|
    ensures Splice(buf, 0, bytes) == bytes
  {
  }

  // Long names.

  /** Names the theorem is about: not empty, at most 255 characters, ASCII and without NUL. */
  predicate IsName(name: seq<Byte>) {
    0 < |name| <= NAME_MAX && forall k :: 0 <= k < |name| ==> 0 < name[k] < 0x80
  }

  /** Entries the name takes. */
  function EntryCount(name: seq<Byte>): nat {
    (|name| + CHARS - 1) / CHARS
  }

  /** Character `p` of a name as UCS-2, with its terminator and padding, low byte. */
  function Low(name: seq<Byte>, p: nat): Byte {
    if p < |name| then name[p] else if p == |name| then 0 else 0xff
  }

  function High(name: seq<Byte>, p: nat): Byte {
    if p <= |name| then 0 else 0xff
  }

  /** LFN entry `nr` of the name, with the checksum of its short name. */
  ghost predicate IsEntryOf(e: Entry, name: seq<Byte>, nr: nat) {
    && 1 <= nr <= EntryCount(name)
    && e[0] == nr + (if nr == EntryCount(name) then LFN_LAST else 0)
    && e[11] == LFN
    && forall i: nat :: i < CHARS ==>
         e[CharAt(i)] == Low(name, (nr - 1) * CHARS + i) && e[CharAt(i) + 1] == High(name, (nr - 1) * CHARS + i)
  }

  /** The directory has, from `at` on, the entries of the name in descending order and a short entry. */
  ghost predicate LaidOut(dir: seq<Entry>, at: nat, name: seq<Byte>) {
    var n := EntryCount(name);
    && at + n < |dir|
    && (forall q: nat :: at <= q < at + n ==> IsEntryOf(dir[q], name, n - (q - at)))
    && dir[at + n][0] != LAST_ENTRY && dir[at + n][0] != UNUSED_ENTRY && !IsLfn(dir[at + n])
  }

  /** What the buffer holds at `p` once all the name's entries are in it. */
  function Final(name: seq<Byte>, p: nat): Byte {
    if p < EntryCount(name) * CHARS then Low(name, p) else 0
  }

  lemma NameFits(name: seq<Byte>)
    requires IsName(name)
    ensures 1 <= EntryCount(name) <= 20 && |name| <= EntryCount(name) * CHARS < BUF
  {
  }

  lemma EntryChars(e: Entry, name: seq<Byte>, nr: nat, buf: seq<Byte>)
    requires IsName(name) && IsEntryOf(e, name, nr) && |buf| == BUF && nr <= 20
    requires forall p :: nr * CHARS <= p < BUF ==> buf[p] == Final(name, p)
    ensures forall p :: (nr - 1) * CHARS <= p < BUF ==> Splice(buf, (nr - 1) * CHARS, Chars(e))[p] == Final(name, p)
    ensures e[0] != LAST_ENTRY && e[0] != UNUSED_ENTRY && IsLfn(e) && !IsDeleted(e) && Number(e) == nr
  {
    NameFits(name);
    var buf' := Splice(buf, (nr - 1) * CHARS, Chars(e));
    forall p | (nr - 1) * CHARS <= p < BUF ensures buf'[p] == Final(name, p) {
      if p < nr * CHARS {
        var i: nat := p - (nr - 1) * CHARS;
        assert e[CharAt(i)] == Low(name, (nr - 1) * CHARS + i);
      }
    }
  }

  /** The loop from entry `nr` of the name down: what is above it is in the buffer already. */
  lemma {:induction false} ScanName(dir: seq<Entry>, at: nat, name: seq<Byte>, nr: nat, buf: seq<Byte>)
    requires IsName(name) && LaidOut(dir, at, name) && nr < EntryCount(name) && |buf| == BUF
    requires forall p :: nr * CHARS <= p < BUF ==> buf[p] == Final(name, p)
    ensures EntryCount(name) <= 20
    ensures var r := Scan(dir, at + EntryCount(name) - nr, true, nr, buf);
            && r.Read? && r.next == at + EntryCount(name) + 1 && r.entry == dir[at + EntryCount(name)]
            && forall p :: 0 <= p < BUF ==> r.lfn[p] == Final(name, p)
    decreases nr
  {
    hide Scan, Splice, Chars, IsLfn, IsDeleted, Number;
    NameFits(name);
    var n := EntryCount(name);
    var idx := at + n - nr;
    if nr == 0 {
      ScanEnd(dir, idx, nr, buf);
    } else {
      assert IsEntryOf(dir[idx], name, n - (idx - at));
      EntryChars(dir[idx], name, nr, buf);
      ScanNext(dir, idx, nr, buf);
      ScanName(dir, at, name, nr - 1, Splice(buf, (nr - 1) * CHARS, Chars(dir[idx])));
    }
  }

  /** The first entry of the name clears the buffer and starts the sequence. */
  lemma ScanStart(dir: seq<Entry>, at: nat, name: seq<Byte>, buf: seq<Byte>)
    requires IsName(name) && LaidOut(dir, at, name) && |buf| == BUF
    ensures var r := Scan(dir, at, false, 0, buf);
            && r.Read? && r.next == at + EntryCount(name) + 1 && r.entry == dir[at + EntryCount(name)]
            && forall p :: 0 <= p < BUF ==> r.lfn[p] == Final(name, p)
  {
    hide Scan, Splice, Chars, IsLfn, IsDeleted, Number;
    NameFits(name);
    var n := EntryCount(name);
    assert IsEntryOf(dir[at], name, n - (at - at));
    EntryChars(dir[at], name, n, Zeros(BUF));
    ScanFirst(dir, at, buf);
    ScanName(dir, at, name, n - 1, Splice(Zeros(BUF), (n - 1) * CHARS, Chars(dir[at])));
  }

  /** The turn of the loop at the first entry of a long name. */
  lemma ScanFirst(dir: seq<Entry>, idx: nat, buf: seq<Byte>)
    requires idx < |dir| && |buf| == BUF && dir[idx][0] != LAST_ENTRY && dir[idx][0] != UNUSED_ENTRY
    requires IsLfn(dir[idx]) && !IsDeleted(dir[idx]) && 1 <= Number(dir[idx]) <= 20
    ensures var nr := Number(dir[idx]) - 1;
            Scan(dir, idx, false, 0, buf) == Scan(dir, idx + 1, true, nr, Splice(Zeros(BUF), nr * CHARS, Chars(dir[idx])))
  {
    hide Splice, Chars, Zeros, ShortName, IsLfn, IsDeleted, Number, Scan;
    ScanTurn(dir, idx, false, 0, buf);
  }

  /** At a further entry of it. */
  lemma ScanNext(dir: seq<Entry>, idx: nat, nr: nat, buf: seq<Byte>)
    requires idx < |dir| && |buf| == BUF && dir[idx][0] != LAST_ENTRY && dir[idx][0] != UNUSED_ENTRY
    requires IsLfn(dir[idx]) && !IsDeleted(dir[idx]) && 1 <= nr < 20
    ensures Scan(dir, idx, true, nr, buf) ==
            Scan(dir, idx + 1, true, nr - 1, Splice(buf, (nr - 1) * CHARS, Chars(dir[idx])))
  {
    hide Splice, Chars, Zeros, ShortName, IsLfn, IsDeleted, Number, Scan;
    ScanTurn(dir, idx, true, nr, buf);
  }

  /** At the short entry after it. */
  lemma ScanEnd(dir: seq<Entry>, idx: nat, nr: nat, buf: seq<Byte>)
    requires idx < |dir| && |buf| == BUF && dir[idx][0] != LAST_ENTRY && dir[idx][0] != UNUSED_ENTRY
    requires !IsLfn(dir[idx]) && nr < 20
    ensures Scan(dir, idx, true, nr, buf) == Read(idx + 1, dir[idx], buf)
  {
    hide Splice, Chars, Zeros, ShortName, IsLfn, IsDeleted, Number, Scan;
    ScanTurn(dir, idx, true, nr, buf);
  }

  /** And at an entry it passes over. */
  lemma ScanPast(dir: seq<Entry>, idx: nat, inSequence: bool, iseq: int, buf: seq<Byte>)
    requires idx < |dir| && |buf| == BUF && (inSequence ==> 0 <= iseq < 20) && Skipped(dir[idx])
    ensures Scan(dir, idx, inSequence, iseq, buf) == Scan(dir, idx + 1, inSequence, iseq, buf)
  {
    hide Splice, Chars, Zeros, ShortName, IsLfn, IsDeleted, Number, Scan;
    ScanTurn(dir, idx, inSequence, iseq, buf);
  }

  /** Entries the loop passes over: unused ones, and deleted parts of long names. */
  predicate Skipped(e: Entry) {
    e[0] != LAST_ENTRY && (e[0] == UNUSED_ENTRY || (IsLfn(e) && IsDeleted(e)))
  }

  lemma {:induction false} ScanSkips(dir: seq<Entry>, from: nat, at: nat, inSequence: bool, iseq: int, buf: seq<Byte>)
    requires from <= at <= |dir| && forall k :: from <= k < at ==> Skipped(dir[k])
    requires |buf| == BUF && (inSequence ==> 0 <= iseq < 20)
    ensures Scan(dir, from, inSequence, iseq, buf) == Scan(dir, at, inSequence, iseq, buf)
    decreases at - from
  {
    hide Scan, Skipped;
    if from < at {
      ScanPast(dir, from, inSequence, iseq, buf);
      ScanSkips(dir, from + 1, at, inSequence, iseq, buf);
    }
  }

  /** Reading back a name laid out behind deleted entries gives the name, the short entry and the
      index after it, whatever was in the buffer. */
  lemma LongNameRoundTrip(dir: seq<Entry>, from: nat, at: nat, name: seq<Byte>, buf: seq<Byte>)
    requires IsName(name) && LaidOut(dir, at, name) && from <= at && |buf| == BUF
    requires forall k :: from <= k < at ==> Skipped(dir[k])
    ensures var r := ReadEntry(dir, from, buf);
            && r.Read? && r.next == at + EntryCount(name) + 1 && r.entry == dir[at + EntryCount(name)]
            && CString(r.lfn) == name
  {
    ScanSkips(dir, from, at, false, 0, buf);
    ScanStart(dir, at, name, buf);
    NameFits(name);
    var lfn := ReadEntry(dir, from, buf).lfn;
    assert forall k :: 0 <= k < |name| ==> lfn[k] == name[k];
    StrLenIs(lfn, |name|);
  }

  // Laying a name out.

  /** Byte `b` of LFN entry `nr`: ordinal, signature, type, checksum, reserved bytes, or half a character. */
  function LfnByte(name: seq<Byte>, nr: nat, checksum: Byte, b: nat): Byte
    requires IsName(name) && 1 <= nr <= EntryCount(name) && b < ENTRY_SIZE
  {
    NameFits(name);
    if b == 0 then nr + (if nr == EntryCount(name) then LFN_LAST else 0)
    else if b == 11 then LFN
    else if b == 13 then checksum
    else if b == 12 || b == 26 || b == 27 then 0
    else
      var first, i := if b < 11 then 1 else if b < 26 then 14 else 28, if b < 11 then 0 else if b < 26 then 5 else 11;
      var p := (nr - 1) * CHARS + i + (b - first) / 2;
      if (b - first) % 2 == 0 then Low(name, p) else High(name, p)
  }

  function LfnEntry(name: seq<Byte>, nr: nat, checksum: Byte): Entry
    requires IsName(name) && 1 <= nr <= EntryCount(name)
  {
    seq(ENTRY_SIZE, b requires 0 <= b < ENTRY_SIZE => LfnByte(name, nr, checksum, b))
  }

  /** The name's entries from `nr` down, and the short entry. */
  function Layout(name: seq<Byte>, nr: nat, checksum: Byte, short: Entry): (r: seq<Entry>)
    requires IsName(name) && nr <= EntryCount(name)
    ensures |r| == nr + 1 && r[nr] == short && forall k: nat :: k < nr ==> r[k] == LfnEntry(name, nr - k, checksum)
  {
    if nr == 0 then [short] else [LfnEntry(name, nr, checksum)] + Layout(name, nr - 1, checksum, short)
  }

  lemma LfnEntryIs(name: seq<Byte>, nr: nat, checksum: Byte)
    requires IsName(name) && 1 <= nr <= EntryCount(name)
    ensures IsEntryOf(LfnEntry(name, nr, checksum), name, nr)
  {
    var e := LfnEntry(name, nr, checksum);
    forall i: nat | i < CHARS
      ensures e[CharAt(i)] == Low(name, (nr - 1) * CHARS + i) && e[CharAt(i) + 1] == High(name, (nr - 1) * CHARS + i)
    {
      assert e[CharAt(i)] == LfnByte(name, nr, checksum, CharAt(i));
      assert e[CharAt(i) + 1] == LfnByte(name, nr, checksum, CharAt(i) + 1);
    }
  }

  /** Storing a name behind deleted entries and reading it back. */
  lemma StoredNameReads(before: seq<Entry>, deleted: seq<Entry>, name: seq<Byte>, checksum: Byte, short: Entry,
                        rest: seq<Entry>, buf: seq<Byte>)
    requires IsName(name) && |buf| == BUF && (forall e :: e in deleted ==> Skipped(e))
    requires short[0] != LAST_ENTRY && short[0] != UNUSED_ENTRY && !IsLfn(short)
    ensures var n := EntryCount(name);
            var r := ReadEntry(before + deleted + Layout(name, n, checksum, short) + rest, |before|, buf);
            r.Read? && CString(r.lfn) == name && r.entry == short && r.next == |before| + |deleted| + n + 1
  {
    var n := EntryCount(name);
    var stored := Layout(name, n, checksum, short);
    var dir := before + deleted + stored + rest;
    var at := |before| + |deleted|;
    assert forall q: nat :: at <= q <= at + n ==> dir[q] == stored[q - at];
    forall q: nat | at <= q < at + n ensures IsEntryOf(dir[q], name, n - (q - at)) {
      LfnEntryIs(name, n - (q - at), checksum);
    }
    assert forall k :: |before| <= k < at ==> dir[k] == deleted[k - |before|];
    LongNameRoundTrip(dir, |before|, at, name, buf);
  }

  // What the buffer held before does not matter.

  /** All a caller uses of an outcome: the next index, the entry and the name. */
  predicate SameReading(a: Outcome, b: Outcome) {
    StatusOf(a) == StatusOf(b) && (a.Read? ==> CString(a.lfn) == CString(b.lfn))
  }

  /** The first 13 bytes agree, and end the string. */
  predicate Agree(a: seq<Byte>, b: seq<Byte>, n: nat) {
    |a| == BUF && |b| == BUF && n < CHARS && a[n] == 0 && forall k :: 0 <= k < CHARS ==> a[k] == b[k]
  }

  lemma SameString(a: seq<Byte>, b: seq<Byte>, n: nat)
    requires Agree(a, b, n)
    ensures StrLen(a) == StrLen(b) <= n && CString(a) == CString(b)
  {
    StrLenIs(b, StrLen(a));
  }

  lemma DottedSame(a: seq<Byte>, b: seq<Byte>, e: Entry, at: nat)
    requires Agree(a, b, 8) && StrLen(a) == at && a[9] == 0 && at <= 8
    ensures Agree(a[at := '.' as Byte], b[at := '.' as Byte], 9)
    ensures var a2, b2 := a[at := '.' as Byte], b[at := '.' as Byte];
            StrLen(a2) == StrLen(b2) <= 9 && (a[12] == 0 ==> Agree(Splice(a2, StrLen(a2), e[8..11]), Splice(b2, StrLen(a2), e[8..11]), 12))
  {
    SameString(a[at := '.' as Byte], b[at := '.' as Byte], 9);
  }

  lemma BaseSame(a: seq<Byte>, b: seq<Byte>, e: Entry)
    requires |a| == BUF && |b| == BUF
    ensures var a1, b1 := Splice(Splice(a, 0, Zeros(CHARS)), 0, e[..8]), Splice(Splice(b, 0, Zeros(CHARS)), 0, e[..8]);
            Agree(a1, b1, 8) && a1[9] == 0 && a1[12] == 0
  {
  }

  lemma ShortNameSame(a: seq<Byte>, b: seq<Byte>, e: Entry)
    requires |a| == BUF && |b| == BUF
    ensures CString(ShortName(a, e)) == CString(ShortName(b, e))
  {
    hide CString, Splice, Agree, StrLen;
    var a1, b1 := Splice(Splice(a, 0, Zeros(CHARS)), 0, e[..8]), Splice(Splice(b, 0, Zeros(CHARS)), 0, e[..8]);
    BaseSame(a, b, e);
    SameString(a1, b1, 8);
    if e[8] != 0 {
      var n := StrLen(a1);
      DottedSame(a1, b1, e, n);
      var m := StrLen(a1[n := '.' as Byte]);
      SameString(Splice(a1[n := '.' as Byte], m, e[8..11]), Splice(b1[n := '.' as Byte], m, e[8..11]), 12);
    }
  }

  lemma {:induction false} ScanSame(dir: seq<Entry>, idx: nat, a: seq<Byte>, b: seq<Byte>)
    requires |a| == BUF && |b| == BUF
    ensures SameReading(Scan(dir, idx, false, 0, a), Scan(dir, idx, false, 0, b))
    decreases |dir| - idx
  {
    hide ShortName, CString;
    if idx < |dir| {
      ScanSame(dir, idx + 1, a, b);
      ShortNameSame(a, b, dir[idx]);
    }
  }

  // What the short name is.

  /** The name and the extension of an entry, up to a NUL if there is one. */
  function BaseOf(e: Entry): seq<Byte> {
    CString(e[..8])
  }

  function ExtensionOf(e: Entry): seq<Byte> {
    CString(e[8..11])
  }

  /** No byte of the name that stands after a NUL gets into the result. */
  predicate IsPlain(e: Entry) {
    var n := |BaseOf(e)|;
    e[8] == 0 || n >= 7 || (e[n + 1] == 0 && (|ExtensionOf(e)| < 3 || n >= 4 || e[n + 4] == 0))
  }

  lemma CStringIs(buf: seq<Byte>, s: seq<Byte>)
    requires |s| < |buf| && buf[..|s|] == s && (forall k :: 0 <= k < |s| ==> s[k] != 0) && buf[|s|] == 0
    ensures CString(buf) == s
  {
    assert forall k :: 0 <= k < |s| ==> buf[k] == s[k];
    StrLenIs(buf, |s|);
  }

  lemma StrLenAtLeast(buf: seq<Byte>, n: nat)
    requires n <= |buf| && forall k :: 0 <= k < n ==> buf[k] != 0
    ensures StrLen(buf) >= n
  {
  }

  /** The buffer with the eight characters of the name in it. */
  lemma BaseIn(buf: seq<Byte>, e: Entry)
    requires |buf| == BUF
    ensures var name, n := Splice(Splice(buf, 0, Zeros(CHARS)), 0, e[..8]), |BaseOf(e)|;
            && n <= 8 && BaseOf(e) == e[..n] && 0 !in BaseOf(e) && StrLen(name) == n && name[..n] == BaseOf(e)
            && (forall k :: 0 <= k < CHARS ==> name[k] == if k < 8 then e[k] else 0)
  {
    var name, n := Splice(Splice(buf, 0, Zeros(CHARS)), 0, e[..8]), StrLen(e[..8]);
    assert forall k :: 0 <= k < 8 ==> e[..8][k] == e[k];
    assert forall k :: 0 <= k < n ==> e[k] != 0;
    StrLenIs(name, n);
  }

  /** With the dot after it, the name ends there if and only if no byte was left behind its NUL. */
  lemma DotIn(e: Entry, name: seq<Byte>, n: nat)
    requires |name| == BUF && n <= 8 && n == |BaseOf(e)|
    requires (forall k :: 0 <= k < CHARS ==> name[k] == if k < 8 then e[k] else 0)
    requires forall k :: 0 <= k < n ==> name[k] != 0
    ensures var dotted := name[n := '.' as Byte];
            && StrLen(dotted) >= n + 1 && StrLen(dotted) <= 9
            && (StrLen(dotted) == n + 1 <==> n >= 7 || e[n + 1] == 0)
  {
    var dotted := name[n := '.' as Byte];
    StrLenAtLeast(dotted, n + 1);
    assert dotted[9] == 0;
    if n >= 7 || e[n + 1] == 0 {
      StrLenIs(dotted, n + 1);
    } else {
      StrLenAtLeast(dotted, n + 2);
    }
  }

  /** The short name of an entry is its name, a dot and its extension, or the name alone if the extension is
      empty, exactly when no byte stands behind a NUL in the name where the code would take it along. */
  lemma ShortNameIs(buf: seq<Byte>, e: Entry)
    requires |buf| == BUF
    ensures CString(ShortName(buf, e)) == (if e[8] == 0 then BaseOf(e) else BaseOf(e) + ['.' as Byte] + ExtensionOf(e)) <==>
            IsPlain(e)
  {
    hide BaseOf, ExtensionOf, CString, StrLen;
    var name, n := Splice(Splice(buf, 0, Zeros(CHARS)), 0, e[..8]), |BaseOf(e)|;
    BaseIn(buf, e);
    if e[8] == 0 {
      assert name[n] == 0;
      CStringIs(name, BaseOf(e));
    } else {
      assert forall k :: 0 <= k < n ==> name[k] == BaseOf(e)[k] && BaseOf(e)[k] in BaseOf(e);
      WithExtension(e, name, n);
    }
  }

  /** The characters of the extension, in a buffer that has it from `m` on. */
  lemma ExtensionAt(e: Entry, full: seq<Byte>, m: nat)
    requires m + 3 <= |full| && forall k :: m <= k < m + 3 ==> full[k] == e[8..11][k - m]
    ensures var x := |ExtensionOf(e)|;
            && x <= 3 && full[m..m + x] == ExtensionOf(e) && (x < 3 ==> full[m + x] == 0)
            && (forall k :: m <= k < m + x ==> full[k] != 0)
  {
    var ext := e[8..11];
    var x := StrLen(ext);
    assert forall k :: m <= k < m + x ==> full[k] == ext[k - m] && ext[k - m] != 0;
    assert full[m..m + x] == ext[..x];
    assert x < 3 ==> full[m + x] == ext[m + x - m];
  }

  /** `full` is the name in `dotted` up to `m`, and the extension from there. */
  ghost predicate Extended(e: Entry, dotted: seq<Byte>, n: nat, m: nat, full: seq<Byte>) {
    && |dotted| == BUF && |full| == BUF && n < m <= 9 && n <= 8 && n == |BaseOf(e)| && dotted[..n] == BaseOf(e)
    && dotted[n] == '.' as Byte && (m == n + 1 <==> n >= 7 || e[n + 1] == 0)
    && (forall k :: n < k < CHARS ==> dotted[k] == if k < 8 then e[k] else 0)
    && (forall k :: 0 <= k < m ==> full[k] == dotted[k] && dotted[k] != 0)
    && (forall k :: m + 3 <= k < BUF ==> full[k] == dotted[k])
    && (forall k :: m <= k < m + 3 ==> full[k] == e[8..11][k - m])
  }

  lemma PlainName(e: Entry, dotted: seq<Byte>, n: nat, m: nat, full: seq<Byte>)
    requires Extended(e, dotted, n, m, full) && e[8] != 0 && IsPlain(e)
    ensures CString(full) == BaseOf(e) + ['.' as Byte] + ExtensionOf(e)
  {
    hide BaseOf, ExtensionOf, CString, StrLen;
    ExtensionAt(e, full, m);
    assert full[..n] == dotted[..n];
    JoinedName(full, BaseOf(e), ExtensionOf(e));
  }

  lemma TornName(e: Entry, dotted: seq<Byte>, n: nat, m: nat, full: seq<Byte>)
    requires Extended(e, dotted, n, m, full) && !IsPlain(e)
    ensures |CString(full)| > n + 1 + |ExtensionOf(e)|
  {
    hide BaseOf, ExtensionOf, CString, StrLen;
    ExtensionAt(e, full, m);
    StrLenAtLeast(full, if m > n + 1 then m + |ExtensionOf(e)| else n + 5);
    CStringLength(full);
  }

  lemma WithExtension(e: Entry, name: seq<Byte>, n: nat)
    requires |name| == BUF && n <= 8 && n == |BaseOf(e)| && name[..n] == BaseOf(e) && e[8] != 0
    requires forall k :: 0 <= k < CHARS ==> name[k] == if k < 8 then e[k] else 0
    requires forall k :: 0 <= k < n ==> name[k] != 0
    ensures var dotted := name[n := '.' as Byte];
            StrLen(dotted) <= 9
            && (CString(Splice(dotted, StrLen(dotted), e[8..11])) == BaseOf(e) + ['.' as Byte] + ExtensionOf(e) <==> IsPlain(e))
  {
    hide BaseOf, ExtensionOf, CString, StrLen;
    DotIn(e, name, n);
    var dotted := name[n := '.' as Byte];
    var m := StrLen(dotted);
    var full := Splice(dotted, m, e[8..11]);
    assert dotted[..n] == name[..n];
    assert Extended(e, dotted, n, m, full);
    hide Extended;
    if IsPlain(e) {
      PlainName(e, dotted, n, m, full);
    } else {
      TornName(e, dotted, n, m, full);
    }
  }

  lemma JoinedName(full: seq<Byte>, name: seq<Byte>, extension: seq<Byte>)
    requires |name| + 1 + |extension| < |full| && full[..|name|] == name && full[|name|] == '.' as Byte
    requires full[|name| + 1..|name| + 1 + |extension|] == extension
    requires forall k :: 0 <= k < |name| + 1 + |extension| ==> full[k] != 0
    requires full[|name| + 1 + |extension|] == 0
    ensures CString(full) == name + ['.' as Byte] + extension
  {
    var s := name + ['.' as Byte] + extension;
    assert full[..|s|] == full[..|name|] + [full[|name|]] + full[|name| + 1..|s|];
    assert forall k :: 0 <= k < |s| ==> s[k] == full[k];
    CStringIs(full, s);
  }

  lemma CStringLength(buf: seq<Byte>)
    ensures |CString(buf)| == StrLen(buf)
  {
  }
}
