/** The buffered output of libc/stdio/stream.c over a device that takes every write whole. */
module Stream {
  import opened Base

  const NEWLINE: Byte := 10

  /** buf_mode: FBM_FLUSH, FBM_NEWLINE, FBM_OVERFLOW. */
  datatype Mode = Flush | Newline | Overflow

  /** The writes the device has been given, in order, and what the buffer holds. */
  datatype Output = Output(writes: seq<seq<Byte>>, kept: seq<Byte>)

  /** One character: it goes into the buffer, and a newline or a full buffer sends the buffer out. */
  function PutChar(o: Output, mode: Mode, size: nat, c: Byte): Output {
    var kept := o.kept + [c];
    if |kept| == size || (mode == Newline && c == NEWLINE) then Output(o.writes + [kept], [])
    else Output(o.writes, kept)
  }

  function PutAll(o: Output, mode: Mode, size: nat, data: seq<Byte>): Output
    decreases data
  {
    if data == [] then o else PutAll(PutChar(o, mode, size, data[0]), mode, size, data[1..])
  }

  /** What the buffer holds between calls: less than it could, and no newline to send. */
  ghost predicate Quiet(o: Output, mode: Mode, size: nat) {
    |o.kept| < size && (mode == Newline ==> NEWLINE !in o.kept)
  }

  function Concat(writes: seq<seq<Byte>>): seq<Byte> {
    if writes == [] then [] else Concat(writes[..|writes| - 1]) + writes[|writes| - 1]
  }

  /** All the bytes the stream has accepted: those the device has, and those in the buffer. */
  function Accepted(o: Output): seq<Byte> {
    Concat(o.writes) + o.kept
  }

  /** Splitting output into calls in any way changes nothing. */
  lemma {:induction false} SplittingIsNothing(o: Output, mode: Mode, size: nat, a: seq<Byte>, b: seq<Byte>)
    ensures PutAll(o, mode, size, a + b) == PutAll(PutAll(o, mode, size, a), mode, size, b)
    decreases a
  {
    if a == [] {
      assert a + b == b;
    } else {
      assert (a + b)[1..] == a[1..] + b;
      SplittingIsNothing(PutChar(o, mode, size, a[0]), mode, size, a[1..], b);
    }
  }

  lemma PutCharKeeps(o: Output, mode: Mode, size: nat, c: Byte)
    requires Quiet(o, mode, size)
    ensures Quiet(PutChar(o, mode, size, c), mode, size) && Accepted(PutChar(o, mode, size, c)) == Accepted(o) + [c]
  {
    var kept := o.kept + [c];
    assert (o.writes + [kept])[..|o.writes|] == o.writes;
    assert Concat(o.writes + [kept]) == Concat(o.writes) + kept;
  }

  /** Every byte is on the device or in the buffer, once and in order, and what is kept is short of the
      buffer and has no newline. */
  lemma {:induction false} NothingIsLost(o: Output, mode: Mode, size: nat, data: seq<Byte>)
    requires Quiet(o, mode, size)
    ensures Quiet(PutAll(o, mode, size, data), mode, size)
    ensures Accepted(PutAll(o, mode, size, data)) == Accepted(o) + data
    decreases data
  {
    if data != [] {
      PutCharKeeps(o, mode, size, data[0]);
      NothingIsLost(PutChar(o, mode, size, data[0]), mode, size, data[1..]);
      assert data == [data[0]] + data[1..];
    }
  }

  // Batches.

  /** A batch that fits and sends nothing before its last character is one copy. */
  lemma {:induction false} PutBatch(o: Output, mode: Mode, size: nat, data: seq<Byte>)
    requires |o.kept| + |data| <= size && data != [] && (mode == Newline ==> NEWLINE !in data[..|data| - 1])
    ensures var kept := o.kept + data;
            PutAll(o, mode, size, data) ==
              if |kept| == size || (mode == Newline && data[|data| - 1] == NEWLINE) then Output(o.writes + [kept], [])
              else Output(o.writes, kept)
    decreases data
  {
    if |data| == 1 {
      assert data == [data[0]];
      assert PutAll(PutChar(o, mode, size, data[0]), mode, size, data[1..]) == PutChar(o, mode, size, data[0]);
    } else {
      assert data[0] in data[..|data| - 1];
      assert data[1..][..|data| - 2] == data[..|data| - 1][1..];
      PutBatch(PutChar(o, mode, size, data[0]), mode, size, data[1..]);
      assert o.kept + [data[0]] + data[1..] == o.kept + data;
    }
  }

  /** memchr, from `from` to `to`: the place of the first `c`, or `to`. */
  method FindByte(data: seq<Byte>, c: Byte, from: nat, to: nat) returns (i: nat)
    requires from <= to <= |data|
    ensures from <= i <= to && c !in data[from..i] && (i < to ==> data[i] == c)
  {
    i := from;
    while i < to
      invariant from <= i <= to && c !in data[from..i]
    {
      if data[i] == c {
        return;
      }
      i := i + 1;
    }
  }

  /** FILE, for output. `writes` is what the device has been given. */
  class OutputStream {
    const mode: Mode
    const buf: array<Byte>
    var num: nat
    var writes: seq<seq<Byte>>

    ghost function Out(): Output
      requires num <= buf.Length
      reads this, buf
    {
      Output(writes, buf[..num])
    }

    ghost predicate Valid()
      reads this, buf
    {
      num < buf.Length && Quiet(Out(), mode, buf.Length)
    }

    constructor (mode: Mode, size: nat)
      requires size > 0
      ensures Valid() && fresh(buf) && buf.Length == size && this.mode == mode && writes == [] && num == 0
    {
      this.mode, num, writes := mode, 0, [];
      buf := new Byte[size](_ => 0);
    }

    /** memcpy to the end of what the buffer holds. */
    method Copy(data: seq<Byte>, from: nat, batch: nat)
      requires num + batch <= buf.Length && from + batch <= |data|
      modifies buf, this`num
      ensures num == old(num) + batch && buf[..num] == old(buf[..num]) + data[from..from + batch]
    {
      var i := 0;
      while i < batch
        invariant i <= batch && num == old(num)
        invariant buf[..num] == old(buf[..num]) && buf[num..num + i] == data[from..from + i]
      {
        buf[num + i] := data[from + i];
        i := i + 1;
        assert buf[num..num + i] == buf[num..num + i - 1] + [data[from + i - 1]];
        assert data[from..from + i] == data[from..from + i - 1] + [data[from + i - 1]];
      }
      assert buf[..num + batch] == buf[..num] + buf[num..num + batch];
      num := num + batch;
    }

    /** fwrite_newline and fwrite_overflow, as the mode says: the writes and the buffer are those of the
        same bytes put one at a time. */
    method WriteBuffered(data: seq<Byte>)
      requires Valid() && mode != Flush
      modifies this`num, this`writes, buf
      ensures Valid() && Out() == PutAll(old(Out()), mode, buf.Length, data)
      ensures Accepted(Out()) == old(Accepted(Out())) + data
    {
      hide Quiet, PutAll, Accepted;
      NothingIsLost(Out(), mode, buf.Length, data);
      NothingPut(Out(), mode, buf.Length);
      assert data[..0] == [];
      QuietRoom(Out(), mode, buf.Length);
      var sent, written := false, 0;
      while true
        invariant written <= |data| && num <= buf.Length
        invariant var out := if sent || num == buf.Length then Output(writes + [buf[..num]], []) else Out();
                  out == PutAll(old(Out()), mode, buf.Length, data[..written])
        decreases |data| - written
      {
        if sent || num == buf.Length {
          writes := writes + [buf[..num]];
          num := 0;
          assert buf[..num] == [];
        }
        if written == |data| {
          break;
        }
        var batch := if |data| - written < buf.Length - num then |data| - written else buf.Length - num;
        sent := false;
        if mode == Newline {
          var i := FindByte(data, NEWLINE, written, written + batch);
          if i < written + batch {
            sent := true;
            batch := i - written + 1;
          }
        }
        BatchPut(old(Out()), Out(), mode, buf.Length, data, written, batch, sent);
        Copy(data, written, batch);
        written := written + batch;
      }
      assert data[..written] == data;
    }

    /** fwrite, of all its members together. */
    method Fwrite(data: seq<Byte>)
      requires Valid()
      modifies this`num, this`writes, buf
      ensures Valid()
      ensures mode != Flush ==> Out() == PutAll(old(Out()), mode, buf.Length, data)
      ensures mode == Flush ==> writes == (if data == [] then old(writes) else old(writes) + [data]) && num == old(num)
    {
      if data == [] {
        return;
      }
      if mode == Flush {
        writes := writes + [data];
      } else {
        WriteBuffered(data);
      }
    }

    /** fflush. */
    method Fflush()
      requires Valid()
      modifies this`num, this`writes
      ensures Valid() && writes == old(writes) + [old(buf[..num])] && num == 0
    {
      writes := writes + [buf[..num]];
      num := 0;
    }
  }

  /** One fwrite of `a + b` and an fwrite of `a` and one of `b`, on streams that were alike: the same
      writes and the same buffer, or unbuffered the same bytes. */
  method OneCallOrTwo(one: OutputStream, two: OutputStream, a: seq<Byte>, b: seq<Byte>)
    requires one.Valid() && two.Valid() && one != two && one.buf != two.buf
    requires one.mode == two.mode && one.buf.Length == two.buf.Length && one.Out() == two.Out()
    modifies one, one.buf, two, two.buf
    ensures one.Valid() && two.Valid()
    ensures one.mode != Flush ==> one.Out() == two.Out()
    ensures one.mode == Flush ==> Concat(one.writes) == Concat(two.writes)
  {
    hide PutAll, Quiet, Concat;
    SplittingIsNothing(one.Out(), one.mode, one.buf.Length, a, b);
    SameBytes(one.writes, a, b);
    one.Fwrite(a + b);
    two.Fwrite(a);
    two.Fwrite(b);
  }

  lemma SameBytes(writes: seq<seq<Byte>>, a: seq<Byte>, b: seq<Byte>)
    ensures Concat(writes + [a] + [b]) == Concat(writes + [a + b])
    ensures a == [] ==> a + b == b
    ensures b == [] ==> a + b == a
  {
    assert (writes + [a] + [b])[..|writes| + 1] == writes + [a];
    assert (writes + [a])[..|writes|] == writes;
    assert (writes + [a + b])[..|writes|] == writes;
    assert Concat(writes + [a]) == Concat(writes) + a;
  }

  lemma NothingPut(o: Output, mode: Mode, size: nat)
    ensures PutAll(o, mode, size, []) == o
  {
  }

  lemma QuietRoom(o: Output, mode: Mode, size: nat)
    requires Quiet(o, mode, size)
    ensures |o.kept| < size
  {
  }

  /** What putting a batch of characters one at a time comes to. */
  lemma BatchPut(start: Output, o: Output, mode: Mode, size: nat, data: seq<Byte>, from: nat, batch: nat, sent: bool)
    requires from + batch <= |data| && batch > 0 && |o.kept| + batch <= size
    requires o == PutAll(start, mode, size, data[..from]) && (sent ==> mode == Newline)
    requires mode == Newline ==>
               NEWLINE !in data[from..from + batch - 1] && (data[from + batch - 1] == NEWLINE <==> sent)
    ensures var kept := o.kept + data[from..from + batch];
            PutAll(start, mode, size, data[..from + batch]) ==
              if sent || |kept| == size then Output(o.writes + [kept], []) else Output(o.writes, kept)
  {
    hide PutAll;
    BatchQuiet(data, from, batch, sent, mode);
    PutBatch(o, mode, size, data[from..from + batch]);
    SplittingIsNothing(start, mode, size, data[..from], data[from..from + batch]);
    assert data[..from] + data[from..from + batch] == data[..from + batch];
  }

  lemma BatchQuiet(data: seq<Byte>, from: nat, batch: nat, sent: bool, mode: Mode)
    requires from + batch <= |data| && batch > 0
    requires mode == Newline ==>
               NEWLINE !in data[from..from + batch - 1] && (data[from + batch - 1] == NEWLINE <==> sent)
    ensures var part := data[from..from + batch];
            (mode == Newline ==> NEWLINE !in part[..|part| - 1]) && part[|part| - 1] == data[from + batch - 1]
  {
    assert data[from..from + batch][..batch - 1] == data[from..from + batch - 1];
  }
}
