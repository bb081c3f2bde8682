/** The number printer and parser of libc/stdlib/convert.c, with the 32-bit int and long of i386. */
module Convert {
  import opened Arithmetic
  import opened Base

  const INT_MIN: int := -0x8000_0000
  const INT_MAX: int := 0x7fff_ffff

  const NUMCODES16: string := "01234567" + "89abcdef"
  const NUMCODES32: string :=
    "zyxwvutsrqpo" + "nmlkjihgfedc" + "ba987654321" + "0" + "123456789ab" + "cdefghijklmn" + "opqrstuvwxyz"

  /** The code of a digit, whatever its sign. */
  function Code(d: int): char
    requires -35 <= d <= 35
  {
    NUMCODES32[35 + d]
  }

  /** The character of a digit. */
  function DigitChar(m: nat): char
    requires m <= 35
  {
    if m < 10 then ('0' as int + m) as char else ('a' as int + m - 10) as char
  }

  function Digits(v: nat, base: nat): (s: seq<nat>)
    requires base >= 2
    ensures |s| > 0 && forall i :: 0 <= i < |s| ==> s[i] < base
    decreases v
  {
    if v < base then [v] else Smaller(v, base); Digits(v / base, base) + [v % base]
  }

  lemma Smaller(v: nat, base: nat)
    requires base >= 2 && v >= base
    ensures 0 < v / base < v
  {
  }

  /** The string a number prints as. */
  function Codes(digits: seq<nat>): (s: string)
    requires forall i :: 0 <= i < |digits| ==> digits[i] <= 35
    ensures |s| == |digits|
  {
    seq(|digits|, i requires 0 <= i < |digits| => DigitChar(digits[i]))
  }

  /** The number digits stand for, most significant first. */
  function Value(digits: seq<nat>, base: nat): nat {
    if digits == [] then 0 else digits[0] * Power(base, |digits| - 1) + Value(digits[1..], base)
  }

  lemma {:induction false} ValueAppend(digits: seq<nat>, d: nat, base: nat)
    ensures Value(digits + [d], base) == Value(digits, base) * base + d
    decreases |digits|
  {
    if digits == [] {
      assert Value([d], base) == d * Power(base, 0) + Value([d][1..], base);
    } else {
      var rest := digits[1..];
      assert (digits + [d])[1..] == rest + [d];
      ValueAppend(rest, d, base);
      var p := Power(base, |digits| - 1);
      assert Power(base, |digits|) == base * p;
      assert digits[0] * (base * p) == digits[0] * p * base;
      assert (digits[0] * p + Value(rest, base)) * base == digits[0] * p * base + Value(rest, base) * base;
    }
  }

  /** The digits of a number stand for it. */
  lemma {:induction false} DigitsValue(v: nat, base: nat)
    requires base >= 2
    ensures Value(Digits(v, base), base) == v
    decreases v
  {
    if v < base {
      assert Value([v], base) == v * Power(base, 0) + Value([v][1..], base);
    } else {
      Smaller(v, base);
      DigitsValue(v / base, base);
      ValueAppend(Digits(v / base, base), v % base, base);
      DivMod(v, base);
    }
  }

  // Printing.

  /** The last loop of both printers: the first `n` characters, the other way round. */
  method ReverseInPlace(str: array<char>, n: nat)
    requires n <= str.Length
    modifies str
    ensures forall k :: 0 <= k < n ==> str[k] == old(str[n - 1 - k])
    ensures forall k :: n <= k < str.Length ==> str[k] == old(str[k])
  {
    var i, j := 0, n - 1;
    while i < j
      invariant 0 <= i <= n && j == n - 1 - i
      invariant forall k :: 0 <= k < n && (k < i || k > j) ==> str[k] == old(str[n - 1 - k])
      invariant forall k :: 0 <= k < str.Length && (i <= k <= j || k >= n) ==> str[k] == old(str[k])
    {
      str[i], str[j] := str[j], str[i];
      i, j := i + 1, j - 1;
    }
  }

  /** The characters of `str` from the start to the NUL after `s` are those of `s`. */
  ghost predicate Holds(str: array<char>, s: string)
    reads str
  {
    |s| < str.Length && str[..|s|] == s && str[|s|] == '\0'
  }

  /** C division: towards zero. */
  function TruncDiv(a: int, b: nat): int
    requires b > 0
  {
    if a >= 0 then a / b else -(-a / b)
  }

  lemma TruncDigit(a: int, b: nat)
    requires b > 0
    ensures var d := a - TruncDiv(a, b) * b; if a >= 0 then d == a % b else d == -(-a % b)
  {
  }

  /** One turn of the loop of both printers: it has put `low` and comes to `v`. */
  lemma PutTurn(v: int, base: nat, all: seq<nat>, low: seq<nat>) returns (d: nat)
    requires 2 <= base <= 32 && all == Digits(Abs(v), base) + low
    ensures var q := TruncDiv(v, base);
            && |low| < |all| && all[|all| - 1 - |low|] == d
            && -35 <= v - q * base <= 35 && Code(v - q * base) == DigitChar(d)
            && (q == 0 ==> all == [d] + low)
            && (q != 0 ==>
                  |low| + 1 < |all| && all == Digits(Abs(q), base) + ([d] + low) && (q < 0 <==> v < 0) && Abs(q) < Abs(v))
  {
    hide Code, TruncDiv, DigitChar;
    TruncDigit(v, base);
    DigitStep(v, base);
    d := Abs(v) % base;
    SameCode(d);
  }

  /** The loop of both printers, on a value of either sign: least significant digit first. */
  method PutDigits(value: int, str: array<char>, base: nat) returns (ptr: nat, last: int)
    requires 2 <= base <= 32 && |Digits(Abs(value), base)| <= str.Length
    modifies str
    ensures ptr == |Digits(Abs(value), base)| && (last < 0 <==> value < 0)
    ensures forall k :: 0 <= k < ptr ==> str[k] == DigitChar(Digits(Abs(value), base)[ptr - 1 - k])
    ensures forall k :: ptr <= k < str.Length ==> str[k] == old(str[k])
  {
    hide Code, TruncDiv, DigitChar, Digits, Abs;
    var v := value;
    ptr := 0;
    ghost var all, low: seq<nat> := Digits(Abs(value), base), [];
    while true
      invariant ptr == |low| < |all| && all == Digits(Abs(v), base) + low && (v < 0 <==> value < 0)
      invariant forall k :: 0 <= k < ptr ==> str[k] == DigitChar(all[|all| - 1 - k])
      invariant forall k :: ptr <= k < str.Length ==> str[k] == old(str[k])
      decreases Abs(v)
    {
      last := v;
      v := TruncDiv(v, base);
      ghost var d := PutTurn(last, base, all, low);
      str[ptr] := Code(last - v * base);
      low := [d] + low;
      ptr := ptr + 1;
      if v == 0 {
        break;
      }
    }
  }

  function Abs(n: int): nat {
    if n < 0 then -n else n
  }

  lemma DigitStep(v: int, base: nat)
    requires base >= 2
    ensures Abs(TruncDiv(v, base)) == Abs(v) / base && Abs(v) % base < base
    ensures TruncDiv(v, base) == 0 <==> Abs(v) < base
    ensures TruncDiv(v, base) != 0 ==> (TruncDiv(v, base) < 0 <==> v < 0) && Abs(TruncDiv(v, base)) < Abs(v)
    ensures Abs(v) < base ==> Abs(v) % base == Abs(v)
  {
    if Abs(v) >= base {
      Smaller(Abs(v), base);
    } else {
      SmallDiv(Abs(v), base);
    }
  }

  /** NUMCODES32 has the digits both ways from the middle. */
  lemma SameCode(d: int)
    requires 0 <= d <= 35
    ensures Code(d) == Code(-d) == DigitChar(d)
  {
    assert 0 <= d < 9 || 9 <= d < 18 || 18 <= d < 27 || 27 <= d < 36;
    assert 0 <= d < 9 ==> d == 0 || d == 1 || d == 2 || d == 3 || d == 4 || d == 5 || d == 6 || d == 7 || d == 8;
    assert 9 <= d < 18 ==>
             d == 9 || d == 10 || d == 11 || d == 12 || d == 13 || d == 14 || d == 15 || d == 16 || d == 17;
    assert 18 <= d < 27 ==>
             d == 18 || d == 19 || d == 20 || d == 21 || d == 22 || d == 23 || d == 24 || d == 25 || d == 26;
    assert 27 <= d < 36 ==>
             d == 27 || d == 28 || d == 29 || d == 30 || d == 31 || d == 32 || d == 33 || d == 34 || d == 35;
  }

  /** unsigned_itoa. */
  method UnsignedItoa(value: nat, str: array<char>, base: nat)
    requires value <= UINT_MAX && 2 <= base <= 32 && |Digits(value, base)| < str.Length
    modifies str
    ensures Holds(str, Codes(Digits(value, base)))
    ensures forall k :: |Digits(value, base)| < k < str.Length ==> str[k] == old(str[k])
  {
    hide Digits, DigitChar;
    var ptr, _ := PutDigits(value, str, base);
    str[ptr] := '\0';
    ReverseInPlace(str, ptr);
    assert str[..ptr] == Codes(Digits(value, base));
  }

  /** What itoa prints in base 10. */
  function Printed(value: int): string {
    (if value < 0 then "-" else "") + Codes(Digits(Abs(value), 10))
  }

  /** itoa; in another base than 10 the value is taken as unsigned. */
  method Itoa(value: int, str: array<char>, base: nat)
    requires INT_MIN <= value <= INT_MAX && 2 <= base <= 32
    requires if base == 10 then |Printed(value)| < str.Length else |Digits(value % (UINT_MAX + 1), base)| < str.Length
    modifies str
    ensures Holds(str, if base == 10 then Printed(value) else Codes(Digits(value % (UINT_MAX + 1), base)))
  {
    if base != 10 {
      UnsignedItoa(value % (UINT_MAX + 1), str, base);
      return;
    }
    hide Digits, DigitChar;
    var ptr, last := PutDigits(value, str, base);
    if last < 0 {
      str[ptr] := '-';
      ptr := ptr + 1;
    }
    str[ptr] := '\0';
    ReverseInPlace(str, ptr);
    assert str[..ptr] == Printed(value);
  }

  // Parsing.

  predicate IsSpace(c: char) {
    c == ' ' || c == '\t' || c == '\n'
  }

  /** The place of `c` in numcodes16 from `i` on, or 16: strchr. */
  function CodeIndex(c: char, i: nat): (k: nat)
    requires i <= 16
    ensures i <= k <= 16 && (k < 16 ==> NUMCODES16[k] == c) && forall j :: i <= j < k ==> NUMCODES16[j] != c
    decreases 16 - i
  {
    if i == 16 || NUMCODES16[i] == c then i else CodeIndex(c, i + 1)
  }

  lemma Code16(d: int)
    requires 0 <= d < 16
    ensures NUMCODES16[d] == DigitChar(d)
  {
    assert 0 <= d < 8 ==> d == 0 || d == 1 || d == 2 || d == 3 || d == 4 || d == 5 || d == 6 || d == 7;
    assert 8 <= d < 16 ==> d == 8 || d == 9 || d == 10 || d == 11 || d == 12 || d == 13 || d == 14 || d == 15;
  }

  lemma DigitIndex(d: int)
    requires 0 <= d < 16
    ensures CodeIndex(DigitChar(d), 0) == d
  {
    var k := CodeIndex(DigitChar(d), 0);
    Code16(d);
    if k < 16 {
      Code16(k);
    }
  }

  /** The digits before the first character that is none. */
  function Decode(s: string): (r: seq<nat>)
    ensures |r| <= |s|
  {
    if s == [] || CodeIndex(s[0], 0) == 16 then [] else [CodeIndex(s[0], 0)] + Decode(s[1..])
  }

  predicate Fits(x: int) {
    INT_MIN <= x <= INT_MAX
  }

  /** What a 32-bit register keeps of a result. */
  function Wrap(x: int): (r: int)
    ensures Fits(r) && (Fits(x) ==> r == x)
  {
    (x - INT_MIN) % (UINT_MAX + 1) + INT_MIN
  }

  /** The characters of `s` that are blank from `i` on end at the result. */
  function Blanks(s: string, i: nat): (k: nat)
    requires i <= |s|
    ensures i <= k <= |s| && (k < |s| ==> !IsSpace(s[k]))
    decreases |s| - i
  {
    if i == |s| || !IsSpace(s[i]) then i else Blanks(s, i + 1)
  }

  predicate HasSign(s: string) {
    s != [] && (s[0] == '-' || s[0] == '+')
  }

  predicate Negative(s: string) {
    var t := s[Blanks(s, 0)..]; t != [] && t[0] == '-'
  }

  /** What strtol reads digits from: blanks and one sign passed over. */
  function Body(s: string): string {
    var t := s[Blanks(s, 0)..]; if HasSign(t) then t[1..] else t
  }

  /** Every character of the body is a digit. */
  predicate IsNumeral(s: string) {
    Body(s) != [] && |Decode(Body(s))| == |Body(s)|
  }

  lemma {:induction false} DecodeAt(s: string, j: nat)
    requires |Decode(s)| == |s| && j < |s|
    ensures CodeIndex(s[j], 0) < 16 && Decode(s)[j] == CodeIndex(s[j], 0)
  {
    if j > 0 {
      DecodeAt(s[1..], j - 1);
    }
  }

  lemma PowerDown(base: nat, n: nat)
    requires base >= 2
    ensures n > 0 ==> TruncDiv(Power(base, n), base) == Power(base, n - 1)
    ensures TruncDiv(Power(base, 0), base) == 0
  {
    if n > 0 {
      var p := Power(base, n - 1);
      assert base * p == p * base;
      MultipleDiv(p, base);
    }
  }

  /** strtol; `exact` records that no sum, product or power left the 32-bit range. */
  method Strtol(str: string, base: nat) returns (r: int, ghost exact: bool)
    requires 2 <= base <= 16 && |str| <= UINT_MAX
    ensures Blanks(str, 0) == |str| ==> r == 0
    ensures IsNumeral(str) ==>
              && (exact <==> Power(base, |Body(str)| - 1) <= INT_MAX && Value(Decode(Body(str)), base) <= INT_MAX)
              && (exact ==> r == Signed(Negative(str), Value(Decode(Body(str)), base)))
              && (Power(base, |Body(str)| - 1) <= INT_MAX ==>
                    r == Wrap(Signed(Negative(str), Value(Decode(Body(str)), base))))
  {
    hide Value, Power, Decode, CodeIndex, TruncDiv, Wrap;
    exact := true;
    var i := 0;
    while i < |str| && IsSpace(str[i])
      invariant i <= |str| && Blanks(str, 0) == Blanks(str, i)
    {
      i := i + 1;
    }
    if i == |str| {
      return 0, true;
    }
    var sign := 1;
    if str[i] == '-' {
      sign := -1;
      i := i + 1;
    } else if str[i] == '+' {
      i := i + 1;
    }
    var body := str[i..];
    assert body == Body(str);
    var number, value;
    value, exact := PowerLoop(base, (|body| + UINT_MAX) % (UINT_MAX + 1));
    number, exact := DigitLoop(body, base, value, exact);
    exact := exact && Fits(number * sign);
    r := Wrap(number * sign);
    WrapSame(number * sign);
    WrapSign(Value(Decode(body), base), sign);
  }

  function Signed(negative: bool, v: nat): int {
    if negative then -(v as int) else v
  }

  lemma WrapSame(x: int)
    ensures Fits(x) ==> Wrap(x) == x
  {
  }

  lemma WrapBy(x: int, k: int)
    ensures Wrap(x + k * WORDS) == Wrap(x)
  {
  }

  lemma WrapIs(x: int) returns (k: int)
    ensures Wrap(x) == x + k * WORDS
  {
    k := -((x - INT_MIN) / WORDS);
  }

  /** Wrapping a sum, or a change of sign, may be left to the end. */
  lemma WrapSum(x: int, y: int)
    ensures Wrap(Wrap(x) + Wrap(y)) == Wrap(x + y)
  {
    hide Wrap;
    var i := WrapIs(x);
    var j := WrapIs(y);
    WrapBy(x + y, i + j);
  }

  lemma WrapSign(x: int, sign: int)
    requires sign == 1 || sign == -1
    ensures Wrap(Wrap(x) * sign) == Wrap(x * sign)
  {
    hide Wrap;
    var k := WrapIs(x);
    WrapBy(x * sign, k * sign);
  }

  lemma WrapTwice(x: int)
    ensures Wrap(Wrap(x)) == Wrap(x)
  {
  }

  /** strtol's first loop: the weight of the first of `count` + 1 digits. */
  method PowerLoop(base: nat, count: nat) returns (value: int, ghost exact: bool)
    requires 2 <= base <= 16
    ensures exact <==> Power(base, count) <= INT_MAX
    ensures exact ==> value == Power(base, count)
  {
    hide Wrap;
    value, exact := 1, true;
    var i := 0;
    while i < count
      invariant i <= count && (exact <==> Power(base, i) <= INT_MAX) && (exact ==> value == Power(base, i))
    {
      PowerGrows(base, i, i + 1);
      WrapSame(value * base);
      assert exact ==> value * base == Power(base, i + 1);
      exact := exact && Fits(value * base);
      value := Wrap(value * base);
      i := i + 1;
    }
  }

  /** strtol's second loop: the digits, each with its weight. */
  method DigitLoop(body: string, base: nat, first: int, ghost fits: bool) returns (number: int, ghost exact: bool)
    requires 2 <= base <= 16 && (fits && body != [] ==> first == Power(base, |body| - 1))
    ensures |Decode(body)| == |body| ==>
              && (exact <==> fits && Value(Decode(body), base) <= INT_MAX)
              && (exact ==> number == Value(Decode(body), base))
              && (fits ==> number == Wrap(Value(Decode(body), base)))
  {
    hide Value, Power, Decode, CodeIndex, TruncDiv, Wrap;
    ghost var all := Decode(body);
    var value, j := first, 0;
    number, exact := 0, fits;
    NoDigits(all, base);
    WrapSame(0);
    while j < |body| && CodeIndex(body[j], 0) < 16
      invariant j <= |body|
      invariant |all| == |body| ==> (exact <==> fits && Value(all, base) - Value(all[j..], base) <= INT_MAX)
      invariant |all| == |body| && exact ==> number == Value(all, base) - Value(all[j..], base) >= 0
      invariant |all| == |body| && fits && j < |body| ==> value == Power(base, |body| - 1 - j)
      invariant |all| == |body| && fits ==> number == Wrap(Value(all, base) - Value(all[j..], base))
    {
      var d := CodeIndex(body[j], 0);
      if |all| == |body| {
        DecodeAt(body, j);
        DigitWeight(all, base, j);
        PowerDown(base, |body| - 1 - j);
      }
      WrapSame(d * value);
      WrapSame(number + d * value);
      WrapTwice(Value(all, base) - Value(if j <= |all| then all[j..] else [], base));
      WrapSum(number, d * value);
      WrapSum(Value(all, base) - Value(if j <= |all| then all[j..] else [], base), d * value);
      exact := exact && Fits(d * value) && Fits(number + d * value);
      number := Wrap(number + Wrap(d * value));
      value := TruncDiv(value, base);
      j := j + 1;
    }
    if |all| == |body| {
      if j < |body| {
        DecodeAt(body, j);
      }
      assert all[j..] == [];
      NoDigits(all, base);
    }
  }

  lemma NoDigits(all: seq<nat>, base: nat)
    ensures Value([], base) == 0 && all[0..] == all
  {
  }

  /** What digit `j` adds. */
  lemma DigitWeight(all: seq<nat>, base: nat, j: nat)
    requires j < |all|
    ensures Value(all[j..], base) == all[j] * Power(base, |all| - 1 - j) + Value(all[j + 1..], base)
    ensures all[j] * Power(base, |all| - 1 - j) >= 0
  {
    hide Power;
    assert all[j..][1..] == all[j + 1..];
    Product(all[j], Power(base, |all| - 1 - j));
  }

  // Round trips.

  lemma {:induction false} DecodeCodes(digits: seq<nat>)
    requires forall i :: 0 <= i < |digits| ==> digits[i] < 16
    ensures Decode(Codes(digits)) == digits
  {
    hide CodeIndex;
    if digits != [] {
      DigitIndex(digits[0]);
      assert Codes(digits)[1..] == Codes(digits[1..]);
      DecodeCodes(digits[1..]);
    }
  }

  /** The weight of the first digit is at most the number. */
  lemma {:induction false} FirstWeight(v: nat, base: nat)
    requires base >= 2
    ensures Power(base, |Digits(v, base)| - 1) <= (if v == 0 then 1 else v)
    decreases v
  {
    if v >= base {
      Smaller(v, base);
      var q := v / base;
      FirstWeight(q, base);
      var p := Power(base, |Digits(q, base)| - 1);
      assert Power(base, |Digits(q, base)|) == base * p;
      Scaled(p, q, base);
      DivMod(v, base);
    }
  }

  lemma Scaled(p: nat, q: nat, base: nat)
    requires p <= q
    ensures base * p <= q * base
  {
    MulOrder(p, q, base);
  }

  /** A printed number has no blank or sign in it, and its first digit is none. */
  lemma PlainBody(digits: seq<nat>, negative: bool)
    requires digits != [] && forall i :: 0 <= i < |digits| ==> digits[i] < 16
    ensures var s := (if negative then "-" else "") + Codes(digits);
            Blanks(s, 0) == 0 && Body(s) == Codes(digits) && (Negative(s) <==> negative) && IsNumeral(s)
  {
    hide CodeIndex;
    var c := Codes(digits);
    var s := (if negative then "-" else "") + c;
    DecodeCodes(digits);
    PlainChar(digits[0]);
    assert c[0] == DigitChar(digits[0]);
    assert !IsSpace(s[0]) && s[0..] == s;
    if negative {
      assert s[1..] == c;
    } else {
      assert s == c;
    }
  }

  lemma PlainChar(d: nat)
    requires d <= 35
    ensures var c := DigitChar(d); c != '\0' && c != '-' && c != '+' && !IsSpace(c)
  {
  }

  /** What strtol finds in the text of an int. */
  lemma PrintedReads(n: int)
    requires INT_MIN <= n <= INT_MAX
    ensures var s := Printed(n);
            && IsNumeral(s) && '\0' !in s && |s| <= UINT_MAX && (Negative(s) <==> n < 0)
            && Power(10, |Body(s)| - 1) <= INT_MAX && Value(Decode(Body(s)), 10) == Abs(n)
  {
    var digits := Digits(Abs(n), 10);
    PlainBody(digits, n < 0);
    DigitsValue(Abs(n), 10);
    DecodeCodes(digits);
    FirstWeight(Abs(n), 10);
    ShortText(Abs(n), 10);
    NoPowerOfTen(|digits| - 1);
    hide Digits, Value, Power, Codes, Decode, Body, Negative, IsNumeral;
  }

  lemma NoPowerOfTen(n: nat)
    ensures Power(10, n) != INT_MAX + 1
  {
  }

  /** The text of an int reads back as the int, without overflow exactly when it is not INT_MIN. */
  method AtoiOfItoa(n: int, buf: array<char>) returns (r: int, ghost exact: bool)
    requires INT_MIN <= n <= INT_MAX && |Printed(n)| < buf.Length
    modifies buf
    ensures r == n && (exact <==> n != INT_MIN)
  {
    hide Printed, Value, Power, Decode, Body, Negative, IsNumeral, Wrap;
    Itoa(n, buf, 10);
    PrintedReads(n);
    var len := StringLength(buf, Printed(n));
    r, exact := Strtol(buf[..len], 10);
  }

  /** The text of an unsigned number up to INT_MAX reads back in its base, without overflow. */
  method StrtolOfUnsignedItoa(u: nat, buf: array<char>, base: nat) returns (r: int, ghost exact: bool)
    requires u <= INT_MAX && 2 <= base <= 16 && |Digits(u, base)| < buf.Length
    modifies buf
    ensures exact && r == u
  {
    UnsignedItoa(u, buf, base);
    ghost var digits := Digits(u, base);
    PlainBody(digits, false);
    DigitsValue(u, base);
    DecodeCodes(digits);
    FirstWeight(u, base);
    ShortText(u, base);
    assert "" + Codes(digits) == Codes(digits);
    hide Digits, Value, Power, Codes, Decode;
    var len := StringLength(buf, Codes(digits));
    r, exact := Strtol(buf[..len], base);
  }

  /** strlen. */
  method StringLength(buf: array<char>, ghost s: string) returns (n: nat)
    requires Holds(buf, s) && '\0' !in s
    ensures n == |s| && buf[..n] == s
  {
    n := 0;
    while buf[n] != '\0'
      invariant n <= |s|
      decreases |s| - n
    {
      assert n != |s|;
      n := n + 1;
    }
    assert forall k :: 0 <= k < |s| ==> buf[k] == s[k] && s[k] in s;
  }

  /** The text of a number is NUL-free, and no longer than the number. */
  lemma ShortText(v: nat, base: nat)
    requires 2 <= base <= 16
    ensures |Digits(v, base)| <= v + 1 && '\0' !in Codes(Digits(v, base))
  {
    hide DigitChar;
    FirstWeight(v, base);
    Count(base, |Digits(v, base)| - 1);
    forall d: nat | d <= 35 ensures DigitChar(d) != '\0' {
      PlainChar(d);
    }
  }

  lemma {:induction false} Count(base: nat, n: nat)
    requires base >= 2
    ensures n < Power(base, n)
  {
    if n > 0 {
      Count(base, n - 1);
      assert base * Power(base, n - 1) >= 2 * Power(base, n - 1);
    }
  }
}
