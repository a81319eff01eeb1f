/** Number formatting: `itoa` with its in-place reversal, and the `%x`, `%#x`, `%u` and `%d`
    conversions of `printf` (student-distrib/lib.c). */
module Numerals {
  import opened Base

  const ZERO: byte := 48
  const MINUS: byte := 45

  predicate Radix(r: int) {
    2 <= r <= 36
  }

  /** The digits are 0 to 9 and A to Z. */
  function Digit(d: nat): byte
    requires d < 36
  {
    if d < 10 then ZERO + d else 55 + d
  }

  predicate IsDigit(c: byte, r: int) {
    if 48 <= c <= 57 then c - 48 < r else 65 <= c <= 90 && c - 55 < r
  }

  function DigitValue(c: byte): int {
    if c <= 57 then c - 48 else c - 55
  }

  predicate Digits(s: seq<byte>, r: int) {
    forall i :: 0 <= i < |s| ==> IsDigit(s[i], r)
  }

  /** The number that a string of digits stands for. */
  function Value(s: seq<byte>, r: int): int {
    if s == [] then 0 else Value(s[..|s| - 1], r) * r + DigitValue(s[|s| - 1])
  }

  /** The usual numeral of a number, highest digit first. */
  function Numeral(v: nat, r: int): seq<byte>
    requires Radix(r)
  {
    if v < r then [Digit(v)]
    else
      Smaller(v, r);
      Numeral(v / r, r) + [Digit(v % r)]
  }

  lemma Smaller(v: nat, r: int)
    requires Radix(r) && v > 0
    ensures 0 <= v / r < v && v == (v / r) * r + v % r
  {
  }

  /** A numeral reads back to its number. */
  lemma {:induction false} NumeralReads(v: nat, r: int)
    requires Radix(r)
    ensures Digits(Numeral(v, r), r) && Value(Numeral(v, r), r) == v
    decreases v
  {
    if v >= r {
      Smaller(v, r);
      NumeralReads(v / r, r);
      var t := Numeral(v / r, r);
      assert (t + [Digit(v % r)])[..|t|] == t;
    } else {
      assert Numeral(v, r)[..0] == [];
    }
  }

  predicate Canonical(s: seq<byte>, r: int) {
    s != [] && Digits(s, r) && (|s| > 1 ==> s[0] != ZERO)
  }

  lemma {:induction false} LeadingDigit(s: seq<byte>, r: int)
    requires Radix(r) && s != [] && Digits(s, r) && s[0] != ZERO
    ensures Value(s, r) >= 1
  {
    var n := |s| - 1;
    if n > 0 {
      LeadingDigit(s[..n], r);
      TimesAtLeast(Value(s[..n], r), r);
    } else {
      assert s[..0] == [];
    }
  }

  /** It is the only numeral without leading zeros that does. */
  lemma {:induction false} NumeralUnique(s: seq<byte>, r: int)
    requires Radix(r) && Canonical(s, r)
    ensures Value(s, r) >= 0 && s == Numeral(Value(s, r), r)
  {
    var n := |s| - 1;
    var t, d := s[..n], DigitValue(s[n]);
    assert IsDigit(s[n], r);
    if n == 0 {
      assert t == [];
    } else {
      LeadingDigit(t, r);
      NumeralUnique(t, r);
      TimesAtLeast(Value(t, r), r);
      DivModUnique(Value(s, r), r, Value(t, r), d);
    }
  }

  lemma {:induction false} NumeralLeads(v: nat, r: int)
    requires Radix(r) && v > 0
    ensures Numeral(v, r) != [] && Numeral(v, r)[0] != ZERO
    decreases v
  {
    if v >= r {
      Smaller(v, r);
      DivPositive(v, r);
      NumeralLeads(v / r, r);
    }
  }

  lemma DivPositive(v: nat, r: int)
    requires Radix(r) && v >= r
    ensures v / r >= 1
  {
  }

  /** The numeral itself has no leading zeros. */
  lemma NumeralCanonical(v: nat, r: int)
    requires Radix(r)
    ensures Canonical(Numeral(v, r), r)
  {
    NumeralReads(v, r);
    if v > 0 {
      NumeralLeads(v, r);
    }
  }

  function Pow(b: nat, k: nat): nat {
    if k == 0 then 1 else b * Pow(b, k - 1)
  }

  /** A number below the `k`-th power of the radix has at most `k` digits. */
  lemma {:induction false} NumeralLength(v: nat, r: int, k: nat)
    requires Radix(r) && k >= 1 && v < Pow(r, k)
    ensures 1 <= |Numeral(v, r)| <= k
    decreases v
  {
    if v >= r {
      Smaller(v, r);
      Below(v, r, Pow(r, k - 1));
      NumeralLength(v / r, r, k - 1);
    }
  }

  lemma Below(v: nat, r: int, p: nat)
    requires Radix(r) && v < r * p
    ensures 0 <= v / r < p
  {
  }

  lemma TimesGrows(a: nat, b: nat, x: nat, y: nat)
    requires a <= b && x <= y
    ensures a * x <= b * y
  {
    assert a * x <= a * y <= b * y;
  }

  lemma {:induction false} PowGrows(a: nat, b: nat, k: nat)
    requires a <= b
    ensures Pow(a, k) <= Pow(b, k)
  {
    if k > 0 {
      PowGrows(a, b, k - 1);
      TimesGrows(a, b, Pow(a, k - 1), Pow(b, k - 1));
    }
  }

  lemma Associate(a: nat, b: nat, c: nat)
    ensures a * (b * c) == a * b * c
  {
  }

  lemma {:induction false} PowSum(b: nat, j: nat, k: nat)
    ensures Pow(b, j + k) == Pow(b, j) * Pow(b, k)
  {
    if j > 0 {
      PowSum(b, j - 1, k);
      Associate(b, Pow(b, j - 1), Pow(b, k));
    }
  }

  lemma PowersOf32Bits()
    ensures Pow(2, 32) == TWO_32 && Pow(16, 8) == TWO_32
  {
    assert Pow(2, 4) == 16 && Pow(16, 2) == 256;
    PowSum(2, 4, 4);
    PowSum(2, 8, 8);
    PowSum(2, 16, 16);
    PowSum(16, 2, 2);
    PowSum(16, 4, 4);
  }

  /** Every 32-bit number fits in 33 bytes with its NUL, whatever the radix. */
  lemma NumeralFits(v: nat, r: int)
    requires Radix(r) && v < TWO_32
    ensures 1 <= |Numeral(v, r)| <= 32
  {
    PowersOf32Bits();
    PowGrows(2, r, 32);
    NumeralLength(v, r, 32);
  }

  // ---------------------------------------------------------------------------
  // The program

  /** The digits as the loop produces them, lowest first. */
  function LowDigits(v: nat, r: int): seq<byte>
    requires Radix(r)
  {
    if v == 0 then []
    else
      Smaller(v, r);
      [Digit(v % r)] + LowDigits(v / r, r)
  }

  function Reversed(s: seq<byte>): (t: seq<byte>)
    ensures |t| == |s|
  {
    seq(|s|, i requires 0 <= i < |s| => s[|s| - 1 - i])
  }

  lemma {:induction false} LowDigitsReversed(v: nat, r: int)
    requires Radix(r) && v > 0
    ensures Reversed(LowDigits(v, r)) == Numeral(v, r)
    decreases v
  {
    Smaller(v, r);
    var low := LowDigits(v / r, r);
    assert Reversed([Digit(v % r)] + low) == Reversed(low) + [Digit(v % r)];
    if v >= r {
      DivPositive(v, r);
      LowDigitsReversed(v / r, r);
    } else {
      DivModUnique(v, r, 0, v);
    }
  }

  /** The C string at index `at` is `s`. */
  ghost predicate StringAt(buf: array<byte>, at: nat, s: seq<byte>)
    reads buf
  {
    && at + |s| < buf.Length && buf[at + |s|] == 0
    && forall i :: at <= i < at + |s| ==> buf[i] == s[i - at] && buf[i] != 0
  }

  /** Nothing outside the `n` bytes from `at` on has changed. */
  predicate SameOutside(old': seq<byte>, new': seq<byte>, at: int, n: int) {
    |old'| == |new'| && forall i :: 0 <= i < |old'| && !(at <= i < at + n) ==> new'[i] == old'[i]
  }

  /** `strlen` (student-distrib/lib.c:608-613). */
  method StrLen(buf: array<byte>, at: nat, ghost s: seq<byte>) returns (n: nat)
    requires StringAt(buf, at, s)
    ensures n == |s|
  {
    n := 0;
    while buf[at + n] != 0
      invariant n <= |s|
      decreases |s| - n
    {
      n := n + 1;
    }
  }

  /** `strrev` (student-distrib/lib.c:589-602): the string is reversed in place. */
  method StrRev(buf: array<byte>, at: nat, ghost s: seq<byte>)
    requires StringAt(buf, at, s)
    modifies buf
    ensures StringAt(buf, at, Reversed(s)) && SameOutside(old(buf[..]), buf[..], at, |s|)
  {
    var n := StrLen(buf, at, s);
    var beg, end := 0, n - 1;
    while beg < end
      invariant 0 <= beg <= n && end == n - 1 - beg && beg <= end + 1
      invariant forall i :: at + beg <= i <= at + end ==> buf[i] == s[i - at]
      invariant forall i :: at <= i < at + n && !(at + beg <= i <= at + end) ==> buf[i] == s[n - 1 - (i - at)]
      invariant forall i :: at <= i < at + n ==> buf[i] != 0
      invariant forall i :: 0 <= i < buf.Length && !(at <= i < at + n) ==> buf[i] == old(buf[i])
    {
      var tmp := buf[at + end];
      buf[at + end] := buf[at + beg];
      buf[at + beg] := tmp;
      beg, end := beg + 1, end - 1;
    }
  }

  lemma {:induction false} LowDigitsNotNul(v: nat, r: int)
    requires Radix(r)
    ensures forall i :: 0 <= i < |LowDigits(v, r)| ==> LowDigits(v, r)[i] != 0
    decreases v
  {
    if v > 0 {
      Smaller(v, r);
      LowDigitsNotNul(v / r, r);
    }
  }

  /** `itoa` (student-distrib/lib.c:553-583, syscalls/ece391support.c:49-81): the numeral,
      and a NUL after it. */
  method Itoa(value: nat, buf: array<byte>, at: nat, radix: int)
    requires Radix(radix) && value < TWO_32 && at + |Numeral(value, radix)| < buf.Length
    modifies buf
    ensures StringAt(buf, at, Numeral(value, radix))
    ensures SameOutside(old(buf[..]), buf[..], at, |Numeral(value, radix)| + 1)
  {
    if value == 0 {
      buf[at] := ZERO;
      buf[at + 1] := 0;
      return;
    }
    ghost var low := LowDigits(value, radix);
    LowDigitsReversed(value, radix);
    LowDigitsNotNul(value, radix);
    var rest, n := value, 0;
    while rest > 0
      invariant 0 <= rest && 0 <= n <= |low| && low[n..] == LowDigits(rest, radix)
      invariant forall i :: at <= i < at + n ==> buf[i] == low[i - at]
      invariant SameOutside(old(buf[..]), buf[..], at, n)
      decreases rest
    {
      Smaller(rest, radix);
      assert low[n] == Digit(rest % radix) && low[n + 1..] == low[n..][1..];
      buf[at + n] := Digit(rest % radix);
      n := n + 1;
      rest := rest / radix;
    }
    buf[at + n] := 0;
    StrRev(buf, at, low);
  }

  function Zeros(n: nat): seq<byte> {
    seq(n, i => ZERO)
  }

  /** What `puts` prints. */
  method Printed(buf: array<byte>, at: nat, ghost s: seq<byte>) returns (out: seq<byte>)
    requires StringAt(buf, at, s)
    ensures out == s
  {
    out := [];
    while buf[at + |out|] != 0
      invariant |out| <= |s| && out == s[..|out|]
      decreases |s| - |out|
    {
      out := out + [buf[at + |out|]];
    }
  }

  /** `%x` and `%u` (student-distrib/lib.c:207-210, 226-233). */
  method FormatUnsigned(value: nat, radix: int) returns (out: seq<byte>)
    requires Radix(radix) && value < TWO_32
    ensures Canonical(out, radix) && Value(out, radix) == value
  {
    NumeralFits(value, radix);
    NumeralReads(value, radix);
    NumeralCanonical(value, radix);
    var buf := new byte[36](i => 0);
    Itoa(value, buf, 0, radix);
    out := Printed(buf, 0, Numeral(value, radix));
  }

  lemma {:induction false} ZerosAdd(n: nat, s: seq<byte>, r: int)
    ensures Value(Zeros(n) + s, r) == Value(s, r)
    decreases |s|, n
  {
    var all := Zeros(n) + s;
    if s != [] {
      assert all[..|all| - 1] == Zeros(n) + s[..|s| - 1];
      ZerosAdd(n, s[..|s| - 1], r);
    } else if n > 0 {
      assert all[..|all| - 1] == Zeros(n - 1) + s;
      ZerosAdd(n - 1, s, r);
    }
  }

  /** `%#x` (student-distrib/lib.c:210-220): exactly eight hexadecimal digits. */
  method FormatHex8(value: nat) returns (out: seq<byte>)
    requires value < TWO_32
    ensures |out| == 8 && Digits(out, 16) && Value(out, 16) == value
  {
    ghost var s := Numeral(value, 16);
    PowersOf32Bits();
    NumeralLength(value, 16, 8);
    NumeralReads(value, 16);
    var buf := new byte[64](i => 0);
    Itoa(value, buf, 8, 16);
    var start := StrLen(buf, 8, s);
    var i := start;
    while i < 8
      invariant start <= i <= 8 && StringAt(buf, 8, s)
      invariant forall k :: start <= k < i ==> buf[k] == ZERO
    {
      buf[i] := ZERO;
      i := i + 1;
    }
    ZerosAdd(8 - |s|, s, 16);
    out := Printed(buf, start, Zeros(8 - |s|) + s);
  }

  function SignedValue(s: seq<byte>): int {
    if s != [] && s[0] == MINUS then -Value(s[1..], 10) else Value(s, 10)
  }

  lemma StringBefore(buf: array<byte>, c: byte, s: seq<byte>)
    requires StringAt(buf, 1, s) && buf[0] == c && c != 0
    ensures StringAt(buf, 0, [c] + s)
  {
  }

  /** `%d` of a negative number (student-distrib/lib.c:240-242); the negation wraps around
      for the lowest. */
  method FormatNegative(value: int) returns (out: seq<byte>)
    requires -0x8000_0000 <= value < 0
    ensures out == [MINUS] + Numeral(-value, 10)
  {
    var buf := new byte[36](i => 0);
    var negated := (-value) % TWO_32;
    ghost var s := Numeral(negated, 10);
    NumeralFits(negated, 10);
    buf[0] := MINUS;
    Itoa(negated, buf, 1, 10);
    assert buf[..][0] == MINUS;
    StringBefore(buf, MINUS, s);
    out := Printed(buf, 0, [MINUS] + s);
  }

  /** `%d` (student-distrib/lib.c:236-249), for every 32-bit value. */
  method FormatSigned(value: int) returns (out: seq<byte>)
    requires -0x8000_0000 <= value < 0x8000_0000
    ensures SignedValue(out) == value
    ensures value >= 0 ==> Canonical(out, 10)
    ensures value < 0 ==> out != [] && out[0] == MINUS && Canonical(out[1..], 10)
  {
    if value < 0 {
      out := FormatNegative(value);
      assert out[1..] == Numeral(-value, 10);
      NumeralReads(-value, 10);
      NumeralCanonical(-value, 10);
    } else {
      out := FormatUnsigned(value, 10);
    }
  }
}
