/** Whole numbers as decimal text, written and read back. */
module Decimals {
  import opened Wrappers

  const I64_MIN := -0x8000_0000_0000_0000
  const I64_MAX := 0x7FFF_FFFF_FFFF_FFFF
  const U64_MAX := 0xFFFF_FFFF_FFFF_FFFF

  predicate IsDigit(c: char) {
    '0' <= c <= '9'
  }

  predicate AllDigits(s: string) {
    forall k :: 0 <= k < |s| ==> IsDigit(s[k])
  }

  function DigitsValue(s: string): (n: nat)
    requires AllDigits(s)
  {
    if s == [] then 0 else DigitsValue(s[..|s| - 1]) * 10 + (s[|s| - 1] as int - '0' as int)
  }

  function Sign(s: string): int {
    if s != [] && s[0] == '-' then -1 else 1
  }

  /** What follows a sign, when there is one. */
  function Unsigned(s: string): string {
    if s != [] && (s[0] == '-' || s[0] == '+') then s[1..] else s
  }

  /** A decimal number that fits 64 bits. */
  function ParseI64(s: string): (r: Option<int>) {
    var digits := Unsigned(s);
    if digits == [] || !AllDigits(digits) then None
    else
      var n := Sign(s) * DigitsValue(digits);
      if I64_MIN <= n <= I64_MAX then Some(n) else None
  }

  function Decimal(n: nat): string {
    if n < 10 then ['0' + n as char] else Decimal(n / 10) + ['0' + (n % 10) as char]
  }

  function Zeros(n: nat): string {
    if n == 0 then [] else ['0'] + Zeros(n - 1)
  }

  function Magnitude(v: int): nat {
    if v < 0 then -v else v
  }

  /** A number padded with zeros, after its sign, to `width` characters. */
  function Format(v: int, width: nat): string {
    var sign := if v < 0 then "-" else "";
    var digits := Decimal(Magnitude(v));
    var room := |sign| + |digits|;
    sign + Zeros(if room < width then width - room else 0) + digits
  }

  /** A decimal number that fits 64 bits and has no minus sign. */
  function ParseU64(s: string): (r: Option<nat>) {
    var digits := if s != [] && s[0] == '+' then s[1..] else s;
    if digits == [] || !AllDigits(digits) || DigitsValue(digits) > U64_MAX then None
    else Some(DigitsValue(digits))
  }

  function Room(v: int): nat {
    (if v < 0 then 1 else 0) + |Decimal(Magnitude(v))|
  }

  function Padding(v: int, width: nat): nat {
    if Room(v) < width then width - Room(v) else 0
  }

  /** One digit more is ten times the number and the digit. */
  lemma DecimalDigits(q: nat, r: nat)
    requires r < 10
    ensures Decimal(r) == ["0123456789"[r]]
    ensures q > 0 ==> Decimal(10 * q + r) == Decimal(q) + ["0123456789"[r]]
  {
    assert q > 0 ==> (10 * q + r) / 10 == q && (10 * q + r) % 10 == r;
  }

  // ------------------------------------------------------------------ reading back

  lemma {:induction false} ZerosOf(n: nat)
    ensures |Zeros(n)| == n && AllDigits(Zeros(n)) && DigitsValue(Zeros(n)) == 0
  {
    if n > 0 {
      ZerosOf(n - 1);
      ZerosLast(n);
    }
  }

  lemma {:induction false} ZerosLast(n: nat)
    requires n > 0
    ensures Zeros(n) == Zeros(n - 1) + ['0']
  {
    if n > 1 {
      ZerosLast(n - 1);
    }
  }

  lemma {:induction false} DecimalReads(n: nat, zeros: nat)
    ensures Decimal(n) != [] && AllDigits(Zeros(zeros) + Decimal(n)) && DigitsValue(Zeros(zeros) + Decimal(n)) == n
  {
    ZerosOf(zeros);
    var s := Zeros(zeros) + Decimal(n);
    if n < 10 {
      assert s[..|s| - 1] == Zeros(zeros);
    } else {
      DecimalReads(n / 10, zeros);
      assert s[..|s| - 1] == Zeros(zeros) + Decimal(n / 10);
    }
  }

  lemma FormatIs(v: int, width: nat)
    ensures Format(v, width) == (if v < 0 then "-" else "") + (Zeros(Padding(v, width)) + Decimal(Magnitude(v)))
  {
    hide Decimal, Zeros;
  }

  lemma ParseSigned(digits: string, negative: bool)
    requires digits != [] && AllDigits(digits)
    ensures var n := (if negative then -1 else 1) * DigitsValue(digits);
            ParseI64((if negative then "-" else "") + digits) == if I64_MIN <= n <= I64_MAX then Some(n) else None
  {
    hide DigitsValue;
    assert IsDigit(digits[0]);
    assert Unsigned("-" + digits) == digits && Sign("-" + digits) == -1;
    assert "" + digits == digits;
    assert Unsigned(digits) == digits && Sign(digits) == 1;
  }

  /** A number reads back as itself, however it is padded. */
  lemma FormatReadsBack(v: int, width: nat)
    requires I64_MIN <= v <= I64_MAX
    ensures ParseI64(Format(v, width)) == Some(v)
  {
    DecimalReads(Magnitude(v), Padding(v, width));
    FormatIs(v, width);
    var digits := Zeros(Padding(v, width)) + Decimal(Magnitude(v));
    hide Decimal, Zeros, DigitsValue, Format, Padding, AllDigits;
    ParseSigned(digits, v < 0);
    hide ParseI64;
  }

  lemma {:induction false} DecimalNoLonger(s: string)
    requires s != [] && AllDigits(s)
    ensures |Decimal(DigitsValue(s))| <= |s|
  {
    if |s| > 1 {
      DecimalNoLonger(s[..|s| - 1]);
    }
  }

  lemma {:induction false} DecimalGrows(a: nat, b: nat)
    requires a <= b
    ensures 0 < |Decimal(a)| <= |Decimal(b)|
  {
    if a >= 10 {
      DecimalGrows(a / 10, b / 10);
    } else if b >= 10 {
      DecimalGrows(0, b / 10);
    }
  }

  /** A number written in decimal reads back as itself. */
  lemma DecimalReadsBack(n: nat)
    requires n <= U64_MAX
    ensures ParseU64(Decimal(n)) == Some(n)
  {
    DecimalReads(n, 0);
    assert Zeros(0) == [] && [] + Decimal(n) == Decimal(n);
    hide Decimal, DigitsValue, Zeros;
    assert IsDigit(Decimal(n)[0]);
  }

  /** Written numbers hold digits, and a minus sign at most. */
  lemma FormatChars(v: int, width: nat, c: char)
    ensures c in Format(v, width) ==> IsDigit(c) || c == '-'
  {
    DecimalReads(Magnitude(v), Padding(v, width));
    FormatIs(v, width);
    hide Decimal, Zeros, DigitsValue, Format, Padding;
  }
}
