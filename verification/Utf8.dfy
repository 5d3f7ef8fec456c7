/** UTF-8 as section 3 of RFC 3629 lays it out, over bytes that are integers below 256.
    `str` and `String` are sequences of scalar values; `Encode` gives the bytes they occupy. */
module Utf8 {
  newtype Byte = b: int | 0 <= b < 256
  type Bytes = seq<Byte>

  /** What begins a run of bytes: one well-formed character, or nothing that is one. */
  datatype Head = Ill | Char(c: char, len: nat)

  function EncodeChar(c: char): (r: Bytes)
    ensures 1 <= |r| <= 4
  {
    var n := c as int;
    if n < 0x80 then [n as Byte]
    else if n < 0x800 then [(0xC0 + n / 64) as Byte, Trail(n)]
    else if n < 0x1_0000 then [(0xE0 + n / 4096) as Byte, Trail(n / 64), Trail(n)]
    else [(0xF0 + n / 262144) as Byte, Trail(n / 4096), Trail(n / 64), Trail(n)]
  }

  /** A continuation byte: `10` and the low six bits of `n`. */
  function Trail(n: nat): Byte {
    (0x80 + n % 64) as Byte
  }

  /** The six bits of a byte, or the low bits of a lead byte. */
  function Low(b: Byte, mark: Byte): int {
    b as int - mark as int
  }

  function Encode(text: string): Bytes {
    if text == [] then [] else EncodeChar(text[0]) + Encode(text[1..])
  }

  predicate Continuation(b: Byte) {
    0x80 <= b < 0xC0
  }

  /** Which second bytes a lead byte accepts; the narrow ranges shut out overlong forms,
      surrogates and everything past U+10FFFF. */
  predicate SecondAccepted(lead: Byte, second: Byte) {
    if 0xC2 <= lead < 0xE0 then Continuation(second)
    else if lead == 0xE0 then 0xA0 <= second < 0xC0
    else if lead == 0xED then 0x80 <= second < 0xA0
    else if 0xE1 <= lead < 0xF0 then Continuation(second)
    else if lead == 0xF0 then 0x90 <= second < 0xC0
    else if lead == 0xF4 then 0x80 <= second < 0x90
    else 0xF1 <= lead < 0xF4 && Continuation(second)
  }

  /** The character at the front of `b`, if a well-formed one is there. */
  function First(b: Bytes): (r: Head)
    ensures r.Char? ==> 1 <= r.len <= |b| && r.len <= 4
  {
    if |b| == 0 then Ill
    else if b[0] < 0x80 then Char(b[0] as int as char, 1)
    else if |b| < 2 || !SecondAccepted(b[0], b[1]) then Ill
    else if b[0] < 0xE0 then Char(Joined(0, 0, Low(b[0], 0xC0), Low(b[1], 0x80)) as char, 2)
    else if |b| < 3 || !Continuation(b[2]) then Ill
    else if b[0] < 0xF0 then Char(Joined(0, Low(b[0], 0xE0), Low(b[1], 0x80), Low(b[2], 0x80)) as char, 3)
    else if |b| < 4 || !Continuation(b[3]) then Ill
    else Char(Joined(Low(b[0], 0xF0), Low(b[1], 0x80), Low(b[2], 0x80), Low(b[3], 0x80)) as char, 4)
  }

  /** Four base-64 digits put together. */
  function Joined(w: int, x: int, y: int, z: int): int {
    w * 262144 + x * 4096 + y * 64 + z
  }

  /** Whether the whole of `b` is text: `str::from_utf8` succeeds. */
  predicate Valid(b: Bytes)
    decreases |b|
  {
    |b| == 0 || (First(b).Char? && Valid(b[First(b).len..]))
  }

  /** The text `b` is. */
  function Decode(b: Bytes): string
    requires Valid(b)
    decreases |b|
  {
    if |b| == 0 then [] else [First(b).c] + Decode(b[First(b).len..])
  }

  lemma Digits(w: nat, x: nat, y: nat, z: nat)
    requires x < 64 && y < 64 && z < 64
    ensures var n := Joined(w, x, y, z);
            && n / 262144 == w && n / 4096 % 64 == x && n / 64 % 64 == y && n % 64 == z
            && n / 4096 == w * 64 + x && n / 64 == w * 4096 + x * 64 + y
  {
    var n := Joined(w, x, y, z);
    assert n == 64 * (w * 4096 + x * 64 + y) + z;
    assert n / 64 == w * 4096 + x * 64 + y;
    assert n / 64 == 64 * (w * 64 + x) + y;
    assert n / 64 / 64 == w * 64 + x;
    assert n / 4096 == n / 64 / 64;
    assert n / 262144 == n / 64 / 64 / 64;
  }

  lemma JoinDigits(n: nat)
    ensures n == Joined(n / 262144, n / 4096 % 64, n / 64 % 64, n % 64)
  {
    assert n / 4096 == n / 64 / 64;
    assert n / 262144 == n / 64 / 64 / 64;
  }

  /** Reading back what was just written finds that character and nothing longer or shorter. */
  lemma FirstOfEncoded(c: char, rest: Bytes)
    ensures First(EncodeChar(c) + rest) == Char(c, |EncodeChar(c)|)
  {
    var n := c as int;
    JoinDigits(n);
    if n < 0x80 {
      assert (EncodeChar(c) + rest)[0] == n as Byte;
    } else {
      FirstOfLonger(c, rest);
    }
  }

  lemma FirstOfLonger(c: char, rest: Bytes)
    requires c as int >= 0x80
    ensures First(EncodeChar(c) + rest) == Char(c, |EncodeChar(c)|)
  {
    var e := EncodeChar(c);
    var b := e + rest;
    JoinDigits(c as int);
    assert b[0] == e[0] && b[1] == e[1];
    assert SecondAccepted(b[0], b[1]);
    if |e| == 3 {
      assert b[2] == e[2];
    } else if |e| == 4 {
      assert b[2] == e[2] && b[3] == e[3];
    }
  }

  /** A character is found only where its own bytes stand: no overlong or aliased spelling. */
  lemma EncodedOfFirst(b: Bytes)
    requires First(b).Char?
    ensures EncodeChar(First(b).c) == b[..First(b).len]
  {
    hide Joined;
    var h := First(b);
    if h.len == 2 {
      Digits(0, 0, Low(b[0], 0xC0), Low(b[1], 0x80));
    } else if h.len == 3 {
      Digits(0, Low(b[0], 0xE0), Low(b[1], 0x80), Low(b[2], 0x80));
    } else if h.len == 4 {
      Digits(Low(b[0], 0xF0), Low(b[1], 0x80), Low(b[2], 0x80), Low(b[3], 0x80));
    }
  }

  /** Nothing after the first byte of a character can begin one, so a reader dropped in the middle
      of a character never mistakes its tail for another: UTF-8 synchronises itself. */
  lemma TailsAreContinuations(c: char, k: nat)
    requires 0 < k < |EncodeChar(c)|
    ensures Continuation(EncodeChar(c)[k])
  {
  }

  /** The table of section 3 of RFC 3629: which lead byte goes with how many bytes, six bits in each that follows it,
      and no more bytes than the number needs. */
  lemma EncodingIs(c: char)
    ensures var (n, e) := (c as int, EncodeChar(c));
            && (|e| == 1 <==> n < 0x80)
            && (|e| == 2 <==> 0x80 <= n < 0x800)
            && (|e| == 3 <==> 0x800 <= n < 0x1_0000)
            && (|e| == 4 <==> 0x1_0000 <= n)
            && (|e| == 1 ==> n == e[0] as int)
            && (|e| == 2 ==> 0xC2 <= e[0] <= 0xDF && n == 64 * (e[0] as int - 0xC0) + (e[1] as int - 0x80))
            && (|e| == 3 ==> 0xE0 <= e[0] <= 0xEF
                             && n == 4096 * (e[0] as int - 0xE0) + 64 * (e[1] as int - 0x80) + (e[2] as int - 0x80))
            && (|e| == 4 ==> 0xF0 <= e[0] <= 0xF4
                             && n == 262144 * (e[0] as int - 0xF0) + 4096 * (e[1] as int - 0x80)
                                     + 64 * (e[2] as int - 0x80) + (e[3] as int - 0x80))
  {
    JoinDigits(c as int);
  }

  lemma {:induction false} EncodeConcat(s: string, t: string)
    ensures Encode(s + t) == Encode(s) + Encode(t)
  {
    if s == [] {
      assert s + t == t;
    } else {
      assert (s + t)[0] == s[0] && (s + t)[1..] == s[1..] + t;
      EncodeConcat(s[1..], t);
      assert EncodeChar(s[0]) + (Encode(s[1..]) + Encode(t)) == EncodeChar(s[0]) + Encode(s[1..]) + Encode(t);
    }
  }

  /** Text is valid UTF-8 and reads back as itself. */
  lemma {:induction false} DecodeEncode(text: string)
    ensures Valid(Encode(text)) && Decode(Encode(text)) == text
  {
    if text != [] {
      var rest := Encode(text[1..]);
      FirstOfEncoded(text[0], rest);
      DecodeEncode(text[1..]);
      assert (EncodeChar(text[0]) + rest)[|EncodeChar(text[0])|..] == rest;
    }
  }

  /** And bytes that are text are exactly the bytes of that text. */
  lemma {:induction false} EncodeDecode(b: Bytes)
    requires Valid(b)
    ensures Encode(Decode(b)) == b
    decreases |b|
  {
    hide First, EncodeChar;
    if |b| != 0 {
      EncodedOfFirst(b);
      EncodeDecode(b[First(b).len..]);
      assert b == b[..First(b).len] + b[First(b).len..];
    }
  }
}
