/** What the characters of an encoding stand for, digit by digit: the alphabet in its order, and the twenty-four bits
    each four characters carry. */
module Base64Digits {
  import opened Base64
  import opened Utf8
  import opened Wrappers

  /** The alphabet in order: upper case from 0, lower case from 26, digits from 52, then plus and slash. */
  lemma PositionIs(c: char, n: nat)
    ensures Position(c) == Some(n)
       <==> || ('A' <= c <= 'Z' && n == c as int - 'A' as int)
            || ('a' <= c <= 'z' && n == 26 + (c as int - 'a' as int))
            || ('0' <= c <= '9' && n == 52 + (c as int - '0' as int))
            || (c == '+' && n == 62)
            || (c == '/' && n == 63)
  {
    PositionIff(c);
    if Position(c).Some? {
      assert Letter(Position(c).value) == c;
    }
    hide PositionFrom;
  }

  /** The value of a character, padding as nothing. */
  function Digit(c: char): nat {
    match Position(c) case Some(n) => n case None => 0
  }

  /** The number four base-64 digits write, from the highest. */
  function FourDigits(a: nat, b: nat, c: nat, d: nat): nat {
    262144 * a + 4096 * b + 64 * c + d
  }

  /** The number three bytes write, from the highest. */
  function ThreeBytes(a: nat, b: nat, c: nat): nat {
    65536 * a + 256 * b + c
  }

  lemma DigitOfLetter(n: nat)
    requires n < 64
    ensures Digit(Letter(n)) == n && Letter(n) != '='
  {
    PositionOfLetter(n);
    hide Position, Letter;
  }

  lemma DigitOfPadding()
    ensures Digit('=') == 0
  {
    PositionIff('=');
    hide Position;
  }

  /** Four characters write in base 64 what three bytes write in base 256, and each byte that is not there, when
      fewer than three are `left`, has its `=` at the end. */
  predicate Writes(text: string, at: nat, a: nat, b: nat, c: nat, left: nat) {
    && at + 4 <= |text|
    && FourDigits(Digit(text[at]), Digit(text[at + 1]), Digit(text[at + 2]), Digit(text[at + 3])) == ThreeBytes(a, b, c)
    && text[at] != '=' && text[at + 1] != '='
    && (text[at + 2] == '=' <==> left < 2)
    && (text[at + 3] == '=' <==> left < 3)
  }

  lemma GroupWrites(group: Bytes)
    requires 1 <= |group| <= 3
    ensures Writes(GroupText(group), 0, ByteOr0(group, 0), ByteOr0(group, 1), ByteOr0(group, 2), |group|)
  {
    var (a, b, c) := (ByteOr0(group, 0), ByteOr0(group, 1), ByteOr0(group, 2));
    DigitsOf(Packed(group), a / 4, a % 4 * 16 + b / 16, b % 16 * 4 + c / 64, c % 64);
    SlotsAre(group);
    assert |group| < 3 ==> c == 0;
    assert |group| < 2 ==> b == 0;
    hide SextetAt, Letter, Digit, SlotChar, Packed;
  }

  lemma WritesInFront(front: string, text: string, rest: string, at: nat, a: nat, b: nat, c: nat, left: nat)
    requires text == front + rest
    ensures Writes(rest, at, a, b, c, left) ==> Writes(text, |front| + at, a, b, c, left)
  {
    if at + 4 <= |rest| {
      forall k | at <= k < at + 4
        ensures text[|front| + k] == rest[k]
      {
      }
    }
    hide Digit, FourDigits, ThreeBytes;
  }

  lemma WritesBefore(text: string, front: string, rest: string, a: nat, b: nat, c: nat, left: nat)
    requires text == front + rest
    ensures Writes(front, 0, a, b, c, left) ==> Writes(text, 0, a, b, c, left)
  {
    hide Digit, FourDigits, ThreeBytes;
  }

  lemma SlotsAre(group: Bytes)
    requires 1 <= |group| <= 3
    ensures forall slot :: 0 <= slot < 4 ==>
              && (SlotChar(group, slot) == '=' <==> slot > |group|)
              && Digit(SlotChar(group, slot)) == if slot <= |group| then SextetAt(Packed(group), slot) else 0
  {
    hide SextetAt, Packed, Letter, Digit;
    DigitOfPadding();
    forall slot | 0 <= slot < 4
      ensures SlotChar(group, slot) == '=' <==> slot > |group|
      ensures Digit(SlotChar(group, slot)) == if slot <= |group| then SextetAt(Packed(group), slot) else 0
    {
      DigitOfLetter(SextetAt(Packed(group), slot));
    }
  }

  /** Each four characters of an encoding write, in base 64, the number that the three bytes they stand for write
      in base 256, bytes that are not there as zero; and one `=` stands at the end for each of those. */
  lemma {:induction false} EncodedWrites(bytes: Bytes, g: nat)
    requires 3 * g < |bytes|
    ensures Writes(Encoded(bytes), 4 * g, ByteOr0(bytes, 3 * g), ByteOr0(bytes, 3 * g + 1), ByteOr0(bytes, 3 * g + 2),
                   |bytes| - 3 * g)
    decreases |bytes|
  {
    hide Encoded, GroupText, Writes;
    var (group, rest) := (Take(bytes, 3), Drop(bytes, 3));
    EncodedHead(bytes);
    var (text, front, more) := (Encoded(bytes), GroupText(group), Encoded(rest));
    if g == 0 {
      GroupWrites(group);
      WritesBefore(text, front, more, ByteOr0(bytes, 0), ByteOr0(bytes, 1), ByteOr0(bytes, 2), |group|);
      FewerLeft(text, bytes);
    } else {
      EncodedWrites(rest, g - 1);
      GroupIsFour(group);
      WritesInFront(front, text, more, 4 * (g - 1), ByteOr0(rest, 3 * g - 3), ByteOr0(rest, 3 * g - 2), ByteOr0(rest, 3 * g - 1),
                    |bytes| - 3 * g);
    }
  }

  lemma GroupIsFour(group: Bytes)
    ensures |GroupText(group)| == 4
  {
  }

  /** Three are as good as more. */
  lemma FewerLeft(text: string, bytes: Bytes)
    ensures Writes(text, 0, ByteOr0(bytes, 0), ByteOr0(bytes, 1), ByteOr0(bytes, 2), |Take(bytes, 3)|)
        ==> Writes(text, 0, ByteOr0(bytes, 0), ByteOr0(bytes, 1), ByteOr0(bytes, 2), |bytes|)
  {
    hide Digit, FourDigits, ThreeBytes, ByteOr0;
  }

  // ------------------------------------------------------------------ reading

  /** The value of a character of the text, nothing when it is not there. */
  function DigitOr0(text: string, k: nat): nat {
    if k < |text| then Digit(text[k]) else 0
  }

  lemma {:induction false} SextetsAre(text: string)
    requires forall k :: 0 <= k < |text| ==> InAlphabet(text[k])
    ensures Sextets(text).Some? && |Sextets(text).value| == |text|
    ensures forall k :: 0 <= k < |text| ==> Sextets(text).value[k] == Digit(text[k])
  {
    hide Position;
    if text != [] {
      assert InAlphabet(text[0]);
      PositionIff(text[0]);
      SextetsAre(text[1..]);
      assert text[0] != '=' && !IsSpace(text[0]);
      assert Sextets(text).value == [Position(text[0]).value] + Sextets(text[1..]).value;
    }
  }

  /** The bytes a number of four digits gives when `kept` of them are there: three for four, its high two for three,
      and its high one for two. */
  predicate Gives(number: nat, kept: nat, bytes: Bytes, at: nat) {
    && at < |bytes| && (at + 1 < |bytes| <==> kept >= 3) && (at + 2 < |bytes| <==> kept >= 4)
    && (kept >= 4 ==> ThreeBytes(bytes[at] as int, bytes[at + 1] as int, bytes[at + 2] as int) == number)
    && (kept == 3 ==> 256 * bytes[at] as int + bytes[at + 1] as int == number / 256)
    && (kept == 2 ==> bytes[at] as int == number / 65536)
  }

  /** Each four digits of a text give the three bytes that write the same number; at the end three digits give the
      two that write its high bits, and two give one. */
  lemma DecodedReads(text: string, g: nat)
    requires (forall k :: 0 <= k < |text| ==> InAlphabet(text[k])) && |text| % 4 != 1 && 4 * g < |text|
    ensures Decoded(text).Some?
    ensures Gives(FourDigits(DigitOr0(text, 4 * g), DigitOr0(text, 4 * g + 1), DigitOr0(text, 4 * g + 2), DigitOr0(text, 4 * g + 3)),
                  |text| - 4 * g, Decoded(text).value, 3 * g)
  {
    SextetsAre(text);
    var sextets := Sextets(text).value;
    forall k | 0 <= k < |sextets|
      ensures sextets[k] < 64
    {
      PositionIs(text[k], Digit(text[k]));
    }
    hide Sextets, InAlphabet, Digit, FourDigits, Gives, BytesOf;
    GroupsGive(sextets, g);
  }

  function NumberAt(sextets: seq<nat>, at: nat): nat {
    FourDigits(SextetOr0(sextets, at), SextetOr0(sextets, at + 1), SextetOr0(sextets, at + 2), SextetOr0(sextets, at + 3))
  }

  lemma NumberLater(sextets: seq<nat>, at: nat)
    requires at >= 4
    ensures NumberAt(sextets, at) == NumberAt(Drop(sextets, 4), at - 4)
  {
    hide FourDigits;
  }

  lemma NumberFirst(sextets: seq<nat>)
    ensures NumberAt(sextets, 0) == NumberAt(Take(sextets, 4), 0)
  {
    hide FourDigits;
  }

  lemma GivesInFront(number: nat, kept: nat, front: Bytes, rest: Bytes, at: nat)
    requires Gives(number, kept, rest, at)
    ensures Gives(number, kept, front + rest, |front| + at)
  {
    var bytes := front + rest;
    assert bytes[|front| + at] == rest[at];
    if kept >= 3 {
      assert bytes[|front| + at + 1] == rest[at + 1];
    }
    if kept >= 4 {
      assert bytes[|front| + at + 2] == rest[at + 2];
    }
    hide ThreeBytes;
  }

  lemma {:induction false} GroupsGive(sextets: seq<nat>, g: nat)
    requires (forall k :: 0 <= k < |sextets| ==> sextets[k] < 64) && |sextets| % 4 != 1 && 4 * g < |sextets|
    ensures Gives(NumberAt(sextets, 4 * g), |sextets| - 4 * g, BytesOf(sextets), 3 * g)
    decreases |sextets|
  {
    hide BytesOf, NumberAt, Gives, GroupBytes;
    var (group, rest) := (Take(sextets, 4), Drop(sextets, 4));
    BytesHead(sextets);
    if g == 0 {
      NumberFirst(sextets);
      GroupGives(group);
      assert |group| < 4 ==> rest == [];
      NoSextets();
      GivesMore(NumberAt(group, 0), |group|, |sextets|, GroupBytes(group), BytesOf(rest));
    } else {
      NumberLater(sextets, 4 * g);
      GroupsGive(rest, g - 1);
      GivesInFront(NumberAt(rest, 4 * g - 4), |sextets| - 4 * g, GroupBytes(group), BytesOf(rest), 3 * g - 3);
    }
  }

  lemma BytesHead(sextets: seq<nat>)
    requires sextets != []
    ensures BytesOf(sextets) == GroupBytes(Take(sextets, 4)) + BytesOf(Drop(sextets, 4))
  {
    hide GroupBytes;
  }

  lemma GivesMore(number: nat, kept: nat, all: nat, bytes: Bytes, rest: Bytes)
    requires Gives(number, kept, bytes, 0) && (kept < 4 ==> all == kept && rest == []) && (kept >= 4 ==> all >= 4)
    ensures Gives(number, all, bytes + rest, 0)
  {
    hide ThreeBytes;
  }

  lemma GroupGives(group: seq<nat>)
    requires 2 <= |group| <= 4 && forall k :: 0 <= k < |group| ==> group[k] < 64
    ensures Gives(NumberAt(group, 0), |group|, GroupBytes(group), 0)
  {
    var number := Unpacked(group);
    var bytes := GroupBytes(group);
    assert number < 0x1_000000;
    assert bytes[0] == ByteAt(number, 0) && (|group| > 2 ==> bytes[1] == ByteAt(number, 1)) && (|group| > 3 ==> bytes[2] == ByteAt(number, 2));
    BytesWrite(number);
    hide GroupBytes, ByteAt, ThreeBytes;
  }

  lemma BytesWrite(n: nat)
    requires n < 0x1_000000
    ensures ByteAt(n, 0) as int == n / 65536
    ensures 256 * ByteAt(n, 0) as int + ByteAt(n, 1) as int == n / 256
    ensures ThreeBytes(ByteAt(n, 0) as int, ByteAt(n, 1) as int, ByteAt(n, 2) as int) == n
  {
    assert n / 256 / 256 == n / 65536;
  }

  // ------------------------------------------------------------------ characters that are none of these

  /** Any character that is neither of the alphabet nor a blank refuses the text, wherever it stands before the
      first `=`. */
  lemma {:induction false} StrangersRefuse(a: string, c: char, b: string)
    requires '=' !in a && c !in {'=', ' ', '\t', '\r', '\n', '+', '/'}
    requires !('A' <= c <= 'Z' || 'a' <= c <= 'z' || '0' <= c <= '9')
    ensures Decoded(a + [c] + b) == None
  {
    StrangerStops(a, c, b);
    hide Sextets, BytesOf;
  }

  lemma {:induction false} StrangerStops(a: string, c: char, b: string)
    requires '=' !in a && !IsSpace(c) && !InAlphabet(c) && c != '='
    ensures Sextets(a + [c] + b) == None
  {
    PositionIff(c);
    hide Position, InAlphabet;
    var text := a + [c] + b;
    if a == [] {
      assert text[0] == c;
    } else {
      assert text[0] == a[0] && text[1..] == a[1..] + [c] + b;
      StrangerStops(a[1..], c, b);
    }
  }
}
