/** Base64 as section 4 of RFC 4648 gives it: three bytes as four characters, and back. Shifts and masks are
    division and remainder, and an `or` of bits that do not overlap is a sum. */
module Base64 {
  import opened Wrappers
  import opened Utf8
  import Seqs

  // ------------------------------------------------------------------ groups, as functions

  function ByteOr0(group: Bytes, k: nat): nat {
    if k < |group| then group[k] as int else 0
  }

  function Packed(group: Bytes): (n: nat)
    ensures n < 0x1_000000
  {
    ByteOr0(group, 0) * 65536 + ByteOr0(group, 1) * 256 + ByteOr0(group, 2)
  }

  function PowerOf64(k: nat): nat
    requires k <= 3
  {
    if k == 0 then 1 else if k == 1 then 64 else if k == 2 then 4096 else 262144
  }

  function SextetAt(packed: nat, slot: nat): (n: nat)
    requires slot < 4
    ensures n < 64
  {
    packed / PowerOf64(3 - slot) % 64
  }

  /** The standard alphabet: upper case, lower case, digits, plus and slash. */
  function Letter(sextet: nat): char
    requires sextet < 64
  {
    if sextet < 26 then 'A' + sextet as char
    else if sextet < 52 then 'a' + (sextet - 26) as char
    else if sextet < 62 then '0' + (sextet - 52) as char
    else if sextet == 62 then '+'
    else '/'
  }

  /** One byte carries two characters, two carry three; the rest is padding. */
  function SlotChar(group: Bytes, slot: nat): char
    requires slot < 4
  {
    if slot <= |group| then Letter(SextetAt(Packed(group), slot)) else '='
  }

  function GroupText(group: Bytes): string {
    [SlotChar(group, 0), SlotChar(group, 1), SlotChar(group, 2), SlotChar(group, 3)]
  }

  function Take<T>(s: seq<T>, n: nat): seq<T> {
    if |s| <= n then s else s[..n]
  }

  function Drop<T>(s: seq<T>, n: nat): seq<T> {
    if |s| <= n then [] else s[n..]
  }

  function Encoded(bytes: Bytes): string
    decreases |bytes|
  {
    if bytes == [] then [] else GroupText(Take(bytes, 3)) + Encoded(Drop(bytes, 3))
  }

  predicate IsSpace(c: char) {
    c == ' ' || c == '\t' || c == '\r' || c == '\n'
  }

  function PositionFrom(c: char, k: nat): (r: Option<nat>)
    ensures r.Some? ==> k <= r.value < 64 && Letter(r.value) == c
    ensures r.None? ==> forall j :: k <= j < 64 ==> Letter(j) != c
    decreases 64 - k
  {
    if k >= 64 then None else if Letter(k) == c then Some(k) else PositionFrom(c, k + 1)
  }

  function Position(c: char): Option<nat> {
    PositionFrom(c, 0)
  }

  /** The values of the characters up to the first `=`, blanks skipped. */
  function Sextets(text: string): Option<seq<nat>> {
    if text == [] || text[0] == '=' then Some([])
    else if IsSpace(text[0]) then Sextets(text[1..])
    else
      match Position(text[0])
      case None => None
      case Some(sextet) =>
        match Sextets(text[1..])
        case None => None
        case Some(rest) => Some([sextet] + rest)
  }

  function SextetOr0(group: seq<nat>, k: nat): nat {
    if k < |group| then group[k] else 0
  }

  function Unpacked(group: seq<nat>): nat {
    SextetOr0(group, 0) * 262144 + SextetOr0(group, 1) * 4096 + SextetOr0(group, 2) * 64 + SextetOr0(group, 3)
  }

  function ByteAt(packed: nat, slot: nat): Byte
    requires slot < 3
  {
    (packed / (if slot == 0 then 65536 else if slot == 1 then 256 else 1) % 256) as Byte
  }

  /** One byte fewer than there are sextets. */
  function GroupBytes(group: seq<nat>): (bytes: Bytes)
    requires 1 <= |group| <= 4
    ensures |bytes| == |group| - 1
  {
    seq(|group| - 1, slot requires 0 <= slot < |group| - 1 => ByteAt(Unpacked(group), slot))
  }

  function BytesOf(sextets: seq<nat>): Bytes
    decreases |sextets|
  {
    if sextets == [] then [] else GroupBytes(Take(sextets, 4)) + BytesOf(Drop(sextets, 4))
  }

  function Decoded(text: string): Option<Bytes> {
    match Sextets(text)
    case None => None
    case Some(sextets) => if |sextets| % 4 == 1 then None else Some(BytesOf(sextets))
  }

  // ------------------------------------------------------------------ the code

  method Encode(bytes: Bytes) returns (out: string)
    ensures out == Encoded(bytes)
  {
    hide GroupText;
    out := "";
    var i := 0;
    while i < |bytes|
      invariant i <= |bytes|
      invariant out + Encoded(bytes[i..]) == Encoded(bytes)
    {
      var group := if i + 3 <= |bytes| then bytes[i..i + 3] else bytes[i..];
      EncodedStep(bytes, i, group);
      var text := PackGroup(group);
      Seqs.Assoc(out, text, Encoded(bytes[i + |group|..]));
      out := out + text;
      i := i + |group|;
    }
  }

  lemma EncodedStep(bytes: Bytes, i: nat, group: Bytes)
    requires i < |bytes| && group == if i + 3 <= |bytes| then bytes[i..i + 3] else bytes[i..]
    ensures Encoded(bytes[i..]) == GroupText(group) + Encoded(bytes[i + |group|..])
  {
    hide GroupText;
    assert Take(bytes[i..], 3) == group;
    assert Drop(bytes[i..], 3) == bytes[i + |group|..];
  }

  /** Blanks are skipped and padding ends the text; any other character outside the alphabet refuses it. */
  method ReadSextets(text: string) returns (r: Option<seq<nat>>)
    ensures r == Sextets(text)
  {
    hide Position, Sextets, Onto;
    var sextets: seq<nat> := [];
    OntoNothing(Sextets(text));
    assert text[0..] == text;
    for i := 0 to |text|
      invariant Sextets(text) == Onto(sextets, Sextets(text[i..]))
    {
      SextetStep(text, i, sextets);
      if text[i] == '=' {
        return Some(sextets);
      }
      if IsSpace(text[i]) {
        continue;
      }
      var sextet := Position(text[i]);
      if sextet.None? {
        return None;
      }
      sextets := sextets + [sextet.value];
    }
    assert text[|text|..] == [];
    OntoEnd(sextets);
    return Some(sextets);
  }

  method Decode(text: string) returns (r: Option<Bytes>)
    ensures r == Decoded(text)
  {
    hide Sextets, ByteAt, Unpacked;
    var read := ReadSextets(text);
    if read.None? {
      return None;
    }
    var sextets := read.value;
    if |sextets| % 4 == 1 {
      return None;
    }
    var out: Bytes := [];
    var i := 0;
    assert sextets[0..] == sextets;
    while i < |sextets|
      invariant i <= |sextets|
      invariant out + BytesOf(sextets[i..]) == BytesOf(sextets)
    {
      var group := if i + 4 <= |sextets| then sextets[i..i + 4] else sextets[i..];
      BytesStep(sextets, i, group);
      var bytes := UnpackGroup(group);
      Seqs.Assoc(out, bytes, BytesOf(sextets[i + |group|..]));
      out := out + bytes;
      i := i + |group|;
    }
    assert sextets[|sextets|..] == [] && out + [] == out;
    return Some(out);
  }

  method UnpackGroup(group: seq<nat>) returns (bytes: Bytes)
    requires 1 <= |group| <= 4
    ensures bytes == GroupBytes(group)
  {
    hide ByteAt, Unpacked;
    var packed := Unpacked(group);
    bytes := [];
    for slot := 0 to |group| - 1
      invariant bytes == GroupBytes(group)[..slot]
    {
      bytes := bytes + [ByteAt(packed, slot)];
    }
  }

  method PackGroup(group: Bytes) returns (text: string)
    requires 1 <= |group| <= 3
    ensures text == GroupText(group)
  {
    hide Letter, SextetAt, Packed;
    var packed := Packed(group);
    text := "";
    for slot := 0 to 4
      invariant |text| == slot
      invariant forall k: nat :: k < slot ==> text[k] == SlotChar(group, k)
    {
      if slot <= |group| {
        text := text + [Letter(SextetAt(packed, slot))];
      } else {
        text := text + ['='];
      }
    }
  }

  /** Sextets read so far, and those of the rest. */
  function Onto(sextets: seq<nat>, rest: Option<seq<nat>>): Option<seq<nat>> {
    match rest case None => None case Some(more) => Some(sextets + more)
  }

  lemma OntoNothing(rest: Option<seq<nat>>)
    ensures Onto([], rest) == rest
  {
    if rest.Some? {
      assert [] + rest.value == rest.value;
    }
  }

  lemma OntoEnd(sextets: seq<nat>)
    ensures Onto(sextets, Sextets([])) == Some(sextets)
  {
    assert sextets + [] == sextets;
  }

  lemma SextetStep(text: string, i: nat, sextets: seq<nat>)
    requires i < |text|
    ensures Onto(sextets, Sextets(text[i..]))
         == if text[i] == '=' then Some(sextets)
            else if IsSpace(text[i]) then Onto(sextets, Sextets(text[i + 1..]))
            else if Position(text[i]).None? then None
            else Onto(sextets + [Position(text[i]).value], Sextets(text[i + 1..]))
  {
    hide Position;
    Seqs.DropHead(text, i);
    assert sextets + [] == sextets;
    if Position(text[i]).Some? && Sextets(text[i + 1..]).Some? {
      Seqs.Assoc(sextets, [Position(text[i]).value], Sextets(text[i + 1..]).value);
    }
  }

  lemma BytesStep(sextets: seq<nat>, i: nat, group: seq<nat>)
    requires i < |sextets| && group == if i + 4 <= |sextets| then sextets[i..i + 4] else sextets[i..]
    ensures BytesOf(sextets[i..]) == GroupBytes(group) + BytesOf(sextets[i + |group|..])
  {
    hide GroupBytes;
    assert Take(sextets[i..], 4) == group;
    assert Drop(sextets[i..], 4) == sextets[i + |group|..];
  }

  // ------------------------------------------------------------------ the round trip

  lemma PositionOfLetter(k: nat)
    requires k < 64
    ensures Position(Letter(k)) == Some(k) && Letter(k) != '=' && !IsSpace(Letter(k))
  {
    var found := PositionFrom(Letter(k), 0);
    assert found.Some?;
    hide PositionFrom;
  }

  /** The sextets three bytes are packed into, one for each character they carry. */
  function GroupSextets(group: Bytes): (sextets: seq<nat>)
    requires 1 <= |group| <= 3
    ensures |sextets| == |group| + 1
  {
    seq(|group| + 1, slot requires 0 <= slot <= |group| => SextetAt(Packed(group), slot))
  }

  function AllSextets(bytes: Bytes): seq<nat>
    decreases |bytes|
  {
    if bytes == [] then [] else GroupSextets(Take(bytes, 3)) + AllSextets(Drop(bytes, 3))
  }

  /** The bytes of a group are its sextets unpacked. */
  lemma GroupRoundTrip(group: Bytes)
    requires 1 <= |group| <= 3
    ensures GroupBytes(GroupSextets(group)) == group
  {
    var sextets := GroupSextets(group);
    PackedIs(ByteOr0(group, 0), ByteOr0(group, 1), ByteOr0(group, 2), |group|);
    forall slot | 0 <= slot < |group|
      ensures GroupBytes(sextets)[slot] == group[slot]
    {
      assert GroupBytes(sextets)[slot] == ByteAt(Unpacked(sextets), slot);
    }
  }

  lemma DivMod(n: nat, d: nat, q: nat, r: nat)
    requires d > 0 && n == q * d + r && r < d
    ensures n / d == q && n % d == r
  {
    var k := n / d - q;
    assert k * d == r - n % d by {
      assert n / d * d + n % d == n;
      MulSub(n / d, q, d);
    }
    SmallMultiple(k, d);
  }

  lemma MulSub(a: int, b: int, d: int)
    ensures (a - b) * d == a * d - b * d
  {
  }

  lemma SmallMultiple(k: int, d: int)
    requires d > 0 && -d < k * d < d
    ensures k == 0
  {
    MulNegates(k, d);
    if k >= 1 {
      AtLeastOnce(k, d);
      assert false;
    } else if k <= -1 {
      AtLeastOnce(-k, d);
      assert false;
    }
  }

  lemma MulNegates(k: int, d: int)
    ensures (-k) * d == -(k * d)
  {
  }

  lemma {:induction false} AtLeastOnce(k: nat, d: nat)
    requires k >= 1
    ensures k * d >= d
  {
    if k > 1 {
      AtLeastOnce(k - 1, d);
      assert k * d == (k - 1) * d + d;
    }
  }

  /** The base-64 digits of a number, from the highest. */
  lemma DigitsOf(n: nat, w: nat, x: nat, y: nat, z: nat)
    requires w < 64 && x < 64 && y < 64 && z < 64 && n == w * 262144 + x * 4096 + y * 64 + z
    ensures SextetAt(n, 0) == w && SextetAt(n, 1) == x && SextetAt(n, 2) == y && SextetAt(n, 3) == z
  {
    DivMod(n, 262144, w, x * 4096 + y * 64 + z);
    DivMod(n, 4096, w * 64 + x, y * 64 + z);
    DivMod(w * 64 + x, 64, w, x);
    DivMod(n, 64, w * 4096 + x * 64 + y, z);
    DivMod(w * 4096 + x * 64 + y, 64, w * 64 + x, y);
    DivMod(n, 64, w * 4096 + x * 64 + y, z);
  }

  /** The base-256 digits of a number, from the highest. */
  lemma BytesOfNumber(n: nat, a: nat, b: nat, c: nat)
    requires a < 256 && b < 256 && c < 256 && n == a * 65536 + b * 256 + c
    ensures n / 65536 % 256 == a && n / 256 % 256 == b && n % 256 == c
  {
    DivMod(n, 65536, a, b * 256 + c);
    DivMod(n, 256, a * 256 + b, c);
    DivMod(a * 256 + b, 256, a, b);
  }

  lemma KeptIsAll(high: nat, carry: nat, left: nat, spill: nat, top: nat, low: nat, kept: nat)
    requires 1 <= kept <= 3 && (kept < 3 ==> top == 0 && low == 0) && (kept < 2 ==> left == 0 && spill == 0)
    ensures high * 262144 + (carry * 16 + left) * 4096 + (if kept > 1 then (spill * 4 + top) * 64 else 0)
            + (if kept > 2 then low else 0)
            == (high * 4 + carry) * 65536 + (left * 16 + spill) * 256 + (top * 64 + low)
  {
  }

  /** Splitting twenty-four bits into four sixes and putting those that are kept together again gives back the
      eights they cover. */
  lemma PackedIs(a: nat, b: nat, c: nat, kept: nat)
    requires a < 256 && b < 256 && c < 256 && 1 <= kept <= 3 && (kept < 3 ==> c == 0) && (kept < 2 ==> b == 0)
    ensures var packed := a * 65536 + b * 256 + c;
            var back := SextetAt(packed, 0) * 262144 + SextetAt(packed, 1) * 4096
                        + (if kept > 1 then SextetAt(packed, 2) * 64 else 0) + (if kept > 2 then SextetAt(packed, 3) else 0);
            && back / 65536 % 256 == a
            && (kept > 1 ==> back / 256 % 256 == b)
            && (kept > 2 ==> back % 256 == c)
  {
    var packed := a * 65536 + b * 256 + c;
    DigitsOf(packed, a / 4, a % 4 * 16 + b / 16, b % 16 * 4 + c / 64, c % 64);
    hide SextetAt;
    KeptIsAll(a / 4, a % 4, b / 16, b % 16, c / 64, c % 64, kept);
    BytesOfNumber(packed, a, b, c);
  }

  lemma {:induction false} EncodedReads(bytes: Bytes)
    ensures Sextets(Encoded(bytes)) == Some(AllSextets(bytes))
    decreases |bytes|
  {
    if bytes != [] {
      var group, rest := Take(bytes, 3), Drop(bytes, 3);
      EncodedReads(rest);
      hide AllSextets, Encoded;
      assert Encoded(bytes) == GroupText(group) + Encoded(rest) && AllSextets(bytes) == GroupSextets(group) + AllSextets(rest) by {
        EncodedHead(bytes);
      }
      GroupReads(group, Encoded(rest));
      EncodedNothing();
      assert |group| < 3 ==> rest == [];
    }
  }

  lemma EncodedHead(bytes: Bytes)
    requires bytes != []
    ensures Encoded(bytes) == GroupText(Take(bytes, 3)) + Encoded(Drop(bytes, 3))
    ensures AllSextets(bytes) == GroupSextets(Take(bytes, 3)) + AllSextets(Drop(bytes, 3))
  {
    hide GroupText, GroupSextets;
  }

  lemma EncodedNothing()
    ensures Encoded([]) == [] && AllSextets([]) == []
  {
  }

  lemma {:induction false} LettersRead(letters: string, sextets: seq<nat>, rest: string)
    requires |letters| == |sextets|
    requires forall k :: 0 <= k < |letters| ==> sextets[k] < 64 && letters[k] == Letter(sextets[k])
    ensures Sextets(letters + rest) == Onto(sextets, Sextets(rest))
  {
    hide Letter, Position, Sextets;
    if letters == [] {
      assert letters + rest == rest;
      OntoNothing(Sextets(rest));
    } else {
      Seqs.ConcatHead(letters, rest);
      LettersRead(letters[1..], sextets[1..], rest);
      LetterReads(letters + rest, sextets[0]);
      assert [sextets[0]] + sextets[1..] == sextets;
      if Sextets(rest).Some? {
        Seqs.Assoc([sextets[0]], sextets[1..], Sextets(rest).value);
      }
    }
  }

  lemma LetterReads(text: string, sextet: nat)
    requires text != [] && sextet < 64 && text[0] == Letter(sextet)
    ensures Sextets(text) == Onto([sextet], Sextets(text[1..]))
  {
    PositionOfLetter(sextet);
    hide Letter, Position;
  }

  lemma PaddingStops(text: string)
    requires text != [] && text[0] == '='
    ensures Sextets(text) == Some([])
  {
  }

  /** A group's text reads as its sextets: a full group's in front of those of the rest, a short one's alone. */
  lemma GroupReads(group: Bytes, rest: string)
    requires 1 <= |group| <= 3
    ensures Sextets(GroupText(group) + rest) == Onto(GroupSextets(group), if |group| == 3 then Sextets(rest) else Some([]))
  {
    hide GroupText, GroupSextets, Sextets, Onto;
    var letters, pad := GroupShape(group);
    Seqs.Assoc(letters, pad, rest);
    LettersRead(letters, GroupSextets(group), pad + rest);
    if |group| == 3 {
      assert pad + rest == rest;
    } else {
      PaddingStops(pad + rest);
    }
  }

  /** The characters a group carries, and its padding. */
  lemma GroupShape(group: Bytes) returns (letters: string, pad: string)
    requires 1 <= |group| <= 3
    ensures GroupText(group) == letters + pad && |letters| == |group| + 1
    ensures forall k :: 0 <= k < |letters| ==> GroupSextets(group)[k] < 64 && letters[k] == Letter(GroupSextets(group)[k])
    ensures if |group| == 3 then pad == [] else pad != [] && pad[0] == '='
  {
    hide Letter, SextetAt, Packed;
    letters, pad := GroupText(group)[..|group| + 1], GroupText(group)[|group| + 1..];
    assert forall k: nat :: k <= |group| ==> letters[k] == SlotChar(group, k);
  }

  lemma {:induction false} SextetsGiveBytes(bytes: Bytes)
    ensures BytesOf(AllSextets(bytes)) == bytes && |AllSextets(bytes)| % 4 != 1
    decreases |bytes|
  {
    hide AllSextets, GroupSextets, GroupBytes, BytesOf;
    EncodedNothing();
    if bytes != [] {
      var group, rest := Take(bytes, 3), Drop(bytes, 3);
      SextetsGiveBytes(rest);
      GroupRoundTrip(group);
      EncodedHead(bytes);
      BytesOfGroup(GroupSextets(group), AllSextets(rest));
      assert bytes == group + rest;
      assert |AllSextets(bytes)| % 4 != 1 by {
        FourMore(|AllSextets(rest)|);
      }
    } else {
      NoSextets();
    }
  }

  lemma NoSextets()
    ensures BytesOf([]) == []
  {
  }

  lemma FourMore(n: nat)
    ensures (4 + n) % 4 == n % 4
  {
  }

  lemma BytesOfGroup(group: seq<nat>, rest: seq<nat>)
    requires 1 <= |group| <= 4 && (|group| < 4 ==> rest == [])
    ensures BytesOf(group + rest) == GroupBytes(group) + BytesOf(rest)
  {
    hide GroupBytes;
    assert Take(group + rest, 4) == group && Drop(group + rest, 4) == rest;
  }

  /** What is encoded decodes back, whatever bytes it was. */
  lemma RoundTrip(bytes: Bytes)
    ensures Decoded(Encoded(bytes)) == Some(bytes)
  {
    EncodedReads(bytes);
    SextetsGiveBytes(bytes);
    hide Sextets, Encoded, AllSextets, BytesOf;
  }

  // ------------------------------------------------------------------ what else decodes to the same

  /** Blanks may be put in or taken out anywhere. */
  lemma BlanksDoNotMatter(a: string, blank: char, b: string)
    requires blank == ' ' || blank == '\t' || blank == '\r' || blank == '\n'
    ensures Decoded(a + [blank] + b) == Decoded(a + b)
  {
    BlankReads(a, blank, b);
    hide Sextets, BytesOf;
  }

  lemma {:induction false} BlankReads(a: string, blank: char, b: string)
    requires IsSpace(blank)
    ensures Sextets(a + [blank] + b) == Sextets(a + b)
  {
    hide Position;
    if a == [] {
      assert a + [blank] + b == [blank] + b && a + b == b;
    } else {
      Seqs.ConcatHead(a, b);
      assert (a + [blank] + b)[0] == a[0] && (a + [blank] + b)[1..] == a[1..] + [blank] + b;
      BlankReads(a[1..], blank, b);
    }
  }

  /** Everything from the first `=` on may be dropped, padding or not. */
  lemma PaddingIsFree(text: string, rest: string)
    ensures Decoded(text + ['='] + rest) == Decoded(text)
  {
    PaddingReads(text, rest);
    hide Sextets, BytesOf;
  }

  lemma {:induction false} PaddingReads(text: string, rest: string)
    ensures Sextets(text + ['='] + rest) == Sextets(text)
  {
    hide Position;
    if text != [] {
      assert (text + ['='] + rest)[0] == text[0] && (text + ['='] + rest)[1..] == text[1..] + ['='] + rest;
      PaddingReads(text[1..], rest);
    }
  }

  /** What the text holds before its first `=`. */
  function Payload(text: string): string {
    if text == [] || text[0] == '=' then []
    else if IsSpace(text[0]) then Payload(text[1..])
    else [text[0]] + Payload(text[1..])
  }

  predicate InAlphabet(c: char) {
    'A' <= c <= 'Z' || 'a' <= c <= 'z' || '0' <= c <= '9' || c == '+' || c == '/'
  }

  lemma PositionIff(c: char)
    ensures Position(c).Some? <==> InAlphabet(c)
  {
    if InAlphabet(c) {
      var k := if 'A' <= c <= 'Z' then c as int - 'A' as int
               else if 'a' <= c <= 'z' then 26 + (c as int - 'a' as int)
               else if '0' <= c <= '9' then 52 + (c as int - '0' as int)
               else if c == '+' then 62 else 63;
      assert Letter(k) == c;
    }
    hide PositionFrom;
  }

  predicate AllInAlphabet(s: string) {
    s == [] || (InAlphabet(s[0]) && AllInAlphabet(s[1..]))
  }

  lemma {:induction false} AllMeansEach(s: string)
    ensures AllInAlphabet(s) <==> forall k :: 0 <= k < |s| ==> InAlphabet(s[k])
  {
    hide InAlphabet;
    if s != [] {
      AllMeansEach(s[1..]);
      assert s == [s[0]] + s[1..];
    }
  }

  lemma {:induction false} SextetsIff(text: string)
    ensures Sextets(text).Some? <==> AllInAlphabet(Payload(text))
    ensures Sextets(text).Some? ==> |Sextets(text).value| == |Payload(text)|
  {
    if text != [] && text[0] != '=' {
      SextetsIff(text[1..]);
      PositionIff(text[0]);
      hide Position, InAlphabet;
      if !IsSpace(text[0]) {
        Seqs.HeadTail(text[0], Payload(text[1..]));
      }
    }
  }

  /** Text is refused exactly when a character before its first `=` is neither blank nor in the alphabet, or the
      characters there are one more than a multiple of four. */
  lemma RefusedIff(text: string)
    ensures Decoded(text).None?
       <==> (exists k :: 0 <= k < |Payload(text)| && !InAlphabet(Payload(text)[k])) || |Payload(text)| % 4 == 1
  {
    SextetsIff(text);
    AllMeansEach(Payload(text));
    hide Sextets, Payload, InAlphabet, AllInAlphabet, BytesOf;
  }

  /** Four characters for every three bytes begun. */
  lemma {:induction false} EncodedLength(bytes: Bytes)
    ensures |Encoded(bytes)| == (|bytes| + 2) / 3 * 4
    decreases |bytes|
  {
    if bytes != [] {
      EncodedLength(Drop(bytes, 3));
      hide GroupText;
      assert (|bytes| + 2) / 3 == (|Drop(bytes, 3)| + 2) / 3 + 1;
    }
  }
}
