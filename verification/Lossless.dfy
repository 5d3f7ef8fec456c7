/** File names are bytes and the shell's words are text. Each byte that is not part of valid UTF-8
    is carried as U+10FFXY, one of the last 256 code points of plane 16. */
module Lossless {
  import opened Utf8
  import Seqs

  const BASE := 0x10FF00

  predicate IsRaw(c: char) {
    BASE <= c as int <= BASE + 0xFF
  }

  predicate HasRaw(text: string) {
    exists i :: 0 <= i < |text| && IsRaw(text[i])
  }

  function Twin(b: Byte): (c: char)
    ensures IsRaw(c) && Untwin(c) == b
  {
    (BASE + b as int) as char
  }

  function Untwin(c: char): Byte
    requires IsRaw(c)
  {
    (c as int - BASE) as Byte
  }

  // ------------------------------------------------------------------ what is carried, declaratively

  /** `name` read one character or one stray byte at a time. */
  function Carried(name: Bytes): string
    decreases |name|
  {
    if |name| == 0 then []
    else match First(name)
      case Char(c, len) => [c] + Carried(name[len..])
      case Ill => [Twin(name[0])] + Carried(name[1..])
  }

  /** The bytes `text` stands for. */
  function Restored(text: string): Bytes {
    if text == [] then []
    else (if IsRaw(text[0]) then [Untwin(text[0])] else EncodeChar(text[0])) + Restored(text[1..])
  }

  /** No valid part of `name` spells one of the 256 code points that carry a byte. */
  predicate AvoidsCarriers(name: Bytes)
    decreases |name|
  {
    |name| == 0 ||
    match First(name)
      case Char(c, len) => !IsRaw(c) && AvoidsCarriers(name[len..])
      case Ill => AvoidsCarriers(name[1..])
  }

  // ------------------------------------------------------------------ the code

  datatype Chunk = Chunk(valid: string, invalid: Bytes)

  /** How much of an ill-formed sequence one chunk takes: the bytes that could still have become a
      character, and at least one. This is how `utf8_chunks` cuts. */
  function IllLength(b: Bytes): (n: nat)
    requires |b| != 0 && First(b).Ill?
    ensures 1 <= n <= 3 && n <= |b|
    ensures forall k :: 1 <= k < n ==> Continuation(b[k])
  {
    if |b| < 2 || !SecondAccepted(b[0], b[1]) || b[0] < 0xE0 then 1
    else if |b| < 3 || !Continuation(b[2]) || b[0] < 0xF0 then 2
    else 3
  }

  /** The longest prefix that is text, and the rest. */
  function ValidPrefix(b: Bytes): (r: (string, Bytes))
    ensures |r.1| <= |b|
    ensures |r.1| != 0 ==> First(r.1).Ill?
    decreases |b|
  {
    if |b| == 0 || First(b).Ill? then ("", b)
    else
      var (text, rest) := ValidPrefix(b[First(b).len..]);
      ([First(b).c] + text, rest)
  }

  function Chunks(b: Bytes): seq<Chunk>
    decreases |b|
  {
    if |b| == 0 then []
    else
      var (text, rest) := ValidPrefix(b);
      if |rest| == 0 then [Chunk(text, [])]
      else [Chunk(text, rest[..IllLength(rest)])] + Chunks(rest[IllLength(rest)..])
  }

  function Twins(b: Bytes): string {
    if |b| == 0 then [] else [Twin(b[0])] + Twins(b[1..])
  }

  function Flattened(chunks: seq<Chunk>): string {
    if |chunks| == 0 then [] else chunks[0].valid + Twins(chunks[0].invalid) + Flattened(chunks[1..])
  }

  /** `encode`: whole text comes back as it is, anything else is carried chunk by chunk. */
  method EncodeName(name: Bytes) returns (out: string)
    ensures out == Carried(name)
  {
    hide First, Chunks, Carried, Valid, Twins, Flattened;
    if Valid(name) {
      CarriedText(name);
      return Utf8.Decode(name);
    }
    var chunks := Chunks(name);
    out := "";
    for i := 0 to |chunks|
      invariant out + Flattened(chunks[i..]) == Flattened(chunks)
    {
      FlattenedHead(chunks, i);
      ghost var before := out;
      out := out + chunks[i].valid;
      var invalid := chunks[i].invalid;
      for k := 0 to |invalid|
        invariant out + Twins(invalid[k..]) == before + chunks[i].valid + Twins(invalid)
      {
        TwinsHead(invalid, k);
        out := out + [Twin(invalid[k])];
      }
      TwinsOfNone(invalid[|invalid|..]);
      assert out == before + chunks[i].valid + Twins(invalid);
      Seqs.Assoc(before, chunks[i].valid + Twins(invalid), Flattened(chunks[i + 1..]));
      Seqs.Assoc(before, chunks[i].valid, Twins(invalid));
    }
    FlattenedOfNone(chunks[|chunks|..]);
    FlattenedIsCarried(name);
  }

  lemma TwinsHead(b: Bytes, k: nat)
    requires k < |b|
    ensures Twins(b[k..]) == [Twin(b[k])] + Twins(b[k + 1..])
  {
    Seqs.DropHead(b, k);
  }

  lemma TwinsOfNone(b: Bytes)
    requires |b| == 0
    ensures Twins(b) == []
  {
  }

  lemma FlattenedHead(chunks: seq<Chunk>, i: nat)
    requires i < |chunks|
    ensures Flattened(chunks[i..]) == chunks[i].valid + Twins(chunks[i].invalid) + Flattened(chunks[i + 1..])
  {
    hide Twins;
    Seqs.DropHead(chunks, i);
  }

  lemma FlattenedOfNone(chunks: seq<Chunk>)
    requires |chunks| == 0
    ensures Flattened(chunks) == []
  {
  }

  /** `decode`: text that carries nothing is its own bytes. */
  method DecodeName(text: string) returns (out: Bytes)
    ensures out == Restored(text)
  {
    hide Restored;
    if !HasRaw(text) {
      RestoredText(text);
      return Utf8.Encode(text);
    }
    out := [];
    for i := 0 to |text|
      invariant out + Restored(text[i..]) == Restored(text)
    {
      RestoredHead(text, i);
      if IsRaw(text[i]) {
        out := out + [Untwin(text[i])];
      } else {
        out := out + EncodeChar(text[i]);
      }
    }
    assert text[|text|..] == [];
    RestoredText([]);
  }

  lemma RestoredHead(text: string, i: nat)
    requires i < |text|
    ensures Restored(text[i..])
         == (if IsRaw(text[i]) then [Untwin(text[i])] else EncodeChar(text[i])) + Restored(text[i + 1..])
  {
    hide EncodeChar;
    Seqs.DropHead(text, i);
  }

  /** The three-byte window `restore_bytes` looks for. */
  predicate CarriedWindow(b: Bytes, i: nat) {
    i + 3 <= |b| && b[i] == 0xF4 && b[i + 1] == 0x8F && 0xBC <= b[i + 2] <= 0xBF
  }

  /** The bitwise `(b & 0xC0) == 0x80` and `(x & 3) << 6 | (y & 0x3F)` on single bytes. */
  function Rejoined(x: Byte, y: Byte): (r: Byte) {
    (x as int % 4 * 64 + y as int % 64) as Byte
  }

  /** What the scan of `restore_bytes` leaves of `b` from `i` on. */
  function RestoredFrom(b: Bytes, i: nat): Bytes
    requires i <= |b|
    decreases |b| - i
  {
    if i == |b| then []
    else if i + 3 < |b| && CarriedWindow(b, i) && Continuation(b[i + 3])
    then [Rejoined(b[i + 2], b[i + 3])] + RestoredFrom(b, i + 4)
    else [b[i]] + RestoredFrom(b, i + 1)
  }

  method RestoreBytes(b: Bytes) returns (out: Bytes)
    ensures out == RestoredFrom(b, 0)
  {
    hide RestoredFrom;
    if !exists i :: 0 <= i < |b| && CarriedWindow(b, i) {
      NothingCarried(b, 0);
      return b;
    }
    out := [];
    var i := 0;
    while i < |b|
      invariant i <= |b|
      invariant out + RestoredFrom(b, i) == RestoredFrom(b, 0)
    {
      RestoredStep(b, i);
      if i + 3 < |b| && CarriedWindow(b, i) && Continuation(b[i + 3]) {
        out := out + [Rejoined(b[i + 2], b[i + 3])];
        i := i + 4;
      } else {
        out := out + [b[i]];
        i := i + 1;
      }
    }
    RestoredStep(b, i);
  }

  /** One turn of the scan. */
  lemma RestoredStep(b: Bytes, i: nat)
    requires i <= |b|
    ensures RestoredFrom(b, i) ==
            if i == |b| then []
            else if i + 3 < |b| && CarriedWindow(b, i) && Continuation(b[i + 3])
            then [Rejoined(b[i + 2], b[i + 3])] + RestoredFrom(b, i + 4)
            else [b[i]] + RestoredFrom(b, i + 1)
  {
  }

  // ------------------------------------------------------------------ what it promises

  /** A name survives being carried exactly when its valid parts spell none of the carrying code
      points: each one that is there comes back as one byte instead of four. */
  lemma RoundTrip(name: Bytes)
    ensures Restored(Carried(name)) == name <==> AvoidsCarriers(name)
  {
    RoundTripLength(name);
  }

  lemma {:induction false} RoundTripLength(name: Bytes)
    ensures |Restored(Carried(name))| <= |name|
    ensures AvoidsCarriers(name) ==> Restored(Carried(name)) == name
    ensures !AvoidsCarriers(name) ==> |Restored(Carried(name))| < |name|
    decreases |name|
  {
    hide First, EncodeChar;
    if |name| != 0 {
      match First(name)
      case Char(c, len) =>
        EncodedOfFirst(name);
        if IsRaw(c) {
          CarrierBytes(c);
        }
        RoundTripLength(name[len..]);
        assert Carried(name)[1..] == Carried(name[len..]);
        assert name == name[..len] + name[len..];
      case Ill =>
        RoundTripLength(name[1..]);
        assert Carried(name)[1..] == Carried(name[1..]);
        assert name == [name[0]] + name[1..];
    }
  }

  /** Text written out as UTF-8 and restored is the bytes it stands for, whatever the text: the
      window fires at the carried characters and nowhere else. */
  lemma RestoreWritten(text: string)
    ensures RestoredFrom(Utf8.Encode(text), 0) == Restored(text)
  {
    RestoreWrittenFrom([], text);
    assert [] + Utf8.Encode(text) == Utf8.Encode(text);
  }

  /** Whatever bytes stand around it, a carried byte's four bytes become that byte, and what stands on either side is
      restored by itself. */
  lemma RestoreAtCarrier(a: Bytes, c: char, rest: Bytes)
    requires 0x10FF00 <= c as int <= 0x10FFFF
    ensures RestoredFrom(a + EncodeChar(c) + rest, 0)
         == RestoredFrom(a, 0) + [(c as int - 0x10FF00) as Byte] + RestoredFrom(rest, 0)
  {
    RestoreBefore(a, c, rest, 0);
  }

  /** The bytes of `e` stand at `i`. */
  predicate Stands(b: Bytes, i: nat, e: Bytes) {
    i + |e| <= |b| && forall k :: 0 <= k < |e| ==> b[i + k] == e[k]
  }

  /** Bytes in which no carried byte's four stand are left as they are. */
  lemma RestoreElsewhere(b: Bytes)
    requires forall i: nat, c :: 0x10FF00 <= c as int <= 0x10FFFF ==> !Stands(b, i, EncodeChar(c))
    ensures RestoredFrom(b, 0) == b
  {
    NothingThere(b, 0);
    assert b[0..] == b;
  }

  lemma {:induction false} NothingThere(b: Bytes, i: nat)
    requires i <= |b|
    requires forall k: nat, c :: 0x10FF00 <= c as int <= 0x10FFFF ==> !Stands(b, k, EncodeChar(c))
    ensures RestoredFrom(b, i) == b[i..]
    decreases |b| - i
  {
    hide EncodeChar;
    if i < |b| {
      NothingThere(b, i + 1);
      if i + 3 < |b| && CarriedWindow(b, i) && Continuation(b[i + 3]) {
        WindowIsCarrier(b, i);
      }
      Seqs.DropHead(b, i);
    }
  }

  lemma WindowIsCarrier(b: Bytes, i: nat)
    requires i + 3 < |b| && CarriedWindow(b, i) && Continuation(b[i + 3])
    ensures var c := (0x10FF00 + Rejoined(b[i + 2], b[i + 3]) as int) as char; Stands(b, i, EncodeChar(c))
  {
    var low := 64 * (b[i + 2] as int - 0xBC) + (b[i + 3] as int - 0x80);
    assert Rejoined(b[i + 2], b[i + 3]) as int == low;
    CarrierBytes((0x10FF00 + low) as char);
    assert low / 64 == b[i + 2] as int - 0xBC && low % 64 == b[i + 3] as int - 0x80;
    hide EncodeChar;
  }

  lemma {:induction false} RestoreBefore(a: Bytes, c: char, rest: Bytes, i: nat)
    requires IsRaw(c) && i <= |a|
    ensures RestoredFrom(a + EncodeChar(c) + rest, i) == RestoredFrom(a, i) + [Untwin(c)] + RestoredFrom(rest, 0)
    decreases |a| - i
  {
    hide EncodeChar, RestoredFrom, Rejoined;
    var b := a + EncodeChar(c) + rest;
    CarrierBytes(c);
    if i == |a| {
      RestoreOne(a, c, rest);
      RestoreAfter(a + EncodeChar(c), rest, 0);
      RestoredStep(a, i);
      assert [] + [Untwin(c)] == [Untwin(c)];
    } else {
      RestoredStep(a, i);
      RestoredStep(b, i);
      SameWindow(a, EncodeChar(c), rest, i);
      var four := i + 3 < |a| && CarriedWindow(a, i) && Continuation(a[i + 3]);
      var next := if four then i + 4 else i + 1;
      var first := if four then [Rejoined(a[i + 2], a[i + 3])] else [a[i]];
      RestoreBefore(a, c, rest, next);
      Seqs.Assoc(first, RestoredFrom(a, next), [Untwin(c)]);
      Seqs.Assoc(first, RestoredFrom(a, next) + [Untwin(c)], RestoredFrom(rest, 0));
    }
  }

  /** No window reaches into a carried byte's four. */
  lemma SameWindow(a: Bytes, e: Bytes, rest: Bytes, i: nat)
    requires i < |a| && e != [] && e[0] == 0xF4
    ensures var b := a + e + rest;
            && b[i] == a[i]
            && ((i + 3 < |b| && CarriedWindow(b, i) && Continuation(b[i + 3]))
                <==> (i + 3 < |a| && CarriedWindow(a, i) && Continuation(a[i + 3])))
            && (i + 3 < |a| ==> b[i + 2] == a[i + 2] && b[i + 3] == a[i + 3])
  {
    var b := a + e + rest;
    assert b[|a|] == 0xF4;
  }

  lemma {:induction false} RestoreAfter(p: Bytes, r: Bytes, i: nat)
    requires i <= |r|
    ensures RestoredFrom(p + r, |p| + i) == RestoredFrom(r, i)
    decreases |r| - i
  {
    hide RestoredFrom, Rejoined;
    RestoredStep(p + r, |p| + i);
    RestoredStep(r, i);
    if i < |r| {
      assert forall k :: i <= k < |r| ==> (p + r)[|p| + k] == r[k];
      RestoreAfter(p, r, i + 1);
      if i + 4 <= |r| {
        RestoreAfter(p, r, i + 4);
      }
    }
  }

  /** `printf '[%s]' name`: text around a carried name is untouched and the name's bytes are back. */
  lemma RestoreSurrounded(before: string, name: Bytes, after: string)
    requires !HasRaw(before) && !HasRaw(after)
    requires AvoidsCarriers(name)
    ensures RestoredFrom(Utf8.Encode(before + Carried(name) + after), 0)
         == Utf8.Encode(before) + name + Utf8.Encode(after)
  {
    RestoreWritten(before + Carried(name) + after);
    RestoredConcat(before + Carried(name), after);
    RestoredConcat(before, Carried(name));
    RestoredText(before);
    RestoredText(after);
    RoundTrip(name);
  }

  /** Text that carries nothing is written exactly as it is. */
  lemma {:induction false} RestoredText(text: string)
    requires !HasRaw(text)
    ensures Restored(text) == Utf8.Encode(text)
  {
    if text != [] {
      assert !IsRaw(text[0]);
      assert forall i :: 0 <= i < |text[1..]| ==> text[1..][i] == text[i + 1];
      RestoredText(text[1..]);
    }
  }

  lemma {:induction false} RestoredConcat(s: string, t: string)
    ensures Restored(s + t) == Restored(s) + Restored(t)
  {
    if s == [] {
      assert s + t == t;
    } else {
      assert (s + t)[0] == s[0] && (s + t)[1..] == s[1..] + t;
      RestoredConcat(s[1..], t);
    }
  }

  /** Valid UTF-8 is carried unchanged. */
  lemma {:induction false} CarriedText(name: Bytes)
    requires Valid(name)
    ensures Carried(name) == Utf8.Decode(name)
    decreases |name|
  {
    if |name| != 0 {
      CarriedText(name[First(name).len..]);
    }
  }

  /** A stray byte is carried by the code point as far past U+10FF00 as the byte is past zero, and read on after. */
  lemma StraysAre(name: Bytes)
    requires name != [] && forall c :: !(EncodeChar(c) <= name)
    ensures Carried(name) != [] && Carried(name)[0] as int == 0x10FF00 + name[0] as int
    ensures Carried(name)[1..] == Carried(name[1..])
  {
    hide First, EncodeChar;
    if First(name).Char? {
      EncodedOfFirst(name);
    }
  }

  /** How far a run of bytes that is no character goes: as far as it might still have become one, and no further. */
  lemma RunIsLongest(b: Bytes)
    requires b != [] && First(b).Ill?
    ensures IllLength(b) == 1 || exists c :: b[..IllLength(b)] <= EncodeChar(c)
    ensures forall m, c :: IllLength(b) < m <= |b| ==> !(b[..m] <= EncodeChar(c))
  {
    hide Joined;
    var n := IllLength(b);
    if n == 2 {
      var whole := b[..2] + if b[0] < 0xF0 then [0x80] else [0x80, 0x80];
      EncodedOfFirst(whole);
      assert b[..2] <= EncodeChar(First(whole).c);
    } else if n == 3 {
      var whole := b[..3] + [0x80];
      EncodedOfFirst(whole);
      assert b[..3] <= EncodeChar(First(whole).c);
    }
    forall m, c | n < m <= |b|
      ensures !(b[..m] <= EncodeChar(c))
    {
      if b[..m] <= EncodeChar(c) {
        BegunIsTaken(b, m, c);
      }
    }
  }

  lemma BegunIsTaken(b: Bytes, m: nat, c: char)
    requires 1 <= m <= |b| && b[..m] <= EncodeChar(c)
    ensures First(b).Ill? ==> IllLength(b) >= m
  {
    var e := EncodeChar(c);
    assert forall k :: 0 <= k < m ==> b[k] == b[..m][k] == e[k];
    FirstOfEncoded(c, []);
    assert e + [] == e;
    if m > 2 {
      TailsAreContinuations(c, 2);
    }
    if m > 3 {
      TailsAreContinuations(c, 3);
    }
    hide EncodeChar, Joined;
  }

  // ------------------------------------------------------------------ steps of the proofs

  lemma {:induction false} TwinsOfContinuations(b: Bytes, n: nat)
    requires n <= |b|
    requires forall k :: 0 <= k < n ==> Continuation(b[k])
    ensures Carried(b) == Twins(b[..n]) + Carried(b[n..])
    decreases n
  {
    hide First, Carried;
    if n == 0 {
      assert b[0..] == b;
    } else {
      ContinuationIsIll(b);
      CarriedStray(b);
      TwinsOfContinuations(b[1..], n - 1);
      Seqs.SliceHead(b, 0, n);
      Seqs.DropDrop(b, 1, n - 1);
      assert b[1..][..n - 1] == b[1..n];
      Seqs.HeadTail(b[0], b[1..n]);
      Seqs.Assoc([Twin(b[0])], Twins(b[1..n]), Carried(b[n..]));
    }
  }

  lemma ContinuationIsIll(b: Bytes)
    requires |b| != 0 && Continuation(b[0])
    ensures First(b).Ill?
  {
  }

  lemma CarriedStray(b: Bytes)
    requires |b| != 0 && First(b).Ill?
    ensures Carried(b) == [Twin(b[0])] + Carried(b[1..])
  {
    hide First;
  }

  lemma CarriedNothing(b: Bytes)
    requires |b| == 0
    ensures Carried(b) == []
  {
  }

  lemma CarriedIll(b: Bytes)
    requires |b| != 0 && First(b).Ill?
    ensures Carried(b) == Twins(b[..IllLength(b)]) + Carried(b[IllLength(b)..])
  {
    hide First, IllLength, Carried;
    var n := IllLength(b);
    CarriedStray(b);
    assert forall k :: 0 <= k < n - 1 ==> b[1..][k] == b[k + 1];
    TwinsOfContinuations(b[1..], n - 1);
    Seqs.SliceHead(b, 0, n);
    Seqs.DropDrop(b, 1, n - 1);
    assert b[1..][..n - 1] == b[1..n];
    Seqs.HeadTail(b[0], b[1..n]);
    Seqs.Assoc([Twin(b[0])], Twins(b[1..n]), Carried(b[n..]));
  }

  lemma {:induction false} CarriedPrefix(b: Bytes)
    ensures Carried(b) == ValidPrefix(b).0 + Carried(ValidPrefix(b).1)
    decreases |b|
  {
    hide First;
    if |b| != 0 && First(b).Char? {
      var rest := b[First(b).len..];
      CarriedPrefix(rest);
      Seqs.Assoc([First(b).c], ValidPrefix(rest).0, Carried(ValidPrefix(rest).1));
    }
  }

  lemma {:induction false} FlattenedIsCarried(b: Bytes)
    ensures Flattened(Chunks(b)) == Carried(b)
    decreases |b|
  {
    hide First, IllLength, ValidPrefix, Carried;
    if |b| == 0 {
      CarriedNothing(b);
    } else {
      var (text, rest) := ValidPrefix(b);
      CarriedPrefix(b);
      if |rest| == 0 {
        CarriedNothing(rest);
        assert Chunks(b)[1..] == [];
      } else {
        CarriedIll(rest);
        var n := IllLength(rest);
        assert Chunks(b)[1..] == Chunks(rest[n..]);
        FlattenedIsCarried(rest[n..]);
        assert text + Twins(rest[..n]) + Carried(rest[n..]) == text + (Twins(rest[..n]) + Carried(rest[n..]));
      }
    }
  }

  lemma {:induction false} NothingCarried(b: Bytes, i: nat)
    requires i <= |b|
    requires !exists k :: 0 <= k < |b| && CarriedWindow(b, k)
    ensures RestoredFrom(b, i) == b[i..]
    decreases |b| - i
  {
    if i < |b| {
      NothingCarried(b, i + 1);
    }
  }

  /** Bytes that start no window are copied one at a time. */
  lemma {:induction false} Copied(b: Bytes, i: nat, n: nat)
    requires i + n <= |b|
    requires forall k :: i <= k < i + n ==> b[k] != 0xF4
    ensures RestoredFrom(b, i) == b[i..i + n] + RestoredFrom(b, i + n)
    decreases n
  {
    hide RestoredFrom, Rejoined;
    if n > 0 {
      RestoredStep(b, i);
      Copied(b, i + 1, n - 1);
      Seqs.SliceHead(b, i, i + n);
      Seqs.Assoc([b[i]], b[i + 1..i + n], RestoredFrom(b, i + n));
    }
  }

  /** A carried character occupies `F4 8F BC..BF 80..BF`. */
  lemma CarrierBytes(c: char)
    requires IsRaw(c)
    ensures var low := c as int - BASE; EncodeChar(c) == [0xF4, 0x8F, (0xBC + low / 64) as Byte, (0x80 + low % 64) as Byte]
  {
    var n, low := c as int, c as int - BASE;
    assert n == 64 * 17404 + low;
  }

  /** And no other character begins that way. */
  lemma OnlyCarriersLookCarried(c: char)
    requires var e := EncodeChar(c); |e| == 4 && e[0] == 0xF4 && e[1] == 0x8F && 0xBC <= e[2]
    ensures IsRaw(c)
  {
    JoinDigits(c as int);
  }

  lemma LeadTellsLength(c: char)
    ensures EncodeChar(c)[0] == 0xF4 ==> |EncodeChar(c)| == 4
  {
  }

  lemma StandsBetween(before: Bytes, e: Bytes, rest: Bytes)
    ensures Stands(before + e + rest, |before|, e)
  {
  }

  lemma RestoreCarried(b: Bytes, i: nat, c: char)
    requires IsRaw(c) && Stands(b, i, EncodeChar(c))
    ensures |EncodeChar(c)| == 4 && RestoredFrom(b, i) == [Untwin(c)] + RestoredFrom(b, i + 4)
  {
    hide EncodeChar, RestoredFrom;
    CarrierBytes(c);
    var (e, low) := (EncodeChar(c), c as int - BASE);
    assert b[i + 0] == e[0] && b[i + 1] == e[1] && b[i + 2] == e[2] && b[i + 3] == e[3];
    assert b[i + 2] as int == 0xBC + low / 64 && b[i + 3] as int == 0x80 + low % 64;
    assert Rejoined(b[i + 2], b[i + 3]) == Untwin(c);
    hide Rejoined, Untwin, IsRaw;
    RestoredStep(b, i);
  }

  lemma RestoreCopied(b: Bytes, i: nat, c: char)
    requires !IsRaw(c) && Stands(b, i, EncodeChar(c))
    ensures RestoredFrom(b, i) == EncodeChar(c) + RestoredFrom(b, i + |EncodeChar(c)|)
  {
    hide EncodeChar, RestoredFrom, Rejoined, IsRaw;
    var e := EncodeChar(c);
    assert b[i + 0] == e[0];
    LeadTellsLength(c);
    assert !CarriedWindow(b, i) by {
      if CarriedWindow(b, i) {
        assert b[i + 1] == e[1] && b[i + 2] == e[2];
        OnlyCarriersLookCarried(c);
      }
    }
    forall k | i + 1 <= k < i + |e|
      ensures b[k] != 0xF4
    {
      TailsAreContinuations(c, k - i);
      assert b[i + (k - i)] == e[k - i];
    }
    RestoredStep(b, i);
    Copied(b, i + 1, |e| - 1);
    Seqs.SliceHead(b, i, i + |e|);
    assert b[i..i + |e|] == e;
    Seqs.Assoc([b[i]], b[i + 1..i + |e|], RestoredFrom(b, i + |e|));
  }

  /** One character at `|before|`: a carried one becomes its byte, any other is copied whole. */
  lemma RestoreOne(before: Bytes, c: char, rest: Bytes)
    ensures RestoredFrom(before + EncodeChar(c) + rest, |before|)
         == (if IsRaw(c) then [Untwin(c)] else EncodeChar(c))
          + RestoredFrom(before + EncodeChar(c) + rest, |before| + |EncodeChar(c)|)
  {
    hide EncodeChar, RestoredFrom, IsRaw, Stands;
    StandsBetween(before, EncodeChar(c), rest);
    if IsRaw(c) {
      RestoreCarried(before + EncodeChar(c) + rest, |before|, c);
    } else {
      RestoreCopied(before + EncodeChar(c) + rest, |before|, c);
    }
  }

  lemma {:induction false} RestoreWrittenFrom(before: Bytes, text: string)
    ensures RestoredFrom(before + Utf8.Encode(text), |before|) == Restored(text)
    decreases |text|
  {
    hide EncodeChar;
    if text != [] {
      var e, rest := EncodeChar(text[0]), Utf8.Encode(text[1..]);
      RestoreOne(before, text[0], rest);
      RestoreWrittenFrom(before + e, text[1..]);
      assert before + (e + rest) == before + e + rest;
    }
  }
}
