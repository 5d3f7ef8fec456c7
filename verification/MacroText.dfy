/** How a macro's record is written: one header line of fields, then the body as it is. */
module MacroText {
  import opened Wrappers
  import opened Chars
  import opened Decimals
  import opened Utf8
  import Heredoc
  import Seqs

  datatype Kind = Alias | Abbrev | Func | Program | Variable

  /** Which copy of a record is newer: revision, then deleted, then sixteen random bytes. */
  datatype Stamp = Stamp(revision: nat, deleted: bool, tieBreaker: Bytes)

  datatype Entry = Entry(
    kind: Kind,
    name: string,
    body: string,
    created: int,
    tags: seq<string>,
    active: bool,
    stamp: Stamp)

  predicate StampOk(stamp: Stamp) {
    stamp.revision <= U64_MAX && |stamp.tieBreaker| == 16
  }

  /** The numbers fit the widths they are kept in. */
  predicate EntryOk(entry: Entry) {
    I64_MIN <= entry.created <= I64_MAX && StampOk(entry.stamp)
  }

  // ------------------------------------------------------------------ sixteen bytes as text

  function HexDigit(n: nat): char
    requires n < 16
  {
    if n < 10 then '0' + n as char else 'a' + (n - 10) as char
  }

  function Hex(bytes: Bytes): string {
    if bytes == [] then []
    else [HexDigit(bytes[0] as int / 16), HexDigit(bytes[0] as int % 16)] + Hex(bytes[1..])
  }

  function FromHex(c: char): (r: Option<nat>)
    ensures r.Some? ==> r.value < 16
  {
    if '0' <= c <= '9' then Some(c as int - '0' as int)
    else if 'a' <= c <= 'f' then Some(10 + (c as int - 'a' as int))
    else if 'A' <= c <= 'F' then Some(10 + (c as int - 'A' as int))
    else None
  }

  /** Two characters as one byte. A plus sign may stand for the first digit. */
  function FromPair(high: char, low: char): (r: Option<Byte>) {
    match FromHex(low)
    case None => None
    case Some(units) =>
      if high == '+' then Some(units as Byte)
      else
        match FromHex(high)
        case None => None
        case Some(sixteens) => Some((sixteens * 16 + units) as Byte)
  }

  function Unpaired(text: string): (r: Option<Bytes>)
    ensures r.Some? ==> 2 * |r.value| == |text|
  {
    if text == [] then Some([])
    else if |text| == 1 then None
    else
      match FromPair(text[0], text[1])
      case None => None
      case Some(byte) =>
        match Unpaired(text[2..])
        case None => None
        case Some(rest) => Some([byte] + rest)
  }

  method Unhex(text: string) returns (r: Option<Bytes>)
    ensures r == if |text| == 32 then Unpaired(text) else None
  {
    if |text| != 32 {
      return None;
    }
    hide FromPair, Unpaired, Onto;
    var bytes: Bytes := [];
    assert text[0..] == text;
    OntoNothing(Unpaired(text));
    for at := 0 to 16
      invariant |bytes| == at
      invariant Unpaired(text) == Onto(bytes, Unpaired(text[2 * at..]))
    {
      var byte := FromPair(text[2 * at], text[2 * at + 1]);
      PairStep(text, at, bytes);
      if byte.None? {
        return None;
      }
      bytes := bytes + [byte.value];
    }
    assert text[2 * 16..] == [];
    OntoEnd(bytes);
    return Some(bytes);
  }

  /** Bytes read so far, and those of the rest. */
  function Onto(bytes: Bytes, rest: Option<Bytes>): Option<Bytes> {
    match rest
    case None => None
    case Some(more) => Some(bytes + more)
  }

  lemma OntoNothing(rest: Option<Bytes>)
    ensures Onto([], rest) == rest
  {
    if rest.Some? {
      assert [] + rest.value == rest.value;
    }
  }

  lemma OntoEnd(bytes: Bytes)
    ensures Onto(bytes, Unpaired([])) == Some(bytes)
  {
    assert bytes + [] == bytes;
  }

  lemma PairStep(text: string, at: nat, bytes: Bytes)
    requires 2 * at + 2 <= |text|
    ensures Onto(bytes, Unpaired(text[2 * at..]))
         == if FromPair(text[2 * at], text[2 * at + 1]).None? then None
            else Onto(bytes + [FromPair(text[2 * at], text[2 * at + 1]).value], Unpaired(text[2 * (at + 1)..]))
  {
    hide FromPair;
    Seqs.DropDrop(text, 2 * at, 2);
    var byte := FromPair(text[2 * at], text[2 * at + 1]);
    var rest := Unpaired(text[2 * (at + 1)..]);
    if byte.Some? && rest.Some? {
      Seqs.Assoc(bytes, [byte.value], rest.value);
    }
  }

  lemma {:induction false} HexReadsBack(bytes: Bytes)
    ensures |Hex(bytes)| == 2 * |bytes| && Unpaired(Hex(bytes)) == Some(bytes)
    ensures ' ' !in Hex(bytes) && '\n' !in Hex(bytes)
  {
    if bytes != [] {
      HexReadsBack(bytes[1..]);
      var pair := [HexDigit(bytes[0] as int / 16), HexDigit(bytes[0] as int % 16)];
      Seqs.DropPrefix(pair, Hex(bytes[1..]));
      PairReadsBack(bytes[0]);
      assert bytes == [bytes[0]] + bytes[1..];
      hide FromPair, HexDigit;
    }
  }

  lemma PairReadsBack(b: Byte)
    ensures FromPair(HexDigit(b as int / 16), HexDigit(b as int % 16)) == Some(b)
    ensures HexDigit(b as int / 16) != ' ' && HexDigit(b as int / 16) != '\n'
    ensures HexDigit(b as int % 16) != ' ' && HexDigit(b as int % 16) != '\n'
  {
    var (high, low) := (b as int / 16, b as int % 16);
    DigitReadsBack(high);
    DigitReadsBack(low);
    hide HexDigit, FromHex;
    assert high * 16 + low == b as int;
  }

  lemma DigitReadsBack(n: nat)
    requires n < 16
    ensures FromHex(HexDigit(n)) == Some(n) && HexDigit(n) !in "+ \n"
  {
  }

  /** A digit is read in either case and written in lower case; a plus sign for the first digit reads as nothing. */
  lemma DigitsAre(c: char, n: nat)
    requires n < 16
    ensures FromHex(c) == Some(n) <==> c == "0123456789abcdef"[n] || c == "0123456789ABCDEF"[n]
    ensures HexDigit(n) == "0123456789abcdef"[n]
    ensures FromPair('+', "0123456789abcdef"[n]) == Some(n as Byte)
  {
  }

  // ------------------------------------------------------------------ fields

  function SplitOn(s: string, mark: char): (parts: seq<string>)
    ensures parts != []
  {
    if s == [] then [[]]
    else
      var rest := SplitOn(s[1..], mark);
      if s[0] == mark then [[]] + rest else [[s[0]] + rest[0]] + rest[1..]
  }

  function JoinWith(parts: seq<string>, mark: char): string {
    if parts == [] then []
    else if |parts| == 1 then parts[0]
    else parts[0] + ([mark] + JoinWith(parts[1..], mark))
  }

  lemma {:induction false} SplitStep(a: string, b: string, mark: char)
    requires mark !in a
    ensures SplitOn(a + ([mark] + b), mark) == [a] + SplitOn(b, mark)
  {
    if a == [] {
      assert a + ([mark] + b) == [mark] + b;
      Seqs.HeadTail(mark, b);
    } else {
      Seqs.ConcatHead(a, [mark] + b);
      SplitStep(a[1..], b, mark);
      Seqs.HeadTail(a[1..], SplitOn(b, mark));
      assert [a[0]] + a[1..] == a;
    }
  }

  lemma {:induction false} SplitNone(a: string, mark: char)
    requires mark !in a
    ensures SplitOn(a, mark) == [a]
  {
    if a != [] {
      SplitNone(a[1..], mark);
      assert [a[0]] + a[1..] == a;
    }
  }

  lemma {:induction false} SplitJoined(parts: seq<string>, mark: char)
    requires parts != [] && forall k :: 0 <= k < |parts| ==> mark !in parts[k]
    ensures SplitOn(JoinWith(parts, mark), mark) == parts
  {
    if |parts| == 1 {
      SplitNone(parts[0], mark);
    } else {
      SplitJoined(parts[1..], mark);
      SplitStep(parts[0], JoinWith(parts[1..], mark), mark);
      assert [parts[0]] + parts[1..] == parts;
    }
  }

  function NonEmpty(parts: seq<string>): seq<string> {
    if parts == [] then []
    else if parts[0] == "" then NonEmpty(parts[1..])
    else [parts[0]] + NonEmpty(parts[1..])
  }

  // ------------------------------------------------------------------ a record

  /** From the tags on. */
  function Tail(entry: Entry): string {
    JoinWith(entry.tags, ',') + ([' '] + (Decimal(entry.stamp.revision)
      + ([' '] + (State(entry.stamp.deleted)
      + ([' '] + (Hex(entry.stamp.tieBreaker) + (['\n'] + entry.body)))))))
  }

  function Encode(entry: Entry): string {
    "2" + ([' '] + (Format(entry.created, 0) + ([' '] + (Switch(entry.active) + ([' '] + Tail(entry))))))
  }

  function FieldAt(fields: seq<string>, k: nat): Option<string> {
    if k < |fields| then Some(fields[k]) else None
  }

  predicate StartsRecord(s: string) {
    |s| >= 2 && (s[0] == '2' || s[0] == '1') && s[1] == ' '
  }

  /** `born` is the stamp a record that carries none is given. */
  function Decode(kind: Kind, name: string, stored: string, born: Stamp): Entry {
    var k := Heredoc.Newline(stored);
    if k == |stored| || !StartsRecord(stored[..k]) then Entry(kind, name, stored, 0, [], true, born)
    else DecodeFields(kind, name, SplitOn(stored[..k], ' '), stored[k + 1..], born)
  }

  function DecodeFields(kind: Kind, name: string, fields: seq<string>, body: string, born: Stamp): Entry {
    Entry(kind, name, body, CreatedIn(fields), TagsIn(fields), FieldAt(fields, 2) != Some("off"), StampIn(fields, born))
  }

  function CreatedIn(fields: seq<string>): int {
    if |fields| > 1 && ParseI64(fields[1]).Some? then ParseI64(fields[1]).value else 0
  }

  function TagsIn(fields: seq<string>): seq<string> {
    if |fields| > 3 then NonEmpty(SplitOn(fields[3], ',')) else []
  }

  /** A record of the first format carries no stamp. */
  function StampIn(fields: seq<string>, born: Stamp): Stamp {
    if |fields| > 6 then
      Stamp(if ParseU64(fields[4]).Some? then ParseU64(fields[4]).value else 1,
            fields[5] == "dead",
            if |fields[6]| == 32 && Unpaired(fields[6]).Some? then Unpaired(fields[6]).value else seq(16, _ => 0))
    else born
  }

  // ------------------------------------------------------------------ the round trip

  /** A tag the header can carry. */
  predicate Clean(tag: string) {
    tag != "" && ',' !in tag && ' ' !in tag && '\n' !in tag
  }

  predicate AllClean(tags: seq<string>) {
    forall k :: 0 <= k < |tags| ==> Clean(tags[k])
  }

  /** A tag a macro may be given. */
  predicate ValidTag(tag: string) {
    && tag != "" && |Utf8.Encode(tag)| <= 64 && tag[0] != '-'
    && forall k :: 0 <= k < |tag| ==> !IsWhitespace(tag[k]) && tag[k] != ',' && tag[k] != '#'
  }

  /** The header can carry every valid tag. */
  lemma ValidTagsAreClean(tags: seq<string>)
    requires forall k :: 0 <= k < |tags| ==> ValidTag(tags[k])
    ensures AllClean(tags)
  {
    forall k | 0 <= k < |tags|
      ensures Clean(tags[k])
    {
      assert ValidTag(tags[k]);
      assert IsWhitespace(' ') && IsWhitespace('\n');
    }
    hide IsWhitespace;
  }

  lemma {:induction false} NewlineAfter(a: string, b: string)
    requires '\n' !in a
    ensures Heredoc.Newline(a + b) == |a| + Heredoc.Newline(b)
  {
    if a == [] {
      assert a + b == b;
    } else {
      Seqs.ConcatHead(a, b);
      NewlineAfter(a[1..], b);
    }
  }

  lemma {:induction false} NonEmptyAll(parts: seq<string>)
    requires forall k :: 0 <= k < |parts| ==> parts[k] != ""
    ensures NonEmpty(parts) == parts
  {
    if parts != [] {
      NonEmptyAll(parts[1..]);
    }
  }

  lemma {:induction false} NonEmptyKeeps(parts: seq<string>)
    ensures forall k :: 0 <= k < |NonEmpty(parts)| ==> NonEmpty(parts)[k] != "" && NonEmpty(parts)[k] in parts
  {
    if parts != [] {
      NonEmptyKeeps(parts[1..]);
    }
  }

  /** A part has no mark in it, and nothing the whole had not. */
  lemma {:induction false} SplitParts(s: string, mark: char, c: char)
    requires c !in s || c == mark
    ensures forall k :: 0 <= k < |SplitOn(s, mark)| ==> c !in SplitOn(s, mark)[k]
  {
    if s != [] {
      SplitParts(s[1..], mark, c);
    }
  }

  /** Tags come back split by their commas, whatever they were. */
  lemma TagsReadBack(tags: seq<string>)
    requires AllClean(tags)
    ensures NonEmpty(SplitOn(JoinWith(tags, ','), ',')) == tags
    ensures ' ' !in JoinWith(tags, ',') && '\n' !in JoinWith(tags, ',')
  {
    JoinKeepsOut(tags, ',', ' ');
    JoinKeepsOut(tags, ',', '\n');
    if tags == [] {
      assert NonEmpty([""]) == NonEmpty([""][1..]);
    } else {
      SplitJoined(tags, ',');
      NonEmptyAll(tags);
    }
  }

  lemma {:induction false} JoinKeepsOut(parts: seq<string>, mark: char, c: char)
    requires c != mark && forall k :: 0 <= k < |parts| ==> c !in parts[k]
    ensures c !in JoinWith(parts, mark)
  {
    if |parts| > 1 {
      JoinKeepsOut(parts[1..], mark, c);
    }
  }

  /** The tags a record is read with are always clean. */
  lemma DecodedTagsAreClean(kind: Kind, name: string, stored: string, born: Stamp)
    ensures AllClean(Decode(kind, name, stored, born).tags)
  {
    var k := Heredoc.Newline(stored);
    if k < |stored| && StartsRecord(stored[..k]) {
      var fields := SplitOn(stored[..k], ' ');
      SplitParts(stored[..k], ' ', ' ');
      SplitParts(stored[..k], ' ', '\n');
      if |fields| > 3 {
        var tags := SplitOn(fields[3], ',');
        SplitParts(fields[3], ',', ',');
        SplitParts(fields[3], ',', ' ');
        SplitParts(fields[3], ',', '\n');
        NonEmptyKeeps(tags);
      }
      hide SplitOn, NonEmpty, Heredoc.Newline;
    }
  }

  lemma WordsAreClean(entry: Entry)
    ensures var created := Format(entry.created, 0); ' ' !in created && '\n' !in created
    ensures var revision := Decimal(entry.stamp.revision); ' ' !in revision && '\n' !in revision
  {
    FormatChars(entry.created, 0, ' ');
    FormatChars(entry.created, 0, '\n');
    DecimalReads(entry.stamp.revision, 0);
    assert Zeros(0) + Decimal(entry.stamp.revision) == Decimal(entry.stamp.revision);
    hide Format, Decimal, Zeros, DigitsValue;
  }

  /** Three fields in front of a text stand, whatever the text holds. */
  lemma FrontSplits(two: string, created: string, active: string, tail: string, n: nat)
    requires n == Heredoc.Newline(tail) < |tail|
    requires ' ' !in two && '\n' !in two && ' ' !in created && '\n' !in created && ' ' !in active && '\n' !in active
    ensures Heredoc.Newline(Front(two, created, active, tail)) == FrontLength(two, created, active) + n
    ensures |Front(two, created, active, tail)| == FrontLength(two, created, active) + |tail|
    ensures SplitOn(Front(two, created, active, tail)[..FrontLength(two, created, active) + n], ' ')
         == [two, created, active] + SplitOn(tail[..n], ' ')
    ensures Front(two, created, active, tail)[FrontLength(two, created, active) + n + 1..] == tail[n + 1..]
  {
    hide Heredoc.Newline, SplitOn;
    var front := two + ([' '] + (created + ([' '] + (active + [' ']))));
    FrontText(two, created, active, tail);
    NewlineAfter(front, tail);
    var rest := tail[..n];
    CutTail(front, tail, n);
    FrontText(two, created, active, rest);
    SplitStep(two, created + ([' '] + (active + ([' '] + rest))), ' ');
    SplitStep(created, active + ([' '] + rest), ' ');
    SplitStep(active, rest, ' ');
    Three(two, created, active, SplitOn(rest, ' '));
  }

  function Front(two: string, created: string, active: string, tail: string): string {
    two + ([' '] + (created + ([' '] + (active + ([' '] + tail)))))
  }

  function FrontLength(two: string, created: string, active: string): nat {
    |two| + |created| + |active| + 3
  }

  lemma FrontText(two: string, created: string, active: string, tail: string)
    ensures Front(two, created, active, tail) == (two + ([' '] + (created + ([' '] + (active + [' ']))))) + tail
  {
  }

  lemma CutTail(front: string, tail: string, n: nat)
    requires n < |tail|
    ensures (front + tail)[..|front| + n] == front + tail[..n]
    ensures (front + tail)[|front| + n + 1..] == tail[n + 1..]
  {
  }

  lemma Three(a: string, b: string, c: string, rest: seq<string>)
    ensures [a] + ([b] + ([c] + rest)) == [a, b, c] + rest
  {
  }

  function Switch(active: bool): string {
    if active then "on" else "off"
  }

  function State(deleted: bool): string {
    if deleted then "dead" else "live"
  }

  lemma WordsDiffer(active: bool, deleted: bool)
    ensures Switch(active) == "off" <==> !active
    ensures State(deleted) == "dead" <==> deleted
    ensures ' ' !in Switch(active) && '\n' !in Switch(active) && ' ' !in State(deleted) && '\n' !in State(deleted)
  {
  }

  /** The header's fields, of a record whose tags may hold anything. */
  lemma FrontReads(entry: Entry) returns (fields: seq<string>, k: nat)
    ensures k == Heredoc.Newline(Encode(entry)) < |Encode(entry)| && StartsRecord(Encode(entry)[..k])
    ensures fields == SplitOn(Encode(entry)[..k], ' ')
    ensures fields == ["2", Format(entry.created, 0), Switch(entry.active)]
                      + SplitOn(Tail(entry)[..Heredoc.Newline(Tail(entry))], ' ')
    ensures Heredoc.Newline(Tail(entry)) < |Tail(entry)|
    ensures Encode(entry)[k + 1..] == Tail(entry)[Heredoc.Newline(Tail(entry)) + 1..]
  {
    hide Tail, Format, Heredoc.Newline, SplitOn, Switch;
    TailHasNewline(entry);
    WordsAreClean(entry);
    WordsDiffer(entry.active, false);
    var created, tail := Format(entry.created, 0), Tail(entry);
    var n := Heredoc.Newline(tail);
    var two := "2";
    FrontSplits(two, created, Switch(entry.active), tail, n);
    assert Encode(entry) == Front(two, created, Switch(entry.active), tail);
    k := FrontLength(two, created, Switch(entry.active)) + n;
    fields := SplitOn(Encode(entry)[..k], ' ');
  }

  lemma TailHasNewline(entry: Entry)
    ensures Heredoc.Newline(Tail(entry)) < |Tail(entry)|
  {
    var tail := Tail(entry);
    var k := Heredoc.Newline(tail);
    TailEnds(JoinWith(entry.tags, ','), Decimal(entry.stamp.revision), State(entry.stamp.deleted),
             Hex(entry.stamp.tieBreaker), entry.body);
    hide Heredoc.Newline, JoinWith, Decimal, Hex;
    assert tail[..|tail|] == tail;
  }

  lemma TailEnds(tags: string, revision: string, state: string, tie: string, body: string)
    ensures '\n' in tags + ([' '] + (revision + ([' '] + (state + ([' '] + (tie + (['\n'] + body)))))))
  {
    InRight(tie, ['\n'] + body, '\n');
    InRight([' '], tie + (['\n'] + body), '\n');
    InRight(state, [' '] + (tie + (['\n'] + body)), '\n');
    InRight([' '], state + ([' '] + (tie + (['\n'] + body))), '\n');
    InRight(revision, [' '] + (state + ([' '] + (tie + (['\n'] + body)))), '\n');
    InRight([' '], revision + ([' '] + (state + ([' '] + (tie + (['\n'] + body))))), '\n');
    InRight(tags, [' '] + (revision + ([' '] + (state + ([' '] + (tie + (['\n'] + body)))))), '\n');
  }

  lemma InRight(a: string, b: string, c: char)
    requires c in b
    ensures c in a + b
  {
  }

  lemma DecodesFields(entry: Entry, born: Stamp) returns (fields: seq<string>, body: string)
    ensures Decode(entry.kind, entry.name, Encode(entry), born) == DecodeFields(entry.kind, entry.name, fields, body, born)
    ensures fields == ["2", Format(entry.created, 0), Switch(entry.active)]
                      + SplitOn(Tail(entry)[..Heredoc.Newline(Tail(entry))], ' ')
    ensures Heredoc.Newline(Tail(entry)) < |Tail(entry)| && body == Tail(entry)[Heredoc.Newline(Tail(entry)) + 1..]
  {
    hide Tail, Format, Encode, SplitOn, Heredoc.Newline, DecodeFields, StartsRecord, Switch;
    var k;
    fields, k := FrontReads(entry);
    body := Encode(entry)[k + 1..];
  }

  lemma FrontOfFields(fields: seq<string>, created: string, active: string, rest: seq<string>)
    requires fields == ["2", created, active] + rest
    ensures |fields| >= 3 && fields[1] == created && fields[2] == active && fields[3..] == rest
  {
  }

  /** When it was made and whether it is on read back, whatever the tags hold. */
  lemma FrontFieldsReadBack(entry: Entry, born: Stamp)
    requires EntryOk(entry)
    ensures var back := Decode(entry.kind, entry.name, Encode(entry), born);
            && back.kind == entry.kind && back.name == entry.name
            && back.created == entry.created && back.active == entry.active
  {
    FormatReadsBack(entry.created, 0);
    WordsDiffer(entry.active, false);
    hide Tail, Format, Encode, Decode, SplitOn, Heredoc.Newline, StampIn, TagsIn, ParseI64, Switch;
    var fields, body := DecodesFields(entry, born);
    FrontOfFields(fields, Format(entry.created, 0), Switch(entry.active), fields[3..]);
  }

  /** The rest of the header, when no tag breaks it. */
  lemma TailReads(entry: Entry)
    requires AllClean(entry.tags)
    ensures var n := Heredoc.Newline(Tail(entry));
            && n < |Tail(entry)|
            && SplitOn(Tail(entry)[..n], ' ')
               == [JoinWith(entry.tags, ','), Decimal(entry.stamp.revision),
                   State(entry.stamp.deleted), Hex(entry.stamp.tieBreaker)]
            && Tail(entry)[n + 1..] == entry.body
  {
    TagsReadBack(entry.tags);
    WordsAreClean(entry);
    WordsDiffer(true, entry.stamp.deleted);
    HexReadsBack(entry.stamp.tieBreaker);
    TailSplits(JoinWith(entry.tags, ','), Decimal(entry.stamp.revision),
               State(entry.stamp.deleted), Hex(entry.stamp.tieBreaker), entry.body);
    hide SplitOn, JoinWith, Decimal, Hex, Heredoc.Newline;
  }

  lemma TailSplits(tags: string, revision: string, state: string, tie: string, body: string)
    requires ' ' !in tags && '\n' !in tags && ' ' !in revision && '\n' !in revision
    requires ' ' !in state && '\n' !in state && ' ' !in tie && '\n' !in tie
    ensures var tail := tags + ([' '] + (revision + ([' '] + (state + ([' '] + (tie + (['\n'] + body)))))));
            var n := Heredoc.Newline(tail);
            && n < |tail| && tail[n + 1..] == body
            && SplitOn(tail[..n], ' ') == [tags, revision, state, tie]
  {
    var line := tags + ([' '] + (revision + ([' '] + (state + ([' '] + tie)))));
    LineThenBody(tags, revision, state, tie, body);
    NewlineAfter(line, ['\n'] + body);
    assert Heredoc.Newline(['\n'] + body) == 0;
    hide Heredoc.Newline;
    Seqs.DropPrefix(line, ['\n'] + body);
    assert (line + (['\n'] + body))[|line| + 1..] == body;
    SplitStep(tags, revision + ([' '] + (state + ([' '] + tie))), ' ');
    SplitStep(revision, state + ([' '] + tie), ' ');
    SplitStep(state, tie, ' ');
    SplitNone(tie, ' ');
    hide SplitOn;
    Three(tags, revision, state, [tie]);
  }

  lemma LineThenBody(tags: string, revision: string, state: string, tie: string, body: string)
    ensures tags + ([' '] + (revision + ([' '] + (state + ([' '] + (tie + (['\n'] + body)))))))
         == (tags + ([' '] + (revision + ([' '] + (state + ([' '] + tie)))))) + (['\n'] + body)
  {
  }

  /** A record reads back as it was written exactly when the header can carry each of its tags. */
  lemma RoundTrip(entry: Entry, born: Stamp)
    requires EntryOk(entry)
    ensures Decode(entry.kind, entry.name, Encode(entry), born) == entry <==> AllClean(entry.tags)
  {
    DecodedTagsAreClean(entry.kind, entry.name, Encode(entry), born);
    if AllClean(entry.tags) {
      CleanRoundTrip(entry, born);
    }
    hide Decode, Encode, AllClean;
  }

  lemma CleanRoundTrip(entry: Entry, born: Stamp)
    requires EntryOk(entry) && AllClean(entry.tags)
    ensures Decode(entry.kind, entry.name, Encode(entry), born) == entry
  {
    hide Tail, Format, Encode, Decode, Heredoc.Newline, SplitOn, JoinWith, Decimal, Hex, CreatedIn, TagsIn, StampIn, Switch;
    FrontFieldsReadBack(entry, born);
    TailReads(entry);
    var fields, body := DecodesFields(entry, born);
    FrontOfFields(fields, Format(entry.created, 0), Switch(entry.active), fields[3..]);
    FieldsReadBack(entry, fields, born);
  }

  lemma FieldsReadBack(entry: Entry, fields: seq<string>, born: Stamp)
    requires EntryOk(entry) && AllClean(entry.tags) && |fields| == 7
    requires fields[3..] == [JoinWith(entry.tags, ','), Decimal(entry.stamp.revision),
                             State(entry.stamp.deleted), Hex(entry.stamp.tieBreaker)]
    ensures TagsIn(fields) == entry.tags && StampIn(fields, born) == entry.stamp
  {
    TagsReadBack(entry.tags);
    DecimalReadsBack(entry.stamp.revision);
    HexReadsBack(entry.stamp.tieBreaker);
    WordsDiffer(true, entry.stamp.deleted);
    hide SplitOn, JoinWith, Decimal, Hex, ParseU64, Unpaired, NonEmpty, State;
    assert fields[3] == fields[3..][0] && fields[4] == fields[3..][1] && fields[5] == fields[3..][2] && fields[6] == fields[3..][3];
  }

  /** A header whose fields are not what they should be is read field by field: no date is 0, anything but `off` is
      on, empty tags are dropped, no revision is 1, anything but `dead` is alive, and no tie-breaker is zeros. */
  lemma AnyFieldsRead(kind: Kind, name: string, when: string, switch: string, tags: string, revision: string, state: string,
                      tie: string, body: string, born: Stamp)
    requires ' ' !in when && '\n' !in when && ' ' !in switch && '\n' !in switch && ' ' !in tags && '\n' !in tags
    requires ' ' !in revision && '\n' !in revision && ' ' !in state && '\n' !in state && ' ' !in tie && '\n' !in tie
    ensures var tail := tags + ([' '] + (revision + ([' '] + (state + ([' '] + (tie + (['\n'] + body)))))));
            var back := Decode(kind, name, Front("2", when, switch, tail), born);
            && back.kind == kind && back.name == name && back.body == body
            && back.created == (if ParseI64(when).Some? then ParseI64(when).value else 0)
            && (back.active <==> switch != "off")
            && back.tags == NonEmpty(SplitOn(tags, ','))
            && back.stamp.revision == (if ParseU64(revision).Some? then ParseU64(revision).value else 1)
            && (back.stamp.deleted <==> state == "dead")
            && back.stamp.tieBreaker == (if |tie| == 32 && Unpaired(tie).Some? then Unpaired(tie).value else seq(16, _ => 0))
  {
    hide *;
    var tail := tags + ([' '] + (revision + ([' '] + (state + ([' '] + (tie + (['\n'] + body)))))));
    var fields := [tags, revision, state, tie];
    TailSplits(tags, revision, state, tie, body);
    TailDecodes(kind, name, "2", when, switch, tail, fields, body, born);
    FieldsAre(kind, name, "2", when, switch, tags, revision, state, tie, body, born);
    assert ["2", when, switch] + fields == ["2", when, switch, tags, revision, state, tie];
  }

  lemma TailDecodes(kind: Kind, name: string, two: string, when: string, switch: string, tail: string, rest: seq<string>,
                    body: string, born: Stamp)
    requires two == "2" && ' ' !in when && '\n' !in when && ' ' !in switch && '\n' !in switch
    requires var n := Heredoc.Newline(tail); n < |tail| && tail[n + 1..] == body && SplitOn(tail[..n], ' ') == rest
    ensures Decode(kind, name, Front(two, when, switch, tail), born)
         == DecodeFields(kind, name, [two, when, switch] + rest, body, born)
  {
    hide *;
    var n := Heredoc.Newline(tail);
    FrontSplits(two, when, switch, tail, n);
    FrontMark(two, when, switch, tail, n);
    DecodesAt(kind, name, Front(two, when, switch, tail), FrontLength(two, when, switch) + n, born);
  }

  lemma FieldsAre(kind: Kind, name: string, two: string, when: string, switch: string, tags: string, revision: string,
                  state: string, tie: string, body: string, born: Stamp)
    ensures DecodeFields(kind, name, [two, when, switch, tags, revision, state, tie], body, born)
         == Entry(kind, name, body,
                  if ParseI64(when).Some? then ParseI64(when).value else 0,
                  NonEmpty(SplitOn(tags, ',')), switch != "off",
                  Stamp(if ParseU64(revision).Some? then ParseU64(revision).value else 1, state == "dead",
                        if |tie| == 32 && Unpaired(tie).Some? then Unpaired(tie).value else seq(16, _ => 0)))
  {
    hide ParseI64, ParseU64, Unpaired, NonEmpty, SplitOn;
  }

  // ------------------------------------------------------------------ records of an older shell

  /** A record that starts with neither format's mark, or has no line of fields, is a body and nothing else. */
  lemma BareBodyReads(kind: Kind, name: string, stored: string, born: Stamp)
    requires '\n' !in stored || |stored| < 2 || (stored[..2] != "1 " && stored[..2] != "2 ")
    ensures Decode(kind, name, stored, born) == Entry(kind, name, stored, 0, [], true, born)
  {
    var k := Heredoc.Newline(stored);
    if k < |stored| {
      assert stored[k] in stored;
      assert k >= 2 ==> stored[..k][0] == stored[..2][0] && stored[..k][1] == stored[..2][1] && |stored[..2]| == 2;
    }
    hide Heredoc.Newline, SplitOn;
  }

  /** The first format is the second without the stamp: the fields read back as written, and the stamp is the one
      a record without any is born with. */
  lemma FirstFormatReads(kind: Kind, name: string, created: int, active: bool, tags: seq<string>, body: string, born: Stamp)
    requires I64_MIN <= created <= I64_MAX && AllClean(tags)
    ensures Decode(kind, name, Front("1", Format(created, 0), Switch(active), JoinWith(tags, ',') + (['\n'] + body)), born)
         == Entry(kind, name, body, created, tags, active, born)
  {
    var fields := ["1", Format(created, 0), Switch(active), JoinWith(tags, ',')];
    FormatChars(created, 0, ' ');
    FormatChars(created, 0, '\n');
    FormatReadsBack(created, 0);
    WordsDiffer(active, false);
    TagsReadBack(tags);
    hide Format, ParseI64, JoinWith, Switch, AllClean, Decode, Front, NonEmpty, SplitOn;
    FirstFields(kind, name, fields[0], fields[1], fields[2], fields[3], body, born);
  }

  lemma FirstFields(kind: Kind, name: string, one: string, when: string, switch: string, joined: string, body: string, born: Stamp)
    requires one == "1"
    requires ' ' !in when && '\n' !in when && ' ' !in switch && '\n' !in switch && ' ' !in joined && '\n' !in joined
    ensures Decode(kind, name, Front(one, when, switch, joined + (['\n'] + body)), born)
         == DecodeFields(kind, name, [one, when, switch, joined], body, born)
  {
    hide *;
    var tail := joined + (['\n'] + body);
    BodyAfter(joined, body);
    FrontSplits(one, when, switch, tail, |joined|);
    SplitNone(joined, ' ');
    FrontMark(one, when, switch, tail, |joined|);
    DecodesAt(kind, name, Front(one, when, switch, tail), FrontLength(one, when, switch) + |joined|, born);
    assert [one, when, switch] + [joined] == [one, when, switch, joined];
  }

  lemma BodyAfter(line: string, body: string)
    requires '\n' !in line
    ensures Heredoc.Newline(line + (['\n'] + body)) == |line| < |line + (['\n'] + body)|
    ensures (line + (['\n'] + body))[..|line|] == line && (line + (['\n'] + body))[|line| + 1..] == body
  {
    NewlineAfter(line, ['\n'] + body);
    assert Heredoc.Newline(['\n'] + body) == 0;
  }

  lemma DecodesAt(kind: Kind, name: string, stored: string, k: nat, born: Stamp)
    requires k == Heredoc.Newline(stored) < |stored| && StartsRecord(stored[..k])
    ensures Decode(kind, name, stored, born) == DecodeFields(kind, name, SplitOn(stored[..k], ' '), stored[k + 1..], born)
  {
    hide SplitOn, DecodeFields;
  }

  lemma FrontMark(mark: string, when: string, switch: string, tail: string, n: nat)
    requires (mark == "1" || mark == "2") && n <= |tail|
    ensures StartsRecord(Front(mark, when, switch, tail)[..FrontLength(mark, when, switch) + n])
  {
    var text := Front(mark, when, switch, tail);
    assert text[0] == mark[0] && text[1] == ' ';
  }
}
