/** When a macro's record is written at all, how large it may be, and how its stamp moves with every write. */
module MacroWrites {
  import opened Wrappers
  import opened Decimals
  import opened MacroRuns
  import opened Macros
  import opened MacroText
  import opened Utf8

  // ------------------------------------------------------------------ sizes

  predicate IsAscii(text: string) {
    forall k :: 0 <= k < |text| ==> text[k] as int < 0x80
  }

  lemma {:induction false} AsciiSize(text: string)
    requires IsAscii(text)
    ensures |Utf8.Encode(text)| == |text|
  {
    if text != "" {
      assert |EncodeChar(text[0])| == 1;
      AsciiSize(text[1..]);
    }
  }

  lemma {:induction false} HexIsAscii(bytes: Bytes)
    ensures IsAscii(Hex(bytes)) && |Hex(bytes)| == 2 * |bytes|
  {
    if bytes != [] {
      HexIsAscii(bytes[1..]);
    }
  }

  /** The bytes a record takes. */
  function RecordBytes(entry: Entry): nat {
    |Utf8.Encode(entry.body)| + |Utf8.Encode(JoinWith(entry.tags, ','))|
    + |Format(entry.created, 0)| + |Decimal(entry.stamp.revision)| + (if entry.active then 2 else 3) + 44
  }

  lemma NumbersAreAscii(created: int, revision: nat)
    ensures IsAscii(Format(created, 0)) && IsAscii(Decimal(revision))
  {
    forall k | 0 <= k < |Format(created, 0)|
      ensures Format(created, 0)[k] as int < 0x80
    {
      FormatChars(created, 0, Format(created, 0)[k]);
    }
    DecimalReads(revision, 0);
    assert Zeros(0) + Decimal(revision) == Decimal(revision);
    hide Format, Decimal, Zeros, DigitsValue;
  }

  lemma WordsAreAscii(active: bool, deleted: bool)
    ensures IsAscii(Switch(active)) && |Switch(active)| == if active then 2 else 3
    ensures IsAscii(State(deleted)) && |State(deleted)| == 4
  {
  }

  lemma AsciiParts(entry: Entry)
    requires |entry.stamp.tieBreaker| == 16
    ensures |Utf8.Encode(Format(entry.created, 0))| == |Format(entry.created, 0)|
    ensures |Utf8.Encode(Decimal(entry.stamp.revision))| == |Decimal(entry.stamp.revision)|
    ensures |Utf8.Encode(Hex(entry.stamp.tieBreaker))| == 32
    ensures |Utf8.Encode(Switch(entry.active))| == if entry.active then 2 else 3
    ensures |Utf8.Encode(State(entry.stamp.deleted))| == 4
  {
    hide *;
    NumbersAreAscii(entry.created, entry.stamp.revision);
    WordsAreAscii(entry.active, entry.stamp.deleted);
    HexIsAscii(entry.stamp.tieBreaker);
    AsciiSize(Format(entry.created, 0));
    AsciiSize(Decimal(entry.stamp.revision));
    AsciiSize(Hex(entry.stamp.tieBreaker));
    AsciiSize(Switch(entry.active));
    AsciiSize(State(entry.stamp.deleted));
  }

  lemma OneAscii(c: char)
    requires c as int < 0x80
    ensures |Utf8.Encode([c])| == 1
  {
    AsciiSize([c]);
  }

  lemma SizeOf(a: string, b: string)
    ensures |Utf8.Encode(a + b)| == |Utf8.Encode(a)| + |Utf8.Encode(b)|
  {
    EncodeConcat(a, b);
  }

  lemma SizeOfField(a: string, b: string)
    ensures |Utf8.Encode(a + ([' '] + b))| == |Utf8.Encode(a)| + 1 + |Utf8.Encode(b)|
  {
    hide Utf8.Encode;
    SizeOf(a, [' '] + b);
    SizeOf([' '], b);
    OneAscii(' ');
  }

  lemma RecordSize(entry: Entry)
    requires |entry.stamp.tieBreaker| == 16
    ensures |Utf8.Encode(MacroText.Encode(entry))| == RecordBytes(entry)
  {
    AsciiParts(entry);
    var tags, tie, body := JoinWith(entry.tags, ','), Hex(entry.stamp.tieBreaker), entry.body;
    var revision, state := Decimal(entry.stamp.revision), State(entry.stamp.deleted);
    var created, switch := Format(entry.created, 0), Switch(entry.active);
    var two := "2";
    assert Tail(entry) == tags + ([' '] + (revision + ([' '] + (state + ([' '] + (tie + (['\n'] + body)))))));
    assert MacroText.Encode(entry) == two + ([' '] + (created + ([' '] + (switch + ([' '] + Tail(entry))))));
    hide *;
    OneAscii('\n');
    SizeOf(['\n'], body);
    SizeOf(tie, ['\n'] + body);
    SizeOfField(state, tie + (['\n'] + body));
    SizeOfField(revision, state + ([' '] + (tie + (['\n'] + body))));
    SizeOfField(tags, revision + ([' '] + (state + ([' '] + (tie + (['\n'] + body))))));
    SizeOfField(switch, Tail(entry));
    SizeOfField(created, switch + ([' '] + Tail(entry)));
    SizeOfField(two, created + ([' '] + (switch + ([' '] + Tail(entry)))));
    OneAscii('2');
    BytesAre(entry);
  }

  lemma BytesAre(entry: Entry)
    ensures RecordBytes(entry)
         == |Utf8.Encode(entry.body)| + |Utf8.Encode(JoinWith(entry.tags, ','))|
            + |Format(entry.created, 0)| + |Decimal(entry.stamp.revision)| + (if entry.active then 2 else 3) + 44
  {
  }

  // ------------------------------------------------------------------ when a write goes through

  /** A name is up to 128 bytes of letters, digits and a few marks, and does not start like an option. */
  ghost predicate NameFits(name: string, letters: set<char>) {
    && 1 <= |Utf8.Encode(name)| <= 128
    && (forall rest :: name != "-" + rest)
    && forall c :: c in name ==> c in letters || c in {'_', '-', '.', '+', ':', '@', ',', '%'}
  }

  lemma NameIs(name: string, letters: set<char>)
    ensures ValidName(name, letters) <==> NameFits(name, letters)
  {
    assert name != "" ==> |EncodeChar(name[0])| >= 1;
    assert (exists rest :: name == "-" + rest) <==> name != "" && name[0] == '-' by {
      if name != "" && name[0] == '-' {
        assert name == "-" + name[1..];
      }
    }
    assert forall c :: c in "_-.+:@,%" <==> c in {'_', '-', '.', '+', ':', '@', ',', '%'};
    hide EncodeChar;
  }

  lemma KeySize(kind: Kind, name: string)
    ensures Key(kind, name) != "" && |Utf8.Encode(Key(kind, name))| <= 7 + |Utf8.Encode(name)|
  {
    var word := Word(kind);
    assert |word| <= 6 && IsAscii(word) by {
      match kind
      case Alias =>
      case Abbrev =>
      case Func =>
      case Program =>
      case Variable =>
    }
    assert Key(kind, name) == word + (['/'] + name);
    hide *;
    AsciiSize(word);
    SizeOf(word, ['/'] + name);
    SizeOf(['/'], name);
    OneAscii('/');
  }

  /** A write goes through exactly when the name is one, the record takes no more than a mebibyte, and the store
      commits; and each refusal says which of them failed, in that order. */
  lemma PutAnswers(records: Records, entry: Entry, luck: Luck, letters: set<char>)
    requires EntryOk(entry) && LuckOk(luck)
    ensures var record := Rewritten(entry, StoredIn(records, entry.kind, entry.name, luck.birth), luck);
            PutIn(records, entry, luck, letters)
            == if !NameFits(entry.name, letters) then Err(BadName)
               else if RecordBytes(record) > 1_048_576 then Err(ValueTooLong)
               else if !luck.commits then Err(NotCommitted)
               else Ok(records[Key(entry.kind, entry.name) := MacroText.Encode(record)])
  {
    NameIs(entry.name, letters);
    KeySize(entry.kind, entry.name);
    var before := StoredIn(records, entry.kind, entry.name, luck.birth);
    if before.Some? {
      DecodedOk(entry.kind, entry.name, records[Key(entry.kind, entry.name)], luck.birth);
    }
    RewrittenOk(entry, before, luck);
    RecordSize(Rewritten(entry, before, luck));
    assert NameFits(entry.name, letters) ==> |Utf8.Encode(entry.name)| <= 128;
    hide NameFits, ValidName, Key, MacroText.Encode, MacroText.Decode, Utf8.Encode, RecordBytes, Rewritten, Born;
  }

  /** A switch goes through exactly when there is a macro to switch and writing it would. */
  lemma SetActiveAnswers(records: Records, kind: Kind, name: string, active: bool, luck: Luck, letters: set<char>)
    ensures SetActiveIn(records, kind, name, active, luck, letters).Some?
        <==> && GetIn(records, kind, name, luck.birth).Some?
             && PutIn(records, GetIn(records, kind, name, luck.birth).value.(active := active), luck, letters).Ok?
  {
    hide GetIn, PutIn;
    if GetIn(records, kind, name, luck.birth).Some? {
    }
  }

  /** A removal goes through exactly when there is a macro to remove, its key and its tombstone fit and the
      store commits. */
  lemma RemoveAnswers(records: Records, kind: Kind, name: string, luck: Luck)
    requires LuckOk(luck)
    ensures RemoveIn(records, kind, name, luck).Some?
        <==> var found := GetIn(records, kind, name, luck.birth);
             && found.Some?
             && |Utf8.Encode(Key(kind, name))| <= 1024
             && RecordBytes(found.value.(stamp := Buried(found.value.stamp, luck.roll))) <= 1_048_576
             && luck.commits
  {
    KeySize(kind, name);
    var found := GetIn(records, kind, name, luck.birth);
    if found.Some? {
      DecodedOk(kind, name, records[Key(kind, name)], luck.birth);
      BuriedOk(found.value.stamp, luck);
      RecordSize(found.value.(stamp := Buried(found.value.stamp, luck.roll)));
    }
    hide Key, MacroText.Encode, MacroText.Decode, Utf8.Encode, RecordBytes, Buried, Born, AllClean;
  }

  // ------------------------------------------------------------------ how the stamp moves

  /** The record is one of the present format with tags its header can carry, and says this. */
  ghost predicate Holds(records: Records, kind: Kind, name: string, entry: Entry) {
    && EntryOk(entry) && AllClean(entry.tags) && entry.kind == kind && entry.name == name
    && Key(kind, name) in records && records[Key(kind, name)] == MacroText.Encode(entry)
  }

  predicate GoesThrough(records: Records, kind: Kind, name: string, op: Op, letters: set<char>) {
    match op
    case Write(entry, luck) => PutIn(records, entry, luck, letters).Ok?
    case Turn(active, luck) => SetActiveIn(records, kind, name, active, luck, letters).Some?
    case Delete(luck) => RemoveIn(records, kind, name, luck).Some?
  }

  predicate OpClean(op: Op) {
    op.Write? ==> AllClean(op.entry.tags)
  }

  /** One up, if there is room. */
  function Up(revision: nat): nat {
    if revision < 0xFFFF_FFFF_FFFF_FFFF then revision + 1 else revision
  }

  /** The stamp an operation leaves: one revision up if there is room, re-rolled if there is randomness and room,
      and a tombstone's exactly when a removal could do both. */
  ghost predicate Moved(before: Stamp, after: Stamp, op: Op) {
    var room := before.revision < 0xFFFF_FFFF_FFFF_FFFF;
    && after.revision == Up(before.revision)
    && after.tieBreaker == (if room && op.luck.roll.Some? then op.luck.roll.value else before.tieBreaker)
    && (after.deleted <==> op.Delete? && room && op.luck.roll.Some?)
  }

  lemma HeldIsRead(records: Records, kind: Kind, name: string, entry: Entry, birth: Option<Bytes>)
    requires Holds(records, kind, name, entry)
    ensures StoredIn(records, kind, name, birth) == Some(entry)
    ensures GetIn(records, kind, name, birth) == if entry.stamp.deleted then None else Some(entry)
  {
    MacroText.RoundTrip(entry, Born(birth));
    hide MacroText.Decode, MacroText.Encode, AllClean, Key, Born, EntryOk;
  }

  lemma OneMoves(records: Records, kind: Kind, name: string, entry: Entry, op: Op, letters: set<char>) returns (after: Entry)
    requires OpFits(op, kind, name) && OpClean(op) && Holds(records, kind, name, entry)
    ensures Holds(Done(records, kind, name, op, letters), kind, name, after)
    ensures if GoesThrough(records, kind, name, op, letters) then Moved(entry.stamp, after.stamp, op) else after == entry
  {
    hide Moved, PutIn, SetActiveIn, RemoveIn, Holds, EntryOk, AllClean, StoredIn, GetIn;
    after := entry;
    if GoesThrough(records, kind, name, op, letters) {
      match op
      case Write(written, luck) =>
        after := PutMoves(records, kind, name, entry, written, op, letters);
      case Turn(active, luck) =>
        after := TurnMoves(records, kind, name, entry, op, letters);
      case Delete(luck) =>
        after := DeleteMoves(records, kind, name, entry, op);
    }
  }

  lemma PutMoves(records: Records, kind: Kind, name: string, entry: Entry, written: Entry, op: Op, letters: set<char>)
    returns (after: Entry)
    requires Holds(records, kind, name, entry) && LuckOk(op.luck) && EntryOk(written) && AllClean(written.tags)
    requires written.kind == kind && written.name == name && PutIn(records, written, op.luck, letters).Ok? && !op.Delete?
    ensures Holds(PutIn(records, written, op.luck, letters).value, kind, name, after) && Moved(entry.stamp, after.stamp, op)
  {
    HeldIsRead(records, kind, name, entry, op.luck.birth);
    after := Rewritten(written, Some(entry), op.luck);
    PutWrites(records, written, op.luck, letters);
    RewrittenOk(written, Some(entry), op.luck);
    hide PutIn, MacroText.Encode, AllClean, Key, StoredIn, GetIn;
  }

  lemma TurnMoves(records: Records, kind: Kind, name: string, entry: Entry, op: Op, letters: set<char>) returns (after: Entry)
    requires Holds(records, kind, name, entry) && LuckOk(op.luck) && op.Turn?
    requires SetActiveIn(records, kind, name, op.active, op.luck, letters).Some?
    ensures Holds(SetActiveIn(records, kind, name, op.active, op.luck, letters).value, kind, name, after)
    ensures Moved(entry.stamp, after.stamp, op)
  {
    HeldIsRead(records, kind, name, entry, op.luck.birth);
    hide Moved, PutIn, MacroText.Encode, AllClean, Key, StoredIn, GetIn;
    after := PutMoves(records, kind, name, entry, entry.(active := op.active), op, letters);
  }

  lemma DeleteMoves(records: Records, kind: Kind, name: string, entry: Entry, op: Op) returns (after: Entry)
    requires Holds(records, kind, name, entry) && LuckOk(op.luck) && op.Delete?
    requires RemoveIn(records, kind, name, op.luck).Some?
    ensures Holds(RemoveIn(records, kind, name, op.luck).value, kind, name, after) && Moved(entry.stamp, after.stamp, op)
  {
    hide *;
    HeldIsRead(records, kind, name, entry, op.luck.birth);
    RemoveWrites(records, kind, name, op.luck);
    after := entry.(stamp := Buried(entry.stamp, op.luck.roll));
    HeldParts(records, kind, name, entry);
    BuriedMoves(entry.stamp, op);
    Restamped(records, kind, name, entry, after);
  }

  lemma HeldParts(records: Records, kind: Kind, name: string, entry: Entry)
    requires Holds(records, kind, name, entry)
    ensures StampOk(entry.stamp)
  {
  }

  /** A record that holds the entry again, with another stamp. */
  lemma Restamped(records: Records, kind: Kind, name: string, entry: Entry, after: Entry)
    requires Holds(records, kind, name, entry) && after == entry.(stamp := after.stamp) && StampOk(after.stamp)
    ensures Holds(records[Key(kind, name) := MacroText.Encode(after)], kind, name, after)
  {
    hide AllClean, MacroText.Encode, Key;
  }

  lemma BuriedMoves(stamp: Stamp, op: Op)
    requires StampOk(stamp) && !stamp.deleted && LuckOk(op.luck) && op.Delete?
    ensures StampOk(Buried(stamp, op.luck.roll)) && Moved(stamp, Buried(stamp, op.luck.roll), op)
  {
  }

  lemma RemoveWrites(records: Records, kind: Kind, name: string, luck: Luck)
    requires RemoveIn(records, kind, name, luck).Some?
    ensures var found := GetIn(records, kind, name, luck.birth);
            && found.Some?
            && RemoveIn(records, kind, name, luck).value
               == records[Key(kind, name) := MacroText.Encode(found.value.(stamp := Buried(found.value.stamp, luck.roll)))]
  {
    hide GetIn, MacroText.Encode, Key, Buried, Utf8.Encode;
  }

  /** How many operations of a run went through. */
  function Count(records: Records, kind: Kind, name: string, ops: seq<Op>, letters: set<char>): nat
    decreases |ops|
  {
    if ops == [] then 0
    else
      (if GoesThrough(records, kind, name, ops[0], letters) then 1 else 0)
      + Count(Done(records, kind, name, ops[0], letters), kind, name, ops[1..], letters)
  }

  /** Over every run on a macro, its revision counts the operations that went through, up to where 64 bits end. */
  lemma {:induction false} RevisionCounts(records: Records, kind: Kind, name: string, entry: Entry, ops: seq<Op>, letters: set<char>)
    returns (after: Entry)
    requires Holds(records, kind, name, entry)
    requires forall k :: 0 <= k < |ops| ==> OpFits(ops[k], kind, name) && OpClean(ops[k])
    ensures Holds(AllDone(records, kind, name, ops, letters), kind, name, after)
    ensures var sum := entry.stamp.revision + Count(records, kind, name, ops, letters);
            after.stamp.revision == if sum <= 0xFFFF_FFFF_FFFF_FFFF then sum else 0xFFFF_FFFF_FFFF_FFFF
    decreases |ops|
  {
    hide Done, OpFits, OpClean, GoesThrough;
    HeldFits(records, kind, name, entry);
    hide Holds;
    if ops == [] {
      after := entry;
    } else {
      var next := OneMoves(records, kind, name, entry, ops[0], letters);
      after := RevisionCounts(Done(records, kind, name, ops[0], letters), kind, name, next, ops[1..], letters);
    }
  }

  lemma HeldFits(records: Records, kind: Kind, name: string, entry: Entry)
    requires Holds(records, kind, name, entry)
    ensures entry.stamp.revision <= 0xFFFF_FFFF_FFFF_FFFF
  {
  }
}
