/** What macros promise over their whole life. */
module MacroRuns {
  import opened Wrappers
  import opened Decimals
  import opened MacroText
  import opened Macros
  import opened Utf8

  // ------------------------------------------------------------------ stamps settle the same way on both ends

  lemma {:induction false} BytesOrdered(a: Bytes, b: Bytes)
    ensures a == b || BytesBelow(a, b) || BytesBelow(b, a)
    ensures !(BytesBelow(a, b) && BytesBelow(b, a)) && !BytesBelow(a, a)
  {
    if a != [] {
      assert a == [a[0]] + a[1..];
      BytesOrdered(a[1..], if b == [] then [] else b[1..]);
    }
    if b != [] {
      assert b == [b[0]] + b[1..];
    }
    if a == b && a != [] {
      BytesOrdered(a[1..], a[1..]);
    }
  }

  function Mirrored(verdict: Verdict): Verdict {
    match verdict case Agreed => Agreed case Ours => Theirs case Theirs => Ours
  }

  /** Whichever end asks, the same copy survives. */
  lemma SettleMirrors(ours: Option<Stamp>, theirs: Option<Stamp>)
    ensures Settle(ours, theirs) == Mirrored(Settle(theirs, ours))
  {
    if ours.Some? && theirs.Some? {
      BytesOrdered(ours.value.tieBreaker, theirs.value.tieBreaker);
      hide BytesBelow;
    }
  }

  /** A write or a removal beats the copy it was made from on the next sync, exactly when that copy's revision
      can still go up. */
  lemma ChangeWins(before: Stamp, roll: Option<Bytes>)
    requires StampOk(before)
    ensures WinsOver(Advanced(before.(deleted := false), roll), before) <==> before.revision < U64_MAX
    ensures !before.deleted ==> (WinsOver(Buried(before, roll), before) <==> before.revision < U64_MAX)
  {
    BytesOrdered(before.tieBreaker, before.tieBreaker);
    hide BytesBelow;
  }

  // ------------------------------------------------------------------ one operation

  lemma KeysDiffer(kind: Kind, name: string, other: Kind, another: string)
    ensures Key(kind, name) == Key(other, another) ==> kind == other && name == another
  {
    var (a, b) := (|Word(kind)|, |Word(other)|);
    assert Key(kind, name)[a] == '/' && Key(other, another)[b] == '/';
    NoSlash(kind);
    NoSlash(other);
    WordsDiffer(kind, other);
    hide Word;
    if a < b {
      assert Key(other, another)[a] == Word(other)[a];
    } else if b < a {
      assert Key(kind, name)[b] == Word(kind)[b];
    } else {
      assert Key(kind, name)[..a] == Word(kind) && Key(other, another)[..a] == Word(other);
      assert Key(kind, name)[a + 1..] == name && Key(other, another)[a + 1..] == another;
    }
  }

  lemma NoSlash(kind: Kind)
    ensures forall k :: 0 <= k < |Word(kind)| ==> Word(kind)[k] != '/'
  {
    match kind
    case Alias =>
    case Abbrev =>
    case Func =>
    case Program =>
    case Variable =>
  }

  lemma WordsDiffer(kind: Kind, other: Kind)
    ensures Word(kind) == Word(other) ==> kind == other
  {
    assert Word(Abbrev)[0] != Word(Program)[0];
    assert |Word(Alias)| == 5 && |Word(Abbrev)| == 6 && |Word(Func)| == 4 && |Word(Program)| == 6 && |Word(Variable)| == 3;
  }

  lemma DecodedOk(kind: Kind, name: string, stored: string, birth: Option<Bytes>)
    requires birth.Some? ==> |birth.value| == 16
    ensures EntryOk(MacroText.Decode(kind, name, stored, Born(birth)))
    ensures AllClean(MacroText.Decode(kind, name, stored, Born(birth)).tags)
  {
    DecodedTagsAreClean(kind, name, stored, Born(birth));
    hide SplitOn, AllClean, NonEmpty;
  }

  /** Which stamp a headerless record is given shows in nothing but its stamp, and never as a deletion. */
  lemma BirthHardlyShows(kind: Kind, name: string, stored: string, birth: Option<Bytes>, other: Option<Bytes>)
    ensures var (a, b) := (MacroText.Decode(kind, name, stored, Born(birth)), MacroText.Decode(kind, name, stored, Born(other)));
            a == b.(stamp := a.stamp) && a.stamp.deleted == b.stamp.deleted
  {
    hide SplitOn, NonEmpty, Unpaired;
  }

  /** A write that goes through: the record is the entry, made when the first one was, stamped past what was
      there and no longer deleted; and no other record moved. */
  lemma PutReadsBack(records: Records, entry: Entry, luck: Luck, letters: set<char>, birth: Option<Bytes>)
    requires EntryOk(entry) && LuckOk(luck) && PutIn(records, entry, luck, letters).Ok?
    ensures var now := PutIn(records, entry, luck, letters).value;
            var before := StoredIn(records, entry.kind, entry.name, luck.birth);
            && Key(entry.kind, entry.name) in now
            && StoredIn(now, entry.kind, entry.name, birth).value.created
               == (if before.Some? then before.value.created else entry.created)
            && (AllClean(entry.tags) ==>
                  && StoredIn(now, entry.kind, entry.name, birth) == Some(Rewritten(entry, before, luck))
                  && GetIn(now, entry.kind, entry.name, birth) == Some(Rewritten(entry, before, luck)))
  {
    var before := StoredIn(records, entry.kind, entry.name, luck.birth);
    if before.Some? {
      DecodedOk(entry.kind, entry.name, records[Key(entry.kind, entry.name)], luck.birth);
    }
    var record := Rewritten(entry, before, luck);
    RewrittenOk(entry, before, luck);
    FrontFieldsReadBack(record, Born(birth));
    MacroText.RoundTrip(record, Born(birth));
    hide MacroText.Decode, MacroText.Encode, AllClean, ValidName, Rewritten, Key, Born;
  }

  lemma RewrittenOk(entry: Entry, before: Option<Entry>, luck: Luck)
    requires EntryOk(entry) && LuckOk(luck) && (before.Some? ==> EntryOk(before.value))
    ensures var record := Rewritten(entry, before, luck);
            && EntryOk(record) && record.kind == entry.kind && record.name == entry.name && record.tags == entry.tags
            && record.body == entry.body && record.active == entry.active && !record.stamp.deleted
            && record.created == (if before.Some? then before.value.created else entry.created)
  {
  }

  /** A removal that answers true has removed the macro exactly when its revision could go up and there was
      randomness to roll: otherwise it is still there to be read, and nobody was told. */
  lemma RemovalHides(records: Records, kind: Kind, name: string, luck: Luck, birth: Option<Bytes>)
    requires LuckOk(luck) && RemoveIn(records, kind, name, luck).Some?
    ensures var now := RemoveIn(records, kind, name, luck).value;
            var entry := GetIn(records, kind, name, luck.birth).value;
            && StoredIn(now, kind, name, birth) == Some(entry.(stamp := Buried(entry.stamp, luck.roll)))
            && (GetIn(now, kind, name, birth).None? <==> CanAdvance(entry.stamp, luck.roll))
  {
    var entry := GetIn(records, kind, name, luck.birth).value;
    DecodedOk(kind, name, records[Key(kind, name)], luck.birth);
    var record := entry.(stamp := Buried(entry.stamp, luck.roll));
    BuriedOk(entry.stamp, luck);
    DecodedNamed(kind, name, records[Key(kind, name)], luck.birth);
    MacroText.RoundTrip(record, Born(birth));
    hide MacroText.Decode, MacroText.Encode, AllClean, Key, Born, Buried;
  }

  lemma BuriedOk(stamp: Stamp, luck: Luck)
    requires StampOk(stamp) && LuckOk(luck)
    ensures StampOk(Buried(stamp, luck.roll))
    ensures !stamp.deleted ==> (Buried(stamp, luck.roll).deleted <==> CanAdvance(stamp, luck.roll))
  {
  }

  lemma DecodedNamed(kind: Kind, name: string, stored: string, birth: Option<Bytes>)
    ensures MacroText.Decode(kind, name, stored, Born(birth)).kind == kind
    ensures MacroText.Decode(kind, name, stored, Born(birth)).name == name
  {
    hide SplitOn, NonEmpty;
  }

  /** What is stored under one name and kind does not touch any other. */
  lemma OthersStand(records: Records, entry: Entry, luck: Luck, letters: set<char>, kind: Kind, name: string, birth: Option<Bytes>)
    requires kind != entry.kind || name != entry.name
    ensures PutIn(records, entry, luck, letters).Ok?
        ==> StoredIn(PutIn(records, entry, luck, letters).value, kind, name, birth) == StoredIn(records, kind, name, birth)
    ensures RemoveIn(records, entry.kind, entry.name, luck).Some?
        ==> StoredIn(RemoveIn(records, entry.kind, entry.name, luck).value, kind, name, birth)
            == StoredIn(records, kind, name, birth)
  {
    KeysDiffer(kind, name, entry.kind, entry.name);
    hide MacroText.Decode, MacroText.Encode, Key, Born, Buried, Rewritten, ValidName;
  }

  // ------------------------------------------------------------------ runs

  datatype Op = Write(entry: Entry, luck: Luck) | Turn(active: bool, luck: Luck) | Delete(luck: Luck)

  /** The widths and names an operation is given are right, whatever its tags. */
  predicate OpFits(op: Op, kind: Kind, name: string) {
    LuckOk(op.luck) && (op.Write? ==> op.entry.kind == kind && op.entry.name == name && EntryOk(op.entry))
  }

  function Done(records: Records, kind: Kind, name: string, op: Op, letters: set<char>): Records {
    match op
    case Write(entry, luck) =>
      (match PutIn(records, entry, luck, letters) case Ok(now) => now case Err(_) => records)
    case Turn(active, luck) =>
      (match SetActiveIn(records, kind, name, active, luck, letters) case Some(now) => now case None => records)
    case Delete(luck) =>
      (match RemoveIn(records, kind, name, luck) case Some(now) => now case None => records)
  }

  function AllDone(records: Records, kind: Kind, name: string, ops: seq<Op>, letters: set<char>): Records
    decreases |ops|
  {
    if ops == [] then records else AllDone(Done(records, kind, name, ops[0], letters), kind, name, ops[1..], letters)
  }

  /** What a reader is shown. */
  datatype View = Gone | Held(body: string, tags: seq<string>, active: bool)

  function Seen(entry: Entry): View {
    Held(entry.body, entry.tags, entry.active)
  }

  function ViewOf(records: Records, kind: Kind, name: string): View {
    match GetIn(records, kind, name, None)
    case None => Gone
    case Some(entry) => Seen(entry)
  }

  /** What a record shows once it is written: itself, unless its tags spoil the header it is written under, and
      then whatever that header says. */
  function Carried(record: Entry): View {
    if AllClean(record.tags) then Seen(record)
    else
      var told := MacroText.Decode(record.kind, record.name, MacroText.Encode(record), Born(None));
      if told.stamp.deleted then Gone else Seen(told)
  }

  /** What should be shown after an operation, if it went through. */
  function Shown(view: View, records: Records, kind: Kind, name: string, op: Op, letters: set<char>): View {
    match op
    case Write(entry, luck) =>
      if PutIn(records, entry, luck, letters).Ok?
      then Carried(Rewritten(entry, StoredIn(records, kind, name, luck.birth), luck)) else view
    case Turn(active, luck) =>
      if SetActiveIn(records, kind, name, active, luck, letters).Some? && view.Held? then view.(active := active) else view
    case Delete(luck) =>
      if RemoveIn(records, kind, name, luck).Some? && CanAdvance(GetIn(records, kind, name, luck.birth).value.stamp, luck.roll)
      then Gone else view
  }

  function AllShown(view: View, records: Records, kind: Kind, name: string, ops: seq<Op>, letters: set<char>): View
    decreases |ops|
  {
    if ops == [] then view
    else
      AllShown(Shown(view, records, kind, name, ops[0], letters),
               Done(records, kind, name, ops[0], letters), kind, name, ops[1..], letters)
  }

  lemma SameView(records: Records, kind: Kind, name: string, birth: Option<Bytes>, other: Option<Bytes>)
    ensures var (a, b) := (GetIn(records, kind, name, birth), GetIn(records, kind, name, other));
            && (a.Some? <==> b.Some?)
            && (a.Some? ==> a.value == b.value.(stamp := a.value.stamp) && !a.value.stamp.deleted)
  {
    if Key(kind, name) in records {
      BirthHardlyShows(kind, name, records[Key(kind, name)], birth, other);
    }
    hide MacroText.Decode, Key, Born;
  }

  lemma OneShown(records: Records, kind: Kind, name: string, op: Op, letters: set<char>)
    requires OpFits(op, kind, name)
    ensures ViewOf(Done(records, kind, name, op, letters), kind, name)
         == Shown(ViewOf(records, kind, name), records, kind, name, op, letters)
  {
    hide PutIn, GetIn, RemoveIn, StoredIn, Rewritten, CanAdvance, AllClean, EntryOk, Buried;
    match op
    case Write(entry, luck) =>
      if PutIn(records, entry, luck, letters).Ok? {
        WriteShown(records, entry, luck, letters);
      }
    case Turn(active, luck) =>
      if SetActiveIn(records, kind, name, active, luck, letters).Some? {
        TurnShown(records, kind, name, active, luck, letters);
      }
    case Delete(luck) =>
      if RemoveIn(records, kind, name, luck).Some? {
        SameView(records, kind, name, luck.birth, None);
        DeleteShown(records, kind, name, luck);
      }
  }

  lemma WriteShown(records: Records, entry: Entry, luck: Luck, letters: set<char>)
    requires EntryOk(entry) && LuckOk(luck) && PutIn(records, entry, luck, letters).Ok?
    ensures var record := Rewritten(entry, StoredIn(records, entry.kind, entry.name, luck.birth), luck);
            && ViewOf(PutIn(records, entry, luck, letters).value, entry.kind, entry.name) == Carried(record)
            && (AllClean(entry.tags) ==> Carried(record) == Held(entry.body, entry.tags, entry.active))
  {
    PutReadsBack(records, entry, luck, letters, None);
    PutWrites(records, entry, luck, letters);
    hide PutIn, AllClean, EntryOk, MacroText.Decode, MacroText.Encode, Key, Born, Advanced;
  }

  lemma PutWrites(records: Records, entry: Entry, luck: Luck, letters: set<char>)
    requires PutIn(records, entry, luck, letters).Ok?
    ensures var key := Key(entry.kind, entry.name);
            var now := PutIn(records, entry, luck, letters).value;
            && key in now
            && now[key] == MacroText.Encode(Rewritten(entry, StoredIn(records, entry.kind, entry.name, luck.birth), luck))
  {
    hide MacroText.Decode, MacroText.Encode, Key, Born, Rewritten, ValidName;
  }

  lemma TurnShown(records: Records, kind: Kind, name: string, active: bool, luck: Luck, letters: set<char>)
    requires LuckOk(luck) && SetActiveIn(records, kind, name, active, luck, letters).Some?
    ensures ViewOf(records, kind, name).Held?
    ensures ViewOf(SetActiveIn(records, kind, name, active, luck, letters).value, kind, name)
         == ViewOf(records, kind, name).(active := active)
  {
    var entry := GetIn(records, kind, name, luck.birth).value;
    DecodedOk(kind, name, records[Key(kind, name)], luck.birth);
    DecodedNamed(kind, name, records[Key(kind, name)], luck.birth);
    SameView(records, kind, name, luck.birth, None);
    assert EntryOk(entry.(active := active));
    hide PutIn, GetIn, AllClean, EntryOk, MacroText.Decode, Key, Born;
    WriteShown(records, entry.(active := active), luck, letters);
  }

  lemma DeleteShown(records: Records, kind: Kind, name: string, luck: Luck)
    requires LuckOk(luck) && RemoveIn(records, kind, name, luck).Some?
    ensures GetIn(records, kind, name, luck.birth).Some?
    ensures ViewOf(RemoveIn(records, kind, name, luck).value, kind, name)
         == if CanAdvance(GetIn(records, kind, name, luck.birth).value.stamp, luck.roll) then Gone
            else Seen(GetIn(records, kind, name, luck.birth).value)
  {
    RemovalHides(records, kind, name, luck, None);
    hide RemoveIn, Buried, CanAdvance, MacroText.Decode, Key, Born;
  }

  /** Over every run of writes, switches and removals on one name, a reader is shown the body and tags last
      written, as the record carries them, and the switch last set, and nothing once a removal has buried the
      record. */
  lemma {:induction false} ReadsWhatWasLastDone(records: Records, kind: Kind, name: string, ops: seq<Op>, letters: set<char>)
    requires forall k :: 0 <= k < |ops| ==> OpFits(ops[k], kind, name)
    ensures ViewOf(AllDone(records, kind, name, ops, letters), kind, name)
         == AllShown(ViewOf(records, kind, name), records, kind, name, ops, letters)
    decreases |ops|
  {
    hide Done, Shown, ViewOf, OpFits;
    if ops != [] {
      OneShown(records, kind, name, ops[0], letters);
      ReadsWhatWasLastDone(Done(records, kind, name, ops[0], letters), kind, name, ops[1..], letters);
    }
  }

  /** When the macro was made, as the store has it. */
  function MadeOn(records: Records, kind: Kind, name: string): Option<int> {
    match StoredIn(records, kind, name, None)
    case None => None
    case Some(entry) => Some(entry.created)
  }

  lemma OneKeepsTheDay(records: Records, kind: Kind, name: string, op: Op, letters: set<char>)
    requires OpFits(op, kind, name)
    ensures MadeOn(Done(records, kind, name, op, letters), kind, name)
         == if MadeOn(records, kind, name).None? && op.Write? && PutIn(records, op.entry, op.luck, letters).Ok?
            then Some(op.entry.created) else MadeOn(records, kind, name)
  {
    hide PutIn, RemoveIn, Rewritten, CanAdvance, AllClean, EntryOk, Buried, MacroText.Decode, MacroText.Encode, Key, Born;
    if Key(kind, name) in records {
      BirthHardlyShows(kind, name, records[Key(kind, name)], op.luck.birth, None);
      DecodedOk(kind, name, records[Key(kind, name)], op.luck.birth);
      DecodedNamed(kind, name, records[Key(kind, name)], op.luck.birth);
    }
    match op
    case Write(entry, luck) =>
      if PutIn(records, entry, luck, letters).Ok? {
        PutReadsBack(records, entry, luck, letters, None);
      }
    case Turn(active, luck) =>
      if SetActiveIn(records, kind, name, active, luck, letters).Some? {
        var entry := GetIn(records, kind, name, luck.birth).value.(active := active);
        SwitchFits(GetIn(records, kind, name, luck.birth).value, active);
        PutReadsBack(records, entry, luck, letters, None);
      }
    case Delete(luck) =>
      if RemoveIn(records, kind, name, luck).Some? {
        RemovalHides(records, kind, name, luck, None);
        RemovedWasThere(records, kind, name, luck);
      }
  }

  lemma SwitchFits(entry: Entry, active: bool)
    requires EntryOk(entry)
    ensures EntryOk(entry.(active := active))
  {
  }

  lemma RemovedWasThere(records: Records, kind: Kind, name: string, luck: Luck)
    requires RemoveIn(records, kind, name, luck).Some?
    ensures GetIn(records, kind, name, luck.birth).Some?
  {
    hide GetIn;
  }

  /** Over every run, the day a macro was first made stays with it: rewriting it, switching it and even removing
      it and writing it anew never moves that day. */
  lemma {:induction false} MadeOnStays(records: Records, kind: Kind, name: string, ops: seq<Op>, letters: set<char>)
    requires forall k :: 0 <= k < |ops| ==> OpFits(ops[k], kind, name)
    ensures MadeOn(records, kind, name).Some?
        ==> MadeOn(AllDone(records, kind, name, ops, letters), kind, name) == MadeOn(records, kind, name)
    decreases |ops|
  {
    hide Done, MadeOn, OpFits, PutIn;
    if ops != [] {
      OneKeepsTheDay(records, kind, name, ops[0], letters);
      MadeOnStays(Done(records, kind, name, ops[0], letters), kind, name, ops[1..], letters);
    }
  }
}
