/** The life of a macro: stored, rewritten, switched off and on, and removed by a tombstone that keeps its
    place when machines sync. */
module Macros {
  import opened Wrappers
  import opened Decimals
  import opened Utf8
  import opened MacroText

  const MAX_VALUE := 1024 * 1024
  const MAX_KEY := 1024

  /** What the world lends one operation: sixteen random bytes for a stamp that is born, sixteen for one that
      moves, and whether the store's transaction commits. */
  datatype Luck = Luck(birth: Option<Bytes>, roll: Option<Bytes>, commits: bool)

  predicate LuckOk(luck: Luck) {
    (luck.birth.Some? ==> |luck.birth.value| == 16) && (luck.roll.Some? ==> |luck.roll.value| == 16)
  }

  datatype Refused = BadName | EmptyKey | KeyTooLong | ValueTooLong | NotCommitted

  type Records = map<string, string>

  // ------------------------------------------------------------------ stamps

  /** A stamp that could not be rolled loses every comparison. */
  function Born(birth: Option<Bytes>): Stamp {
    match birth
    case None => Stamp(0, false, seq(16, _ => 0))
    case Some(bytes) => Stamp(1, false, bytes)
  }

  predicate CanAdvance(stamp: Stamp, roll: Option<Bytes>) {
    stamp.revision < U64_MAX && roll.Some?
  }

  /** Up one revision with a fresh tie-breaker, as far as that goes: a revision at its limit moves nothing, and
      with no randomness the revision alone moves. */
  function Advanced(stamp: Stamp, roll: Option<Bytes>): Stamp {
    if stamp.revision == U64_MAX then stamp
    else if roll.None? then stamp.(revision := stamp.revision + 1)
    else stamp.(revision := stamp.revision + 1, tieBreaker := roll.value)
  }

  function Buried(stamp: Stamp, roll: Option<Bytes>): Stamp {
    if CanAdvance(stamp, roll) then Advanced(stamp, roll).(deleted := true) else Advanced(stamp, roll)
  }

  predicate BytesBelow(a: Bytes, b: Bytes) {
    b != [] && (a == [] || a[0] < b[0] || (a[0] == b[0] && BytesBelow(a[1..], b[1..])))
  }

  predicate WinsOver(a: Stamp, b: Stamp) {
    || a.revision > b.revision
    || (a.revision == b.revision && a.deleted && !b.deleted)
    || (a.revision == b.revision && a.deleted == b.deleted && BytesBelow(b.tieBreaker, a.tieBreaker))
  }

  datatype Verdict = Agreed | Ours | Theirs

  function Settle(ours: Option<Stamp>, theirs: Option<Stamp>): Verdict {
    if ours == theirs then Agreed
    else if theirs.None? then Ours
    else if ours.None? then Theirs
    else if WinsOver(theirs.value, ours.value) then Theirs
    else Ours
  }

  // ------------------------------------------------------------------ the store, as functions

  function Word(kind: Kind): string {
    match kind
    case Alias => "alias"
    case Abbrev => "abbrev"
    case Func => "func"
    case Program => "script"
    case Variable => "var"
  }

  function Key(kind: Kind, name: string): string {
    Word(kind) + "/" + name
  }

  /** `letters` are the alphanumeric characters. */
  predicate ValidName(name: string, letters: set<char>) {
    && name != "" && |Utf8.Encode(name)| <= 128 && name[0] != '-'
    && forall k :: 0 <= k < |name| ==> name[k] in letters || name[k] in "_-.+:@,%"
  }

  function SetIn(records: Records, key: string, value: string, commits: bool): Result<Records, Refused> {
    if key == "" then Err(EmptyKey)
    else if |Utf8.Encode(key)| > MAX_KEY then Err(KeyTooLong)
    else if |Utf8.Encode(value)| > MAX_VALUE then Err(ValueTooLong)
    else if !commits then Err(NotCommitted)
    else Ok(records[key := value])
  }

  /** The record as it is, tombstones and all. */
  function StoredIn(records: Records, kind: Kind, name: string, birth: Option<Bytes>): Option<Entry> {
    if Key(kind, name) in records then Some(MacroText.Decode(kind, name, records[Key(kind, name)], Born(birth))) else None
  }

  function GetIn(records: Records, kind: Kind, name: string, birth: Option<Bytes>): Option<Entry> {
    var stored := StoredIn(records, kind, name, birth);
    if stored.Some? && stored.value.stamp.deleted then None else stored
  }

  /** What a write leaves: made when the first one was, and stamped past what was there. */
  function Rewritten(entry: Entry, before: Option<Entry>, luck: Luck): Entry {
    var stamp := if before.Some? then before.value.stamp else entry.stamp;
    entry.(created := if before.Some? then before.value.created else entry.created,
           stamp := Advanced(stamp.(deleted := false), luck.roll))
  }

  function PutIn(records: Records, entry: Entry, luck: Luck, letters: set<char>): Result<Records, Refused> {
    if !ValidName(entry.name, letters) then Err(BadName)
    else
      var before := StoredIn(records, entry.kind, entry.name, luck.birth);
      SetIn(records, Key(entry.kind, entry.name), MacroText.Encode(Rewritten(entry, before, luck)), luck.commits)
  }

  function SetActiveIn(records: Records, kind: Kind, name: string, active: bool, luck: Luck, letters: set<char>)
    : Option<Records>
  {
    match GetIn(records, kind, name, luck.birth)
    case None => None
    case Some(entry) =>
      match PutIn(records, entry.(active := active), luck, letters)
      case Err(_) => None
      case Ok(now) => Some(now)
  }

  function RemoveIn(records: Records, kind: Kind, name: string, luck: Luck): Option<Records> {
    match GetIn(records, kind, name, luck.birth)
    case None => None
    case Some(entry) =>
      match SetIn(records, Key(kind, name), MacroText.Encode(entry.(stamp := Buried(entry.stamp, luck.roll))), luck.commits)
      case Err(_) => None
      case Ok(now) => Some(now)
  }

  // ------------------------------------------------------------------ the store, as it is written to

  class Store {
    var records: Records

    constructor ()
      ensures records == map[]
    {
      records := map[];
    }

    method Set(key: string, value: string, commits: bool) returns (r: Result<(), Refused>)
      modifies this
      ensures match SetIn(old(records), key, value, commits)
              case Ok(now) => r == Ok(()) && records == now
              case Err(e) => r == Err(e) && records == old(records)
    {
      if key == "" {
        return Err(EmptyKey);
      }
      if |Utf8.Encode(key)| > MAX_KEY {
        return Err(KeyTooLong);
      }
      if |Utf8.Encode(value)| > MAX_VALUE {
        return Err(ValueTooLong);
      }
      if !commits {
        return Err(NotCommitted);
      }
      records := records[key := value];
      return Ok(());
    }

    method Stored(kind: Kind, name: string, birth: Option<Bytes>) returns (r: Option<Entry>)
      ensures r == StoredIn(records, kind, name, birth)
    {
      var key := Key(kind, name);
      if key !in records {
        return None;
      }
      return Some(MacroText.Decode(kind, name, records[key], Born(birth)));
    }

    method Get(kind: Kind, name: string, birth: Option<Bytes>) returns (r: Option<Entry>)
      ensures r == GetIn(records, kind, name, birth)
    {
      var stored := Stored(kind, name, birth);
      if stored.Some? && stored.value.stamp.deleted {
        return None;
      }
      return stored;
    }

    method Put(entry: Entry, luck: Luck, letters: set<char>) returns (r: Result<(), Refused>)
      modifies this
      ensures match PutIn(old(records), entry, luck, letters)
              case Ok(now) => r == Ok(()) && records == now
              case Err(e) => r == Err(e) && records == old(records)
    {
      hide ValidName, SetIn, StoredIn, Advanced;
      if !ValidName(entry.name, letters) {
        return Err(BadName);
      }
      var before := Stored(entry.kind, entry.name, luck.birth);
      var created := if before.Some? then before.value.created else entry.created;
      var stamp := if before.Some? then before.value.stamp else entry.stamp;
      stamp := stamp.(deleted := false);
      stamp := Advanced(stamp, luck.roll);
      var record := entry.(created := created, stamp := stamp);
      r := Set(Key(entry.kind, entry.name), MacroText.Encode(record), luck.commits);
    }

    method SetActive(kind: Kind, name: string, active: bool, luck: Luck, letters: set<char>) returns (r: Option<bool>)
      modifies this
      ensures match SetActiveIn(old(records), kind, name, active, luck, letters)
              case Some(now) => r == Some(active) && records == now
              case None => r == None && records == old(records)
    {
      hide PutIn, GetIn;
      var entry := Get(kind, name, luck.birth);
      if entry.None? {
        return None;
      }
      var put := Put(entry.value.(active := active), luck, letters);
      if put.Err? {
        return None;
      }
      return Some(active);
    }

    /** Answers whether it was there and the write went through, and not whether it is gone. */
    method Remove(kind: Kind, name: string, luck: Luck) returns (r: bool)
      modifies this
      ensures match RemoveIn(old(records), kind, name, luck)
              case Some(now) => r && records == now
              case None => !r && records == old(records)
    {
      hide GetIn, SetIn, Buried;
      var entry := Get(kind, name, luck.birth);
      if entry.None? {
        return false;
      }
      var stamp := Buried(entry.value.stamp, luck.roll);
      var written := Set(Key(kind, name), MacroText.Encode(entry.value.(stamp := stamp)), luck.commits);
      return written.Ok?;
    }
  }
}
