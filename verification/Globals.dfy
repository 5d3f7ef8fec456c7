/** Lua's global names over three homes: the globals table itself, a table kept beside it, and the shell's
    variables. The metamethods run for names the globals table does not have. */
module Globals {
  import opened Wrappers
  import opened Luna
  import Lossless
  import Seqs
  import Utf8

  type Bytes = Utf8.Bytes

  datatype Homes = Homes(globals: map<VmValue, VmValue>, beside: map<VmValue, VmValue>, shell: map<string, string>)

  // ------------------------------------------------------------------ bytes as a name

  /** Each ill-formed run becomes one replacement character. */
  function Lossy(b: Bytes): string
    decreases |b|
  {
    if b == [] then []
    else if Utf8.First(b).Char? then [Utf8.First(b).c] + Lossy(b[Utf8.First(b).len..])
    else ['\U{FFFD}'] + Lossy(b[Lossless.IllLength(b)..])
  }

  /** A key as a name, when it is one a shell variable could have. */
  function AsName(key: VmValue): Option<string> {
    match key
    case VmString(s) => Some(Lossy(s))
    case _ => None
  }

  function NameKey(name: string): VmValue {
    VmString(Utf8.Encode(name))
  }

  // ------------------------------------------------------------------ the metamethods, as functions

  function IndexOf(h: Homes, key: VmValue): VmValue {
    match AsName(key)
    case None => VmNil
    case Some(name) =>
      if NameKey(name) in h.beside then h.beside[NameKey(name)]
      else if name in h.shell then VmString(Utf8.Encode(h.shell[name]))
      else VmNil
  }

  function NewIndex(h: Homes, key: VmValue, value: VmValue): Homes {
    match AsName(key)
    case None => h
    case Some(name) =>
      match value
      case VmString(text) =>
        h.(beside := Put(h.beside, NameKey(name), VmNil), shell := h.shell[name := Lossy(text)])
      case VmNil => h.(beside := Put(h.beside, NameKey(name), VmNil), shell := h.shell - {name})
      case other => h.(beside := Put(h.beside, NameKey(name), other), shell := h.shell - {name})
  }

  predicate InGlobals(h: Homes, key: VmValue) {
    Normal(key) in h.globals
  }

  /** What a script reads: the globals table first. */
  function Read(h: Homes, key: VmValue): VmValue {
    if InGlobals(h, key) then h.globals[Normal(key)] else IndexOf(h, key)
  }

  /** What a script's assignment does: a name the globals table has stays there. */
  function Write(h: Homes, key: VmValue, value: VmValue): Homes {
    if InGlobals(h, key) then h.(globals := Put(h.globals, key, value)) else NewIndex(h, key, value)
  }

  // ------------------------------------------------------------------ the metamethods

  /** The shell, as far as a global can see it. */
  class Shell {
    var variables: map<string, string>

    constructor ()
      ensures variables == map[]
    {
      variables := map[];
    }

    method Set(name: string, value: string)
      modifies this
      ensures variables == old(variables)[name := value]
    {
      variables := variables[name := value];
    }

    method Unset(name: string)
      modifies this
      ensures variables == old(variables) - {name}
    {
      variables := variables - {name};
    }
  }

  class Attached {
    const globals: VmTable
    const beside: VmTable
    const host: Shell

    ghost predicate Apart()
    {
      globals != beside
    }

    ghost function Now(): Homes
      reads globals, beside, host
    {
      Homes(globals.entries, beside.entries, host.variables)
    }

    constructor (globals: VmTable, host: Shell)
      ensures this.globals == globals && this.host == host && fresh(beside) && Apart()
      ensures Now() == Homes(globals.entries, map[], host.variables)
    {
      this.globals, this.host := globals, host;
      var kept := new VmTable();
      this.beside := kept;
    }

    method Index(key: VmValue) returns (answer: VmValue)
      ensures answer == IndexOf(Now(), key)
    {
      var name := AsName(key);
      if name.None? {
        return VmNil;
      }
      var k := NameKey(name.value);
      if k in beside.entries {
        return beside.entries[k];
      }
      if name.value in host.variables {
        return VmString(Utf8.Encode(host.variables[name.value]));
      }
      return VmNil;
    }

    method NewIndexed(key: VmValue, value: VmValue)
      requires Apart()
      modifies beside, host
      ensures Now() == NewIndex(old(Now()), key, value)
    {
      var name := AsName(key);
      if name.None? {
        return;
      }
      var k := NameKey(name.value);
      match value
      case VmString(text) =>
        beside.Set(k, VmNil);
        host.Set(name.value, Lossy(text));
      case VmNil =>
        beside.Set(k, VmNil);
        host.Unset(name.value);
      case other =>
        host.Unset(name.value);
        beside.Set(k, other);
    }

    method Assign(key: VmValue, value: VmValue)
      requires Apart()
      modifies globals, beside, host
      ensures Now() == Write(old(Now()), key, value)
    {
      if Normal(key) in globals.entries {
        globals.Set(key, value);
      } else {
        NewIndexed(key, value);
      }
    }
  }

  // ------------------------------------------------------------------ text and bytes

  /** Text comes through unharmed, and ill-formed bytes never do. */
  lemma {:induction false} LossyKeepsText(b: Bytes)
    ensures Utf8.Encode(Lossy(b)) == b <==> Utf8.Valid(b)
    ensures Utf8.Valid(b) ==> Lossy(b) == Utf8.Decode(b)
    decreases |b|
  {
    hide Utf8.First;
    if b != [] {
      hide Lossy, Utf8.Encode;
      if Utf8.First(b).Char? {
        var n := Utf8.First(b).len;
        LossyKeepsText(b[n..]);
        CharacterKept(b);
        SameFront(b[..n], Utf8.Encode(Lossy(b[n..])), b[n..]);
        assert b == b[..n] + b[n..];
      } else {
        IllIsNotKept(b);
      }
    }
  }

  lemma IllIsNotKept(b: Bytes)
    requires b != [] && !Utf8.First(b).Char?
    ensures Utf8.Encode(Lossy(b)) != b && !Utf8.Valid(b)
  {
    hide Utf8.First, Utf8.Encode, Utf8.Decode, Lossy;
    Utf8.DecodeEncode(Lossy(b));
  }

  lemma CharacterKept(b: Bytes)
    requires Utf8.First(b).Char?
    ensures Lossy(b) == [Utf8.First(b).c] + Lossy(b[Utf8.First(b).len..])
    ensures Utf8.Encode(Lossy(b)) == b[..Utf8.First(b).len] + Utf8.Encode(Lossy(b[Utf8.First(b).len..]))
  {
    Utf8.EncodedOfFirst(b);
    hide Utf8.First, Utf8.EncodeChar, Lossless.IllLength;
    var rest := Lossy(b[Utf8.First(b).len..]);
    Seqs.HeadTail(Utf8.First(b).c, rest);
  }

  lemma SameFront<T>(a: seq<T>, b: seq<T>, c: seq<T>)
    ensures a + b == a + c <==> b == c
  {
    if a + b == a + c {
      assert b == (a + b)[|a|..] && c == (a + c)[|a|..];
    }
  }

  /** The longest run that might still have become a character, and is none, becomes one replacement character,
      however many bytes it has. */
  lemma IllRunsBecomeOne(run: Bytes, rest: Bytes)
    requires run != [] && forall c :: !(Utf8.EncodeChar(c) <= run + rest)
    requires |run| == 1 || exists c :: run <= Utf8.EncodeChar(c)
    requires forall m, c :: |run| < m <= |run + rest| ==> !((run + rest)[..m] <= Utf8.EncodeChar(c))
    ensures Lossy(run + rest) == ['\U{FFFD}'] + Lossy(rest)
  {
    hide Utf8.First, Utf8.EncodeChar, Lossless.IllLength;
    var b := run + rest;
    if Utf8.First(b).Char? {
      Utf8.EncodedOfFirst(b);
    }
    Lossless.RunIsLongest(b);
    assert b[..|run|] == run && b[|run|..] == rest;
    assert Lossless.IllLength(b) == |run|;
  }

  lemma LossyOfText(text: string)
    ensures Lossy(Utf8.Encode(text)) == text
  {
    Utf8.DecodeEncode(text);
    LossyKeepsText(Utf8.Encode(text));
  }

  lemma NameKeysDiffer(name: string, other: string)
    ensures NameKey(name) == NameKey(other) ==> name == other
  {
    LossyOfText(name);
    LossyOfText(other);
    hide Lossy;
  }

  // ------------------------------------------------------------------ one home for a name

  /** A name is in at most one of the two homes outside the globals table, and what is kept beside it is neither
      nothing nor a string. */
  predicate Sound(h: Homes) {
    && (forall k :: k in h.beside ==>
          k.VmString? && Normal(k) == k && !h.beside[k].VmNil? && !h.beside[k].VmString?)
    && (forall name :: name in h.shell ==> NameKey(name) !in h.beside)
  }

  predicate InBeside(h: Homes, name: string) {
    NameKey(name) in h.beside
  }

  lemma PutBeside(entries: map<VmValue, VmValue>, name: string, value: VmValue)
    ensures Put(entries, NameKey(name), value)
         == if value == VmNil then entries - {NameKey(name)} else entries[NameKey(name) := value]
  {
  }

  /** Every assignment moves the name whole: to the shell a string, beside the globals anything else, and out of
      both for nil. */
  lemma WriteKeepsOneHome(h: Homes, key: VmValue, value: VmValue)
    requires Sound(h)
    ensures Sound(Write(h, key, value))
    ensures !InGlobals(h, key) && AsName(key).Some? ==>
              var name := AsName(key).value;
              var now := Write(h, key, value);
              && (name in now.shell <==> value.VmString?)
              && (InBeside(now, name) <==> !value.VmString? && !value.VmNil?)
              && !InGlobals(now, key)
  {
    if !InGlobals(h, key) && AsName(key).Some? {
      var name := AsName(key).value;
      PutBeside(h.beside, name, value);
      PutBeside(h.beside, name, VmNil);
      hide Put;
      forall other | other in Write(h, key, value).shell
        ensures NameKey(other) !in Write(h, key, value).beside
      {
        NameKeysDiffer(name, other);
      }
    }
  }

  /** What the shell can hold of a value: a string as text, anything else as it is. */
  function Kept(value: VmValue): VmValue {
    if value.VmString? then VmString(Utf8.Encode(Lossy(value.s))) else value
  }

  lemma KeptIsExact(value: VmValue)
    ensures Kept(value) == value <==> (value.VmString? ==> Utf8.Valid(value.s))
  {
    if value.VmString? {
      LossyKeepsText(value.s);
    }
  }

  /** Assigning to a name the globals table does not have: that name, however it is spelled, then reads as the
      value, and every other name as it did. */
  lemma ReadsLastWritten(h: Homes, key: VmValue, value: VmValue, other: VmValue)
    requires AsName(key).Some? && !InGlobals(h, key) && !InGlobals(h, other)
    ensures Read(Write(h, key, value), other)
         == if AsName(other) == AsName(key) then Kept(value) else Read(h, other)
  {
    var name := AsName(key).value;
    PutBeside(h.beside, name, value);
    PutBeside(h.beside, name, VmNil);
    hide Put, Lossy;
    if AsName(other).Some? {
      NameKeysDiffer(name, AsName(other).value);
    }
  }

  /** Assigning to a name the globals table has changes that alone; taking it out there uncovers what the other
      homes hold under it. */
  lemma GlobalsComeFirst(h: Homes, key: VmValue, value: VmValue, other: VmValue)
    requires InGlobals(h, key)
    ensures Read(Write(h, key, value), other)
         == if Normal(other) != Normal(key) || !Indexes(key) then Read(h, other)
            else if value == VmNil then IndexOf(h, other)
            else value
  {
  }

  /** Keys that are no strings are not kept at all. */
  lemma OnlyNamesAreKept(h: Homes, key: VmValue, value: VmValue)
    requires !InGlobals(h, key) && AsName(key).None?
    ensures Write(h, key, value) == h && Read(h, key) == VmNil
  {
  }

  // ------------------------------------------------------------------ runs

  datatype Assignment = Assignment(key: VmValue, value: VmValue)

  function AfterAll(h: Homes, run: seq<Assignment>): Homes {
    if run == [] then h else Write(AfterAll(h, run[..|run| - 1]), run[|run| - 1].key, run[|run| - 1].value)
  }

  /** The value last assigned to the name, or what was there before. */
  function LastAssigned(run: seq<Assignment>, name: string, before: VmValue): VmValue {
    if run == [] then before
    else if AsName(run[|run| - 1].key) == Some(name) then Kept(run[|run| - 1].value)
    else LastAssigned(run[..|run| - 1], name, before)
  }

  /** No name the run assigns is one the globals table has. */
  predicate OutsideGlobals(h: Homes, run: seq<Assignment>) {
    forall k :: 0 <= k < |run| ==> !InGlobals(h, run[k].key)
  }

  lemma {:induction false} GlobalsStand(h: Homes, run: seq<Assignment>)
    requires OutsideGlobals(h, run)
    ensures AfterAll(h, run).globals == h.globals
  {
    if run != [] {
      var most := run[..|run| - 1];
      assert forall k :: 0 <= k < |most| ==> most[k] == run[k];
      GlobalsStand(h, most);
      var last := run[|run| - 1];
      assert !InGlobals(AfterAll(h, most), last.key);
      hide Put, Lossy;
    }
  }

  /** Over every run of assignments to names the globals table does not have, each name reads as the value last
      assigned to it, and lives in at most one home. */
  lemma {:induction false} OneNamespace(h: Homes, run: seq<Assignment>, key: VmValue)
    requires Sound(h) && OutsideGlobals(h, run) && !InGlobals(h, key) && AsName(key).Some?
    ensures Read(AfterAll(h, run), key) == LastAssigned(run, AsName(key).value, Read(h, key))
    ensures Sound(AfterAll(h, run))
  {
    if run != [] {
      var most, last := run[..|run| - 1], run[|run| - 1];
      assert forall k :: 0 <= k < |most| ==> most[k] == run[k];
      OneNamespace(h, most, key);
      GlobalsStand(h, most);
      var before := AfterAll(h, most);
      assert !InGlobals(before, last.key) && !InGlobals(before, key);
      WriteKeepsOneHome(before, last.key, last.value);
      if AsName(last.key).Some? {
        ReadsLastWritten(before, last.key, last.value, key);
      } else {
        OnlyNamesAreKept(before, last.key, last.value);
      }
      hide Write, Read, Sound, Lossy;
    }
  }

  /** A write from the shell's own side is seen exactly when Lua holds nothing under the name. */
  lemma ShellWriteIsSeen(h: Homes, name: string, text: string, key: VmValue)
    requires AsName(key) == Some(name)
    ensures Read(h.(shell := h.shell[name := text]), key)
         == if InGlobals(h, key) || InBeside(h, name) then Read(h, key) else VmString(Utf8.Encode(text))
  {
  }
}
