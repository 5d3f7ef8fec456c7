/** Writing patterns down so that they are read back as they were meant, and the one place where quoting
    does not decide: a class name inside a bracket expression. */
module GlobBrackets {
  import opened Wrappers
  import opened Glob
  import opened GlobCompile
  import Seqs

  // ------------------------------------------------------------------ writing a pattern

  /** No `:]` before the end. */
  predicate ClassName(name: string) {
    forall i :: 0 <= i < |name| - 1 ==> !(name[i] == ':' && name[i + 1] == ']')
  }

  predicate Writable(item: Item) {
    item.Class? ==> item.members != [] && forall i :: 0 <= i < |item.members| ==> WritableMember(item.members[i])
  }

  predicate WritableMember(m: Member) {
    m.Named? ==> ClassName(m.name)
  }

  function Live(text: string): seq<Marked> {
    seq(|text|, i requires 0 <= i < |text| => (text[i], true))
  }

  function WriteMember(m: Member): seq<Marked> {
    match m
    case MemberCh(c) => [('\\', true), (c, true)]
    case Range(lo, hi) => [(lo, false), ('-', true), (hi, false)]
    case Named(name) => [('[', true), (':', true)] + Live(name) + [(':', true), (']', true)]
  }

  function WriteMembers(members: seq<Member>): seq<Marked> {
    if members == [] then [] else WriteMember(members[0]) + WriteMembers(members[1..])
  }

  function WriteItem(item: Item): seq<Marked> {
    match item
    case Ch(c) => [(c, false)]
    case AnyCh => [('?', true)]
    case Star => [('*', true)]
    case Class(negated, members) =>
      [('[', true)] + (if negated then [('!', true)] else []) + WriteMembers(members) + [(']', true)]
  }

  function WriteItems(items: seq<Item>): seq<Marked> {
    if items == [] then [] else WriteItem(items[0]) + WriteItems(items[1..])
  }

  /** `part` stands in `chars` at `i`. */
  predicate StandsAt(chars: seq<Marked>, i: nat, part: seq<Marked>) {
    i + |part| <= |chars| && chars[i..i + |part|] == part
  }

  lemma StandsChars(chars: seq<Marked>, i: nat, part: seq<Marked>)
    requires StandsAt(chars, i, part)
    ensures forall k :: 0 <= k < |part| ==> chars[i + k] == part[k]
  {
    forall k | 0 <= k < |part|
      ensures chars[i + k] == part[k]
    {
      assert chars[i..i + |part|][k] == part[k];
    }
  }

  lemma StandsSplit(chars: seq<Marked>, i: nat, a: seq<Marked>, b: seq<Marked>)
    requires StandsAt(chars, i, a + b)
    ensures StandsAt(chars, i, a) && StandsAt(chars, i + |a|, b)
  {
    var whole := chars[i..i + |a| + |b|];
    assert whole == a + b;
    assert chars[i..i + |a|] == whole[..|a|];
    assert chars[i + |a|..i + |a| + |b|] == whole[|a|..];
  }

  // ------------------------------------------------------------------ reading it back

  /** `text` stands in `chars` at `i`, whatever its quoting. */
  predicate SpelledAt(chars: seq<Marked>, i: nat, text: string) {
    i + |text| <= |chars| && forall k :: i <= k < i + |text| ==> chars[k].0 == text[k - i]
  }

  lemma {:induction false} NameRead(chars: seq<Marked>, i: nat, name: string, soFar: string)
    requires ClassName(name) && SpelledAt(chars, i, name + ":]")
    ensures NameFrom(chars, i, soFar) == Some((soFar + name, i + |name| + 2))
    decreases |name|
  {
    var all := name + ":]";
    assert chars[i].0 == all[0] && chars[i + 1].0 == all[1];
    if name == [] {
      assert soFar + name == soFar;
    } else {
      Seqs.ConcatHead(name, ":]");
      forall k | 0 <= k < |name[1..]| - 1
        ensures !(name[1..][k] == ':' && name[1..][k + 1] == ']')
      {
        assert name[k + 1] == name[1..][k] && name[k + 2] == name[1..][k + 1];
      }
      NameRead(chars, i + 1, name[1..], soFar + [name[0]]);
      assert soFar + [name[0]] + name[1..] == soFar + name;
    }
  }

  lemma MemberRead(chars: seq<Marked>, i: nat, m: Member)
    requires WritableMember(m) && StandsAt(chars, i, WriteMember(m))
    ensures MemberAt(chars, i) == (m, i + |WriteMember(m)|)
    ensures chars[i] != (']', true) && chars[i] != ('!', true) && chars[i] != ('^', true)
  {
    StandsChars(chars, i, WriteMember(m));
    var part := WriteMember(m);
    assert chars[i + 0] == part[0] && chars[i + 1] == part[1];
    match m
    case MemberCh(c) =>
    case Range(lo, hi) =>
      assert chars[i + 2] == part[2];
    case Named(name) =>
      forall k | i + 2 <= k < i + 2 + |name + ":]"|
        ensures chars[k].0 == (name + ":]")[k - i - 2]
      {
        assert chars[i + (k - i)] == part[k - i];
      }
      NameRead(chars, i + 2, name, "");
      assert "" + name == name;
  }

  lemma {:induction false} MembersRead(chars: seq<Marked>, i: nat, members: seq<Member>, soFar: seq<Member>)
    requires forall k :: 0 <= k < |members| ==> WritableMember(members[k])
    requires StandsAt(chars, i, WriteMembers(members) + [(']', true)]) && soFar + members != []
    ensures MembersFrom(chars, i, soFar) == Some((soFar + members, i + |WriteMembers(members)| + 1))
    decreases |members|
  {
    hide MemberAt, WriteMember, WritableMember;
    StandsSplit(chars, i, WriteMembers(members), [(']', true)]);
    if members == [] {
      StandsChars(chars, i, [(']', true)]);
      assert chars[i + 0] == (']', true);
      assert soFar + members == soFar;
    } else {
      var first, rest := WriteMember(members[0]), WriteMembers(members[1..]);
      assert first + rest + [(']', true)] == first + (rest + [(']', true)]);
      StandsSplit(chars, i, first, rest + [(']', true)]);
      MemberRead(chars, i, members[0]);
      MembersRead(chars, i + |first|, members[1..], soFar + [members[0]]);
      assert soFar + [members[0]] + members[1..] == soFar + members;
    }
  }

  /** A bracket expression with any members, negated or not, can be written and is read back as that. */
  lemma ClassRead(chars: seq<Marked>, i: nat, item: Item)
    requires item.Class? && Writable(item) && StandsAt(chars, i, WriteItem(item))
    ensures ClassAt(chars, i) == Some((item, i + |WriteItem(item)|))
  {
    hide MembersFrom, WriteMembers, WriteMember, WritableMember;
    var bang := if item.negated then [('!', true)] else [];
    var tail := WriteMembers(item.members) + [(']', true)];
    assert WriteItem(item) == [('[', true)] + (bang + tail);
    StandsSplit(chars, i, [('[', true)], bang + tail);
    StandsSplit(chars, i + 1, bang, tail);
    if item.negated {
      StandsChars(chars, i + 1, bang);
      assert chars[i + 1 + 0] == ('!', true);
    } else {
      FirstMember(chars, i + 1, item.members);
    }
    MembersRead(chars, i + 1 + |bang|, item.members, []);
    assert [] + item.members == item.members;
  }

  lemma FirstMember(chars: seq<Marked>, i: nat, members: seq<Member>)
    requires members != [] && WritableMember(members[0])
    requires StandsAt(chars, i, WriteMembers(members) + [(']', true)])
    ensures !NegatesAt(chars, i)
  {
    hide MemberAt, WriteMember, WritableMember;
    var first, rest := WriteMember(members[0]), WriteMembers(members[1..]);
    assert first + rest + [(']', true)] == first + (rest + [(']', true)]);
    StandsSplit(chars, i, first, rest + [(']', true)]);
    MemberRead(chars, i, members[0]);
  }

  lemma ItemRead(chars: seq<Marked>, i: nat, item: Item)
    requires Writable(item) && StandsAt(chars, i, WriteItem(item))
    ensures i < |chars| && ItemAt(chars, i) == (item, i + |WriteItem(item)|)
  {
    hide ClassAt, WriteMembers;
    StandsChars(chars, i, WriteItem(item));
    assert chars[i + 0] == WriteItem(item)[0];
    if item.Class? {
      ClassRead(chars, i, item);
    }
  }

  lemma {:induction false} PiecesRead(chars: seq<Marked>, i: nat, items: seq<Item>)
    requires forall k :: 0 <= k < |items| ==> Writable(items[k])
    requires i <= |chars| && chars[i..] == WriteItems(items)
    ensures Pieces(chars, i) == items
    decreases |items|
  {
    hide ItemAt, WriteItem, Writable;
    if items == [] {
      assert i == |chars|;
    } else {
      var first, rest := WriteItem(items[0]), WriteItems(items[1..]);
      assert chars[i..i + |first|] == chars[i..][..|first|] == first;
      ItemRead(chars, i, items[0]);
      assert chars[i + |first|..] == chars[i..][|first|..] == rest;
      PiecesRead(chars, i + |first|, items[1..]);
    }
  }

  /** Every pattern can be written, and compiling what was written gives it back, adjacent stars made one. */
  lemma WrittenPatternCompiles(items: seq<Item>)
    requires forall k :: 0 <= k < |items| ==> Writable(items[k])
    ensures Collapsed(Pieces(WriteItems(items), 0)) == Collapsed(items)
  {
    PiecesRead(WriteItems(items), 0, items);
  }

  // ------------------------------------------------------------------ quoting inside brackets

  /** A live `[`, quoted text, a live `]`. */
  function Bracketed(text: string): seq<Marked> {
    [('[', true)] + seq(|text|, i requires 0 <= i < |text| => (text[i], false)) + [(']', true)]
  }

  function Singles(text: string): seq<Member> {
    seq(|text|, i requires 0 <= i < |text| => MemberCh(text[i]))
  }

  /** Something in the brackets, at `i`, that the parser reads as a name whatever its quoting. */
  predicate NameIn(chars: seq<Marked>, i: nat) {
    NamedAt(chars, i).Some? || SymbolAt(chars, i).Some?
  }

  lemma BracketedChars(text: string)
    ensures var chars := Bracketed(text);
            |chars| == |text| + 2 && chars[0] == ('[', true) && chars[|text| + 1] == (']', true)
            && forall i :: 1 <= i <= |text| ==> chars[i] == (text[i - 1], false)
  {
  }

  lemma {:induction false} PlainMembers(text: string, i: nat)
    requires 1 <= i <= |text| + 1 && text != []
    requires forall k :: i <= k <= |text| ==> !NameIn(Bracketed(text), k)
    ensures MembersFrom(Bracketed(text), i, Singles(text[..i - 1])) == Some((Singles(text), |text| + 2))
    decreases |text| + 1 - i
  {
    hide NamedAt, SymbolAt;
    var chars := Bracketed(text);
    BracketedChars(text);
    if i == |text| + 1 {
      assert text[..i - 1] == text;
    } else {
      assert !NameIn(chars, i);
      assert chars[i + 1] != ('-', true);
      assert MemberAt(chars, i) == (MemberCh(text[i - 1]), i + 1);
      assert Singles(text[..i]) == Singles(text[..i - 1]) + [MemberCh(text[i - 1])];
      PlainMembers(text, i + 1);
    }
  }

  /** Members already read stay read, and each further one takes at least a character. */
  lemma {:induction false} MembersGrow(chars: seq<Marked>, i: nat, soFar: seq<Member>)
    requires MembersFrom(chars, i, soFar).Some?
    ensures var (members, end) := MembersFrom(chars, i, soFar).value;
            soFar <= members && |members| - |soFar| <= end - 1 - i
    decreases |chars| - i
  {
    hide MemberAt;
    if !(chars[i] == (']', true) && soFar != []) {
      var (m, next) := MemberAt(chars, i);
      assert MemberAt(chars, i).1 > i;
      MembersGrow(chars, next, soFar + [m]);
    }
  }

  /** Up to the first name the members are the characters one by one. */
  lemma {:induction false} UpToName(text: string, i: nat, n: nat)
    requires 1 <= i <= n <= |text|
    requires forall k :: i <= k < n ==> !NameIn(Bracketed(text), k)
    ensures MembersFrom(Bracketed(text), i, Singles(text[..i - 1])) == MembersFrom(Bracketed(text), n, Singles(text[..n - 1]))
    decreases n - i
  {
    hide NamedAt, SymbolAt;
    var chars := Bracketed(text);
    BracketedChars(text);
    if i < n {
      assert !NameIn(chars, i);
      assert MemberAt(chars, i) == (MemberCh(text[i - 1]), i + 1);
      assert Singles(text[..i]) == Singles(text[..i - 1]) + [MemberCh(text[i - 1])];
      UpToName(text, i + 1, n);
    }
  }

  lemma FirstName(text: string, j: nat) returns (n: nat)
    requires 1 <= j <= |text| && NameIn(Bracketed(text), j)
    ensures 1 <= n <= |text| && NameIn(Bracketed(text), n)
    ensures forall k :: 1 <= k < n ==> !NameIn(Bracketed(text), k)
  {
    hide NamedAt, SymbolAt;
    n := 1;
    while !NameIn(Bracketed(text), n)
      invariant 1 <= n <= j
      invariant forall k :: 1 <= k < n ==> !NameIn(Bracketed(text), k)
      decreases j - n
    {
      n := n + 1;
    }
  }

  lemma SameAt<T>(a: seq<T>, b: seq<T>, i: nat)
    requires a <= b && i < |a|
    ensures a[i] == b[i]
  {
  }

  lemma NameSpoils(text: string, j: nat)
    requires 1 <= j <= |text| && NameIn(Bracketed(text), j)
    ensures ClassAt(Bracketed(text), 0) != Some((Class(false, Singles(text)), |text| + 2))
  {
    var chars := Bracketed(text);
    BracketedChars(text);
    var n := FirstName(text, j);
    assert Singles(text[..0]) == [];
    UpToName(text, 1, n);
    var soFar := Singles(text[..n - 1]);
    assert !chars[n].1;
    var (m, next) := MemberAt(chars, n);
    assert MembersFrom(chars, n, soFar) == MembersFrom(chars, next, soFar + [m]);
    assert m.Named? || next == n + 5;
    hide NamedAt, SymbolAt, MemberAt, MembersFrom;
    if ClassAt(chars, 0) == Some((Class(false, Singles(text)), |text| + 2)) {
      MembersGrow(chars, next, soFar + [m]);
      SameAt(soFar + [m], Singles(text), n - 1);
    }
  }

  /** Quoted text in a bracket expression is the set of its own characters unless it spells a class name, a
      collating symbol or an equivalence class, which are read as such however they were quoted. */
  lemma QuotedBracket(text: string)
    requires text != []
    ensures ClassAt(Bracketed(text), 0) == Some((Class(false, Singles(text)), |text| + 2))
       <==> forall i :: 1 <= i <= |text| ==> !NameIn(Bracketed(text), i)
  {
    hide NamedAt, SymbolAt, MembersFrom, MemberAt;
    var chars := Bracketed(text);
    BracketedChars(text);
    if forall i :: 1 <= i <= |text| ==> !NameIn(chars, i) {
      assert Singles(text[..0]) == [];
      PlainMembers(text, 1);
    } else {
      var j :| 1 <= j <= |text| && NameIn(chars, j);
      NameSpoils(text, j);
    }
  }

  /** `["[:alpha:]"]`, its inside quoted, is still the class of letters, and so for every name. */
  lemma QuotedNameIsANameStill(name: string)
    requires ClassName(name)
    ensures var text := "[:" + name + ":]";
            ClassAt(Bracketed(text), 0) == Some((Class(false, [Named(name)]), |text| + 2))
  {
    var text := "[:" + name + ":]";
    var chars, end := Bracketed(text), |text| + 1;
    BracketedChars(text);
    assert chars[1].0 == '[' && chars[2].0 == ':';
    forall k | 3 <= k < 3 + |name + ":]"|
      ensures chars[k].0 == (name + ":]")[k - 3]
    {
      assert chars[k].0 == text[k - 1];
    }
    NameRead(chars, 3, name, "");
    assert "" + name == name;
    assert MemberAt(chars, 1) == (Named(name), end);
    hide NamedAt, SymbolAt, MemberAt;
    assert [] + [Named(name)] == [Named(name)];
    assert MembersFrom(chars, end, [Named(name)]) == Some(([Named(name)], end + 1));
    assert MembersFrom(chars, 1, []) == MembersFrom(chars, end, [] + [Named(name)]);
  }
}
