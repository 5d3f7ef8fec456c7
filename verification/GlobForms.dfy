/** Every form a bracket expression is written in, and exactly which names it accepts; and what else in a pattern
    stands for one character. */
module GlobForms {
  import opened Wrappers
  import opened Glob
  import opened GlobCompile
  import opened GlobBrackets
  import Seqs

  // ------------------------------------------------------------------ bracket expressions as they are written

  /** Between the brackets: a character, plain, quoted or after a backslash; a range; a class by name; and a
      collating symbol or an equivalence class of one character. */
  datatype Part =
    | Plain(c: char)
    | Quoted(c: char)
    | Escaped(c: char)
    | Span(lo: Marked, hi: Marked)
    | ClassOf(name: string)
    | Symbol(mark: char, c: char)

  /** `sign` is `!` or `^` when the set is to be left out; a `]` may come first and a `-` last. */
  datatype Bracket = Bracket(sign: Option<char>, first: bool, parts: seq<Part>, last: bool)

  function WritePart(part: Part): seq<Marked> {
    match part
    case Plain(c) => [(c, true)]
    case Quoted(c) => [(c, false)]
    case Escaped(c) => [('\\', true), (c, true)]
    case Span(lo, hi) => [lo, ('-', true), hi]
    case ClassOf(name) => [('[', true), (':', true)] + Live(name) + [(':', true), (']', true)]
    case Symbol(mark, c) => [('[', true), (mark, true), (c, true), (mark, true), (']', true)]
  }

  function WriteParts(parts: seq<Part>): seq<Marked> {
    if parts == [] then [] else WritePart(parts[0]) + WriteParts(parts[1..])
  }

  function Sign(b: Bracket): seq<Marked> {
    match b.sign
    case None => []
    case Some(c) => [(c, true)]
  }

  function First(b: Bracket): seq<Marked> {
    if b.first then [(']', true)] else []
  }

  function Tail(last: bool): seq<Marked> {
    (if last then [('-', true)] else []) + [(']', true)]
  }

  function Write(b: Bracket): seq<Marked> {
    [('[', true)] + (Sign(b) + (First(b) + (WriteParts(b.parts) + Tail(b.last))))
  }

  /** No part is taken for something else where it stands. */
  predicate PartOk(part: Part) {
    match part
    case Plain(c) => c !in "\\[]-"
    case Quoted(c) => c != '['
    case Escaped(c) => true
    case Span(lo, hi) => lo.0 != '[' && lo != ('\\', true) && lo != (']', true) && lo != ('-', true) && hi != (']', true)
    case ClassOf(name) => ClassName(name)
    case Symbol(mark, c) => mark == '.' || mark == '='
  }

  predicate Signs(m: Marked) {
    m == ('!', true) || m == ('^', true)
  }

  predicate BracketOk(b: Bracket) {
    && (b.sign.Some? ==> b.sign.value == '!' || b.sign.value == '^')
    && (b.first || b.parts != [] || b.last)
    && (forall k :: 0 <= k < |b.parts| ==> PartOk(b.parts[k]))
    && (b.sign.None? && !b.first && b.parts != [] ==> !Signs(WritePart(b.parts[0])[0]))
  }

  // ------------------------------------------------------------------ what they stand for

  predicate PartHas(t: Tables, part: Part, x: char) {
    match part
    case Plain(c) => c == x
    case Quoted(c) => c == x
    case Escaped(c) => c == x
    case Span(lo, hi) => lo.0 <= x && x <= hi.0
    case ClassOf(name) => t.named(name, x)
    case Symbol(_, c) => c == x
  }

  /** The set a bracket expression lists. */
  predicate Lists(t: Tables, b: Bracket, x: char) {
    || (b.first && x == ']')
    || (b.last && x == '-')
    || exists k :: 0 <= k < |b.parts| && PartHas(t, b.parts[k], x)
  }

  /** A character, and its other cases when case does not count. */
  function Cases(t: Tables, c: char, nocase: bool): string {
    if nocase then [c] + (t.lower(c) + t.upper(c)) else [c]
  }

  predicate InSet(t: Tables, b: Bracket, c: char, nocase: bool) {
    exists k :: 0 <= k < |Cases(t, c, nocase)| && Lists(t, b, Cases(t, c, nocase)[k])
  }

  // ------------------------------------------------------------------ reading them

  function MemberOf(part: Part): Member {
    match part
    case Plain(c) => MemberCh(c)
    case Quoted(c) => MemberCh(c)
    case Escaped(c) => MemberCh(c)
    case Span(lo, hi) => Range(lo.0, hi.0)
    case ClassOf(name) => Named(name)
    case Symbol(_, c) => MemberCh(c)
  }

  function MembersOf(parts: seq<Part>): (members: seq<Member>)
    ensures |members| == |parts|
  {
    seq(|parts|, k requires 0 <= k < |parts| => MemberOf(parts[k]))
  }

  function AllMembers(b: Bracket): seq<Member> {
    (if b.first then [MemberCh(']')] else []) + (MembersOf(b.parts) + Dashed(b.last))
  }

  function Dashed(last: bool): seq<Member> {
    if last then [MemberCh('-')] else []
  }

  /** What comes after a part never makes a range of it. */
  predicate NoDash(chars: seq<Marked>, i: nat) {
    !(i + 1 < |chars| && chars[i] == ('-', true) && chars[i + 1] != (']', true))
  }

  lemma PartRead(chars: seq<Marked>, i: nat, part: Part)
    requires PartOk(part) && StandsAt(chars, i, WritePart(part)) && NoDash(chars, i + |WritePart(part)|)
    ensures MemberAt(chars, i) == (MemberOf(part), i + |WritePart(part)|)
    ensures chars[i] != (']', true)
  {
    var written := WritePart(part);
    StandsChars(chars, i, written);
    assert chars[i + 0] == written[0];
    match part
    case Plain(c) => assert c != '\\' && c != '[' && c != ']';
    case Quoted(_) =>
    case Escaped(_) => assert chars[i + 1] == written[1];
    case Span(_, _) => assert chars[i + 1] == written[1] && chars[i + 2] == written[2];
    case ClassOf(name) => MemberRead(chars, i, Named(name));
    case Symbol(_, _) => SymbolRead(chars, i, part);
  }

  lemma SymbolRead(chars: seq<Marked>, i: nat, part: Part)
    requires part.Symbol? && PartOk(part) && StandsAt(chars, i, WritePart(part))
    ensures MemberAt(chars, i) == (MemberOf(part), i + 5)
  {
    var written := WritePart(part);
    StandsChars(chars, i, written);
    assert chars[i + 0] == written[0] && chars[i + 1] == written[1] && chars[i + 2] == written[2];
    assert chars[i + 3] == written[3] && chars[i + 4] == written[4];
    assert NamedAt(chars, i).None?;
  }

  lemma PartStarts(part: Part)
    requires PartOk(part)
    ensures WritePart(part) != [] && WritePart(part)[0] != (']', true)
    ensures WritePart(part)[0] != ('-', true)
  {
  }

  lemma TailRead(chars: seq<Marked>, i: nat, last: bool, soFar: seq<Member>)
    requires StandsAt(chars, i, Tail(last)) && (soFar != [] || last)
    ensures MembersFrom(chars, i, soFar) == Some((soFar + Dashed(last), i + |Tail(last)|))
  {
    StandsChars(chars, i, Tail(last));
    assert chars[i + 0] == Tail(last)[0];
    if last {
      assert chars[i + 1] == Tail(last)[1];
      assert MemberAt(chars, i) == (MemberCh('-'), i + 1);
      hide MemberAt;
      assert MembersFrom(chars, i + 1, soFar + [MemberCh('-')]) == Some((soFar + [MemberCh('-')], i + 2));
    } else {
      assert soFar + [] == soFar;
    }
  }

  /** Where a part ends, either the next begins or the end of the brackets does. */
  lemma NextIsNoDash(chars: seq<Marked>, i: nat, parts: seq<Part>, last: bool)
    requires StandsAt(chars, i, WriteParts(parts) + Tail(last)) && (parts != [] ==> PartOk(parts[0]))
    ensures NoDash(chars, i)
  {
    var written := WriteParts(parts) + Tail(last);
    StandsChars(chars, i, written);
    assert chars[i + 0] == written[0];
    if parts == [] {
      assert written == Tail(last);
      if last {
        assert chars[i + 1] == written[1];
      }
    } else {
      PartStarts(parts[0]);
      assert written[0] == WritePart(parts[0])[0];
    }
  }

  lemma {:induction false} PartsRead(chars: seq<Marked>, i: nat, parts: seq<Part>, last: bool, soFar: seq<Member>)
    requires forall k :: 0 <= k < |parts| ==> PartOk(parts[k])
    requires StandsAt(chars, i, WriteParts(parts) + Tail(last)) && (soFar != [] || parts != [] || last)
    ensures MembersFrom(chars, i, soFar)
         == Some((soFar + (MembersOf(parts) + Dashed(last)), i + |WriteParts(parts) + Tail(last)|))
    decreases |parts|
  {
    hide MemberAt, WritePart, PartOk, NoDash, Tail, Dashed;
    if parts == [] {
      assert WriteParts(parts) + Tail(last) == Tail(last) && MembersOf(parts) + Dashed(last) == Dashed(last);
      TailRead(chars, i, last, soFar);
    } else {
      var (first, rest) := (WritePart(parts[0]), WriteParts(parts[1..]));
      assert WriteParts(parts) + Tail(last) == first + (rest + Tail(last));
      StandsSplit(chars, i, first, rest + Tail(last));
      NextIsNoDash(chars, i + |first|, parts[1..], last);
      PartRead(chars, i, parts[0]);
      PartStarts(parts[0]);
      assert MembersFrom(chars, i, soFar) == MembersFrom(chars, i + |first|, soFar + [MemberOf(parts[0])]);
      PartsRead(chars, i + |first|, parts[1..], last, soFar + [MemberOf(parts[0])]);
      hide MembersFrom, StandsAt;
      assert MembersOf(parts) == [MemberOf(parts[0])] + MembersOf(parts[1..]);
      Seqs.Assoc(soFar, [MemberOf(parts[0])], MembersOf(parts[1..]) + Dashed(last));
      Seqs.Assoc([MemberOf(parts[0])], MembersOf(parts[1..]), Dashed(last));
    }
  }

  lemma CloseFirst(chars: seq<Marked>, i: nat, parts: seq<Part>, last: bool)
    requires forall k :: 0 <= k < |parts| ==> PartOk(parts[k])
    requires StandsAt(chars, i, [(']', true)]) && StandsAt(chars, i + 1, WriteParts(parts) + Tail(last))
    ensures MembersFrom(chars, i, []) == MembersFrom(chars, i + 1, [MemberCh(']')])
    ensures i < |chars| && chars[i] == (']', true)
  {
    hide WriteParts, Tail, PartOk;
    StandsChars(chars, i, [(']', true)]);
    assert chars[i + 0] == (']', true);
    NextIsNoDash(chars, i + 1, parts, last);
    hide StandsAt;
    assert MemberAt(chars, i) == (MemberCh(']'), i + 1);
    hide MemberAt;
    assert [] + [MemberCh(']')] == [MemberCh(']')];
  }

  lemma FirstRead(chars: seq<Marked>, i: nat, b: Bracket)
    requires BracketOk(b) && StandsAt(chars, i, First(b) + (WriteParts(b.parts) + Tail(b.last)))
    ensures MembersFrom(chars, i, []) == Some((AllMembers(b), i + |First(b) + (WriteParts(b.parts) + Tail(b.last))|))
    ensures b.sign.None? ==> !NegatesAt(chars, i)
  {
    hide StandsAt, MembersFrom, WriteParts, Tail, MembersOf, Dashed, PartOk;
    var rest := WriteParts(b.parts) + Tail(b.last);
    var members := MembersOf(b.parts) + Dashed(b.last);
    StandsSplit(chars, i, First(b), rest);
    if b.first {
      CloseFirst(chars, i, b.parts, b.last);
      PartsRead(chars, i + 1, b.parts, b.last, [MemberCh(']')]);
    } else {
      assert First(b) + rest == rest;
      PartsRead(chars, i, b.parts, b.last, []);
      assert [] + members == members;
      if b.sign.None? {
        NoSign(chars, i, b);
      }
    }
  }

  lemma NoSign(chars: seq<Marked>, i: nat, b: Bracket)
    requires BracketOk(b) && b.sign.None? && !b.first && StandsAt(chars, i, WriteParts(b.parts) + Tail(b.last))
    ensures !NegatesAt(chars, i)
  {
    var written := WriteParts(b.parts) + Tail(b.last);
    StandsChars(chars, i, written);
    assert chars[i + 0] == written[0];
    if b.parts != [] {
      PartStarts(b.parts[0]);
      assert written[0] == WritePart(b.parts[0])[0];
    } else {
      assert written == Tail(b.last);
    }
    hide WritePart;
  }

  /** Every bracket expression is read as the set it was written for, to its last bracket. */
  lemma BracketRead(b: Bracket)
    requires BracketOk(b)
    ensures ClassAt(Write(b), 0) == Some((Class(b.sign.Some?, AllMembers(b)), |Write(b)|))
  {
    var chars := Write(b);
    var rest := First(b) + (WriteParts(b.parts) + Tail(b.last));
    assert StandsAt(chars, 0, [('[', true)] + (Sign(b) + rest)) by {
      assert chars[0..|chars|] == chars;
    }
    StandsSplit(chars, 0, [('[', true)], Sign(b) + rest);
    StandsSplit(chars, 1, Sign(b), rest);
    if b.sign.Some? {
      StandsChars(chars, 1, Sign(b));
      assert chars[1 + 0] == (b.sign.value, true);
    }
    hide First, WriteParts, Tail, MembersFrom, AllMembers, StandsAt, Write;
    FirstRead(chars, 1 + |Sign(b)|, b);
  }

  // ------------------------------------------------------------------ what is accepted

  lemma OneItem(t: Tables, item: Item, name: string, nocase: bool)
    requires item != Star
    ensures Matches(t, [item], name, nocase) <==> |name| == 1 && MatchesChar(t, item, name[0], nocase)
  {
    hide MatchesChar;
    assert [item][1..] == [];
    if name != [] {
      assert Matches(t, [], name[1..], nocase) <==> name[1..] == [];
    }
  }

  lemma PartMember(t: Tables, part: Part, x: char)
    ensures MemberHas(t, MemberOf(part), x) <==> PartHas(t, part, x)
  {
  }

  lemma MembersList(t: Tables, b: Bracket, x: char)
    ensures (exists i :: 0 <= i < |AllMembers(b)| && MemberHas(t, AllMembers(b)[i], x)) <==> Lists(t, b, x)
  {
    hide MemberHas, PartHas;
    var members := AllMembers(b);
    var n := if b.first then 1 else 0;
    assert forall k :: 0 <= k < |b.parts| ==> members[n + k] == MemberOf(b.parts[k]);
    forall k | 0 <= k < |b.parts|
      ensures MemberHas(t, members[n + k], x) <==> PartHas(t, b.parts[k], x)
    {
      PartMember(t, b.parts[k], x);
    }
    PlainMember(t, ']', x);
    PlainMember(t, '-', x);
    if i :| 0 <= i < |members| && MemberHas(t, members[i], x) {
      if n <= i < n + |b.parts| {
        assert PartHas(t, b.parts[i - n], x);
      }
    }
    if k :| 0 <= k < |b.parts| && PartHas(t, b.parts[k], x) {
      assert MemberHas(t, members[n + k], x);
    }
    if b.last {
      assert members[n + |b.parts|] == MemberCh('-');
    }
    if b.first {
      assert members[0] == MemberCh(']');
    }
  }

  lemma PlainMember(t: Tables, c: char, x: char)
    ensures MemberHas(t, MemberCh(c), x) <==> c == x
  {
  }

  lemma HitIsInSet(t: Tables, b: Bracket, c: char, nocase: bool)
    ensures Hit(t, AllMembers(b), c, nocase) <==> InSet(t, b, c, nocase)
  {
    hide MemberHas, Lists, AllMembers;
    var (members, all, folded) := (AllMembers(b), Cases(t, c, nocase), t.lower(c) + t.upper(c));
    forall x: char
      ensures (exists i :: 0 <= i < |members| && MemberHas(t, members[i], x)) <==> Lists(t, b, x)
    {
      MembersList(t, b, x);
    }
    if k :| 0 <= k < |all| && Lists(t, b, all[k]) {
      var i :| 0 <= i < |members| && MemberHas(t, members[i], all[k]);
      if k > 0 {
        assert folded[k - 1] == all[k];
      }
    }
    if Hit(t, members, c, nocase) {
      var i :| 0 <= i < |members|
               && (MemberHas(t, members[i], c)
                   || (nocase && exists k :: 0 <= k < |folded| && MemberHas(t, members[i], folded[k])));
      if MemberHas(t, members[i], c) {
        assert Lists(t, b, all[0]);
      } else {
        var k :| 0 <= k < |folded| && MemberHas(t, members[i], folded[k]);
        assert all[k + 1] == folded[k];
        assert Lists(t, b, all[k + 1]);
      }
    }
  }

  /** A pattern's answer about a name. */
  predicate Accepted(t: Tables, chars: seq<Marked>, name: string, nocase: bool) {
    Matches(t, Collapsed(Pieces(chars, 0)), name, nocase)
  }

  lemma OnePieceOnly(chars: seq<Marked>, item: Item)
    requires chars != [] && ItemAt(chars, 0) == (item, |chars|)
    ensures Collapsed(Pieces(chars, 0)) == [item]
  {
    hide ItemAt;
    assert Pieces(chars, |chars|) == [];
    assert Pieces(chars, 0) == [item] + [];
    assert [item][..0] == [];
    assert Collapsed([]) == [];
  }

  /** A bracket expression accepts exactly the names of one character that is in its set, or that is not when it
      starts with `!` or `^`. Ranges hold both their ends, a named class what the tables say, and where case does
      not count a character is in the set with any of its cases. */
  lemma BracketAccepts(t: Tables, b: Bracket, name: string, nocase: bool)
    requires BracketOk(b)
    ensures Accepted(t, Write(b), name, nocase) <==> |name| == 1 && (InSet(t, b, name[0], nocase) != b.sign.Some?)
  {
    var item := Class(b.sign.Some?, AllMembers(b));
    BracketRead(b);
    assert Write(b)[0] == ('[', true);
    hide ClassAt, Write, AllMembers, Hit, InSet, Matches, BracketOk, Pieces, Collapsed;
    OnePieceOnly(Write(b), item);
    OneItem(t, item, name, nocase);
    if |name| == 1 {
      HitIsInSet(t, b, name[0], nocase);
    }
  }

  /** `?` accepts every name of one character and no other. */
  lemma QuestionAccepts(t: Tables, name: string, nocase: bool)
    ensures Accepted(t, [('?', true)], name, nocase) <==> |name| == 1
  {
    OnePieceOnly([('?', true)], AnyCh);
    OneItem(t, AnyCh, name, nocase);
    hide Matches, Pieces, Collapsed;
  }

  /** `*` accepts every name. */
  lemma StarAccepts(t: Tables, name: string, nocase: bool)
    ensures Accepted(t, [('*', true)], name, nocase)
  {
    OnePieceOnly([('*', true)], Star);
    StarTakes(t, [Star], name, nocase);
  }

  lemma {:induction false} StarTakes(t: Tables, items: seq<Item>, name: string, nocase: bool)
    requires items == [Star]
    ensures Matches(t, items, name, nocase)
    decreases |name|
  {
    assert items[1..] == [];
    if name != [] {
      StarTakes(t, items, name[1..], nocase);
    }
  }

  /** After a backslash, quoted, or not a metacharacter at all, a character accepts itself, and where case does not
      count what lowers to the same. A backslash with nothing after it is one. */
  lemma CharacterAccepts(t: Tables, chars: seq<Marked>, c: char, name: string, nocase: bool)
    requires chars == [('\\', true), (c, true)] || chars == [('\\', true), (c, false)] || chars == [(c, false)]
             || (chars == [(c, true)] && c !in "*?[") || (chars == [('\\', true)] && c == '\\')
    ensures Accepted(t, chars, name, nocase)
            <==> |name| == 1 && (name[0] == c || (nocase && t.lower(c) == t.lower(name[0])))
  {
    assert ItemAt(chars, 0) == (Ch(c), |chars|);
    hide ItemAt;
    OnePieceOnly(chars, Ch(c));
    OneItem(t, Ch(c), name, nocase);
    hide Matches, Pieces, Collapsed;
  }

  /** A `[` that no live `]` follows is a plain character, and what comes after it is read as if it were one. */
  lemma UnclosedIsPlain(chars: seq<Marked>, i: nat)
    requires i < |chars| && chars[i] == ('[', true) && forall k :: i < k < |chars| ==> chars[k] != (']', true)
    ensures ItemAt(chars, i) == (Ch('['), i + 1)
  {
    var next := if NegatesAt(chars, i + 1) then i + 2 else i + 1;
    NeverClosed(chars, next, []);
    hide MembersFrom;
  }

  lemma {:induction false} NeverClosed(chars: seq<Marked>, i: nat, soFar: seq<Member>)
    requires forall k :: i <= k < |chars| ==> chars[k] != (']', true)
    ensures MembersFrom(chars, i, soFar) == None
    decreases |chars| - i
  {
    if i < |chars| {
      hide MemberAt;
      assert MemberAt(chars, i).1 > i;
      NeverClosed(chars, MemberAt(chars, i).1, soFar + [MemberAt(chars, i).0]);
    }
  }
}
