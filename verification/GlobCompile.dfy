/** Compiling a pattern: each character says whether it may still be a metacharacter, and each piece of the
    pattern becomes one item. */
module GlobCompile {
  import opened Wrappers
  import opened Glob
  import Seqs

  /** A character, and whether quoting left it live. */
  type Marked = (char, bool)

  // ------------------------------------------------------------------ bracket expressions, as functions

  predicate CharAt(chars: seq<Marked>, i: nat, c: char) {
    i < |chars| && chars[i].0 == c
  }

  /** The name from `i` to the next `:]`, and the place after it. */
  function NameFrom(chars: seq<Marked>, i: nat, name: string): (r: Option<(string, nat)>)
    ensures r.Some? ==> i + 2 <= r.value.1 <= |chars|
    decreases |chars| - i
  {
    if i >= |chars| then None
    else if chars[i].0 == ':' && CharAt(chars, i + 1, ']') then Some((name, i + 2))
    else NameFrom(chars, i + 1, name + [chars[i].0])
  }

  /** `[:name:]`. Only the characters count here, not their quoting. */
  function NamedAt(chars: seq<Marked>, start: nat): (r: Option<(string, nat)>)
    ensures r.Some? ==> start + 4 <= r.value.1 <= |chars|
  {
    if CharAt(chars, start, '[') && CharAt(chars, start + 1, ':') then NameFrom(chars, start + 2, "") else None
  }

  /** `[.x.]` or `[=x=]`, which both name the one character `x`. */
  function SymbolAt(chars: seq<Marked>, start: nat): (r: Option<(Member, nat)>)
    ensures r.Some? ==> r.value.1 == start + 5 <= |chars| && r.value.0 == MemberCh(chars[start + 2].0)
  {
    if start + 4 < |chars| && chars[start].0 == '[' && (chars[start + 1].0 == '.' || chars[start + 1].0 == '=')
       && chars[start + 3].0 == chars[start + 1].0 && chars[start + 4].0 == ']'
    then Some((MemberCh(chars[start + 2].0), start + 5))
    else None
  }

  /** One member at `i`, when the class does not end there. */
  function MemberAt(chars: seq<Marked>, i: nat): (r: (Member, nat))
    requires i < |chars|
    ensures i < r.1 <= |chars|
  {
    var (c, live) := chars[i];
    if live && c == '\\' && i + 1 < |chars| then (MemberCh(chars[i + 1].0), i + 2)
    else if NamedAt(chars, i).Some? then (Named(NamedAt(chars, i).value.0), NamedAt(chars, i).value.1)
    else if SymbolAt(chars, i).Some? then SymbolAt(chars, i).value
    else if i + 2 < |chars| && chars[i + 1] == ('-', true) && chars[i + 2] != (']', true)
    then (Range(c, chars[i + 2].0), i + 3)
    else (MemberCh(c), i + 1)
  }

  function MembersFrom(chars: seq<Marked>, i: nat, members: seq<Member>): (r: Option<(seq<Member>, nat)>)
    ensures r.Some? ==> i < r.value.1 <= |chars|
    decreases |chars| - i
  {
    if i >= |chars| then None
    else if chars[i] == (']', true) && members != [] then Some((members, i + 1))
    else MembersFrom(chars, MemberAt(chars, i).1, members + [MemberAt(chars, i).0])
  }

  /** Whether a live `!` or `^` stands at `i`. */
  predicate NegatesAt(chars: seq<Marked>, i: nat) {
    i < |chars| && chars[i].1 && (chars[i].0 == '!' || chars[i].0 == '^')
  }

  /** `[...]` from `start`, or nothing when it is never closed. */
  function ClassAt(chars: seq<Marked>, start: nat): (r: Option<(Item, nat)>)
    ensures r.Some? ==> start + 1 < r.value.1 <= |chars|
  {
    var negated := NegatesAt(chars, start + 1);
    match MembersFrom(chars, if negated then start + 2 else start + 1, [])
    case None => None
    case Some((members, next)) => Some((Class(negated, members), next))
  }

  /** One item at `i`. */
  function ItemAt(chars: seq<Marked>, i: nat): (r: (Item, nat))
    requires i < |chars|
    ensures i < r.1 <= |chars|
  {
    var (c, live) := chars[i];
    if live && c == '\\' && i + 1 < |chars| then (Ch(chars[i + 1].0), i + 2)
    else if live && c == '*' then (Star, i + 1)
    else if live && c == '?' then (AnyCh, i + 1)
    else if live && c == '[' && ClassAt(chars, i).Some? then ClassAt(chars, i).value
    else (Ch(c), i + 1)
  }

  /** The pattern piece by piece, every `*` kept. */
  function Pieces(chars: seq<Marked>, i: nat): seq<Item>
    decreases |chars| - i
  {
    if i >= |chars| then [] else [ItemAt(chars, i).0] + Pieces(chars, ItemAt(chars, i).1)
  }

  function Push(items: seq<Item>, item: Item): seq<Item> {
    if item == Star && items != [] && items[|items| - 1] == Star then items else items + [item]
  }

  /** Adjacent stars made one. */
  function Collapsed(items: seq<Item>): seq<Item> {
    if items == [] then [] else Push(Collapsed(items[..|items| - 1]), items[|items| - 1])
  }

  /** Whether anything in the pattern is not a plain character. */
  predicate HasMeta(items: seq<Item>) {
    exists k :: 0 <= k < |items| && !items[k].Ch?
  }

  // ------------------------------------------------------------------ the code

  method ParseNamedClass(chars: seq<Marked>, start: nat) returns (r: Option<(string, nat)>)
    ensures r == NamedAt(chars, start)
  {
    if !CharAt(chars, start, '[') || !CharAt(chars, start + 1, ':') {
      return None;
    }
    var name := "";
    var i := start + 2;
    while i < |chars|
      invariant NameFrom(chars, i, name) == NameFrom(chars, start + 2, "")
      decreases |chars| - i
    {
      if chars[i].0 == ':' && CharAt(chars, i + 1, ']') {
        return Some((name, i + 2));
      }
      name := name + [chars[i].0];
      i := i + 1;
    }
    return None;
  }

  method ParseClass(chars: seq<Marked>, start: nat) returns (r: Option<(Item, nat)>)
    ensures r == ClassAt(chars, start)
  {
    var i, negated := start + 1, false;
    if i < |chars| && chars[i].1 && (chars[i].0 == '!' || chars[i].0 == '^') {
      negated := true;
      i := i + 1;
    }
    ghost var first := i;
    var members: seq<Member> := [];
    while i < |chars|
      invariant MembersFrom(chars, i, members) == MembersFrom(chars, first, [])
      decreases |chars| - i
    {
      var (c, live) := chars[i];
      if c == ']' && live && members != [] {
        return Some((Class(negated, members), i + 1));
      }
      if live && c == '\\' && i + 1 < |chars| {
        members := members + [MemberCh(chars[i + 1].0)];
        i := i + 2;
        continue;
      }
      var named := ParseNamedClass(chars, i);
      if named.Some? {
        members := members + [Named(named.value.0)];
        i := named.value.1;
        continue;
      }
      var symbol := SymbolAt(chars, i);
      if symbol.Some? {
        members := members + [symbol.value.0];
        i := symbol.value.1;
        continue;
      }
      if i + 2 < |chars| && chars[i + 1] == ('-', true) && !(chars[i + 2].0 == ']' && chars[i + 2].1) {
        members := members + [Range(c, chars[i + 2].0)];
        i := i + 3;
        continue;
      }
      members := members + [MemberCh(c)];
      i := i + 1;
    }
    return None;
  }

  /** `compile_items_with`, extended groups off. */
  method CompileItems(chars: seq<Marked>) returns (items: seq<Item>, hasMetacharacter: bool)
    ensures items == Collapsed(Pieces(chars, 0))
    ensures hasMetacharacter <==> HasMeta(items)
  {
    hide ClassAt, ItemAt, HasMeta, Collapsed, Pieces;
    NoPieces(chars);
    items, hasMetacharacter := [], false;
    var i := 0;
    ghost var done: seq<Item> := [];
    while i < |chars|
      invariant i <= |chars|
      invariant done + Pieces(chars, i) == Pieces(chars, 0) && items == Collapsed(done)
      invariant hasMetacharacter <==> HasMeta(items)
      decreases |chars| - i
    {
      OnePiece(chars, i, done);
      done := done + [ItemAt(chars, i).0];
      PieceAt(chars, i);
      var (c, live) := chars[i];
      if live && c == '\\' && i + 1 < |chars| {
        PlainAtEnd(items, chars[i + 1].0);
        items := items + [Ch(chars[i + 1].0)];
        i := i + 2;
        continue;
      }
      if live {
        if c == '*' {
          if items == [] || items[|items| - 1] != Star {
            items := items + [Star];
          }
          MetaAtEnd(items);
          hasMetacharacter := true;
          i := i + 1;
          continue;
        } else if c == '?' {
          items := items + [AnyCh];
          MetaAtEnd(items);
          hasMetacharacter := true;
          i := i + 1;
          continue;
        } else if c == '[' {
          var class_ := ParseClass(chars, i);
          if class_.Some? {
            ClassIsClass(chars, i);
            items := items + [class_.value.0];
            MetaAtEnd(items);
            hasMetacharacter := true;
            i := class_.value.1;
            continue;
          }
        }
      }
      PlainAtEnd(items, c);
      items := items + [Ch(c)];
      i := i + 1;
    }
    NoPieces(chars);
    assert done + [] == done;
  }

  lemma NoPieces(chars: seq<Marked>)
    ensures Pieces(chars, |chars|) == [] && Collapsed([]) == [] && !HasMeta([])
  {
  }

  lemma MetaAtEnd(items: seq<Item>)
    requires items != [] && !items[|items| - 1].Ch?
    ensures HasMeta(items)
  {
  }

  lemma PlainAtEnd(items: seq<Item>, c: char)
    ensures HasMeta(items + [Ch(c)]) <==> HasMeta(items)
  {
    if HasMeta(items) {
      var k :| 0 <= k < |items| && !items[k].Ch?;
      assert !(items + [Ch(c)])[k].Ch?;
    }
  }

  lemma PieceAt(chars: seq<Marked>, i: nat)
    requires i < |chars|
    ensures var (c, live) := chars[i];
            ItemAt(chars, i) ==
              if live && c == '\\' && i + 1 < |chars| then (Ch(chars[i + 1].0), i + 2)
              else if live && c == '*' then (Star, i + 1)
              else if live && c == '?' then (AnyCh, i + 1)
              else if live && c == '[' && ClassAt(chars, i).Some? then ClassAt(chars, i).value
              else (Ch(c), i + 1)
  {
  }

  lemma ClassIsClass(chars: seq<Marked>, i: nat)
    requires ClassAt(chars, i).Some?
    ensures ClassAt(chars, i).value.0.Class?
  {
  }

  lemma OnePiece(chars: seq<Marked>, i: nat, done: seq<Item>)
    requires i < |chars|
    ensures done + [ItemAt(chars, i).0] + Pieces(chars, ItemAt(chars, i).1) == done + Pieces(chars, i)
    ensures Collapsed(done + [ItemAt(chars, i).0]) == Push(Collapsed(done), ItemAt(chars, i).0)
  {
    hide ItemAt, Push;
    var item := ItemAt(chars, i).0;
    Seqs.Assoc(done, [item], Pieces(chars, ItemAt(chars, i).1));
    assert (done + [item])[..|done|] == done;
  }
}
