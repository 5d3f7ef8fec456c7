/** What compiling a pattern keeps of its meaning, and what the two shortcuts say about a match. */
module GlobProofs {
  import opened Wrappers
  import opened Glob
  import opened GlobCompile
  import Seqs

  // ------------------------------------------------------------------ matching one part after another

  lemma {:induction false} MatchJoin(t: Tables, a: seq<Item>, b: seq<Item>, x: string, y: string, nocase: bool)
    requires Matches(t, a, x, nocase) && Matches(t, b, y, nocase)
    ensures Matches(t, a + b, x + y, nocase)
    decreases |a|, |x|
  {
    hide MatchesChar;
    if a == [] {
      assert a + b == b && x + y == y;
    } else {
      Seqs.ConcatHead(a, b);
      if a[0] == Star {
        if Matches(t, a[1..], x, nocase) {
          MatchJoin(t, a[1..], b, x, y, nocase);
        } else {
          Seqs.ConcatHead(x, y);
          MatchJoin(t, a, b, x[1..], y, nocase);
        }
      } else {
        Seqs.ConcatHead(x, y);
        MatchJoin(t, a[1..], b, x[1..], y, nocase);
      }
    }
  }

  lemma {:induction false} MatchSplit(t: Tables, a: seq<Item>, b: seq<Item>, name: string, nocase: bool) returns (k: nat)
    requires Matches(t, a + b, name, nocase)
    ensures k <= |name| && Matches(t, a, name[..k], nocase) && Matches(t, b, name[k..], nocase)
    decreases |a|, |name|
  {
    hide MatchesChar;
    if a == [] {
      assert a + b == b && name[0..] == name;
      k := 0;
    } else {
      Seqs.ConcatHead(a, b);
      if a[0] == Star && Matches(t, a[1..] + b, name, nocase) {
        k := MatchSplit(t, a[1..], b, name, nocase);
      } else {
        if a[0] == Star {
          k := MatchSplit(t, a, b, name[1..], nocase);
        } else {
          k := MatchSplit(t, a[1..], b, name[1..], nocase);
        }
        TakeMore(name, k);
        k := k + 1;
      }
    }
  }

  lemma TakeMore(name: string, k: nat)
    requires k < |name|
    ensures name[..k + 1] != [] && name[..k + 1][0] == name[0] && name[..k + 1][1..] == name[1..][..k]
    ensures name[k + 1..] == name[1..][k..]
  {
  }

  lemma {:induction false} StarTakesAll(t: Tables, name: string, nocase: bool)
    ensures Matches(t, [Star], name, nocase)
  {
    if name == [] {
      assert Matches(t, [Star][1..], name, nocase);
    } else {
      StarTakesAll(t, name[1..], nocase);
    }
  }

  // ------------------------------------------------------------------ adjacent stars

  /** Making adjacent stars one keeps the language. */
  lemma {:induction false} CollapsedLanguage(t: Tables, items: seq<Item>, name: string, nocase: bool)
    ensures Matches(t, Collapsed(items), name, nocase) <==> Matches(t, items, name, nocase)
    decreases |items|
  {
    if items != [] {
      var n := |items| - 1;
      var init, last := items[..n], items[n];
      assert items == init + [last];
      hide Matches;
      if Matches(t, items, name, nocase) {
        var k := MatchSplit(t, init, [last], name, nocase);
        CollapsedLanguage(t, init, name[..k], nocase);
        MatchJoin(t, Collapsed(init), [last], name[..k], name[k..], nocase);
        Seqs.Split(name, k);
        PushedStar(t, Collapsed(init), last, name, nocase);
      }
      if Matches(t, Collapsed(items), name, nocase) {
        PushedStar(t, Collapsed(init), last, name, nocase);
        var k := MatchSplit(t, Collapsed(init), [last], name, nocase);
        CollapsedLanguage(t, init, name[..k], nocase);
        MatchJoin(t, init, [last], name[..k], name[k..], nocase);
        Seqs.Split(name, k);
      }
    }
  }

  lemma PushedStar(t: Tables, items: seq<Item>, item: Item, name: string, nocase: bool)
    ensures Matches(t, Push(items, item), name, nocase) <==> Matches(t, items + [item], name, nocase)
  {
    hide Matches;
    if item == Star && items != [] && items[|items| - 1] == Star {
      var init := items[..|items| - 1];
      assert items == init + [Star];
      if Matches(t, items, name, nocase) {
        StarTakesAll(t, [], nocase);
        MatchJoin(t, items, [Star], name, [], nocase);
        assert name + [] == name;
      }
      if Matches(t, items + [Star], name, nocase) {
        var k := MatchSplit(t, items, [Star], name, nocase);
        var k' := MatchSplit(t, init, [Star], name[..k], nocase);
        StarTakesAll(t, name[k'..], nocase);
        assert name[..k][..k'] == name[..k'];
        MatchJoin(t, init, [Star], name[..k'], name[k'..], nocase);
        Seqs.Split(name, k');
      }
    }
  }

  /** So a compiled pattern matches what its pieces, taken one by one, match. */
  lemma CompiledLanguage(t: Tables, chars: seq<Marked>, name: string, nocase: bool)
    ensures Matches(t, Collapsed(Pieces(chars, 0)), name, nocase) <==> Matches(t, Pieces(chars, 0), name, nocase)
  {
    CollapsedLanguage(t, Pieces(chars, 0), name, nocase);
  }

  // ------------------------------------------------------------------ quoted text

  function Literals(text: string): seq<Item> {
    if text == [] then [] else [Ch(text[0])] + Literals(text[1..])
  }

  predicate SameLetters(t: Tables, a: string, b: string, nocase: bool) {
    |a| == |b| && forall i :: 0 <= i < |a| ==> a[i] == b[i] || (nocase && t.lower(a[i]) == t.lower(b[i]))
  }

  /** Plain characters match themselves, up to case when case is ignored, and nothing else. */
  lemma {:induction false} LiteralsMatch(t: Tables, text: string, name: string, nocase: bool)
    ensures Matches(t, Literals(text), name, nocase) <==> SameLetters(t, text, name, nocase)
    ensures SameLetters(t, text, name, false) <==> text == name
    decreases |text|
  {
    if text != [] {
      Seqs.HeadTail(Ch(text[0]), Literals(text[1..]));
      if name != [] {
        LiteralsMatch(t, text[1..], name[1..], nocase);
        SameLettersTail(t, text, name, nocase);
        SameLettersTail(t, text, name, false);
        hide SameLetters;
        assert text == [text[0]] + text[1..] && name == [name[0]] + name[1..];
      }
    }
  }

  lemma SameLettersTail(t: Tables, a: string, b: string, nocase: bool)
    requires a != [] && b != []
    ensures SameLetters(t, a, b, nocase) <==>
            (a[0] == b[0] || (nocase && t.lower(a[0]) == t.lower(b[0]))) && SameLetters(t, a[1..], b[1..], nocase)
  {
    if SameLetters(t, a[1..], b[1..], nocase) && |a| == |b| {
      forall i | 1 <= i < |a|
        ensures a[i] == b[i] || (nocase && t.lower(a[i]) == t.lower(b[i]))
      {
        assert a[i] == a[1..][i - 1] && b[i] == b[1..][i - 1];
      }
    }
  }

  function Quoted(text: string): seq<Marked> {
    seq(|text|, i requires 0 <= i < |text| => (text[i], false))
  }

  lemma {:induction false} QuotedPieces(text: string, i: nat)
    requires i <= |text|
    ensures Pieces(Quoted(text), i) == Literals(text[i..])
    decreases |text| - i
  {
    if i < |text| {
      QuotedPieces(text, i + 1);
      Seqs.DropHead(text, i);
    }
  }

  lemma {:induction false} LiteralsCollapsed(text: string)
    ensures Collapsed(Literals(text)) == Literals(text)
    ensures |Literals(text)| == |text| && forall i :: 0 <= i < |text| ==> Literals(text)[i] == Ch(text[i])
  {
    LiteralsAre(text);
    PlainCollapsed(Literals(text));
  }

  lemma {:induction false} LiteralsAre(text: string)
    ensures |Literals(text)| == |text| && forall i :: 0 <= i < |text| ==> Literals(text)[i] == Ch(text[i])
  {
    if text != [] {
      LiteralsAre(text[1..]);
    }
  }

  lemma {:induction false} PlainCollapsed(items: seq<Item>)
    requires forall i :: 0 <= i < |items| ==> items[i] != Star
    ensures Collapsed(items) == items
  {
    if items != [] {
      PlainCollapsed(items[..|items| - 1]);
      assert items == items[..|items| - 1] + [items[|items| - 1]];
    }
  }

  /** `case $x in "$p")` is a comparison: a pattern that was quoted throughout matches its own text only. */
  lemma QuotedMatchesItself(t: Tables, text: string, name: string)
    ensures Matches(t, Collapsed(Pieces(Quoted(text), 0)), name, false) <==> name == text
  {
    QuotedPieces(text, 0);
    assert text[0..] == text;
    LiteralsCollapsed(text);
    LiteralsMatch(t, text, name, false);
  }

  // ------------------------------------------------------------------ the shortcuts

  /** The plain text a pattern is, when it holds nothing else. */
  function Literal(items: seq<Item>): Option<string> {
    if items == [] then Some("")
    else if !items[0].Ch? || Literal(items[1..]).None? then None
    else Some([items[0].c] + Literal(items[1..]).value)
  }

  /** How many characters a match takes, when that is always the same. */
  function FixedChars(items: seq<Item>): Option<nat> {
    if exists i :: 0 <= i < |items| && items[i] == Star then None else Some(|items|)
  }

  lemma {:induction false} LiteralIs(items: seq<Item>)
    ensures Literal(items).Some? ==> items == Literals(Literal(items).value)
    ensures Literal(items).Some? <==> !HasMeta(items)
  {
    if items != [] {
      LiteralIs(items[1..]);
      assert items == [items[0]] + items[1..];
      if HasMeta(items[1..]) {
        var k :| 0 <= k < |items[1..]| && !items[1..][k].Ch?;
        assert !items[k + 1].Ch?;
      }
      if HasMeta(items) && items[0].Ch? {
        var k :| 0 <= k < |items| && !items[k].Ch?;
        assert !items[1..][k - 1].Ch?;
      }
    }
  }

  /** `literal()` answers for exactly the patterns without a metacharacter, and then a search for its text
      is the match. */
  lemma LiteralIsTheMatch(t: Tables, items: seq<Item>, name: string)
    ensures Literal(items).Some? <==> !HasMeta(items)
    ensures Literal(items).Some? ==> (Matches(t, items, name, false) <==> name == Literal(items).value)
  {
    LiteralIs(items);
    if Literal(items).Some? {
      LiteralsMatch(t, Literal(items).value, name, false);
    }
  }

  /** `fixed_chars()` is the length of every match. */
  lemma {:induction false} FixedIsTheLength(t: Tables, items: seq<Item>, name: string, nocase: bool)
    requires FixedChars(items).Some? && Matches(t, items, name, nocase)
    ensures |name| == FixedChars(items).value
    decreases |items|
  {
    hide MatchesChar;
    if items != [] {
      assert forall i :: 0 <= i < |items[1..]| ==> items[1..][i] == items[i + 1];
      FixedIsTheLength(t, items[1..], name[1..], nocase);
    }
  }

  /** And where it answers nothing no length would do: what matches can be made one longer. */
  lemma {:induction false} UnfixedGrows(t: Tables, items: seq<Item>, name: string, nocase: bool) returns (longer: string)
    requires FixedChars(items).None? && Matches(t, items, name, nocase)
    ensures |longer| == |name| + 1 && Matches(t, items, longer, nocase)
    decreases |items|, |name|
  {
    hide MatchesChar;
    if items[0] == Star {
      longer := ['x'] + name;
      assert longer[1..] == name;
    } else {
      var k :| 0 <= k < |items| && items[k] == Star;
      assert items[1..][k - 1] == Star;
      var rest := UnfixedGrows(t, items[1..], name[1..], nocase);
      longer := [name[0]] + rest;
      assert longer[1..] == rest;
    }
  }
}
