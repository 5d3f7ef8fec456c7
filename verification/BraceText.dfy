/** Brace expansion of source text: one word at a time, and of every word of a line. */
module BraceText {
  import opened BraceAtoms
  import opened Chars
  import opened Brace
  import Seqs

  predicate IsBlank(atom: Atom) {
    atom.Raw? && IsWhitespace(atom.c)
  }

  function Texts(words: seq<seq<Atom>>): (texts: seq<string>)
    ensures |texts| == |words|
  {
    seq(|words|, k requires 0 <= k < |words| => FromAtoms(words[k]))
  }

  /** What one word of source text expands to. */
  function WordsOf(text: string): seq<string> {
    Texts(Expansion(ToAtoms(text)))
  }

  function Spaced(texts: seq<string>): string {
    if texts == [] then []
    else if |texts| == 1 then texts[0]
    else Spaced(texts[..|texts| - 1]) + [' '] + texts[|texts| - 1]
  }

  /** The line still to come, `word` being the word so far. */
  function LineFrom(atoms: seq<Atom>, word: seq<Atom>): string {
    if atoms == [] then Spaced(Texts(Expansion(word)))
    else if IsBlank(atoms[0]) then Spaced(Texts(Expansion(word))) + ([atoms[0].c] + LineFrom(atoms[1..], []))
    else LineFrom(atoms[1..], word + [atoms[0]])
  }

  // ------------------------------------------------------------------ the code

  method ExpandBracesText(word: string) returns (words: seq<string>)
    ensures words == WordsOf(word)
  {
    if '{' !in word {
      NoBraceNoGroup(word);
      return [word];
    }
    var atoms := Split(word);
    var expanded := ExpandAtoms(atoms);
    if |expanded| == 1 && expanded[0] == atoms {
      RoundTrip(word);
      return [word];
    }
    words := [];
    for k := 0 to |expanded|
      invariant words == Texts(expanded)[..k]
    {
      var text := Join(expanded[k]);
      words := words + [text];
    }
  }

  method PushExpanded(out: string, word: seq<Atom>) returns (r: string)
    ensures r == out + Spaced(Texts(Expansion(word)))
  {
    var words := ExpandAtoms(word);
    r := out;
    for k := 0 to |words|
      invariant r == out + Spaced(Texts(words)[..k])
    {
      SpacedStep(Texts(words), k);
      ghost var before := Spaced(Texts(words)[..k]);
      if k > 0 {
        Seqs.Assoc(out, before, [' ']);
        r := r + [' '];
        Seqs.Assoc(out, before + [' '], FromAtoms(words[k]));
      }
      var text := Join(words[k]);
      r := r + text;
    }
    assert Texts(words)[..|words|] == Texts(words);
  }

  lemma SpacedStep(texts: seq<string>, k: nat)
    requires k < |texts|
    ensures k > 0 ==> Spaced(texts[..k + 1]) == Spaced(texts[..k]) + [' '] + texts[k]
    ensures k == 0 ==> Spaced(texts[..k]) == [] && Spaced(texts[..k + 1]) == texts[k]
  {
    assert texts[..k + 1][..k] == texts[..k];
  }

  method ExpandBracesInLine(text: string) returns (out: string)
    ensures out == LineFrom(ToAtoms(text), [])
  {
    if '{' !in text {
      NoBraceNoChange(text);
      return text;
    }
    var atoms := Split(text);
    out := "";
    var word: seq<Atom> := [];
    for k := 0 to |atoms|
      invariant out + LineFrom(atoms[k..], word) == LineFrom(atoms, [])
    {
      LineStep(atoms, k, word);
      if IsBlank(atoms[k]) {
        var blank := Join([atoms[k]]);
        Seqs.Assoc(out, Spaced(Texts(Expansion(word))), [atoms[k].c] + LineFrom(atoms[k + 1..], []));
        out := PushExpanded(out, word);
        word := [];
        Seqs.Assoc(out, [atoms[k].c], LineFrom(atoms[k + 1..], []));
        out := out + blank;
      } else {
        word := word + [atoms[k]];
      }
    }
    out := PushExpanded(out, word);
  }

  lemma LineStep(atoms: seq<Atom>, k: nat, word: seq<Atom>)
    requires k < |atoms|
    ensures LineFrom(atoms[k..], word)
         == if IsBlank(atoms[k]) then Spaced(Texts(Expansion(word))) + ([atoms[k].c] + LineFrom(atoms[k + 1..], []))
            else LineFrom(atoms[k + 1..], word + [atoms[k]])
    ensures FromAtoms([atoms[k]]) == TextOf(atoms[k])
  {
    Seqs.DropHead(atoms, k);
    hide Spaced, Expansion, Texts;
    assert [atoms[k]][1..] == [];
  }

  // ------------------------------------------------------------------ the shortcuts change nothing

  lemma {:induction false} AtomsOfPlain(text: string)
    requires '{' !in text
    ensures Raw('{') !in ToAtoms(text)
    decreases |text|
  {
    if text != [] {
      FirstAtom(text);
      var n := if RunLength(text) == 0 then 1 else RunLength(text);
      hide RunLength;
      AtomsOfPlain(text[n..]);
    }
  }

  lemma {:induction false} NoBraceNoFirst(atoms: seq<Atom>, i: nat)
    requires Raw('{') !in atoms
    ensures FirstGroup(atoms, i).None?
    decreases |atoms| - i
  {
    if i < |atoms| {
      NoBraceNoFirst(atoms, i + 1);
    }
  }

  lemma UngroupedStays(atoms: seq<Atom>)
    requires Raw('{') !in atoms
    ensures Expansion(atoms) == [atoms] && Spaced(Texts(Expansion(atoms))) == FromAtoms(atoms)
  {
    NoBraceNoFirst(atoms, 0);
    MeaningSize(atoms);
    hide Meaning, Cost, FirstGroup, FromAtoms;
  }

  /** Text with no `{` in it is one word, itself. */
  lemma NoBraceNoGroup(text: string)
    requires '{' !in text
    ensures WordsOf(text) == [text]
  {
    AtomsOfPlain(text);
    UngroupedStays(ToAtoms(text));
    RoundTrip(text);
  }

  lemma {:induction false} PlainLine(atoms: seq<Atom>, word: seq<Atom>)
    requires Raw('{') !in atoms && Raw('{') !in word
    ensures LineFrom(atoms, word) == FromAtoms(word) + FromAtoms(atoms)
    decreases |atoms|
  {
    UngroupedStays(word);
    hide Spaced, Expansion, Texts;
    if atoms == [] {
      assert FromAtoms(word) + [] == FromAtoms(word);
    } else if IsBlank(atoms[0]) {
      PlainLine(atoms[1..], []);
      assert [] + FromAtoms(atoms[1..]) == FromAtoms(atoms[1..]);
    } else {
      PlainLine(atoms[1..], word + [atoms[0]]);
      FromAtomsConcat(word, [atoms[0]]);
      assert FromAtoms([atoms[0]]) == TextOf(atoms[0]) by {
        assert [atoms[0]][1..] == [];
      }
      Seqs.Assoc(FromAtoms(word), TextOf(atoms[0]), FromAtoms(atoms[1..]));
    }
  }

  lemma NoBraceNoChange(text: string)
    requires '{' !in text
    ensures LineFrom(ToAtoms(text), []) == text
  {
    AtomsOfPlain(text);
    PlainLine(ToAtoms(text), []);
    RoundTrip(text);
  }

  // ------------------------------------------------------------------ a line is its words and its blanks

  /** `pieces` with `between` in the gaps. */
  function Glue<T>(pieces: seq<seq<T>>, between: seq<T>): seq<T>
    requires |pieces| == |between| + 1
  {
    if between == [] then pieces[0] else pieces[0] + ([between[0]] + Glue(pieces[1..], between[1..]))
  }

  /** No exposed character of the word is whitespace. */
  predicate NoBlank(word: seq<Atom>) {
    forall k :: 0 <= k < |word| ==> word[k].Raw? ==> !IsWhitespace(word[k].c)
  }

  function RawBlanks(blanks: seq<char>): seq<Atom> {
    seq(|blanks|, k requires 0 <= k < |blanks| => Raw(blanks[k]))
  }

  function AtomsOfEach(words: seq<string>): (r: seq<seq<Atom>>)
    ensures |r| == |words|
  {
    seq(|words|, k requires 0 <= k < |words| => ToAtoms(words[k]))
  }

  function ExpandedEach(words: seq<string>): (r: seq<string>)
    ensures |r| == |words|
  {
    seq(|words|, k requires 0 <= k < |words| => Spaced(WordsOf(words[k])))
  }

  /** `words` and `blanks` are the atoms cut at the unquoted blanks and nowhere else: each word is the atoms
      between two of them. */
  predicate Cuts(atoms: seq<Atom>, words: seq<string>, blanks: seq<char>) {
    && |words| == |blanks| + 1
    && FromAtoms(atoms) == Glue(words, blanks)
    && atoms == Glue(AtomsOfEach(words), RawBlanks(blanks))
    && (forall k :: 0 <= k < |words| ==> NoBlank(ToAtoms(words[k])))
    && (forall k :: 0 <= k < |blanks| ==> IsWhitespace(blanks[k]))
  }

  /** A line expands to the expansions of its words, each word as it would expand alone, with every unquoted
      blank between them as it was. */
  lemma WordByWord(text: string) returns (words: seq<string>, blanks: seq<char>)
    ensures Cuts(ToAtoms(text), words, blanks) && text == Glue(words, blanks)
    ensures LineFrom(ToAtoms(text), []) == Glue(ExpandedEach(words), blanks)
  {
    var atoms := ToAtoms(text);
    assert atoms[0..] == atoms && atoms[0..0] == [];
    RoundTrip(text);
    words, blanks := CutFrom(text, 0, 0);
    hide ToAtoms, FromAtoms, ExpandedEach, LineFrom, Glue, AtomsOfEach, RawBlanks, NoBlank;
  }

  lemma {:induction false} CutFrom(text: string, from: nat, i: nat) returns (words: seq<string>, blanks: seq<char>)
    requires from <= i <= |ToAtoms(text)| && NoBlank(ToAtoms(text)[from..i])
    ensures |words| == |blanks| + 1 && Cuts(ToAtoms(text)[from..], words, blanks)
    ensures LineFrom(ToAtoms(text)[i..], ToAtoms(text)[from..i]) == Glue(ExpandedEach(words), blanks)
    decreases |ToAtoms(text)| - i
  {
    hide ToAtoms, FromAtoms, NoBlank, Cuts, LineFrom, Glue, ExpandedEach, Spaced, Texts, Expansion, IsBlank;
    var atoms := ToAtoms(text);
    if i == |atoms| {
      words, blanks := [FromAtoms(atoms[from..i])], [];
      StretchReadsBack(text, from, i);
      LastWord(atoms, from);
    } else if IsBlank(atoms[i]) {
      NoneYet(atoms, i + 1);
      var rest, more := CutFrom(text, i + 1, i + 1);
      var word := FromAtoms(atoms[from..i]);
      words, blanks := [word] + rest, [BlankAt(atoms, i)] + more;
      StretchReadsBack(text, from, i);
      LineStep(atoms, i, atoms[from..i]);
      CutBlank(atoms, from, i, word, rest, more);
      ExpandedBlank(word, BlankAt(atoms, i), rest, more);
    } else {
      NextOne(atoms, from, i);
      LineStep(atoms, i, atoms[from..i]);
      words, blanks := CutFrom(text, from, i + 1);
    }
  }

  function BlankAt(atoms: seq<Atom>, i: nat): char
    requires i < |atoms| && IsBlank(atoms[i])
  {
    atoms[i].c
  }

  lemma LastWord(atoms: seq<Atom>, from: nat)
    requires from <= |atoms| && NoBlank(atoms[from..|atoms|])
    requires ToAtoms(FromAtoms(atoms[from..|atoms|])) == atoms[from..|atoms|]
    ensures var word := FromAtoms(atoms[from..|atoms|]);
            && Cuts(atoms[from..], [word], [])
            && LineFrom(atoms[|atoms|..], atoms[from..|atoms|]) == Glue(ExpandedEach([word]), [])
  {
    hide ToAtoms, FromAtoms, NoBlank, Spaced, Texts, Expansion;
    assert atoms[from..] == atoms[from..|atoms|] && atoms[|atoms|..] == [];
  }

  lemma NoneYet(atoms: seq<Atom>, i: nat)
    requires i <= |atoms|
    ensures NoBlank(atoms[i..i]) && atoms[i..i] == []
  {
  }

  lemma NextOne(atoms: seq<Atom>, from: nat, i: nat)
    requires from <= i < |atoms| && NoBlank(atoms[from..i]) && !IsBlank(atoms[i])
    ensures NoBlank(atoms[from..i + 1]) && atoms[from..i + 1] == atoms[from..i] + [atoms[i]]
  {
    assert atoms[from..i + 1] == atoms[from..i] + [atoms[i]];
  }

  lemma CutBlank(atoms: seq<Atom>, from: nat, i: nat, word: string, rest: seq<string>, more: seq<char>)
    requires from <= i < |atoms| && IsBlank(atoms[i]) && NoBlank(atoms[from..i])
    requires word == FromAtoms(atoms[from..i]) && ToAtoms(word) == atoms[from..i]
    requires Cuts(atoms[i + 1..], rest, more)
    ensures Cuts(atoms[from..], [word] + rest, [BlankAt(atoms, i)] + more)
  {
    hide ToAtoms, NoBlank;
    var c := BlankAt(atoms, i);
    FrontBlank(atoms, from, i);
    GlueHead(word, rest, c, more);
    hide FromAtoms;
    CutAtoms(word, c, rest, more);
    hide Glue, AtomsOfEach, RawBlanks, IsWhitespace;
  }

  lemma FrontBlank(atoms: seq<Atom>, from: nat, i: nat)
    requires from <= i < |atoms| && IsBlank(atoms[i])
    ensures atoms[from..] == atoms[from..i] + ([Raw(BlankAt(atoms, i))] + atoms[i + 1..])
    ensures FromAtoms(atoms[from..]) == FromAtoms(atoms[from..i]) + ([BlankAt(atoms, i)] + FromAtoms(atoms[i + 1..]))
  {
    var after := [atoms[i]] + atoms[i + 1..];
    assert atoms[from..] == atoms[from..i] + after;
    FromAtomsConcat(atoms[from..i], after);
    Seqs.HeadTail(atoms[i], atoms[i + 1..]);
  }

  lemma CutAtoms(word: string, c: char, rest: seq<string>, more: seq<char>)
    requires |rest| == |more| + 1
    ensures Glue(AtomsOfEach([word] + rest), RawBlanks([c] + more))
         == ToAtoms(word) + ([Raw(c)] + Glue(AtomsOfEach(rest), RawBlanks(more)))
  {
    hide ToAtoms, Glue;
    assert AtomsOfEach([word] + rest) == [ToAtoms(word)] + AtomsOfEach(rest);
    assert RawBlanks([c] + more) == [Raw(c)] + RawBlanks(more);
    GlueHead(ToAtoms(word), AtomsOfEach(rest), Raw(c), RawBlanks(more));
  }

  lemma ExpandedBlank(word: string, c: char, rest: seq<string>, more: seq<char>)
    requires |rest| == |more| + 1
    ensures Glue(ExpandedEach([word] + rest), [c] + more)
         == Spaced(Texts(Expansion(ToAtoms(word)))) + ([c] + Glue(ExpandedEach(rest), more))
  {
    hide ToAtoms, Glue, Spaced, Texts, Expansion;
    assert ExpandedEach([word] + rest) == [Spaced(WordsOf(word))] + ExpandedEach(rest);
    GlueHead(Spaced(WordsOf(word)), ExpandedEach(rest), c, more);
  }

  lemma GlueHead<T>(piece: seq<T>, pieces: seq<seq<T>>, mark: T, between: seq<T>)
    requires |pieces| == |between| + 1
    ensures Glue([piece] + pieces, [mark] + between) == piece + ([mark] + Glue(pieces, between))
  {
    Seqs.HeadTail(piece, pieces);
    Seqs.HeadTail(mark, between);
  }

  // ------------------------------------------------------------------ the words of one word

  function Blanks(n: nat): string {
    if n == 0 then [] else [' '] + Blanks(n - 1)
  }

  lemma {:induction false} BlanksAre(n: nat)
    ensures |Blanks(n)| == n && forall k :: 0 <= k < n ==> Blanks(n)[k] == ' '
  {
    if n > 0 {
      BlanksAre(n - 1);
    }
  }

  /** What a word expands to stands in the line in its order, one space between each two. */
  lemma {:induction false} SpacedIsGlue(texts: seq<string>) returns (blanks: string)
    requires texts != []
    ensures |blanks| == |texts| - 1 && (forall k :: 0 <= k < |blanks| ==> blanks[k] == ' ')
    ensures Spaced(texts) == Glue(texts, blanks)
  {
    blanks := Blanks(|texts| - 1);
    BlanksAre(|texts| - 1);
    SpacedFromFront(texts);
    if |texts| > 1 {
      var rest := SpacedIsGlue(texts[1..]);
      assert blanks == [' '] + rest;
      assert blanks[1..] == rest;
    }
  }

  lemma {:induction false} SpacedFromFront(texts: seq<string>)
    requires texts != []
    ensures Spaced(texts) == if |texts| == 1 then texts[0] else texts[0] + ([' '] + Spaced(texts[1..]))
  {
    if |texts| > 1 {
      var most, last := texts[..|texts| - 1], texts[|texts| - 1];
      SpacedFromFront(most);
      assert most[1..] == texts[1..][..|texts| - 2];
      if |texts| == 2 {
        assert texts[1..] == [last] && Spaced(texts[1..]) == last;
        assert texts[0] + [' '] + last == texts[0] + ([' '] + last);
      } else {
        var inner := Spaced(most[1..]);
        assert Spaced(texts[1..]) == inner + [' '] + last;
        assert (texts[0] + ([' '] + inner)) + [' '] + last == texts[0] + ([' '] + (inner + [' '] + last));
      }
    }
  }
}
