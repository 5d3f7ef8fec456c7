/** What brace expansion promises: matching braces, commas at the top level, and words printed from their
    structure. */
module BraceMeaning {
  import opened Wrappers
  import opened BraceAtoms
  import opened BraceSequence
  import opened Brace
  import Seqs

  // ------------------------------------------------------------------ the matching brace

  /** Opening braces less closing ones. */
  function Balance(atoms: seq<Atom>): int {
    if atoms == [] then 0 else Balance(atoms[..|atoms| - 1]) + Weight(atoms[|atoms| - 1])
  }

  function Weight(atom: Atom): int {
    if IsRaw(atom, '{') then 1 else if IsRaw(atom, '}') then -1 else 0
  }

  predicate StaysOpen(atoms: seq<Atom>, open: nat, end: nat)
    requires end <= |atoms|
  {
    forall j :: open < j <= end ==> Balance(atoms[open..j]) > 0
  }

  /** The brace found is the first place where as many have closed as opened, and there is none exactly when
      there is no such place. */
  lemma CloseIsTheMatch(atoms: seq<Atom>, open: nat)
    requires open < |atoms| && IsRaw(atoms[open], '{')
    ensures match CloseFrom(atoms, open, 0)
            case Some(close) => open < close && Balance(atoms[open..close + 1]) == 0 && StaysOpen(atoms, open, close)
            case None => StaysOpen(atoms, open, |atoms|)
  {
    hide CloseFrom, StaysOpen;
    OpeningStep(atoms, open, 0);
    OpensOne(atoms, open);
    hide *;
    ClosesAt(atoms, open, open + 1, 1);
  }

  lemma OpeningStep(atoms: seq<Atom>, open: nat, depth: nat)
    requires open < |atoms| && IsRaw(atoms[open], '{')
    ensures CloseFrom(atoms, open, depth) == CloseFrom(atoms, open + 1, depth + 1)
  {
  }

  lemma OpensOne(atoms: seq<Atom>, open: nat)
    requires open < |atoms| && IsRaw(atoms[open], '{')
    ensures Balance(atoms[open..open + 1]) == 1 && StaysOpen(atoms, open, open + 1)
  {
    BalanceStep(atoms, open, open);
    assert atoms[open..open] == [];
  }

  lemma BalanceStep(atoms: seq<Atom>, open: nat, i: nat)
    requires open <= i < |atoms|
    ensures Balance(atoms[open..i + 1]) == Balance(atoms[open..i]) + Weight(atoms[i])
  {
    assert atoms[open..i + 1][..i - open] == atoms[open..i];
  }

  lemma {:induction false} ClosesAt(atoms: seq<Atom>, open: nat, i: nat, depth: nat)
    requires open < i <= |atoms| && depth > 0 && Balance(atoms[open..i]) == depth && StaysOpen(atoms, open, i)
    ensures match CloseFrom(atoms, i, depth)
            case Some(close) => open < close && Balance(atoms[open..close + 1]) == 0 && StaysOpen(atoms, open, close)
            case None => StaysOpen(atoms, open, |atoms|)
    decreases |atoms| - i
  {
    hide Balance;
    if i < |atoms| {
      BalanceStep(atoms, open, i);
      if IsRaw(atoms[i], '}') && depth == 1 {
      } else {
        ClosesAt(atoms, open, i + 1, BraceDepth(atoms[i], depth));
      }
    }
  }

  // ------------------------------------------------------------------ words printed from their structure

  /** A word: plain atoms, groups of two or more words to choose from, braces around a body with no comma of its
      own, which are a sequence or no group at all, and braces that are never closed. */
  datatype Word =
    | End
    | Text(atom: Atom, after: Word)
    | Choice(options: seq<Word>, after: Word)
    | Braced(body: Word, after: Word)
    | Stray(after: Word)

  function Print(word: Word): seq<Atom> {
    match word
    case End => []
    case Text(atom, after) => [atom] + Print(after)
    case Choice(options, after) => [Raw('{')] + (PrintOptions(options) + ([Raw('}')] + Print(after)))
    case Braced(body, after) => [Raw('{')] + (Print(body) + ([Raw('}')] + Print(after)))
    case Stray(after) => [Raw('{')] + Print(after)
  }

  function PrintOptions(options: seq<Word>): seq<Atom> {
    if options == [] then []
    else if |options| == 1 then Print(options[0])
    else Print(options[0]) + ([Raw(',')] + PrintOptions(options[1..]))
  }

  /** No plain atom of the word is a brace, and none inside braces a comma; nothing inside braces is left open. */
  predicate WellFormed(word: Word, inside: bool) {
    match word
    case End => true
    case Text(atom, after) =>
      atom != Raw('{') && atom != Raw('}') && (inside ==> atom != Raw(',')) && WellFormed(after, inside)
    case Choice(options, after) =>
      |options| >= 2 && (forall k :: 0 <= k < |options| ==> WellFormed(options[k], true)) && WellFormed(after, inside)
    case Braced(body, after) => WellFormed(body, true) && WellFormed(after, inside)
    case Stray(after) => !inside && WellFormed(after, inside)
  }

  function Each(atom: Atom, words: seq<seq<Atom>>): (r: seq<seq<Atom>>)
    ensures |r| == |words|
  {
    seq(|words|, k requires 0 <= k < |words| => [atom] + words[k])
  }

  /** Every way of choosing, the leftmost choice varying slowest; braces that are no group stand for themselves. */
  function Denote(word: Word): seq<seq<Atom>> {
    match word
    case End => [[]]
    case Text(atom, after) => Each(atom, Denote(after))
    case Choice(options, after) => Product([], DenoteOptions(options), Denote(after))
    case Braced(body, after) =>
      (match Sequence(Print(body))
       case Some(items) => Product([], items, Denote(after))
       case None => Each(Raw('{'), Product([], Denote(body), Each(Raw('}'), Denote(after)))))
    case Stray(after) => Each(Raw('{'), Denote(after))
  }

  function DenoteOptions(options: seq<Word>): seq<seq<Atom>> {
    if options == [] then []
    else DenoteOptions(options[..|options| - 1]) + Denote(options[|options| - 1])
  }

  function Times(a: nat, b: nat): (r: nat)
    ensures r == a * b
  {
    a * b
  }

  /** The budget a word takes, from its structure, in front of text that costs `cost` and means `size` words. */
  function Price(word: Word, size: nat, cost: nat): nat {
    match word
    case End => cost
    case Text(_, after) => Price(after, size, cost)
    case Choice(options, after) => Price(after, size, cost) + Prices(options) + Times(|Denote(word)|, size)
    case Braced(body, after) =>
      if Sequence(Print(body)).Some? then Price(after, size, cost) + Times(|Denote(word)|, size)
      else Price(body, Times(|Denote(after)|, size), Price(after, size, cost))
    case Stray(after) => Price(after, size, cost)
  }

  function Prices(options: seq<Word>): nat {
    if options == [] then 0 else Prices(options[..|options| - 1]) + Price(options[|options| - 1], 1, 0)
  }

  function Printed(options: seq<Word>): (words: seq<seq<Atom>>)
    ensures |words| == |options|
  {
    seq(|options|, k requires 0 <= k < |options| => Print(options[k]))
  }

  // Scanning past a printed word.

  /** Past what stands inside braces, and past anything that is nowhere left open, the depth is what it was. */
  lemma {:induction false} ClosePastWord(pre: seq<Atom>, word: Word, post: seq<Atom>, depth: nat)
    requires WellFormed(word, true) && depth > 0
    ensures CloseFrom(pre + Print(word) + post, |pre|, depth)
         == CloseFrom(pre + Print(word) + post, |pre + Print(word)|, depth)
    decreases word, 1
  {
    hide CloseFrom, WellFormed;
    WellFormedParts(word, true);
    var atoms := pre + Print(word) + post;
    match word
    case End =>
    case Text(atom, after) =>
      Seqs.Assoc(pre, [atom], Print(after));
      assert atoms[|pre|] == atom;
      CloseStep(atoms, |pre|, depth);
      ClosePastWord(pre + [atom], after, post, depth);
    case Choice(options, after) =>
      var inner, last := PrintOptions(options), Print(after);
      PrintChoice(options, after, []);
      hide Print, PrintOptions;
      Spans(pre, inner, last, post);
      ClosePastOptions(pre + [Raw('{')], options, [Raw('}')] + last + post, depth + 1);
      ClosePastWord(pre + [Raw('{')] + inner + [Raw('}')], after, post, depth);
      BracesPast(pre, inner, last, post, depth);
    case Braced(body, after) =>
      var inner, last := Print(body), Print(after);
      PrintBraced(body, after, []);
      hide Print;
      Spans(pre, inner, last, post);
      ClosePastWord(pre + [Raw('{')], body, [Raw('}')] + last + post, depth + 1);
      ClosePastWord(pre + [Raw('{')] + inner + [Raw('}')], after, post, depth);
      BracesPast(pre, inner, last, post, depth);
  }

  /** A pair of braces, from what is inside it and what follows it. */
  lemma BracesPast(pre: seq<Atom>, inner: seq<Atom>, last: seq<Atom>, post: seq<Atom>, depth: nat)
    requires depth > 0
    requires var atoms := pre + ([Raw('{')] + (inner + ([Raw('}')] + last))) + post;
             CloseFrom(atoms, |pre + [Raw('{')]|, depth + 1) == CloseFrom(atoms, |pre + [Raw('{')] + inner|, depth + 1)
    ensures var atoms := pre + ([Raw('{')] + (inner + ([Raw('}')] + last))) + post;
            CloseFrom(atoms, |pre|, depth) == CloseFrom(atoms, |pre + [Raw('{')] + inner + [Raw('}')]|, depth)
  {
    Spans(pre, inner, last, post);
    var atoms := pre + ([Raw('{')] + (inner + ([Raw('}')] + last))) + post;
    CloseStep(atoms, |pre|, depth);
    CloseStep(atoms, |pre + [Raw('{')] + inner|, depth + 1);
    hide CloseFrom;
  }

  lemma CloseStep(atoms: seq<Atom>, i: nat, depth: nat)
    requires i < |atoms| && depth > 0
    ensures IsRaw(atoms[i], '{') ==> CloseFrom(atoms, i, depth) == CloseFrom(atoms, i + 1, depth + 1)
    ensures IsRaw(atoms[i], '}') && depth > 1 ==> CloseFrom(atoms, i, depth) == CloseFrom(atoms, i + 1, depth - 1)
    ensures !IsRaw(atoms[i], '{') && !IsRaw(atoms[i], '}') ==> CloseFrom(atoms, i, depth) == CloseFrom(atoms, i + 1, depth)
  {
  }

  lemma Regroup(pre: seq<Atom>, a: seq<Atom>, b: seq<Atom>, c: seq<Atom>, post: seq<Atom>)
    ensures pre + (a + (b + c)) + post == pre + a + (b + c + post)
  {
  }

  lemma Spans(pre: seq<Atom>, inner: seq<Atom>, last: seq<Atom>, post: seq<Atom>)
    ensures var atoms := pre + ([Raw('{')] + (inner + ([Raw('}')] + last))) + post;
            && atoms == (pre + [Raw('{')]) + inner + ([Raw('}')] + last + post)
            && atoms == (pre + [Raw('{')] + inner + [Raw('}')]) + last + post
            && atoms[|pre|] == Raw('{') && atoms[|pre + [Raw('{')] + inner|] == Raw('}')
            && |pre + ([Raw('{')] + (inner + ([Raw('}')] + last)))| == |pre + [Raw('{')] + inner + [Raw('}')] + last|
  {
  }

  lemma {:induction false} ClosePastOptions(pre: seq<Atom>, options: seq<Word>, post: seq<Atom>, depth: nat)
    requires (forall k :: 0 <= k < |options| ==> WellFormed(options[k], true)) && depth > 0
    ensures CloseFrom(pre + PrintOptions(options) + post, |pre|, depth)
         == CloseFrom(pre + PrintOptions(options) + post, |pre + PrintOptions(options)|, depth)
    decreases options, 0
  {
    if |options| == 1 {
      ClosePastWord(pre, options[0], post, depth);
    } else if options != [] {
      var first, rest := Print(options[0]), PrintOptions(options[1..]);
      var atoms := pre + (first + ([Raw(',')] + rest)) + post;
      Regroup(pre, first, [Raw(',')], rest, post);
      ClosePastWord(pre, options[0], [Raw(',')] + rest + post, depth);
      Seqs.Assoc(pre + first, [Raw(',')], rest + post);
      Seqs.Assoc([Raw(',')], rest, post);
      assert atoms[|pre + first|] == Raw(',');
      ClosePastOptions(pre + first + [Raw(',')], options[1..], post, depth);
      Seqs.Assoc(pre + first + [Raw(',')], rest, post);
    }
  }

  /** Nothing in a word closes a brace opened before it. */
  lemma {:induction false} NeverCloses(pre: seq<Atom>, word: Word, depth: nat)
    requires WellFormed(word, false) && depth > 0
    ensures CloseFrom(pre + Print(word), |pre|, depth) == None
    decreases word
  {
    hide CloseFrom, WellFormed;
    WellFormedParts(word, false);
    var atoms := pre + Print(word);
    match word
    case End => CloseEnd(atoms, depth);
    case Text(atom, after) =>
      Seqs.Assoc(pre, [atom], Print(after));
      assert atoms[|pre|] == atom;
      CloseStep(atoms, |pre|, depth);
      NeverCloses(pre + [atom], after, depth);
    case Stray(after) =>
      Seqs.Assoc(pre, [Raw('{')], Print(after));
      assert atoms[|pre|] == Raw('{');
      CloseStep(atoms, |pre|, depth);
      NeverCloses(pre + [Raw('{')], after, depth + 1);
    case Choice(options, after) =>
      var inner, last := PrintOptions(options), Print(after);
      PrintChoice(options, after, []);
      hide Print, PrintOptions;
      Spans(pre, inner, last, []);
      SpansEnd(pre, inner, last);
      ClosePastOptions(pre + [Raw('{')], options, [Raw('}')] + last + [], depth + 1);
      NeverCloses(pre + [Raw('{')] + inner + [Raw('}')], after, depth);
      BracesPast(pre, inner, last, [], depth);
    case Braced(body, after) =>
      var inner, last := Print(body), Print(after);
      PrintBraced(body, after, []);
      hide Print;
      Spans(pre, inner, last, []);
      SpansEnd(pre, inner, last);
      ClosePastWord(pre + [Raw('{')], body, [Raw('}')] + last + [], depth + 1);
      NeverCloses(pre + [Raw('{')] + inner + [Raw('}')], after, depth);
      BracesPast(pre, inner, last, [], depth);
  }

  lemma CloseEnd(atoms: seq<Atom>, depth: nat)
    ensures CloseFrom(atoms, |atoms|, depth) == None
  {
  }

  lemma WellFormedParts(word: Word, inside: bool)
    requires WellFormed(word, inside)
    ensures word.Text? ==> word.atom != Raw('{') && word.atom != Raw('}') && (inside ==> word.atom != Raw(','))
    ensures word.Choice? ==> |word.options| >= 2 && forall k :: 0 <= k < |word.options| ==> WellFormed(word.options[k], true)
    ensures word.Braced? ==> WellFormed(word.body, true)
    ensures word.Stray? ==> !inside
    ensures !word.End? ==> WellFormed(word.after, inside)
  {
  }

  lemma SpansEnd(pre: seq<Atom>, inner: seq<Atom>, last: seq<Atom>)
    ensures var atoms := pre + ([Raw('{')] + (inner + ([Raw('}')] + last)));
            atoms + [] == atoms && (pre + [Raw('{')] + inner + [Raw('}')]) + last == atoms
  {
  }

  /** `w` put in front of the first part. */
  function Extended(w: seq<Atom>, parts: seq<seq<Atom>>): seq<seq<Atom>>
    requires parts != []
  {
    [w + parts[0]] + parts[1..]
  }

  lemma ExtendedTwice(a: seq<Atom>, b: seq<Atom>, parts: seq<seq<Atom>>)
    requires parts != []
    ensures Extended(a, Extended(b, parts)) == Extended(a + b, parts)
  {
    Seqs.HeadTail(b + parts[0], parts[1..]);
    Seqs.Assoc(a, b, parts[0]);
  }

  lemma PartsHead(atom: Atom, rest: seq<Atom>, depth: nat)
    requires atom != Raw(',') || depth > 0
    ensures Parts([atom] + rest, depth) == Extended([atom], Parts(rest, BraceDepth(atom, depth)))
  {
    Seqs.HeadTail(atom, rest);
    hide BraceDepth;
  }

  lemma {:induction false} PartsPastWord(word: Word, rest: seq<Atom>, depth: nat)
    requires WellFormed(word, true)
    ensures Parts(Print(word) + rest, depth) == Extended(Print(word), Parts(rest, depth))
    decreases word, 1
  {
    match word
    case End =>
      assert [] + rest == rest;
      assert [] + Parts(rest, depth)[0] == Parts(rest, depth)[0];
    case Text(atom, after) =>
      Seqs.Assoc([atom], Print(after), rest);
      PartsHead(atom, Print(after) + rest, depth);
      PartsPastWord(after, rest, depth);
      hide Parts;
      ExtendedTwice([atom], Print(after), Parts(rest, depth));
    case Choice(options, after) =>
      hide Parts, Print;
      PartsPastOptions(options, [Raw('}')] + (Print(after) + rest), depth + 1);
      PartsPastWord(after, rest, depth);
      PrintChoice(options, after, rest);
      PartsPastBraces(PrintOptions(options), Print(after), rest, depth);
    case Braced(body, after) =>
      hide Parts, Print;
      PartsPastWord(body, [Raw('}')] + (Print(after) + rest), depth + 1);
      PartsPastWord(after, rest, depth);
      PrintBraced(body, after, rest);
      PartsPastBraces(Print(body), Print(after), rest, depth);
  }

  lemma PartsPastBraces(inner: seq<Atom>, last: seq<Atom>, rest: seq<Atom>, depth: nat)
    requires Parts(inner + ([Raw('}')] + (last + rest)), depth + 1)
          == Extended(inner, Parts([Raw('}')] + (last + rest), depth + 1))
    requires Parts(last + rest, depth) == Extended(last, Parts(rest, depth))
    ensures Parts([Raw('{')] + (inner + ([Raw('}')] + (last + rest))), depth)
         == Extended([Raw('{')] + (inner + ([Raw('}')] + last)), Parts(rest, depth))
  {
    hide Parts;
    PartsHead(Raw('{'), inner + ([Raw('}')] + (last + rest)), depth);
    PartsHead(Raw('}'), last + rest, depth + 1);
    var parts := Parts(rest, depth);
    ExtendedTwice([Raw('}')], last, parts);
    ExtendedTwice(inner, [Raw('}')] + last, parts);
    ExtendedTwice([Raw('{')], inner + ([Raw('}')] + last), parts);
  }

  lemma PrintChoice(options: seq<Word>, after: Word, rest: seq<Atom>)
    ensures Print(Choice(options, after)) == [Raw('{')] + (PrintOptions(options) + ([Raw('}')] + Print(after)))
    ensures Print(Choice(options, after)) + rest
         == [Raw('{')] + (PrintOptions(options) + ([Raw('}')] + (Print(after) + rest)))
  {
    hide PrintOptions;
    var (inner, last) := (PrintOptions(options), Print(after));
    assert Print(Choice(options, after)) == [Raw('{')] + (inner + ([Raw('}')] + last));
    hide Print;
    Seqs.Assoc([Raw('{')], inner + ([Raw('}')] + last), rest);
    Seqs.Assoc(inner, [Raw('}')] + last, rest);
    Seqs.Assoc([Raw('}')], last, rest);
  }

  lemma PrintBraced(body: Word, after: Word, rest: seq<Atom>)
    ensures Print(Braced(body, after)) == [Raw('{')] + (Print(body) + ([Raw('}')] + Print(after)))
    ensures Print(Braced(body, after)) + rest == [Raw('{')] + (Print(body) + ([Raw('}')] + (Print(after) + rest)))
  {
    var (inner, last) := (Print(body), Print(after));
    assert Print(Braced(body, after)) == [Raw('{')] + (inner + ([Raw('}')] + last));
    hide Print;
    Seqs.Assoc([Raw('{')], inner + ([Raw('}')] + last), rest);
    Seqs.Assoc(inner, [Raw('}')] + last, rest);
    Seqs.Assoc([Raw('}')], last, rest);
  }

  lemma {:induction false} PartsPastOptions(options: seq<Word>, rest: seq<Atom>, depth: nat)
    requires (forall k :: 0 <= k < |options| ==> WellFormed(options[k], true)) && depth > 0
    ensures Parts(PrintOptions(options) + rest, depth) == Extended(PrintOptions(options), Parts(rest, depth))
    decreases options, 0
  {
    hide Parts, Print;
    if options == [] {
      assert [] + rest == rest;
      assert [] + Parts(rest, depth)[0] == Parts(rest, depth)[0];
    } else if |options| == 1 {
      PartsPastWord(options[0], rest, depth);
    } else {
      var first, more := Print(options[0]), PrintOptions(options[1..]);
      Seqs.Assoc(first, [Raw(',')] + more, rest);
      Seqs.Assoc([Raw(',')], more, rest);
      PartsPastWord(options[0], [Raw(',')] + (more + rest), depth);
      PartsHead(Raw(','), more + rest, depth);
      PartsPastOptions(options[1..], rest, depth);
      ExtendedTwice([Raw(',')], more, Parts(rest, depth));
      ExtendedTwice(first, [Raw(',')] + more, Parts(rest, depth));
    }
  }

  /** A group's printed options come apart again at its own commas and at no others. */
  lemma {:induction false} OptionsComeApart(options: seq<Word>)
    requires options != [] && forall k :: 0 <= k < |options| ==> WellFormed(options[k], true)
    ensures Parts(PrintOptions(options), 0) == Printed(options)
  {
    var first := Print(options[0]);
    if |options| == 1 {
      PartsPastWord(options[0], [], 0);
      assert first + [] == first;
      assert Printed(options) == [first];
    } else {
      var more := PrintOptions(options[1..]);
      PartsPastWord(options[0], [Raw(',')] + more, 0);
      Seqs.HeadTail(Raw(','), more);
      OptionsComeApart(options[1..]);
      hide Print;
      var rest := Parts(more, 0);
      assert Parts([Raw(',')] + more, 0) == [[]] + rest;
      Seqs.HeadTail<seq<Atom>>([], rest);
      assert first + [] == first;
      assert Printed(options) == [first] + Printed(options[1..]);
    }
  }

  /** A body with no comma of its own is one part. */
  lemma BodyIsOnePart(body: Word)
    requires WellFormed(body, true)
    ensures Parts(Print(body), 0) == [Print(body)]
  {
    hide Print;
    PartsPastWord(body, [], 0);
    assert Print(body) + [] == Print(body);
    assert Parts([], 0) == [[]] && Extended(Print(body), [[]]) == [Print(body)];
  }

  // Meaning, one atom further to the left.

  lemma {:induction false} CloseShift(atom: Atom, atoms: seq<Atom>, i: nat, depth: nat)
    requires i <= |atoms|
    ensures CloseFrom([atom] + atoms, i + 1, depth)
         == match CloseFrom(atoms, i, depth) case None => None case Some(close) => Some(close + 1)
    decreases |atoms| - i
  {
    if i < |atoms| {
      assert ([atom] + atoms)[i + 1] == atoms[i];
      CloseShift(atom, atoms, i + 1, BraceDepth(atoms[i], depth));
      hide BraceDepth;
    }
  }

  function Shifted(group: Option<Group>): Option<Group> {
    match group
    case None => None
    case Some(Group(open, close, alternatives)) => Some(Group(open + 1, close + 1, alternatives))
  }

  lemma GroupShift(atom: Atom, atoms: seq<Atom>, i: nat)
    requires i < |atoms|
    ensures GroupAt([atom] + atoms, i + 1) == Shifted(GroupAt(atoms, i))
  {
    hide Alternatives;
    CloseShift(atom, atoms, i, 0);
    hide CloseFrom;
    assert ([atom] + atoms)[i + 1] == atoms[i];
    if CloseFrom(atoms, i, 0).Some? && IsRaw(atoms[i], '{') {
      var close := CloseFrom(atoms, i, 0).value;
      assert close != i;
      assert ([atom] + atoms)[i + 2..close + 1] == atoms[i + 1..close];
    }
  }

  lemma {:induction false} FirstGroupShift(atom: Atom, atoms: seq<Atom>, i: nat)
    requires i <= |atoms|
    ensures FirstGroup([atom] + atoms, i + 1) == Shifted(FirstGroup(atoms, i))
    decreases |atoms| - i
  {
    hide GroupAt;
    if i < |atoms| {
      GroupShift(atom, atoms, i);
      FirstGroupShift(atom, atoms, i + 1);
    }
  }

  lemma {:induction false} ProductEach(atom: Atom, prefix: seq<Atom>, bodies: seq<seq<Atom>>, suffixes: seq<seq<Atom>>)
    ensures Product([atom] + prefix, bodies, suffixes) == Each(atom, Product(prefix, bodies, suffixes))
  {
    if bodies != [] {
      var most, last := bodies[..|bodies| - 1], bodies[|bodies| - 1];
      ProductEach(atom, prefix, most, suffixes);
      hide Product;
      RowEach(atom, prefix, last, suffixes);
      assert Each(atom, Product(prefix, most, suffixes) + Row(prefix, last, suffixes))
          == Each(atom, Product(prefix, most, suffixes)) + Each(atom, Row(prefix, last, suffixes));
    }
  }

  lemma RowEach(atom: Atom, prefix: seq<Atom>, body: seq<Atom>, suffixes: seq<seq<Atom>>)
    ensures Row([atom] + prefix, body, suffixes) == Each(atom, Row(prefix, body, suffixes))
  {
    forall k | 0 <= k < |suffixes|
      ensures Row([atom] + prefix, body, suffixes)[k] == Each(atom, Row(prefix, body, suffixes))[k]
    {
      assert [atom] + prefix + body + suffixes[k] == [atom] + (prefix + body + suffixes[k]);
    }
  }

  /** A first atom that opens no group is carried by every word. */
  lemma MeaningOfFirst(atom: Atom, atoms: seq<Atom>)
    requires GroupAt([atom] + atoms, 0).None?
    ensures Meaning([atom] + atoms) == Each(atom, Meaning(atoms)) && Cost([atom] + atoms) == Cost(atoms)
  {
    hide GroupAt;
    FirstGroupShift(atom, atoms, 0);
    hide FirstGroup, Product, Braces;
    if group :| FirstGroup(atoms, 0) == Some(group) {
      GroupOfRest(atom, atoms, group);
    } else {
      assert Each(atom, [atoms]) == [[atom] + atoms];
    }
  }

  lemma GroupOfRest(atom: Atom, atoms: seq<Atom>, group: Group)
    requires FirstGroup(atoms, 0) == Some(group) && FirstGroup([atom] + atoms, 0) == Shifted(Some(group))
    ensures Meaning([atom] + atoms) == Each(atom, Meaning(atoms)) && Cost([atom] + atoms) == Cost(atoms)
  {
    hide Meaning, Cost, FirstGroup, Bodies, Costs, GroupAt, Braces, AllBelow, Product;
    var more := [atom] + atoms;
    GroupShrinks(atoms, group);
    GroupShrinks(more, Shifted(Some(group)).value);
    GroupTotals(atoms, group);
    GroupTotals(more, Shifted(Some(group)).value);
    ShiftedPieces(atom, atoms, group.open, group.close);
    BoundIsFree(group.alternatives, Braces(atoms), Braces(more));
    ProductEach(atom, atoms[..group.open], Bodies(group.alternatives, Braces(atoms)), Meaning(atoms[group.close + 1..]));
  }

  /** The bound only makes the recursion end. */
  lemma {:induction false} BoundIsFree(alternatives: seq<seq<Atom>>, a: nat, b: nat)
    requires AllBelow(alternatives, a) && AllBelow(alternatives, b)
    ensures Bodies(alternatives, a) == Bodies(alternatives, b) && Costs(alternatives, a) == Costs(alternatives, b)
    decreases |alternatives|
  {
    hide Meaning, Cost;
    if alternatives != [] {
      BoundIsFree(alternatives[..|alternatives| - 1], a, b);
    }
  }

  lemma ShiftedPieces(atom: Atom, atoms: seq<Atom>, open: nat, close: nat)
    requires open < close < |atoms|
    ensures ([atom] + atoms)[..open + 1] == [atom] + atoms[..open]
    ensures ([atom] + atoms)[close + 2..] == atoms[close + 1..]
  {
  }

  lemma PlainIsNoGroup(atom: Atom, atoms: seq<Atom>)
    requires atom != Raw('{')
    ensures GroupAt([atom] + atoms, 0).None?
  {
    hide CloseFrom, Alternatives;
  }

  // Products, put together in either order.

  lemma {:induction false} EachProduct(atom: Atom, bodies: seq<seq<Atom>>, suffixes: seq<seq<Atom>>)
    ensures Each(atom, Product([], bodies, suffixes)) == Product([], Each(atom, bodies), suffixes)
  {
    if bodies != [] {
      var most, last := bodies[..|bodies| - 1], bodies[|bodies| - 1];
      EachProduct(atom, most, suffixes);
      assert Each(atom, bodies)[..|bodies| - 1] == Each(atom, most);
      hide Product;
      EachRow(atom, last, suffixes);
      EachConcat(atom, Product([], most, suffixes), Row([], last, suffixes));
    }
  }

  lemma EachRow(atom: Atom, body: seq<Atom>, suffixes: seq<seq<Atom>>)
    ensures Each(atom, Row([], body, suffixes)) == Row([], [atom] + body, suffixes)
  {
    forall k | 0 <= k < |suffixes|
      ensures Each(atom, Row([], body, suffixes))[k] == Row([], [atom] + body, suffixes)[k]
    {
      assert [atom] + ([] + body + suffixes[k]) == [] + ([atom] + body) + suffixes[k];
    }
  }

  lemma EachConcat(atom: Atom, a: seq<seq<Atom>>, b: seq<seq<Atom>>)
    ensures Each(atom, a + b) == Each(atom, a) + Each(atom, b)
  {
  }

  lemma {:induction false} ProductAssoc(a: seq<seq<Atom>>, b: seq<seq<Atom>>, c: seq<seq<Atom>>)
    ensures Product([], a, Product([], b, c)) == Product([], Product([], a, b), c)
  {
    if a != [] {
      var most, last := a[..|a| - 1], a[|a| - 1];
      ProductAssoc(most, b, c);
      RowProduct(last, b, c);
      ProductConcat([], Product([], most, b), Row([], last, b), c);
    }
  }

  lemma {:induction false} RowProduct(word: seq<Atom>, b: seq<seq<Atom>>, c: seq<seq<Atom>>)
    ensures Row([], word, Product([], b, c)) == Product([], Row([], word, b), c)
  {
    if b != [] {
      var most, last := b[..|b| - 1], b[|b| - 1];
      RowProduct(word, most, c);
      assert Row([], word, b)[..|b| - 1] == Row([], word, most);
      assert [] + word + last == word + last;
      hide Product;
      RowRow(word, last, c);
      assert Row([], word, Product([], most, c) + Row([], last, c))
          == Row([], word, Product([], most, c)) + Row([], word, Row([], last, c));
    }
  }

  lemma RowRow(a: seq<Atom>, b: seq<Atom>, c: seq<seq<Atom>>)
    ensures Row([], a, Row([], b, c)) == Row([], a + b, c)
  {
    forall k | 0 <= k < |c|
      ensures Row([], a, Row([], b, c))[k] == Row([], a + b, c)[k]
    {
      assert [] + a + ([] + b + c[k]) == [] + (a + b) + c[k];
    }
  }

  /** Of the words of a group, those of one body stand together, in the order of the suffixes. */
  lemma {:induction false} ProductAt(prefix: seq<Atom>, bodies: seq<seq<Atom>>, suffixes: seq<seq<Atom>>, i: nat, j: nat)
    requires i < |bodies| && j < |suffixes|
    ensures 0 <= i * |suffixes| + j < |Product(prefix, bodies, suffixes)|
    ensures Product(prefix, bodies, suffixes)[i * |suffixes| + j] == prefix + bodies[i] + suffixes[j]
  {
    var n := |bodies| - 1;
    var most := bodies[..n];
    ProductSize(prefix, most, suffixes);
    if i == n {
      PositiveOrZero(n, |suffixes|);
      assert Product(prefix, bodies, suffixes)[|Product(prefix, most, suffixes)| + j] == Row(prefix, bodies[n], suffixes)[j];
    } else {
      ProductAt(prefix, most, suffixes, i, j);
    }
  }

  lemma {:induction false} BodiesAt(alternatives: seq<seq<Atom>>, bound: nat, i: nat, k: nat)
    requires AllBelow(alternatives, bound) && i < |alternatives| && k < |Meaning(alternatives[i])|
    ensures |Bodies(alternatives[..i], bound)| + k < |Bodies(alternatives, bound)|
    ensures Bodies(alternatives, bound)[|Bodies(alternatives[..i], bound)| + k] == Meaning(alternatives[i])[k]
  {
    hide Meaning;
    var n := |alternatives| - 1;
    if i < n {
      BodiesAt(alternatives[..n], bound, i, k);
      assert alternatives[..n][..i] == alternatives[..i];
    }
  }

  /** The words of a word in their order: those of one alternative after those of the alternatives before it, and
      each of them with every word of what follows the group, in that one's order. */
  lemma MeaningAt(atoms: seq<Atom>, group: Group, i: nat, k: nat, j: nat)
    requires FirstGroup(atoms, 0) == Some(group) && i < |group.alternatives|
    requires k < |Meaning(group.alternatives[i])| && j < |Meaning(atoms[group.close + 1..])|
    ensures AllBelow(group.alternatives[..i], Braces(atoms))
    ensures var m := |Meaning(atoms[group.close + 1..])|;
            var at := (|Bodies(group.alternatives[..i], Braces(atoms))| + k) * m + j;
            && 0 <= at < |Meaning(atoms)|
            && Meaning(atoms)[at]
               == atoms[..group.open] + Meaning(group.alternatives[i])[k] + Meaning(atoms[group.close + 1..])[j]
  {
    hide Meaning, Cost, FirstGroup, GroupAt, Braces, Product, AllBelow, Bodies;
    GroupShrinks(atoms, group);
    GroupTotals(atoms, group);
    var (rest, bound) := (Meaning(atoms[group.close + 1..]), Braces(atoms));
    SomeBelow(group.alternatives, i, bound);
    BodiesAt(group.alternatives, bound, i, k);
    ProductAt(atoms[..group.open], Bodies(group.alternatives, bound), rest, |Bodies(group.alternatives[..i], bound)| + k, j);
  }

  lemma SomeBelow(alternatives: seq<seq<Atom>>, i: nat, bound: nat)
    requires AllBelow(alternatives, bound) && i <= |alternatives|
    ensures AllBelow(alternatives[..i], bound)
  {
  }

  lemma PositiveOrZero(a: nat, b: nat)
    ensures a * b >= 0
  {
  }

  // What a printed word means.

  /** In front of any text a word adds its own choices; only at the end of it all may a brace be left open. */
  lemma {:induction false} WordMeans(word: Word, inside: bool, tail: seq<Atom>)
    requires WellFormed(word, inside) && (inside || tail == [])
    ensures Meaning(Print(word) + tail) == Product([], Denote(word), Meaning(tail))
    ensures Cost(Print(word) + tail) == Price(word, |Meaning(tail)|, Cost(tail))
    decreases word, 1
  {
    hide Meaning, Cost, GroupAt, FirstGroup;
    match word
    case End =>
      assert [] + tail == tail;
      OnlyOne(Meaning(tail));
    case Text(atom, after) =>
      WordMeans(after, inside, tail);
      hide Product;
      Seqs.Assoc([atom], Print(after), tail);
      PlainIsNoGroup(atom, Print(after) + tail);
      MeaningOfFirst(atom, Print(after) + tail);
      EachProduct(atom, Denote(after), Meaning(tail));
    case Stray(after) =>
      WordMeans(after, inside, tail);
      hide Product;
      Seqs.Assoc([Raw('{')], Print(after), tail);
      StrayIsNoGroup(after);
      assert Print(after) + tail == Print(after);
      MeaningOfFirst(Raw('{'), Print(after) + tail);
      EachProduct(Raw('{'), Denote(after), Meaning(tail));
    case Choice(_, _) => ChoiceMeans(word, inside, tail);
    case Braced(body, _) =>
      if Sequence(Print(body)).Some? {
        SequenceMeans(word, inside, tail);
      } else {
        PairMeans(word, inside, tail);
      }
  }

  lemma OnlyOne(words: seq<seq<Atom>>)
    ensures Product([], [[]], words) == words
  {
    var one: seq<seq<Atom>> := [[]];
    assert one[..0] == [];
    assert Product([], one[..0], words) == [];
    forall k | 0 <= k < |words|
      ensures Row([], [], words)[k] == words[k]
    {
      assert [] + [] + words[k] == words[k];
    }
    assert Row([], [], words) == words;
  }

  lemma StrayIsNoGroup(after: Word)
    requires WellFormed(after, false)
    ensures GroupAt([Raw('{')] + Print(after), 0).None?
  {
    NeverCloses([Raw('{')], after, 1);
    hide Print;
    assert CloseFrom([Raw('{')] + Print(after), 0, 0) == CloseFrom([Raw('{')] + Print(after), 1, 1);
    hide CloseFrom;
  }

  lemma {:induction false} ChoiceMeans(word: Word, inside: bool, tail: seq<Atom>)
    requires word.Choice? && WellFormed(word, inside) && (inside || tail == [])
    ensures Meaning(Print(word) + tail) == Product([], Denote(word), Meaning(tail))
    ensures Cost(Print(word) + tail) == Price(word, |Meaning(tail)|, Cost(tail))
    decreases word, 0
  {
    var options, after := word.options, word.after;
    WordMeans(after, inside, tail);
    OptionsMean(options);
    hide Meaning, Cost, Print, Braces, Product, DenoteOptions, Prices, AllBelow, FirstGroup, GroupAt, Printed;
    var group := ChoiceIsFirst(options, after, tail);
    GroupMeans(Print(word) + tail, group, DenoteOptions(options), Prices(options), Print(after) + tail);
    ProductAssoc(DenoteOptions(options), Denote(after), Meaning(tail));
    ProductSize([], Denote(word), Meaning(tail));
  }

  /** The first group of a text that starts with it, from what it offers. */
  lemma GroupMeans(atoms: seq<Atom>, group: Group, words: seq<seq<Atom>>, cost: nat, rest: seq<Atom>)
    requires FirstGroup(atoms, 0) == Some(group) && group.open == 0 && atoms[group.close + 1..] == rest
    requires forall bound: nat :: AllBelow(group.alternatives, bound) ==>
               Bodies(group.alternatives, bound) == words && Costs(group.alternatives, bound) == cost
    ensures Meaning(atoms) == Product([], words, Meaning(rest))
    ensures Cost(atoms) == Cost(rest) + cost + |Meaning(atoms)|
  {
    hide Meaning, Cost, Braces, Product, FirstGroup, GroupAt, Bodies, Costs, AllBelow;
    GroupShrinks(atoms, group);
    GroupTotals(atoms, group);
    assert atoms[..0] == [];
  }

  lemma ChoiceIsFirst(options: seq<Word>, after: Word, tail: seq<Atom>) returns (group: Group)
    requires |options| >= 2 && forall k :: 0 <= k < |options| ==> WellFormed(options[k], true)
    ensures group == Group(0, 1 + |PrintOptions(options)|, Printed(options))
    ensures FirstGroup(Print(Choice(options, after)) + tail, 0) == Some(group)
    ensures (Print(Choice(options, after)) + tail)[group.close + 1..] == Print(after) + tail
  {
    group := Group(0, 1 + |PrintOptions(options)|, Printed(options));
    var inner, last := PrintOptions(options), Print(after) + tail;
    PrintChoice(options, after, tail);
    hide Print, PrintOptions;
    BracedSpan(inner, last);
    ClosePastOptions([Raw('{')], options, [Raw('}')] + last, 1);
    ClosesThere(inner, last);
    OptionsComeApart(options);
    hide CloseFrom, Parts, Printed;
  }

  lemma BracedSpan(inner: seq<Atom>, last: seq<Atom>)
    ensures var atoms := [Raw('{')] + (inner + ([Raw('}')] + last));
            && atoms == [Raw('{')] + inner + ([Raw('}')] + last)
            && atoms[0] == Raw('{') && atoms[|inner| + 1] == Raw('}')
            && atoms[1..|inner| + 1] == inner && atoms[|inner| + 2..] == last
  {
  }

  /** Braces close where the depth of what is inside says. */
  lemma ClosesThere(inner: seq<Atom>, last: seq<Atom>)
    requires var atoms := [Raw('{')] + inner + ([Raw('}')] + last);
             CloseFrom(atoms, 1, 1) == CloseFrom(atoms, |[Raw('{')] + inner|, 1)
    ensures CloseFrom([Raw('{')] + (inner + ([Raw('}')] + last)), 0, 0) == Some(|inner| + 1)
  {
    BracedSpan(inner, last);
  }

  lemma BracedCloses(body: Word, last: seq<Atom>)
    requires WellFormed(body, true)
    ensures CloseFrom([Raw('{')] + (Print(body) + ([Raw('}')] + last)), 0, 0) == Some(|Print(body)| + 1)
    ensures Alternatives(Print(body)) == Sequence(Print(body))
  {
    hide Print;
    BodyIsOnePart(body);
    ClosePastWord([Raw('{')], body, [Raw('}')] + last, 1);
    ClosesThere(Print(body), last);
    hide CloseFrom;
  }

  lemma BracedGroup(body: Word, last: seq<Atom>)
    requires WellFormed(body, true)
    ensures var atoms := [Raw('{')] + (Print(body) + ([Raw('}')] + last));
            GroupAt(atoms, 0) == match Sequence(Print(body))
                                 case None => None
                                 case Some(items) => Some(Group(0, |Print(body)| + 1, items))
  {
    BracedCloses(body, last);
    hide CloseFrom, Alternatives, Print;
    BracedSpan(Print(body), last);
  }

  lemma {:induction false} SequenceMeans(word: Word, inside: bool, tail: seq<Atom>)
    requires word.Braced? && WellFormed(word, inside) && (inside || tail == []) && Sequence(Print(word.body)).Some?
    ensures Meaning(Print(word) + tail) == Product([], Denote(word), Meaning(tail))
    ensures Cost(Print(word) + tail) == Price(word, |Meaning(tail)|, Cost(tail))
    decreases word, 0
  {
    var body, after := word.body, word.after;
    WordMeans(after, inside, tail);
    var items := Sequence(Print(body)).value;
    PrintBraced(body, after, tail);
    hide Meaning, Cost, Print, Braces, Product, AllBelow, GroupAt, Sequence;
    BracedGroup(body, Print(after) + tail);
    BracedSpan(Print(body), Print(after) + tail);
    var group := Group(0, |Print(body)| + 1, items);
    assert FirstGroup(Print(word) + tail, 0) == Some(group);
    hide FirstGroup;
    ItemsMean(Print(body));
    GroupMeans(Print(word) + tail, group, items, 0, Print(after) + tail);
    ProductAssoc(items, Denote(after), Meaning(tail));
    ProductSize([], Denote(word), Meaning(tail));
  }

  /** What a sequence offers holds no group. */
  lemma ItemsMean(inner: seq<Atom>)
    requires Sequence(inner).Some?
    ensures var items := Sequence(inner).value;
            forall bound: nat :: AllBelow(items, bound) ==> Bodies(items, bound) == items && Costs(items, bound) == 0
  {
    var items := Sequence(inner).value;
    SequenceIsPlain(inner);
    hide Sequence, PlainText;
    forall k | 0 <= k < |items|
      ensures FirstGroup(items[k], 0).None?
    {
      PlainHasNoBraces(items[k]);
      NoBraceNoGroup(items[k], 0);
    }
    forall bound: nat | AllBelow(items, bound)
      ensures Bodies(items, bound) == items && Costs(items, bound) == 0
    {
      GrouplessBodies(items, bound);
    }
  }

  lemma {:induction false} NoBraceNoGroup(atoms: seq<Atom>, i: nat)
    requires Braces(atoms) == 0 && i <= |atoms|
    ensures FirstGroup(atoms, i).None?
    decreases |atoms| - i
  {
    if i < |atoms| {
      BracesPieces(atoms, i);
      Seqs.DropHead(atoms, i);
      assert !IsRaw(atoms[i], '{');
      NoBraceNoGroup(atoms, i + 1);
    }
  }

  lemma {:induction false} GrouplessBodies(alternatives: seq<seq<Atom>>, bound: nat)
    requires AllBelow(alternatives, bound) && forall k :: 0 <= k < |alternatives| ==> FirstGroup(alternatives[k], 0).None?
    ensures Bodies(alternatives, bound) == alternatives && Costs(alternatives, bound) == 0
    decreases |alternatives|
  {
    hide FirstGroup;
    if alternatives != [] {
      var n := |alternatives| - 1;
      GrouplessBodies(alternatives[..n], bound);
      MeaningSize(alternatives[n]);
      hide Meaning, Cost;
      assert alternatives == alternatives[..n] + [alternatives[n]];
    }
  }

  lemma {:induction false} PairMeans(word: Word, inside: bool, tail: seq<Atom>)
    requires word.Braced? && WellFormed(word, inside) && (inside || tail == []) && Sequence(Print(word.body)).None?
    ensures Meaning(Print(word) + tail) == Product([], Denote(word), Meaning(tail))
    ensures Cost(Print(word) + tail) == Price(word, |Meaning(tail)|, Cost(tail))
    decreases word, 0
  {
    var body, after := word.body, word.after;
    var last := Print(after) + tail;
    WordMeans(after, inside, tail);
    WordMeans(body, true, [Raw('}')] + last);
    PrintBraced(body, after, tail);
    hide Meaning, Cost, Print, Product, GroupAt, Sequence;
    PlainIsNoGroup(Raw('}'), last);
    MeaningOfFirst(Raw('}'), last);
    BracedGroup(body, last);
    MeaningOfFirst(Raw('{'), Print(body) + ([Raw('}')] + last));
    PairProduct(Denote(body), Denote(after), Meaning(tail));
    ProductSize([], Denote(after), Meaning(tail));
  }

  lemma PairProduct(inner: seq<seq<Atom>>, after: seq<seq<Atom>>, words: seq<seq<Atom>>)
    ensures Each(Raw('{'), Product([], inner, Each(Raw('}'), Product([], after, words))))
         == Product([], Each(Raw('{'), Product([], inner, Each(Raw('}'), after))), words)
  {
    hide Product;
    EachProduct(Raw('}'), after, words);
    ProductAssoc(inner, Each(Raw('}'), after), words);
    EachProduct(Raw('{'), Product([], inner, Each(Raw('}'), after)), words);
  }

  lemma {:induction false} OptionsMean(options: seq<Word>)
    requires forall k :: 0 <= k < |options| ==> WellFormed(options[k], true)
    ensures forall bound: nat :: AllBelow(Printed(options), bound) ==>
              Bodies(Printed(options), bound) == DenoteOptions(options) && Costs(Printed(options), bound) == Prices(options)
    decreases options, 0
  {
    if options != [] {
      var most, last := options[..|options| - 1], options[|options| - 1];
      assert Printed(options)[..|options| - 1] == Printed(most);
      hide Meaning, Cost, Print, Denote, Price, WellFormed;
      PrintedWordMeans(last, true);
      OptionsMean(most);
      forall bound: nat | AllBelow(Printed(options), bound)
        ensures Bodies(Printed(options), bound) == DenoteOptions(options) && Costs(Printed(options), bound) == Prices(options)
      {
        assert AllBelow(Printed(most), bound);
        assert Printed(options)[|options| - 1] == Print(last);
      }
    }
  }

  /** Every word printed from its structure expands to every way of choosing, in order, at its price. */
  lemma {:induction false} PrintedWordMeans(word: Word, inside: bool)
    requires WellFormed(word, inside)
    ensures Meaning(Print(word)) == Denote(word) && Cost(Print(word)) == Price(word, 1, 0)
    decreases word, 2
  {
    var none: seq<Atom> := [];
    WordMeans(word, inside, none);
    assert Print(word) + none == Print(word);
    assert FirstGroup(none, 0).None?;
    MeaningSize(none);
    hide Meaning, Cost, Print, Denote, Price;
    OnlyNothing(Denote(word));
  }

  lemma {:induction false} OnlyNothing(words: seq<seq<Atom>>)
    ensures Product([], words, [[]]) == words
  {
    if words != [] {
      var most, last := words[..|words| - 1], words[|words| - 1];
      OnlyNothing(most);
      assert [] + last + [] == last;
      assert Row([], last, [[]]) == [last];
      assert most + [last] == words;
    }
  }
}
