/** The budget of brace expansion counts more than the words that come out. */
module BraceLimit {
  import opened Wrappers
  import opened Decimals
  import opened BraceAtoms
  import opened BraceSequence
  import opened BraceEndpoints
  import opened Brace
  import opened BraceMeaning

  /** Two groups side by side, comma groups or sequences, are charged for the second's words once more than the
      product: they are left as typed although the product itself may be within the limit exactly when that once
      more is what exceeds it. */
  lemma TwoGroupsDeclined(atoms: seq<Atom>, first: Group, second: Group)
    requires FirstGroup(atoms, 0) == Some(first) && FirstGroup(atoms[first.close + 1..], 0) == Some(second)
    requires FirstGroup(atoms[first.close + 1..][second.close + 1..], 0).None?
    requires forall k :: 0 <= k < |first.alternatives| ==> FirstGroup(first.alternatives[k], 0).None?
    requires forall k :: 0 <= k < |second.alternatives| ==> FirstGroup(second.alternatives[k], 0).None?
    ensures var (n, m) := (|first.alternatives|, |second.alternatives|);
            && |Meaning(atoms)| == n * m
            && Cost(atoms) == n * m + m
            && (Expansion(atoms) != Meaning(atoms) <==> n * m + m > WORD_LIMIT)
  {
    hide Meaning, Cost, FirstGroup, GroupAt, Braces, AllBelow;
    var rest := atoms[first.close + 1..];
    var last := rest[second.close + 1..];
    MeaningSize(last);
    OneGroup(rest, second);
    OneGroup(atoms, first);
    var (n, m) := (|first.alternatives|, |second.alternatives|);
    assert m * 1 == m;
    if n * m + m > WORD_LIMIT {
      MoreThanOne(n, m);
    }
  }

  lemma MoreThanOne(n: nat, m: nat)
    requires n * m + m > WORD_LIMIT && n > 0
    ensures n * m > 1
  {
    assert n * m == (n - 1) * m + m;
    PositiveOrZero(n - 1, m);
  }

  /** A group whose alternatives hold no group multiplies the words of what follows it. */
  lemma OneGroup(atoms: seq<Atom>, group: Group)
    requires FirstGroup(atoms, 0) == Some(group)
    requires forall k :: 0 <= k < |group.alternatives| ==> FirstGroup(group.alternatives[k], 0).None?
    ensures var rest := atoms[group.close + 1..];
            && |Meaning(atoms)| == |group.alternatives| * |Meaning(rest)|
            && Cost(atoms) == Cost(rest) + |Meaning(atoms)|
    ensures group.alternatives != []
  {
    hide Meaning, Cost, FirstGroup, GroupAt, Braces, Product, AllBelow;
    GroupShrinks(atoms, group);
    GroupTotals(atoms, group);
    GrouplessBodies(group.alternatives, Braces(atoms));
    ProductSize(atoms[..group.open], group.alternatives, Meaning(atoms[group.close + 1..]));
  }

  /** The characters of `s`, one by one. */
  function Texts(s: string): Word {
    if s == "" then End else Text(Raw(s[0]), Texts(s[1..]))
  }

  /** `{a,b}{1..n}` */
  function PairAndRange(range: string): Word {
    Choice([Texts("a"), Texts("b")], Braced(Texts(range), End))
  }

  lemma {:induction false} TextsPrint(s: string)
    requires forall k :: 0 <= k < |s| ==> s[k] !in "{,}"
    ensures BraceMeaning.Print(Texts(s)) == Raws(s) && WellFormed(Texts(s), true) && Denote(Texts(s)) == [Raws(s)]
    ensures Price(Texts(s), 1, 0) == 0
  {
    if s != "" {
      TextsPrint(s[1..]);
      assert [Raw(s[0])] + Raws(s[1..]) == Raws(s);
      assert Each(Raw(s[0]), [Raws(s[1..])]) == [[Raw(s[0])] + Raws(s[1..])];
    }
  }

  lemma {:induction false} RawsText(s: string)
    ensures FromAtoms(Raws(s)) == s && AllRaw(Raws(s))
  {
    if s != "" {
      RawsText(s[1..]);
      assert Raws(s)[1..] == Raws(s[1..]);
    }
  }

  lemma RangeItems(range: string)
    requires range == "1..50000"
    ensures Items(range).Some? && |Items(range).value| == 50_000
  {
    RangeFields(range);
    var (one, many) := ("1", "50000");
    assert ParseI64(one) == Some(1);
    FiftyThousand(many);
    hide Fields, ParseI64, Width, NumberItems;
    assert Step([one, many]) == Some(1);
    assert Numbers(one, many, 1).Some? && |Numbers(one, many, 1).value| == 50_000;
  }

  lemma FiftyThousand(s: string)
    requires s == "50000"
    ensures ParseI64(s) == Some(50_000)
  {
    assert s[..4] == "5000" && s[..4][..3] == "500" && s[..4][..3][..2] == "50" && s[..4][..3][..2][..1] == "5";
    assert AllDigits(s);
    assert DigitsValue("5") == 5;
    assert DigitsValue("50") == 50;
    assert DigitsValue("500") == 500;
    assert DigitsValue("5000") == 5000;
    assert DigitsValue(s) == 50_000;
    hide DigitsValue;
  }

  lemma RangeFields(range: string)
    requires range == "1..50000"
    ensures Fields(range) == ["1", "50000"]
  {
    NoDots("50000");
    FieldBefore("1", "50000");
    assert range == "1" + (".." + "50000");
  }

  lemma SequenceCounts(body: Word, n: nat)
    requires Sequence(BraceMeaning.Print(body)).Some? && |Sequence(BraceMeaning.Print(body)).value| == n
    ensures |Denote(Braced(body, End))| == n && Price(Braced(body, End), 1, 0) == n
  {
    hide Sequence, BraceMeaning.Print, Product;
    ProductSize([], Sequence(BraceMeaning.Print(body)).value, [[]]);
    assert Denote(End) == [[]];
  }

  lemma ChoiceCounts(options: seq<Word>, after: Word)
    ensures |Denote(Choice(options, after))| == |DenoteOptions(options)| * |Denote(after)|
    ensures Price(Choice(options, after), 1, 0) == Price(after, 1, 0) + Prices(options) + |Denote(Choice(options, after))|
  {
    hide DenoteOptions, Prices, Product;
    ProductSize([], DenoteOptions(options), Denote(after));
  }

  /** The sequence is charged for once more than the words that come out. */
  lemma RangeTwice(range: string, n: nat)
    requires (forall k :: 0 <= k < |range| ==> range[k] !in "{,}") && Items(range).Some? && |Items(range).value| == n
    ensures var atoms := BraceMeaning.Print(PairAndRange(range));
            |Meaning(atoms)| == 2 * n && Cost(atoms) == 3 * n
  {
    var word := PairAndRange(range);
    PairParts(range);
    RangeIsSequence(range);
    hide *;
    SequenceCounts(Texts(range), n);
    ChoiceCounts(word.options, word.after);
    PrintedWordMeans(word, false);
  }

  lemma RangeIsSequence(range: string)
    requires (forall k :: 0 <= k < |range| ==> range[k] !in "{,}") && Items(range).Some?
    ensures var inner := BraceMeaning.Print(Texts(range));
            Sequence(inner).Some? && |Sequence(inner).value| == |Items(range).value|
  {
    TextsPrint(range);
    RawsText(range);
    hide Items, Texts, BraceMeaning.Print, Raws, FromAtoms, AllRaw;
  }

  lemma TwoAndOne(a: Word, b: Word, body: Word)
    requires WellFormed(a, true) && WellFormed(b, true) && WellFormed(body, true)
    ensures WellFormed(Choice([a, b], Braced(body, End)), false)
  {
    assert WellFormed(Braced(body, End), false);
  }

  lemma PairParts(range: string)
    requires forall k :: 0 <= k < |range| ==> range[k] !in "{,}"
    ensures var word := PairAndRange(range);
            && word.Choice? && word.after == Braced(Texts(range), End) && WellFormed(word, false)
            && |DenoteOptions(word.options)| == 2 && Prices(word.options) == 0
  {
    TextsPrint("a");
    TextsPrint("b");
    TextsPrint(range);
    hide Texts, Denote, Price, DenoteOptions, Prices, BraceMeaning.Print, Raws;
    TwoAndOne(Texts("a"), Texts("b"), Texts(range));
    OptionsCount(Texts("a"), Texts("b"));
  }

  lemma OptionsCount(a: Word, b: Word)
    requires |Denote(a)| == 1 && |Denote(b)| == 1 && Price(a, 1, 0) == 0 && Price(b, 1, 0) == 0
    ensures |DenoteOptions([a, b])| == 2 && Prices([a, b]) == 0
  {
    hide Denote, Price;
    assert [a, b][..1] == [a] && [a][..0] == [];
    assert DenoteOptions([a]) == DenoteOptions([]) + Denote(a);
    assert Prices([a]) == 0;
  }

  /** `{a,b}{1..50000}` would be as many words as are allowed, and is left as it was typed. */
  lemma DeclinedAtTheLimit(range: string)
    requires range == "1..50000"
    ensures var atoms := BraceMeaning.Print(PairAndRange(range));
            atoms == Raws("{a,b}{" + range + "}") && |Meaning(atoms)| == WORD_LIMIT && Expansion(atoms) == [atoms]
  {
    RangeItems(range);
    PairAndRangePrints(range);
    hide *;
    RangeTwice(range, 50_000);
    Declined(BraceMeaning.Print(PairAndRange(range)));
  }

  lemma Declined(atoms: seq<Atom>)
    ensures Cost(atoms) > WORD_LIMIT ==> Expansion(atoms) == [atoms]
  {
    hide Cost, Meaning;
  }

  lemma PairAndRangePrints(range: string)
    requires forall k :: 0 <= k < |range| ==> range[k] !in "{,}"
    ensures BraceMeaning.Print(PairAndRange(range)) == Raws("{a,b}{" + range + "}")
  {
    TextsPrint("a");
    TextsPrint("b");
    TextsPrint(range);
    var options := [Texts("a"), Texts("b")];
    assert options[1..] == [Texts("b")];
    assert PrintOptions(options) == Raws("a") + ([Raw(',')] + Raws("b"));
    hide PrintOptions, Texts;
    assert BraceMeaning.Print(Braced(Texts(range), End)) == [Raw('{')] + (Raws(range) + ([Raw('}')] + []));
    hide BraceMeaning.Print;
    RawsPutTogether(range);
  }

  lemma RawsPutTogether(range: string)
    ensures [Raw('{')] + ((Raws("a") + ([Raw(',')] + Raws("b"))) + ([Raw('}')] + ([Raw('{')] + (Raws(range) + ([Raw('}')] + [])))))
         == Raws("{a,b}{" + range + "}")
  {
  }
}
