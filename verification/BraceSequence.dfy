/** Sequence expressions: what the two endpoints and the step of `{n..m..s}` stand for. */
module BraceSequence {
  import opened Wrappers
  import opened BraceAtoms
  import opened Decimals

  const SEQUENCE_LIMIT := 100_000

  // ------------------------------------------------------------------ the expression, as functions

  /** The text between one `..` and the next. */
  function Fields(text: string): (fields: seq<string>)
    ensures fields != []
  {
    if |text| < 2 then [text]
    else if text[0] == '.' && text[1] == '.' then [""] + Fields(text[2..])
    else var rest := Fields(text[1..]); [[text[0]] + rest[0]] + rest[1..]
  }

  predicate ZeroPadded(s: string) {
    |Unsigned(s)| > 1 && Unsigned(s)[0] == '0'
  }

  function Longest(a: string, b: string): nat {
    if |a| < |b| then |b| else |a|
  }

  function Width(start: string, end: string): nat {
    if ZeroPadded(start) || ZeroPadded(end) then Longest(start, end) else 0
  }

  function Distance(from: int, to: int): nat {
    if from <= to then to - from else from - to
  }

  /** The value `i` steps on from `from` towards `to`. */
  function Nth(from: int, to: int, step: int, i: nat): int {
    if from <= to then from + i * step else from - i * step
  }

  function NumberItems(from: int, to: int, step: int, width: nat, count: nat): (items: seq<string>)
    ensures |items| == count
  {
    seq(count, i requires 0 <= i < count => Format(Nth(from, to, step, i), width))
  }

  function Numbers(start: string, end: string, step: int): (items: Option<seq<string>>)
    requires step > 0
  {
    if ParseI64(start).None? || ParseI64(end).None? then None
    else
      var from, to := ParseI64(start).value, ParseI64(end).value;
      var count := Distance(from, to) / step + 1;
      if count > SEQUENCE_LIMIT then None
      else Some(NumberItems(from, to, step, Width(start, end), count))
  }

  predicate IsLetter(s: string) {
    |s| == 1 && ('a' <= s[0] <= 'z' || 'A' <= s[0] <= 'Z')
  }

  lemma NthBetween(from: int, to: int, step: int, i: nat)
    requires step > 0 && i <= Distance(from, to) / step
    ensures Distance(from, Nth(from, to, step, i)) == i * step <= Distance(from, to)
    ensures from <= to ==> from <= Nth(from, to, step, i) <= to
    ensures from > to ==> to <= Nth(from, to, step, i) <= from
  {
    MulMono(i, Distance(from, to) / step, step);
    MulDiv(Distance(from, to), step);
  }

  lemma {:induction false} MulMono(a: nat, b: nat, k: int)
    requires a <= b && k > 0
    ensures 0 <= a * k <= b * k
  {
    if a < b {
      MulMono(a, b - 1, k);
      assert b * k == (b - 1) * k + k;
    } else {
      MulNonNegative(a, k);
    }
  }

  lemma {:induction false} MulNonNegative(a: nat, k: int)
    requires k > 0
    ensures 0 <= a * k
  {
    if a > 0 {
      MulNonNegative(a - 1, k);
      assert a * k == (a - 1) * k + k;
    }
  }

  lemma MulDiv(a: nat, k: int)
    requires k > 0
    ensures a / k * k <= a < a / k * k + k
  {
  }

  function Letters(start: string, end: string, step: int): (items: Option<seq<string>>)
    requires step > 0
  {
    if !IsLetter(start) || !IsLetter(end) then None
    else
      var from, to := start[0] as int, end[0] as int;
      Some(LetterItems(from, to, step))
  }

  function LetterItems(from: int, to: int, step: int): (items: seq<string>)
    requires step > 0 && 0 <= from < 128 && 0 <= to < 128
    ensures |items| == Distance(from, to) / step + 1
  {
    var count := Distance(from, to) / step + 1;
    seq(count, i requires 0 <= i < count => NthBetween(from, to, step, i); [Nth(from, to, step, i) as char])
  }

  /** The magnitude of the step, 1 when it is missing or zero. */
  function Step(fields: seq<string>): (r: Option<int>)
    ensures r.Some? ==> 0 < r.value <= I64_MAX
  {
    if |fields| < 3 then Some(1)
    else
      match ParseI64(fields[2])
      case None => None
      case Some(n) => if n == I64_MIN then None else Some(if n == 0 then 1 else Magnitude(n))
  }

  predicate AllRaw(atoms: seq<Atom>) {
    forall k :: 0 <= k < |atoms| ==> atoms[k].Raw?
  }

  function Items(text: string): (items: Option<seq<string>>) {
    var fields := Fields(text);
    if |fields| < 2 || |fields| > 3 then None
    else
      match Step(fields)
      case None => None
      case Some(step) =>
        if Numbers(fields[0], fields[1], step).Some? then Numbers(fields[0], fields[1], step)
        else Letters(fields[0], fields[1], step)
  }

  function Raws(text: string): (atoms: seq<Atom>) {
    seq(|text|, i requires 0 <= i < |text| => Raw(text[i]))
  }

  /** A sequence is pure text: an opaque run anywhere in it and it is none. */
  function Sequence(inner: seq<Atom>): (r: Option<seq<seq<Atom>>>) {
    if !AllRaw(inner) then None
    else
      match Items(FromAtoms(inner))
      case None => None
      case Some(items) => Some(seq(|items|, i requires 0 <= i < |items| => Raws(items[i])))
  }

  // ------------------------------------------------------------------ the code

  method NumericSequence(start: string, end: string, step: int) returns (items: Option<seq<string>>)
    requires step > 0
    ensures items == Numbers(start, end, step)
  {
    hide Format, Width;
    var a, b := ParseI64(start), ParseI64(end);
    if a.None? || b.None? {
      return None;
    }
    var from, to := a.value, b.value;
    var width := Width(start, end);
    var count := Distance(from, to) / step + 1;
    if count > SEQUENCE_LIMIT {
      return None;
    }
    var out: seq<string> := [];
    for i := 0 to count
      invariant |out| == i
      invariant forall k: nat :: k < i ==> out[k] == Format(Nth(from, to, step, k), width)
    {
      out := out + [Format(Nth(from, to, step, i), width)];
    }
    assert out == NumberItems(from, to, step, width, count);
    return Some(out);
  }

  method CharSequence(start: string, end: string, step: int) returns (items: Option<seq<string>>)
    requires step > 0
    ensures items == Letters(start, end, step)
  {
    if !IsLetter(start) || !IsLetter(end) {
      return None;
    }
    var from, to := start[0] as int, end[0] as int;
    var count := Distance(from, to) / step + 1;
    var out: seq<string> := [];
    for i := 0 to count
      invariant |out| == i
      invariant forall k: nat :: k < i ==> 0 <= Nth(from, to, step, k) < 128 && out[k] == [Nth(from, to, step, k) as char]
    {
      NthBetween(from, to, step, i);
      out := out + [[Nth(from, to, step, i) as char]];
    }
    assert out == LetterItems(from, to, step);
    return Some(out);
  }

  method SequenceAlternatives(inner: seq<Atom>) returns (r: Option<seq<seq<Atom>>>)
    ensures r == Sequence(inner)
  {
    if !AllRaw(inner) {
      return None;
    }
    var text := Join(inner);
    var fields := Fields(text);
    if |fields| < 2 || |fields| > 3 {
      return None;
    }
    var step := Step(fields);
    if step.None? {
      return None;
    }
    var items := NumericSequence(fields[0], fields[1], step.value);
    if items.None? {
      items := CharSequence(fields[0], fields[1], step.value);
    }
    if items.None? {
      return None;
    }
    return Some(seq(|items.value|, i requires 0 <= i < |items.value| => Raws(items.value[i])));
  }

  // ------------------------------------------------------------------ what a sequence stands for

  /** The expression has two endpoints that read as numbers. */
  predicate Numeric(fields: seq<string>) {
    2 <= |fields| <= 3 && ParseI64(fields[0]).Some? && ParseI64(fields[1]).Some? && Step(fields).Some?
  }

  lemma NumericItems(text: string)
    requires Numeric(Fields(text))
    ensures Items(text) == Numbers(Fields(text)[0], Fields(text)[1], Step(Fields(text)).value)
  {
    NumberIsNoLetter(Fields(text)[0]);
    hide Fields, Step, ParseI64, NumberItems, LetterItems;
  }

  /** A numeric sequence is refused for its length alone. Otherwise its items read as exactly the numbers
      between the endpoints that lie a whole number of steps from the first, nearest first. */
  lemma NumericSequenceDenotes(text: string, v: int)
    requires Numeric(Fields(text))
    ensures var fields := Fields(text);
            var (from, to, step) := (ParseI64(fields[0]).value, ParseI64(fields[1]).value, Step(fields).value);
            && (Items(text).None? <==> Distance(from, to) / step >= SEQUENCE_LIMIT)
            && (Items(text).Some? ==>
                  && InOrder(Items(text).value, from, to, step)
                  && (Lists(Items(text).value, v) <==> OnStep(v, from, to, step)))
  {
    var fields := Fields(text);
    ParsedFits(fields);
    NumericItems(text);
    hide ParseI64, Fields, Step, Items, InOrder, Lists, OnStep;
    var from, to, step := ParseI64(fields[0]).value, ParseI64(fields[1]).value, Step(fields).value;
    if Items(text).Some? {
      AllReadAs(fields[0], fields[1], from, to, step, Items(text).value);
      Denotes(Items(text).value, from, to, step, v);
    }
  }

  lemma AllReadAs(start: string, end: string, from: int, to: int, step: int, items: seq<string>)
    requires step > 0 && ParseI64(start) == Some(from) && ParseI64(end) == Some(to)
    requires I64_MIN <= from <= I64_MAX && I64_MIN <= to <= I64_MAX
    requires Numbers(start, end, step) == Some(items)
    ensures |items| == Distance(from, to) / step + 1
    ensures InOrder(items, from, to, step)
  {
    hide Format, ParseI64, Width;
    forall k | 0 <= k < |items|
      ensures ReadsAs(items[k], from, to, step, k)
    {
      NthBetween(from, to, step, k);
      FormatReadsBack(Nth(from, to, step, k), Width(start, end));
    }
  }

  predicate InOrder(items: seq<string>, from: int, to: int, step: int) {
    forall k :: 0 <= k < |items| ==> ReadsAs(items[k], from, to, step, k)
  }

  predicate Lists(items: seq<string>, v: int) {
    exists k :: 0 <= k < |items| && ParseI64(items[k]) == Some(v)
  }

  /** Between the endpoints, and a whole number of steps from the first. */
  predicate OnStep(v: int, from: int, to: int, step: int)
    requires step > 0
  {
    (from <= v <= to || to <= v <= from) && (v - from) % step == 0
  }

  predicate ReadsAs(item: string, from: int, to: int, step: int, k: nat) {
    ParseI64(item) == Some(Nth(from, to, step, k))
  }

  lemma ParsedFits(fields: seq<string>)
    requires Numeric(fields)
    ensures I64_MIN <= ParseI64(fields[0]).value <= I64_MAX && I64_MIN <= ParseI64(fields[1]).value <= I64_MAX
  {
  }

  lemma NumberIsNoLetter(s: string)
    requires ParseI64(s).Some?
    ensures !IsLetter(s)
  {
    hide DigitsValue;
    if |s| == 1 {
      assert IsDigit(Unsigned(s)[0]);
    }
  }

  lemma Denotes(items: seq<string>, from: int, to: int, step: int, v: int)
    requires step > 0 && |items| == Distance(from, to) / step + 1
    requires InOrder(items, from, to, step)
    ensures Lists(items, v) <==> OnStep(v, from, to, step)
  {
    hide ParseI64;
    if k :| 0 <= k < |items| && ParseI64(items[k]) == Some(v) {
      assert ReadsAs(items[k], from, to, step, k);
      NthBetween(from, to, step, k);
      MultipleMod(v - from, step, if from <= to then k else -k);
    }
    if (from <= v <= to || to <= v <= from) && (v - from) % step == 0 {
      var k := Distance(from, v) / step;
      ExactSteps(from, to, step, v);
      assert ReadsAs(items[k], from, to, step, k);
    }
  }

  lemma MultipleMod(d: int, step: int, k: int)
    requires step > 0 && d == k * step
    ensures d % step == 0
  {
    var j := k - d / step;
    assert j * step == d % step;
    MulNegates(j, step);
    if j > 0 {
      MulMono(1, j, step);
      assert false;
    } else if j < 0 {
      MulMono(1, -j, step);
      assert false;
    }
  }

  lemma MulNegates(j: int, step: int)
    ensures (-j) * step == -(j * step)
  {
  }

  lemma ExactSteps(from: int, to: int, step: int, v: int)
    requires step > 0 && (from <= v <= to || to <= v <= from) && (v - from) % step == 0
    ensures Distance(from, v) / step <= Distance(from, to) / step
    ensures Nth(from, to, step, Distance(from, v) / step) == v
  {
    var d := Distance(from, v);
    assert d % step == 0 by {
      if v < from {
        assert v - from == (v - from) / step * step;
        MultipleMod(from - v, step, -((v - from) / step));
      }
    }
    assert d == d / step * step + d % step;
    DivMono(d, Distance(from, to), step);
  }

  lemma DivMono(a: nat, b: nat, k: int)
    requires a <= b && k > 0
    ensures a / k <= b / k
  {
    MulDiv(a, k);
    MulDiv(b, k);
    QuotientsGrow(a / k, b / k, k, a, b);
  }

  lemma QuotientsGrow(qa: nat, qb: nat, k: int, a: nat, b: nat)
    requires k > 0 && qa * k <= a <= b < qb * k + k
    ensures qa <= qb
  {
    MulOneMore(qb, k);
    if qa > qb {
      MulMono(qb + 1, qa, k);
      assert false;
    }
  }

  lemma MulOneMore(q: nat, k: int)
    ensures (q + 1) * k == q * k + k
  {
  }

  // ------------------------------------------------------------------ padding

  /** An endpoint written with a leading zero pads every item of the sequence to one width, that of the longer
      endpoint, its sign counted. */
  lemma PaddedAlike(text: string, k: nat)
    requires Numeric(Fields(text)) && Items(text).Some? && k < |Items(text).value|
    requires ZeroPadded(Fields(text)[0]) || ZeroPadded(Fields(text)[1])
    ensures |Items(text).value[k]| == Longest(Fields(text)[0], Fields(text)[1])
  {
    var fields := Fields(text);
    NumericItems(text);
    FitsEndpoint(fields[0]);
    FitsEndpoint(fields[1]);
    hide Format, ParseI64, Fields, Step, Items, ZeroPadded, Room;
    var from, to, step := ParseI64(fields[0]).value, ParseI64(fields[1]).value, Step(fields).value;
    var width := Longest(fields[0], fields[1]);
    assert Width(fields[0], fields[1]) == width;
    NthBetween(from, to, step, k);
    FitsBetween(Nth(from, to, step, k), from, to);
    PadsTo(Nth(from, to, step, k), width);
  }

  lemma FitsEndpoint(s: string)
    requires ParseI64(s).Some?
    ensures Room(ParseI64(s).value) <= |s|
  {
    DecimalNoLonger(Unsigned(s));
    hide Decimal, DigitsValue;
  }

  lemma FitsBetween(v: int, from: int, to: int)
    requires from <= v <= to || to <= v <= from
    ensures Room(v) <= Room(from) || Room(v) <= Room(to)
  {
    if v < 0 {
      DecimalGrows(-v, -(if from <= to then from else to));
    } else {
      DecimalGrows(v, if from <= to then to else from);
    }
    hide Decimal;
  }

  lemma PadsTo(v: int, width: nat)
    requires Room(v) <= width
    ensures |Format(v, width)| == width
  {
    FormatIs(v, width);
    ZerosOf(width - Room(v));
    hide Decimal, Zeros, DigitsValue, Format;
  }

  // ------------------------------------------------------------------ what the group machinery needs

  /** At least one item, no more than the limit, and no brace or comma in any: a sequence adds no syntax. */
  lemma SequenceIsPlain(inner: seq<Atom>)
    requires Sequence(inner).Some?
    ensures var alternatives := Sequence(inner).value;
            && 1 <= |alternatives| <= SEQUENCE_LIMIT
            && forall k :: 0 <= k < |alternatives| ==> PlainText(alternatives[k])
  {
    var text := FromAtoms(inner);
    hide FromAtoms;
    ItemsArePlain(text);
    hide Items, PlainText;
  }

  lemma ItemsArePlain(text: string)
    requires Items(text).Some?
    ensures 1 <= |Items(text).value| <= SEQUENCE_LIMIT
    ensures forall k :: 0 <= k < |Items(text).value| ==> PlainText(Raws(Items(text).value[k]))
  {
    var fields := Fields(text);
    hide Fields;
    var step := Step(fields).value;
    hide Step, Raws, PlainText, Letters, Numbers;
    if Numbers(fields[0], fields[1], step).Some? {
      NumbersArePlain(fields[0], fields[1], step);
    } else {
      LettersArePlain(fields[0], fields[1], step);
    }
  }

  lemma NumbersArePlain(start: string, end: string, step: int)
    requires step > 0 && Numbers(start, end, step).Some?
    ensures var items := Numbers(start, end, step).value;
            1 <= |items| <= SEQUENCE_LIMIT && forall k :: 0 <= k < |items| ==> PlainText(Raws(items[k]))
  {
    hide ParseI64, Format, PlainText, Raws, Width;
    var items := Numbers(start, end, step).value;
    forall k | 0 <= k < |items|
      ensures PlainText(Raws(items[k]))
    {
      FormatIsPlain(Nth(ParseI64(start).value, ParseI64(end).value, step, k), Width(start, end));
    }
  }

  lemma LettersArePlain(start: string, end: string, step: int)
    requires step > 0 && Letters(start, end, step).Some?
    ensures var items := Letters(start, end, step).value;
            1 <= |items| <= SEQUENCE_LIMIT && forall k :: 0 <= k < |items| ==> PlainText(Raws(items[k]))
  {
    LettersAreFew(start, end, step);
    var items := Letters(start, end, step).value;
    forall k | 0 <= k < |items|
      ensures PlainText(Raws(items[k]))
    {
      NthBetween(start[0] as int, end[0] as int, step, k);
    }
  }

  predicate PlainText(atoms: seq<Atom>) {
    forall k :: 0 <= k < |atoms| ==> atoms[k].Raw? && atoms[k].c !in "{,}"
  }

  lemma LettersAreFew(start: string, end: string, step: int)
    requires step > 0 && IsLetter(start) && IsLetter(end)
    ensures |Letters(start, end, step).value| <= SEQUENCE_LIMIT
  {
    var d := Distance(start[0] as int, end[0] as int);
    MulDiv(d, step);
    if d / step > d {
      MulMono(1, step, d / step);
      assert false;
    }
  }

  lemma FormatIsPlain(v: int, width: nat)
    ensures PlainText(Raws(Format(v, width)))
  {
    DecimalReads(Magnitude(v), Padding(v, width));
    FormatIs(v, width);
    var digits := Zeros(Padding(v, width)) + Decimal(Magnitude(v));
    hide Decimal, Zeros, DigitsValue, Format, Padding;
    forall k | 0 <= k < |Format(v, width)|
      ensures Format(v, width)[k] !in "{,}"
    {
      assert Format(v, width)[k] == '-' || IsDigit(Format(v, width)[k]);
    }
  }
}
