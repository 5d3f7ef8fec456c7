/** What a sequence expression lists, from its text: two endpoints, and a step if there is one. */
module BraceEndpoints {
  import opened Wrappers
  import opened Decimals
  import opened BraceSequence
  import Seqs

  /** `start..end`, or `start..end..step`. */
  function Expression(start: string, end: string, step: Option<string>): string {
    match step
    case None => start + (".." + end)
    case Some(s) => start + (".." + (end + (".." + s)))
  }

  lemma {:induction false} NoDots(s: string)
    requires '.' !in s
    ensures Fields(s) == [s]
  {
    if |s| >= 2 {
      NoDots(s[1..]);
      assert [s[0]] + s[1..] == s;
    }
  }

  lemma {:induction false} FieldBefore(a: string, rest: string)
    requires '.' !in a
    ensures Fields(a + (".." + rest)) == [a] + Fields(rest)
  {
    var text := a + (".." + rest);
    if a == [] {
      assert text == ".." + rest;
      assert text[2..] == rest;
    } else {
      assert text[0] == a[0] && text[1..] == a[1..] + (".." + rest);
      FieldBefore(a[1..], rest);
      Seqs.HeadTail(a[1..], Fields(rest));
      assert [a[0]] + a[1..] == a;
    }
  }

  lemma FieldsOf(start: string, end: string, step: Option<string>)
    requires '.' !in start && '.' !in end && (step.Some? ==> '.' !in step.value)
    ensures Fields(Expression(start, end, step)) == [start, end] + (if step.Some? then [step.value] else [])
  {
    hide Fields;
    match step
    case None =>
      FieldBefore(start, end);
      NoDots(end);
    case Some(s) =>
      FieldBefore(start, end + (".." + s));
      FieldBefore(end, s);
      NoDots(s);
  }

  /** How far apart the items are: one unless the step says otherwise, and whatever its sign. Zero is one. */
  predicate Apart(step: Option<string>, n: int) {
    match step
    case None => n == 1
    case Some(s) =>
      ParseI64(s).Some?
      && var v := ParseI64(s).value;
         v != I64_MIN && (if v == 0 then n == 1 else n > 0 && (n == v || n == -v))
  }

  lemma NumberHasNoDot(s: string)
    requires ParseI64(s).Some?
    ensures '.' !in s
  {
    hide DigitsValue;
    forall c | c in s
      ensures c != '.'
    {
      var k :| 0 <= k < |s| && s[k] == c;
      assert k == 0 || s[k] == s[1..][k - 1];
      if s[0] == '-' || s[0] == '+' {
        if k > 0 {
          assert IsDigit(Unsigned(s)[k - 1]);
        }
      } else {
        assert IsDigit(Unsigned(s)[k]);
      }
    }
  }

  lemma StepReads(start: string, end: string, step: Option<string>, n: int)
    requires '.' !in start && '.' !in end && Apart(step, n)
    ensures Fields(Expression(start, end, step)) == [start, end] + (if step.Some? then [step.value] else [])
    ensures n > 0 && Step(Fields(Expression(start, end, step))) == Some(n)
  {
    if step.Some? {
      NumberHasNoDot(step.value);
    }
    FieldsOf(start, end, step);
    hide Fields, ParseI64, Expression;
  }

  predicate Letter(c: char) {
    'a' <= c <= 'z' || 'A' <= c <= 'Z'
  }

  predicate Between(from: int, v: int, to: int) {
    from <= v <= to || to <= v <= from
  }

  /** The one character of `item` is `k` steps of `n` from the first endpoint, and not past the other. */
  predicate LetterAt(item: string, from: char, to: char, n: int, k: nat) {
    && |item| == 1 && Between(from as int, item[0] as int, to as int)
    && Distance(from as int, item[0] as int) == k * n
  }

  /** Two letters list the characters from the first towards the second, a step apart: the first of them first, and
      in all exactly those that lie between the two a whole number of steps from the first. */
  lemma LettersDenote(start: char, end: char, step: Option<string>, n: int, x: char)
    requires Letter(start) && Letter(end) && Apart(step, n)
    ensures n > 0
    ensures var items := Items(Expression([start], [end], step));
            && items.Some? && items.value != [] && items.value[0] == [start]
            && (forall k :: 0 <= k < |items.value| ==> LetterAt(items.value[k], start, end, n, k))
            && ([x] in items.value <==> Between(start as int, x as int, end as int) && (x as int - start as int) % n == 0)
  {
    StepReads([start], [end], step, n);
    LetterIsNoNumber(start);
    LettersAre([start], [end], step, n);
    hide Fields, Step, Expression, ParseI64, Items, LetterItems, LetterAt, Between;
    ItemsDenote(start, end, n, x);
  }

  lemma ItemsDenote(start: char, end: char, n: int, x: char)
    requires Letter(start) && Letter(end) && n > 0
    ensures var items := LetterItems(start as int, end as int, n);
            && items != [] && items[0] == [start]
            && (forall k :: 0 <= k < |items| ==> LetterAt(items[k], start, end, n, k))
            && ([x] in items <==> Between(start as int, x as int, end as int) && (x as int - start as int) % n == 0)
  {
    var (from, to) := (start as int, end as int);
    var items := LetterItems(from, to, n);
    MulDiv(Distance(from, to), n);
    NthFirst(from, to, n);
    hide Nth;
    forall k | 0 <= k < |items|
      ensures LetterAt(items[k], start, end, n, k) && items[k][0] as int == Nth(from, to, n, k)
    {
      NthBetween(from, to, n, k);
    }
    assert items[0][0] as int == from;
    hide LetterItems, LetterAt;
    if Between(from, x as int, to) && (x as int - from) % n == 0 {
      ExactSteps(from, to, n, x as int);
      assert items[Distance(from, x as int) / n] == [x];
    }
    if [x] in items {
      var k :| 0 <= k < |items| && items[k] == [x];
      NthIsOnStep(from, to, n, k);
      NthBetween(from, to, n, k);
    }
  }

  lemma NthFirst(from: int, to: int, n: int)
    ensures Nth(from, to, n, 0) == from
  {
  }

  lemma NthIsOnStep(from: int, to: int, n: int, k: nat)
    requires n > 0
    ensures (Nth(from, to, n, k) - from) % n == 0
  {
    var steps: int := k;
    MulNegates(steps, n);
    MultipleMod(Nth(from, to, n, k) - from, n, if from <= to then steps else -steps);
  }

  lemma LetterIsNoNumber(c: char)
    requires Letter(c)
    ensures ParseI64([c]).None?
  {
    assert Unsigned([c]) == [c];
    assert !IsDigit([c][0]);
  }

  lemma LettersAre(start: string, end: string, step: Option<string>, n: int)
    requires IsLetter(start) && IsLetter(end) && ParseI64(start).None? && n > 0
    requires Fields(Expression(start, end, step)) == [start, end] + (if step.Some? then [step.value] else [])
    requires Step(Fields(Expression(start, end, step))) == Some(n)
    ensures Items(Expression(start, end, step)) == Some(LetterItems(start[0] as int, end[0] as int, n))
  {
    hide Fields, Step, Expression, ParseI64, LetterItems;
  }

  /** `item` reads as the number `k` steps of `n` from the first endpoint, and not past the other. */
  predicate NumberAt(item: string, from: int, to: int, n: int, k: nat) {
    && ParseI64(item).Some? && Between(from, ParseI64(item).value, to)
    && Distance(from, ParseI64(item).value) == k * n
  }

  /** Two numbers list the numbers from the first towards the second in the same way, unless they are a hundred
      thousand or more. */
  lemma NumbersDenote(start: string, end: string, step: Option<string>, n: int, from: int, to: int, v: int)
    requires ParseI64(start) == Some(from) && ParseI64(end) == Some(to) && Apart(step, n)
    ensures n > 0
    ensures var items := Items(Expression(start, end, step));
            && (items.None? <==> Distance(from, to) / n >= 100_000)
            && (items.Some? ==>
                  && items.value != []
                  && (forall k :: 0 <= k < |items.value| ==> NumberAt(items.value[k], from, to, n, k))
                  && ((exists k :: 0 <= k < |items.value| && ParseI64(items.value[k]) == Some(v))
                      <==> Between(from, v, to) && (v - from) % n == 0))
  {
    NumberHasNoDot(start);
    NumberHasNoDot(end);
    StepReads(start, end, step, n);
    var text := Expression(start, end, step);
    assert Numeric(Fields(text));
    NumericSequenceDenotes(text, v);
    NumericItems(text);
    NumbersCount(start, end, n, from, to);
    hide Fields, Step, Expression, ParseI64, Items, Numbers;
    if Items(text).Some? {
      var items := Items(text).value;
      forall k | 0 <= k < |items|
        ensures NumberAt(items[k], from, to, n, k)
      {
        assert ReadsAs(items[k], from, to, n, k);
        NthBetween(from, to, n, k);
      }
    }
  }

  lemma NumbersCount(start: string, end: string, n: int, from: int, to: int)
    requires n > 0 && ParseI64(start) == Some(from) && ParseI64(end) == Some(to)
    ensures Numbers(start, end, n).Some? ==> |Numbers(start, end, n).value| == Distance(from, to) / n + 1
    ensures Distance(from, to) / n >= 0
  {
    hide ParseI64, NumberItems;
    MulDiv(Distance(from, to), n);
  }

  /** A leading zero of its own, after a sign. */
  predicate LeadingZero(s: string) {
    var digits := if s != "" && (s[0] == '-' || s[0] == '+') then s[1..] else s;
    |digits| > 1 && digits[0] == '0'
  }

  /** A leading zero on either endpoint makes every item as long as the longer of them, sign and all; without one
      no item has a leading zero, nor a plus sign. */
  lemma PaddingIs(start: string, end: string, step: Option<string>, n: int, from: int, to: int, k: nat)
    requires ParseI64(start) == Some(from) && ParseI64(end) == Some(to) && Apart(step, n)
    requires var items := Items(Expression(start, end, step)); items.Some? && k < |items.value|
    ensures var item := Items(Expression(start, end, step)).value[k];
            if LeadingZero(start) || LeadingZero(end) then |item| == (if |start| < |end| then |end| else |start|)
            else !LeadingZero(item) && item != "" && item[0] != '+'
  {
    NumberHasNoDot(start);
    NumberHasNoDot(end);
    StepReads(start, end, step, n);
    var text := Expression(start, end, step);
    assert Numeric(Fields(text));
    SameZeros(start);
    SameZeros(end);
    if LeadingZero(start) || LeadingZero(end) {
      PaddedAlike(text, k);
    } else {
      NumericItems(text);
      hide Fields, Step, Expression, ParseI64, Items, LeadingZero, ZeroPadded, Format;
      assert Width(start, end) == 0;
      assert Items(text).value[k] == Format(Nth(from, to, n, k), 0);
      NoZeroInFront(Nth(from, to, n, k), 0);
    }
  }

  lemma SameZeros(s: string)
    ensures LeadingZero(s) <==> ZeroPadded(s)
  {
  }

  lemma NoZeroInFront(v: int, width: nat)
    requires width == 0
    ensures !LeadingZero(Format(v, width)) && Format(v, width) != "" && Format(v, width)[0] != '+'
  {
    FormatIs(v, width);
    assert Zeros(Padding(v, width)) == "" by {
      assert Padding(v, width) == 0;
    }
    DecimalFront(Magnitude(v));
    var digits := Decimal(Magnitude(v));
    hide Decimal, Format, Zeros;
    assert "" + digits == digits;
    if v < 0 {
      assert ("-" + digits)[1..] == digits;
    }
  }

  lemma {:induction false} DecimalFront(n: nat)
    ensures var d := Decimal(n); d != "" && '0' <= d[0] <= '9' && (|d| > 1 ==> d[0] != '0') && (n > 0 ==> d[0] != '0')
  {
    if n >= 10 {
      DecimalFront(n / 10);
    }
  }

  /** A plus sign is read past. */
  lemma PlusIsFree(digits: string)
    requires digits != "" && AllDigits(digits)
    ensures ParseI64("+" + digits) == ParseI64(digits)
  {
    assert ("+" + digits)[1..] == digits;
    assert IsDigit(digits[0]);
    hide DigitsValue;
  }

  function Joined(fields: seq<string>): string {
    if fields == [] then "" else if |fields| == 1 then fields[0] else fields[0] + (".." + Joined(fields[1..]))
  }

  lemma {:induction false} FieldsJoin(text: string)
    ensures Joined(Fields(text)) == text
  {
    if |text| >= 2 {
      if text[0] == '.' && text[1] == '.' {
        FieldsJoin(text[2..]);
        var rest := Fields(text[2..]);
        Seqs.HeadTail("", rest);
        assert "" + (".." + text[2..]) == text;
      } else {
        FieldsJoin(text[1..]);
        var rest := Fields(text[1..]);
        var first := [text[0]] + rest[0];
        Seqs.HeadTail(first, rest[1..]);
        assert text == [text[0]] + text[1..];
        if |rest| > 1 {
          Seqs.Assoc([text[0]], rest[0], ".." + Joined(rest[1..]));
        }
      }
    }
  }

  lemma JoinedIs(start: string, end: string, step: Option<string>)
    ensures Joined([start, end] + (if step.Some? then [step.value] else [])) == Expression(start, end, step)
  {
    if step.Some? {
      var (all, last) := ([start, end] + [step.value], [end, step.value]);
      assert all[0] == start && all[1..] == last && last[1..] == [step.value];
      assert Joined(last) == end + (".." + Joined([step.value]));
      assert Joined(all) == start + (".." + Joined(last));
    } else {
      assert [start, end][1..] == [end];
    }
  }

  lemma StepIsApart(fields: seq<string>, step: Option<string>)
    requires 2 <= |fields| <= 3 && Step(fields).Some? && step == if |fields| == 3 then Some(fields[2]) else None
    ensures Apart(step, Step(fields).value)
  {
    hide ParseI64;
  }

  /** And nothing else is a sequence: the two endpoints are both numbers, few enough to list, or both letters, and the
      step is a number if there is one. */
  lemma OnlySequences(text: string) returns (start: string, end: string, step: Option<string>, n: int)
    requires Items(text).Some?
    ensures text == Expression(start, end, step) && Apart(step, n) && n > 0
    ensures || (|start| == 1 && Letter(start[0]) && |end| == 1 && Letter(end[0]))
            || (&& ParseI64(start).Some? && ParseI64(end).Some?
                && Distance(ParseI64(start).value, ParseI64(end).value) / n < 100_000)
  {
    var fields := Fields(text);
    FieldsJoin(text);
    start, end := fields[0], fields[1];
    step := if |fields| == 3 then Some(fields[2]) else None;
    n := Step(fields).value;
    assert fields == if |fields| == 3 then [start, end, fields[2]] else [start, end];
    JoinedIs(start, end, step);
    StepIsApart(fields, step);
    hide Fields, ParseI64, NumberItems, LetterItems, Step, Apart, Joined;
  }
}
