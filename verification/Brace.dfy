/** Brace groups: where one ends, what it offers, and how the groups of a word multiply out under a budget. */
module Brace {
  import opened Wrappers
  import opened BraceAtoms
  import opened BraceSequence
  import Seqs

  const WORD_LIMIT := 100_000

  predicate IsRaw(atom: Atom, c: char) {
    atom == Raw(c)
  }

  // ------------------------------------------------------------------ groups, as functions

  function BraceDepth(atom: Atom, depth: nat): nat {
    if IsRaw(atom, '{') then depth + 1
    else if IsRaw(atom, '}') && depth > 0 then depth - 1
    else depth
  }

  /** The `}` that brings the depth back to nothing, from `i` on. */
  function CloseFrom(atoms: seq<Atom>, i: nat, depth: nat): (r: Option<nat>)
    ensures r.Some? ==> i <= r.value < |atoms| && IsRaw(atoms[r.value], '}')
    decreases |atoms| - i
  {
    if i >= |atoms| then None
    else if IsRaw(atoms[i], '}') && depth <= 1 then Some(i)
    else CloseFrom(atoms, i + 1, BraceDepth(atoms[i], depth))
  }

  /** A group's body cut at its top-level commas. */
  function Parts(inner: seq<Atom>, depth: nat): (parts: seq<seq<Atom>>)
    ensures parts != []
  {
    if inner == [] then [[]]
    else if IsRaw(inner[0], ',') && depth == 0 then [[]] + Parts(inner[1..], 0)
    else
      var rest := Parts(inner[1..], BraceDepth(inner[0], depth));
      [[inner[0]] + rest[0]] + rest[1..]
  }

  function Alternatives(inner: seq<Atom>): Option<seq<seq<Atom>>> {
    if |Parts(inner, 0)| > 1 then Some(Parts(inner, 0)) else Sequence(inner)
  }

  datatype Group = Group(open: nat, close: nat, alternatives: seq<seq<Atom>>)

  function GroupAt(atoms: seq<Atom>, open: nat): (r: Option<Group>)
    requires open < |atoms|
    ensures r.Some? ==> r.value.open == open < r.value.close < |atoms| && IsRaw(atoms[open], '{')
    ensures r.Some? ==> Alternatives(atoms[open + 1..r.value.close]) == Some(r.value.alternatives)
  {
    if !IsRaw(atoms[open], '{') then None
    else
      match CloseFrom(atoms, open, 0)
      case None => None
      case Some(close) =>
        match Alternatives(atoms[open + 1..close])
        case None => None
        case Some(alternatives) => Some(Group(open, close, alternatives))
  }

  /** The leftmost group from `i` on that expands: a pair that is no group does not end the search. */
  function FirstGroup(atoms: seq<Atom>, i: nat): (r: Option<Group>)
    ensures r.Some? ==> r.value.open < |atoms| && GroupAt(atoms, r.value.open) == r
    decreases |atoms| - i
  {
    if i >= |atoms| then None
    else if GroupAt(atoms, i).Some? then GroupAt(atoms, i)
    else FirstGroup(atoms, i + 1)
  }

  // ------------------------------------------------------------------ what makes expansion end

  /** How many braces are open to syntax. */
  function Braces(atoms: seq<Atom>): nat {
    if atoms == [] then 0 else (if IsRaw(atoms[0], '{') then 1 else 0) + Braces(atoms[1..])
  }

  lemma {:induction false} BracesConcat(a: seq<Atom>, b: seq<Atom>)
    ensures Braces(a + b) == Braces(a) + Braces(b)
  {
    if a == [] {
      assert a + b == b;
    } else {
      Seqs.ConcatHead(a, b);
      BracesConcat(a[1..], b);
    }
  }

  lemma {:induction false} PartsShrink(inner: seq<Atom>, depth: nat)
    ensures forall k :: 0 <= k < |Parts(inner, depth)| ==> Braces(Parts(inner, depth)[k]) <= Braces(inner)
  {
    if inner != [] {
      var next := if IsRaw(inner[0], ',') && depth == 0 then 0 else BraceDepth(inner[0], depth);
      PartsShrink(inner[1..], next);
      var rest := Parts(inner[1..], next);
      hide BraceDepth;
      Seqs.HeadTail(inner[0], rest[0]);
      forall k | 0 <= k < |Parts(inner, depth)|
        ensures Braces(Parts(inner, depth)[k]) <= Braces(inner)
      {
        if k > 0 {
          assert Parts(inner, depth)[k] == if IsRaw(inner[0], ',') && depth == 0 then rest[k - 1] else rest[k];
        }
      }
    }
  }

  lemma {:induction false} PlainHasNoBraces(atoms: seq<Atom>)
    requires PlainText(atoms)
    ensures Braces(atoms) == 0
  {
    if atoms != [] {
      PlainHasNoBraces(atoms[1..]);
    }
  }

  lemma AlternativesShrink(inner: seq<Atom>)
    requires Alternatives(inner).Some?
    ensures var alternatives := Alternatives(inner).value;
            alternatives != [] && forall k :: 0 <= k < |alternatives| ==> Braces(alternatives[k]) <= Braces(inner)
  {
    PartsShrink(inner, 0);
    var alternatives := Alternatives(inner).value;
    hide Braces, Parts, Sequence, PlainText;
    if |Parts(inner, 0)| <= 1 {
      SequenceIsPlain(inner);
      forall k | 0 <= k < |alternatives|
        ensures Braces(alternatives[k]) <= Braces(inner)
      {
        PlainHasNoBraces(alternatives[k]);
      }
    }
  }

  predicate AllBelow(alternatives: seq<seq<Atom>>, bound: nat) {
    forall k :: 0 <= k < |alternatives| ==> Braces(alternatives[k]) < bound
  }

  /** What a group offers and what follows it each have fewer braces than the word. */
  lemma GroupShrinks(atoms: seq<Atom>, group: Group)
    requires group.open < |atoms| && GroupAt(atoms, group.open) == Some(group)
    ensures group.alternatives != [] && AllBelow(group.alternatives, Braces(atoms))
    ensures Braces(atoms[group.close + 1..]) < Braces(atoms)
  {
    hide Braces, Alternatives, FirstGroup, CloseFrom;
    BracesAround(atoms, group.open, group.close);
    hide GroupAt;
    AlternativesShrink(atoms[group.open + 1..group.close]);
  }

  lemma BracesPieces(atoms: seq<Atom>, n: nat)
    requires n <= |atoms|
    ensures Braces(atoms) == Braces(atoms[..n]) + Braces(atoms[n..])
  {
    hide Braces;
    Seqs.Split(atoms, n);
    BracesConcat(atoms[..n], atoms[n..]);
  }

  lemma BracesHead(atoms: seq<Atom>, i: nat)
    requires i < |atoms| && IsRaw(atoms[i], '{')
    ensures Braces(atoms[i..]) == 1 + Braces(atoms[i + 1..])
  {
    Seqs.DropHead(atoms, i);
  }

  lemma BracesAround(atoms: seq<Atom>, open: nat, close: nat)
    requires open < close < |atoms| && IsRaw(atoms[open], '{')
    ensures Braces(atoms[open + 1..close]) < Braces(atoms) && Braces(atoms[close + 1..]) < Braces(atoms)
  {
    hide Braces;
    var rest := atoms[open + 1..];
    BracesPieces(atoms, open);
    BracesHead(atoms, open);
    BracesPieces(rest, close - open - 1);
    BracesPieces(rest, close - open);
    Around(atoms, open, close);
  }

  lemma Around(atoms: seq<Atom>, open: nat, close: nat)
    requires open < close < |atoms|
    ensures atoms[open + 1..][..close - open - 1] == atoms[open + 1..close]
    ensures atoms[open + 1..][close - open..] == atoms[close + 1..]
  {
  }

  // ------------------------------------------------------------------ the meaning, with no budget

  function Row(prefix: seq<Atom>, body: seq<Atom>, suffixes: seq<seq<Atom>>): (words: seq<seq<Atom>>)
    ensures |words| == |suffixes|
  {
    seq(|suffixes|, k requires 0 <= k < |suffixes| => prefix + body + suffixes[k])
  }

  function Product(prefix: seq<Atom>, bodies: seq<seq<Atom>>, suffixes: seq<seq<Atom>>): seq<seq<Atom>> {
    if bodies == [] then []
    else Product(prefix, bodies[..|bodies| - 1], suffixes) + Row(prefix, bodies[|bodies| - 1], suffixes)
  }

  /** The words of a word: the leftmost group's alternatives, each with all its own, against the words of
      what follows. */
  function Meaning(atoms: seq<Atom>): (words: seq<seq<Atom>>)
    decreases Braces(atoms)
  {
    match FirstGroup(atoms, 0)
    case None => [atoms]
    case Some(group) =>
      GroupShrinks(atoms, group);
      Product(atoms[..group.open], Bodies(group.alternatives, Braces(atoms)), Meaning(atoms[group.close + 1..]))
  }

  function Bodies(alternatives: seq<seq<Atom>>, bound: nat): (words: seq<seq<Atom>>)
    requires AllBelow(alternatives, bound)
    decreases bound, |alternatives|
  {
    if alternatives == [] then []
    else
      Bodies(alternatives[..|alternatives| - 1], bound) + Meaning(alternatives[|alternatives| - 1])
  }

  /** Everything the budget is charged: the words of every alternative and of every suffix on the way, as well
      as the words that come out. */
  function Cost(atoms: seq<Atom>): nat
    decreases Braces(atoms)
  {
    match FirstGroup(atoms, 0)
    case None => 0
    case Some(group) =>
      GroupShrinks(atoms, group);
      Cost(atoms[group.close + 1..]) + Costs(group.alternatives, Braces(atoms)) + |Meaning(atoms)|
  }

  function Costs(alternatives: seq<seq<Atom>>, bound: nat): nat
    requires AllBelow(alternatives, bound)
    decreases bound, |alternatives|
  {
    if alternatives == [] then 0
    else Costs(alternatives[..|alternatives| - 1], bound) + Cost(alternatives[|alternatives| - 1])
  }

  // ------------------------------------------------------------------ the code

  method MatchingClose(atoms: seq<Atom>, open: nat) returns (r: Option<nat>)
    requires open < |atoms| && IsRaw(atoms[open], '{')
    ensures r == CloseFrom(atoms, open, 0)
  {
    var depth: nat := 0;
    for i := open to |atoms|
      invariant depth == 0 ==> i == open
      invariant CloseFrom(atoms, i, depth) == CloseFrom(atoms, open, 0)
    {
      if IsRaw(atoms[i], '{') {
        depth := depth + 1;
      } else if IsRaw(atoms[i], '}') {
        depth := depth - 1;
        if depth == 0 {
          return Some(i);
        }
      }
    }
    return None;
  }

  /** The parts found so far, the last still open, with those of the rest. */
  function Continued(parts: seq<seq<Atom>>, rest: seq<seq<Atom>>): seq<seq<Atom>>
    requires parts != [] && rest != []
  {
    parts[..|parts| - 1] + [parts[|parts| - 1] + rest[0]] + rest[1..]
  }

  method CommaAlternatives(inner: seq<Atom>) returns (r: Option<seq<seq<Atom>>>)
    ensures r == if |Parts(inner, 0)| > 1 then Some(Parts(inner, 0)) else None
  {
    var parts: seq<seq<Atom>> := [[]];
    var depth: nat := 0;
    assert inner[0..] == inner;
    ContinuedFresh(Parts(inner, 0));
    for i := 0 to |inner|
      invariant parts != []
      invariant Continued(parts, Parts(inner[i..], depth)) == Parts(inner, 0)
    {
      ContinuedStep(parts, inner, i, depth);
      if IsRaw(inner[i], ',') && depth == 0 {
        parts := parts + [[]];
        continue;
      }
      if IsRaw(inner[i], '{') {
        depth := depth + 1;
      } else if IsRaw(inner[i], '}') {
        depth := if depth == 0 then 0 else depth - 1;
      }
      parts := parts[..|parts| - 1] + [parts[|parts| - 1] + [inner[i]]];
    }
    ContinuedDone(parts);
    return if |parts| > 1 then Some(parts) else None;
  }

  lemma ContinuedFresh(rest: seq<seq<Atom>>)
    requires rest != []
    ensures Continued([[]], rest) == rest
  {
    assert [] + rest[0] == rest[0];
  }

  lemma ContinuedDone(parts: seq<seq<Atom>>)
    requires parts != []
    ensures Continued(parts, [[]]) == parts
  {
    assert parts[|parts| - 1] + [] == parts[|parts| - 1];
  }

  lemma ContinuedComma(parts: seq<seq<Atom>>, rest: seq<seq<Atom>>)
    requires parts != [] && rest != []
    ensures Continued(parts, [[]] + rest) == Continued(parts + [[]], rest)
  {
    var n := |parts|;
    assert ([[]] + rest)[1..] == rest && ([[]] + rest)[0] == [];
    assert parts[n - 1] + [] == parts[n - 1];
    assert [] + rest[0] == rest[0];
    assert (parts + [[]])[..n] == parts && (parts + [[]])[n] == [];
    assert parts[..n - 1] + [parts[n - 1]] == parts;
    assert [rest[0]] + rest[1..] == rest;
    Seqs.Assoc(parts, [rest[0]], rest[1..]);
  }

  lemma ContinuedStep(parts: seq<seq<Atom>>, inner: seq<Atom>, i: nat, depth: nat)
    requires parts != [] && i < |inner|
    ensures Continued(parts, Parts(inner[i..], depth))
         == if IsRaw(inner[i], ',') && depth == 0 then Continued(parts + [[]], Parts(inner[i + 1..], 0))
            else Continued(parts[..|parts| - 1] + [parts[|parts| - 1] + [inner[i]]],
                           Parts(inner[i + 1..], BraceDepth(inner[i], depth)))
  {
    Seqs.DropHead(inner, i);
    hide BraceDepth;
    if IsRaw(inner[i], ',') && depth == 0 {
      ContinuedComma(parts, Parts(inner[i + 1..], 0));
    } else {
      var rest := Parts(inner[i + 1..], BraceDepth(inner[i], depth));
      Seqs.HeadTail([inner[i]] + rest[0], rest[1..]);
      Seqs.Assoc(parts[|parts| - 1], [inner[i]], rest[0]);
    }
  }

  /** The words of one alternative against every suffix, one unit of the budget for each. */
  method Combine(prefix: seq<Atom>, bodies: seq<seq<Atom>>, suffixes: seq<seq<Atom>>, budget: nat, words: seq<seq<Atom>>)
    returns (out: Option<seq<seq<Atom>>>, left: nat)
    ensures out.Some? <==> |Product(prefix, bodies, suffixes)| <= budget
    ensures out.Some? ==> out.value == words + Product(prefix, bodies, suffixes)
    ensures out.Some? ==> left == budget - |Product(prefix, bodies, suffixes)|
    ensures out.None? ==> left == 0
  {
    var made := words;
    left := budget;
    for b := 0 to |bodies|
      invariant made == words + Product(prefix, bodies[..b], suffixes)
      invariant left + |Product(prefix, bodies[..b], suffixes)| == budget
    {
      ProductStep(prefix, bodies, b, suffixes);
      ghost var before := made;
      for s := 0 to |suffixes|
        invariant made == before + Row(prefix, bodies[b], suffixes)[..s]
        invariant left + |Product(prefix, bodies[..b], suffixes)| + s == budget
      {
        if left == 0 {
          return None, 0;
        }
        left := left - 1;
        made := made + [prefix + bodies[b] + suffixes[s]];
      }
    }
    assert bodies[..|bodies|] == bodies;
    return Some(made), left;
  }

  lemma ProductStep(prefix: seq<Atom>, bodies: seq<seq<Atom>>, b: nat, suffixes: seq<seq<Atom>>)
    requires b < |bodies|
    ensures Product(prefix, bodies[..b + 1], suffixes) == Product(prefix, bodies[..b], suffixes) + Row(prefix, bodies[b], suffixes)
    ensures |Product(prefix, bodies[..b + 1], suffixes)| <= |Product(prefix, bodies, suffixes)|
  {
    assert bodies[..b + 1][..b] == bodies[..b];
    assert bodies == bodies[..b + 1] + bodies[b + 1..];
    ProductConcat(prefix, bodies[..b + 1], bodies[b + 1..], suffixes);
  }

  lemma {:induction false} ProductConcat(prefix: seq<Atom>, a: seq<seq<Atom>>, b: seq<seq<Atom>>, suffixes: seq<seq<Atom>>)
    ensures Product(prefix, a + b, suffixes) == Product(prefix, a, suffixes) + Product(prefix, b, suffixes)
  {
    if b == [] {
      assert a + b == a;
    } else {
      assert (a + b)[..|a + b| - 1] == a + b[..|b| - 1];
      ProductConcat(prefix, a, b[..|b| - 1], suffixes);
    }
  }

  /** The budgeted expansion: it answers exactly when the budget covers the cost, spends exactly that, and
      what it answers is the meaning. */
  method ExpandBounded(atoms: seq<Atom>, budget: nat) returns (r: Option<seq<seq<Atom>>>, left: nat)
    ensures r.Some? <==> Cost(atoms) <= budget
    ensures r.Some? ==> r.value == Meaning(atoms) && left == budget - Cost(atoms)
    ensures r.None? ==> left == 0
    decreases Braces(atoms)
  {
    hide CloseFrom, Product, Sequence, Parts, Braces;
    for open := 0 to |atoms|
      invariant FirstGroup(atoms, 0) == FirstGroup(atoms, open)
    {
      if !IsRaw(atoms[open], '{') {
        continue;
      }
      var close := MatchingClose(atoms, open);
      if close.None? {
        continue;
      }
      var inner := atoms[open + 1..close.value];
      var alternatives := CommaAlternatives(inner);
      if alternatives.None? {
        alternatives := SequenceAlternatives(inner);
      }
      if alternatives.None? {
        continue;
      }
      r, left := ExpandGroup(atoms, Group(open, close.value, alternatives.value), budget);
      return;
    }
    return Some([atoms]), budget;
  }

  method ExpandGroup(atoms: seq<Atom>, group: Group, budget: nat) returns (r: Option<seq<seq<Atom>>>, left: nat)
    requires FirstGroup(atoms, 0) == Some(group)
    ensures r.Some? <==> Cost(atoms) <= budget
    ensures r.Some? ==> r.value == Meaning(atoms) && left == budget - Cost(atoms)
    ensures r.None? ==> left == 0
    decreases Braces(atoms), 0
  {
    GroupShrinks(atoms, group);
    ghost var bound := Braces(atoms);
    var prefix, rest, alternatives := atoms[..group.open], atoms[group.close + 1..], group.alternatives;
    GroupTotals(atoms, group);
    hide Cost, Meaning, Product, FirstGroup, GroupAt, Braces, AllBelow;
    var suffixes;
    suffixes, left := ExpandBounded(rest, budget);
    if suffixes.None? {
      return None, 0;
    }
    var out: seq<seq<Atom>> := [];
    assert alternatives[..0] == [];
    NothingYet(prefix, suffixes.value, bound);
    for a := 0 to |alternatives|
      invariant AllBelow(alternatives[..a], bound)
      invariant out == Product(prefix, Bodies(alternatives[..a], bound), suffixes.value)
      invariant left + Cost(rest) + Costs(alternatives[..a], bound) + |out| == budget
    {
      AlternativeStep(prefix, alternatives, a, bound, suffixes.value);
      var bodies;
      bodies, left := ExpandBounded(alternatives[a], left);
      if bodies.None? {
        return None, 0;
      }
      var more;
      more, left := Combine(prefix, bodies.value, suffixes.value, left, out);
      if more.None? {
        return None, 0;
      }
      out := more.value;
    }
    assert alternatives[..|alternatives|] == alternatives;
    return Some(out), left;
  }

  lemma NothingYet(prefix: seq<Atom>, suffixes: seq<seq<Atom>>, bound: nat)
    ensures AllBelow([], bound) && Costs([], bound) == 0 && Product(prefix, Bodies([], bound), suffixes) == []
  {
  }

  lemma GroupTotals(atoms: seq<Atom>, group: Group)
    requires FirstGroup(atoms, 0) == Some(group) && AllBelow(group.alternatives, Braces(atoms))
    ensures Meaning(atoms)
         == Product(atoms[..group.open], Bodies(group.alternatives, Braces(atoms)), Meaning(atoms[group.close + 1..]))
    ensures Cost(atoms)
         == Cost(atoms[group.close + 1..]) + Costs(group.alternatives, Braces(atoms)) + |Meaning(atoms)|
  {
    hide Product, Bodies, Costs, FirstGroup, GroupAt, Braces, AllBelow;
  }

  /** One more alternative, and that the whole costs no less than the alternatives up to it. */
  lemma AlternativeStep(prefix: seq<Atom>, alternatives: seq<seq<Atom>>, a: nat, bound: nat, suffixes: seq<seq<Atom>>)
    requires a < |alternatives| && AllBelow(alternatives, bound) && AllBelow(alternatives[..a], bound)
    ensures AllBelow(alternatives[..a + 1], bound) && Braces(alternatives[a]) < bound
    ensures Product(prefix, Bodies(alternatives[..a + 1], bound), suffixes)
         == Product(prefix, Bodies(alternatives[..a], bound), suffixes) + Product(prefix, Meaning(alternatives[a]), suffixes)
    ensures Costs(alternatives[..a + 1], bound) == Costs(alternatives[..a], bound) + Cost(alternatives[a])
    ensures Costs(alternatives[..a + 1], bound) <= Costs(alternatives, bound)
    ensures |Product(prefix, Bodies(alternatives[..a + 1], bound), suffixes)|
         <= |Product(prefix, Bodies(alternatives, bound), suffixes)|
  {
    assert alternatives[..a + 1][..a] == alternatives[..a];
    assert alternatives[..a + 1][a] == alternatives[a];
    hide Product, Cost, Meaning;
    ProductConcat(prefix, Bodies(alternatives[..a], bound), Meaning(alternatives[a]), suffixes);
    TotalsGrow(prefix, alternatives, a + 1, bound, suffixes);
  }

  lemma {:induction false} TotalsGrow(prefix: seq<Atom>, alternatives: seq<seq<Atom>>, a: nat, bound: nat, suffixes: seq<seq<Atom>>)
    requires a <= |alternatives| && AllBelow(alternatives, bound)
    ensures AllBelow(alternatives[..a], bound)
    ensures Costs(alternatives[..a], bound) <= Costs(alternatives, bound)
    ensures |Product(prefix, Bodies(alternatives[..a], bound), suffixes)|
         <= |Product(prefix, Bodies(alternatives, bound), suffixes)|
  {
    hide Product, Cost, Meaning;
    var n := |alternatives|;
    if a == n {
      assert alternatives[..a] == alternatives;
    } else {
      var most := alternatives[..n - 1];
      TotalsGrow(prefix, most, a, bound, suffixes);
      assert most[..a] == alternatives[..a];
      ProductConcat(prefix, Bodies(most, bound), Meaning(alternatives[n - 1]), suffixes);
    }
  }

  /** Over budget, the word is left as it was typed. */
  method ExpandAtoms(atoms: seq<Atom>) returns (words: seq<seq<Atom>>)
    ensures words == Expansion(atoms)
    ensures 1 <= |words| <= WORD_LIMIT
  {
    hide Cost, Meaning;
    var r, _ := ExpandBounded(atoms, WORD_LIMIT);
    words := if r.Some? then r.value else [atoms];
    MeaningSize(atoms);
  }

  function Expansion(atoms: seq<Atom>): seq<seq<Atom>> {
    if Cost(atoms) <= WORD_LIMIT then Meaning(atoms) else [atoms]
  }

  // ------------------------------------------------------------------ sizes

  lemma {:induction false} ProductSize(prefix: seq<Atom>, bodies: seq<seq<Atom>>, suffixes: seq<seq<Atom>>)
    ensures |Product(prefix, bodies, suffixes)| == |bodies| * |suffixes|
  {
    if bodies != [] {
      ProductSize(prefix, bodies[..|bodies| - 1], suffixes);
      OneMore(|bodies|, |suffixes|);
    }
  }

  lemma OneMore(a: int, b: int)
    ensures a * b == (a - 1) * b + b
  {
  }

  lemma PositiveProduct(a: int, b: int)
    requires a > 0 && b > 0
    ensures a * b >= 1
  {
  }

  /** A word means at least one word, and no more of them than it costs; one with no group costs nothing. */
  lemma {:induction false} MeaningSize(atoms: seq<Atom>)
    ensures |Meaning(atoms)| >= 1
    ensures FirstGroup(atoms, 0).Some? ==> |Meaning(atoms)| <= Cost(atoms)
    ensures FirstGroup(atoms, 0).None? ==> Meaning(atoms) == [atoms] && Cost(atoms) == 0
    decreases Braces(atoms), 1, 0
  {
    if group :| FirstGroup(atoms, 0) == Some(group) {
      GroupShrinks(atoms, group);
      GroupTotals(atoms, group);
      hide Meaning, Cost, FirstGroup, GroupAt, AllBelow, Braces, Product;
      var (rest, bound) := (atoms[group.close + 1..], Braces(atoms));
      MeaningSize(rest);
      BodiesSize(group.alternatives, bound);
      ProductSize(atoms[..group.open], Bodies(group.alternatives, bound), Meaning(rest));
      PositiveProduct(|Bodies(group.alternatives, bound)|, |Meaning(rest)|);
    }
  }

  lemma {:induction false} BodiesSize(alternatives: seq<seq<Atom>>, bound: nat)
    requires AllBelow(alternatives, bound)
    ensures |Bodies(alternatives, bound)| >= |alternatives|
    decreases bound, 0, |alternatives|
  {
    hide Meaning;
    if alternatives != [] {
      var n := |alternatives| - 1;
      assert Braces(alternatives[n]) < bound;
      MeaningSize(alternatives[n]);
      BodiesSize(alternatives[..n], bound);
    }
  }
}
