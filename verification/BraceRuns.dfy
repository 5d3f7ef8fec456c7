/** Brace expansion never splits, merges or reorders a quoted run or an expansion. */
module BraceRuns {
  import opened Wrappers
  import opened BraceAtoms
  import opened BraceSequence
  import opened Brace
  import Seqs

  function Opaques(atoms: seq<Atom>): seq<Atom> {
    if atoms == [] then []
    else if atoms[0].Opaque? then [atoms[0]] + Opaques(atoms[1..])
    else Opaques(atoms[1..])
  }

  /** `a` is `b` with some elements left out. */
  predicate Within(a: seq<Atom>, b: seq<Atom>) {
    if a == [] then true
    else if b == [] then false
    else (a[0] == b[0] && Within(a[1..], b[1..])) || Within(a, b[1..])
  }

  lemma {:induction false} OpaquesConcat(a: seq<Atom>, b: seq<Atom>)
    ensures Opaques(a + b) == Opaques(a) + Opaques(b)
  {
    if a == [] {
      assert a + b == b;
    } else {
      Seqs.ConcatHead(a, b);
      OpaquesConcat(a[1..], b);
    }
  }

  lemma {:induction false} WithinSelf(a: seq<Atom>)
    ensures Within(a, a)
  {
    if a != [] {
      WithinSelf(a[1..]);
    }
  }

  lemma {:induction false} WithinLonger(a: seq<Atom>, b: seq<Atom>, c: seq<Atom>)
    requires Within(a, c)
    ensures Within(a, b + c)
  {
    if b == [] {
      assert b + c == c;
    } else {
      Seqs.ConcatHead(b, c);
      WithinLonger(a, b[1..], c);
    }
  }

  lemma {:induction false} WithinConcat(a: seq<Atom>, b: seq<Atom>, c: seq<Atom>, d: seq<Atom>)
    requires Within(a, b) && Within(c, d)
    ensures Within(a + c, b + d)
    decreases |a| + |b|
  {
    if a == [] {
      assert a + c == c;
      WithinLonger(c, b, d);
    } else {
      Seqs.ConcatHead(a, c);
      Seqs.ConcatHead(b, d);
      if a[0] == b[0] && Within(a[1..], b[1..]) {
        WithinConcat(a[1..], b[1..], c, d);
      } else {
        WithinConcat(a, b[1..], c, d);
      }
    }
  }

  lemma {:induction false} WithinTrans(a: seq<Atom>, b: seq<Atom>, c: seq<Atom>)
    requires Within(a, b) && Within(b, c)
    ensures Within(a, c)
    decreases |a| + |b| + |c|
  {
    if a != [] {
      if b[0] == c[0] && Within(b[1..], c[1..]) {
        if a[0] == b[0] && Within(a[1..], b[1..]) {
          WithinTrans(a[1..], b[1..], c[1..]);
        } else {
          WithinTrans(a, b[1..], c[1..]);
        }
      } else {
        WithinTrans(a, b, c[1..]);
      }
    }
  }

  /** Each of the words keeps whole runs of `atoms`, in their order. */
  predicate KeepsRuns(words: seq<seq<Atom>>, atoms: seq<Atom>) {
    forall k :: 0 <= k < |words| ==> Within(Opaques(words[k]), Opaques(atoms))
  }

  lemma {:induction false} PartsKeepRuns(inner: seq<Atom>, depth: nat)
    ensures KeepsRuns(Parts(inner, depth), inner)
  {
    if inner != [] {
      var next := if IsRaw(inner[0], ',') && depth == 0 then 0 else BraceDepth(inner[0], depth);
      PartsKeepRuns(inner[1..], next);
      var rest := Parts(inner[1..], next);
      hide BraceDepth;
      forall k | 0 <= k < |Parts(inner, depth)|
        ensures Within(Opaques(Parts(inner, depth)[k]), Opaques(inner))
      {
        OnePartKeepsRuns(inner[0], inner[1..], rest, if IsRaw(inner[0], ',') && depth == 0 then k - 1 else k);
      }
    }
  }

  lemma OnePartKeepsRuns(atom: Atom, tail: seq<Atom>, rest: seq<seq<Atom>>, k: int)
    requires KeepsRuns(rest, tail) && rest != [] && -1 <= k < |rest|
    ensures Within(Opaques([]), Opaques([atom] + tail))
    ensures k >= 0 ==> Within(Opaques(rest[k]), Opaques([atom] + tail))
    ensures Within(Opaques([atom] + rest[0]), Opaques([atom] + tail))
  {
    OpaquesConcat([atom], tail);
    OpaquesConcat([atom], rest[0]);
    WithinSelf(Opaques([atom]));
    if k >= 0 {
      WithinLonger(Opaques(rest[k]), Opaques([atom]), Opaques(tail));
    }
    WithinConcat(Opaques([atom]), Opaques([atom]), Opaques(rest[0]), Opaques(tail));
  }

  lemma {:induction false} PlainHasNoRuns(atoms: seq<Atom>)
    requires PlainText(atoms)
    ensures Opaques(atoms) == []
  {
    if atoms != [] {
      PlainHasNoRuns(atoms[1..]);
    }
  }

  lemma AlternativesKeepRuns(inner: seq<Atom>)
    requires Alternatives(inner).Some?
    ensures KeepsRuns(Alternatives(inner).value, inner)
  {
    PartsKeepRuns(inner, 0);
    hide Opaques, Parts, Sequence, PlainText;
    if |Parts(inner, 0)| <= 1 {
      SequenceIsPlain(inner);
      forall k | 0 <= k < |Sequence(inner).value|
        ensures Within(Opaques(Sequence(inner).value[k]), Opaques(inner))
      {
        PlainHasNoRuns(Sequence(inner).value[k]);
      }
    }
  }

  lemma {:induction false} ProductKeepsRuns(prefix: seq<Atom>, bodies: seq<seq<Atom>>, suffixes: seq<seq<Atom>>,
                                            inner: seq<Atom>, rest: seq<Atom>)
    requires KeepsRuns(bodies, inner) && KeepsRuns(suffixes, rest)
    ensures KeepsRuns(Product(prefix, bodies, suffixes), prefix + inner + rest)
  {
    hide Opaques, Within;
    if bodies != [] {
      ProductKeepsRuns(prefix, bodies[..|bodies| - 1], suffixes, inner, rest);
      var body := bodies[|bodies| - 1];
      forall k | 0 <= k < |suffixes|
        ensures Within(Opaques(prefix + body + suffixes[k]), Opaques(prefix + inner + rest))
      {
        ThreeKeepRuns(prefix, body, suffixes[k], inner, rest);
      }
    }
  }

  lemma ThreeKeepRuns(prefix: seq<Atom>, body: seq<Atom>, suffix: seq<Atom>, inner: seq<Atom>, rest: seq<Atom>)
    requires Within(Opaques(body), Opaques(inner)) && Within(Opaques(suffix), Opaques(rest))
    ensures Within(Opaques(prefix + body + suffix), Opaques(prefix + inner + rest))
  {
    hide Opaques, Within;
    OpaquesConcat(prefix, body);
    OpaquesConcat(prefix + body, suffix);
    OpaquesConcat(prefix, inner);
    OpaquesConcat(prefix + inner, rest);
    WithinSelf(Opaques(prefix));
    WithinConcat(Opaques(prefix), Opaques(prefix), Opaques(body), Opaques(inner));
    WithinConcat(Opaques(prefix + body), Opaques(prefix + inner), Opaques(suffix), Opaques(rest));
  }

  /** No quoted run or expansion is ever split, merged or reordered: what each word has of them are whole runs
      of the word typed, in the order typed. */
  lemma RunsAreKept(atoms: seq<Atom>)
    ensures KeepsRuns(Expansion(atoms), atoms)
  {
    hide Opaques, Within, Cost, Meaning;
    WithinSelf(Opaques(atoms));
    MeaningKeepsRuns(atoms);
  }

  lemma {:induction false} MeaningKeepsRuns(atoms: seq<Atom>)
    ensures KeepsRuns(Meaning(atoms), atoms)
    decreases Braces(atoms), 1, 0
  {
    hide Opaques, Within, Cost;
    if group :| FirstGroup(atoms, 0) == Some(group) {
      GroupShrinks(atoms, group);
      GroupTotals(atoms, group);
      var inner, rest := atoms[group.open + 1..group.close], atoms[group.close + 1..];
      AlternativesKeepRuns(inner);
      assert KeepsRuns(group.alternatives, inner);
      hide Meaning, FirstGroup, GroupAt, Alternatives, Braces, AllBelow, Product, KeepsRuns;
      MeaningKeepsRuns(rest);
      BodiesKeepRuns(group.alternatives, Braces(atoms), inner);
      ProductKeepsRuns(atoms[..group.open], Bodies(group.alternatives, Braces(atoms)), Meaning(rest), inner, rest);
      BracesHoldNoRuns(atoms, group.open, group.close);
      SameRuns(Meaning(atoms), atoms[..group.open] + inner + rest, atoms);
    } else {
      WithinSelf(Opaques(atoms));
    }
  }

  lemma SameRuns(words: seq<seq<Atom>>, a: seq<Atom>, b: seq<Atom>)
    requires KeepsRuns(words, a) && Opaques(a) == Opaques(b)
    ensures KeepsRuns(words, b)
  {
    hide Opaques, Within;
  }

  lemma BracesHoldNoRuns(atoms: seq<Atom>, open: nat, close: nat)
    requires open < close < |atoms| && atoms[open].Raw? && atoms[close].Raw?
    ensures Opaques(atoms[..open] + atoms[open + 1..close] + atoms[close + 1..]) == Opaques(atoms)
  {
    hide Opaques;
    var tail := atoms[open + 1..];
    OpaquesPieces(atoms, open);
    OpaquesHead(atoms, open);
    OpaquesPieces(tail, close - open - 1);
    Around(atoms, open, close);
    DropTo(atoms, open, close);
    OpaquesHead(atoms, close);
    OpaquesConcat(atoms[..open] + atoms[open + 1..close], atoms[close + 1..]);
    OpaquesConcat(atoms[..open], atoms[open + 1..close]);
    Seqs.Assoc(Opaques(atoms[..open]), Opaques(atoms[open + 1..close]), Opaques(atoms[close + 1..]));
  }

  lemma DropTo(atoms: seq<Atom>, open: nat, close: nat)
    requires open < close < |atoms|
    ensures atoms[open + 1..][close - open - 1..] == atoms[close..]
  {
  }

  lemma OpaquesPieces(atoms: seq<Atom>, n: nat)
    requires n <= |atoms|
    ensures Opaques(atoms) == Opaques(atoms[..n]) + Opaques(atoms[n..])
  {
    hide Opaques;
    Seqs.Split(atoms, n);
    OpaquesConcat(atoms[..n], atoms[n..]);
  }

  lemma OpaquesHead(atoms: seq<Atom>, i: nat)
    requires i < |atoms| && atoms[i].Raw?
    ensures Opaques(atoms[i..]) == Opaques(atoms[i + 1..])
  {
    Seqs.DropHead(atoms, i);
  }

  lemma {:induction false} BodiesKeepRuns(alternatives: seq<seq<Atom>>, bound: nat, inner: seq<Atom>)
    requires AllBelow(alternatives, bound) && KeepsRuns(alternatives, inner)
    ensures KeepsRuns(Bodies(alternatives, bound), inner)
    decreases bound, 0, |alternatives|
  {
    hide Meaning, Opaques, Within, Cost;
    if alternatives != [] {
      var n := |alternatives| - 1;
      BodiesKeepRuns(alternatives[..n], bound, inner);
      assert Braces(alternatives[n]) < bound;
      MeaningKeepsRuns(alternatives[n]);
      forall k | 0 <= k < |Meaning(alternatives[n])|
        ensures Within(Opaques(Meaning(alternatives[n])[k]), Opaques(inner))
      {
        WithinTrans(Opaques(Meaning(alternatives[n])[k]), Opaques(alternatives[n]), Opaques(inner));
      }
    }
  }
}
