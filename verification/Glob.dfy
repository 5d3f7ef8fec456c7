/** Compiling and matching one shell pattern, in the notation of section 2.13 of POSIX.1-2017 XCU.
    Extended groups are not part of this model. */
module Glob {
  import opened Wrappers
  import Seqs

  datatype Member = MemberCh(c: char) | Range(lo: char, hi: char) | Named(name: string)

  datatype Item =
    | Ch(c: char)
    | AnyCh
    | Star
    | Class(negated: bool, members: seq<Member>)

  /** What the matcher asks of the character tables: the two case foldings and the POSIX classes. */
  datatype Tables = Tables(lower: char -> string, upper: char -> string, named: (string, char) -> bool)

  function MemberHas(t: Tables, m: Member, c: char): bool {
    match m
    case MemberCh(x) => x == c
    case Range(lo, hi) => lo <= c <= hi
    case Named(name) => t.named(name, c)
  }

  predicate Hit(t: Tables, members: seq<Member>, c: char, nocase: bool) {
    exists i :: 0 <= i < |members| &&
      (MemberHas(t, members[i], c)
       || (nocase && exists k :: 0 <= k < |t.lower(c) + t.upper(c)| && MemberHas(t, members[i], (t.lower(c) + t.upper(c))[k])))
  }

  /** `matches_char_with`: whether one character satisfies one item. */
  predicate MatchesChar(t: Tables, item: Item, c: char, nocase: bool) {
    match item
    case Ch(x) => x == c || (nocase && t.lower(x) == t.lower(c))
    case AnyCh => true
    case Star => false
    case Class(negated, members) => Hit(t, members, c, nocase) != negated
  }

  // ------------------------------------------------------------------ what a pattern means

  /** A `*` takes some run of characters and every other item exactly one it accepts. */
  predicate Matches(t: Tables, items: seq<Item>, name: string, nocase: bool)
    decreases |items|, |name|
  {
    if items == [] then name == []
    else if items[0] == Star then
      Matches(t, items[1..], name, nocase) || (name != [] && Matches(t, items, name[1..], nocase))
    else
      name != [] && MatchesChar(t, items[0], name[0], nocase) && Matches(t, items[1..], name[1..], nocase)
  }

  // ------------------------------------------------------------------ the matcher

  /** One question put to the matcher. */
  datatype Problem = Problem(t: Tables, items: seq<Item>, name: string, nocase: bool)

  /** Whether the items from `i` on match the name from `j` on. */
  predicate From(p: Problem, i: nat, j: nat)
    requires i <= |p.items| && j <= |p.name|
  {
    Matches(p.t, p.items[i..], p.name[j..], p.nocase)
  }

  /** Whether they would match from some later place in the name. */
  predicate Later(p: Problem, i: nat, j: nat)
    requires i <= |p.items|
  {
    exists k :: j <= k <= |p.name| && From(p, i, k)
  }

  predicate Accepts(p: Problem, i: nat, j: nat)
    requires i < |p.items| && j < |p.name|
  {
    p.items[i] != Star && MatchesChar(p.t, p.items[i], p.name[j], p.nocase)
  }

  /** The items from `s` to `i` hold no `*` and accepted the name from `e` to `j`, one character each. */
  predicate Tracked(p: Problem, s: nat, i: nat, e: nat, j: nat)
    requires i <= |p.items| && j <= |p.name|
  {
    s <= i && e <= j && i - s == j - e && forall d :: s <= d < i ==> AcceptedFrom(p, s, e, d)
  }

  /** Item `d` accepted the character as far after `e` as it is after `s`. */
  predicate AcceptedFrom(p: Problem, s: nat, e: nat, d: nat) {
    s <= d < |p.items| && e + (d - s) < |p.name| && Accepts(p, d, e + (d - s))
  }

  /** Where the search stands: the answer is what the current place gives, or a later start for the items
      after the most recent `*`. No earlier `*` is needed. */
  ghost predicate Searching(p: Problem, i: nat, j: nat, star: Option<(nat, nat)>) {
    && i <= |p.items| && j <= |p.name|
    && match star
       case None => i == j && (From(p, 0, 0) <==> From(p, i, j))
       case Some((s, e)) =>
         && s < |p.items| && p.items[s] == Star && Tracked(p, s + 1, i, e, j)
         && (From(p, 0, 0) <==> From(p, i, j) || Later(p, s + 1, e + 1))
  }

  /** How often a new resumption point has been taken. */
  function Phase(star: Option<(nat, nat)>): nat {
    if star.None? then 0 else star.value.0 + star.value.1 + 1
  }

  function Base(star: Option<(nat, nat)>): nat {
    if star.None? then 0 else star.value.0 + 1
  }

  predicate Paced(n: nat, star: Option<(nat, nat)>, i: nat, steps: nat) {
    Base(star) <= i <= n && steps <= Phase(star) * (n + 1) + (i - Base(star))
  }

  /** `matches_items_with`, remembering only the most recent `*`. `steps` counts turns of the main loop. */
  method MatchesItems(t: Tables, items: seq<Item>, name: string, nocase: bool) returns (matched: bool, ghost steps: nat)
    ensures matched == Matches(t, items, name, nocase)
    ensures steps <= (|items| + 1) * (|items| + |name| + 1)
  {
    hide Matches, MatchesChar, From, Later, Searching, Paced, Tracked;
    var p := Problem(t, items, name, nocase);
    var i, j := 0, 0;
    var star: Option<(nat, nat)> := None;
    steps := 0;
    Begin(p);
    while j < |name|
      invariant 0 <= i <= |items| && 0 <= j <= |name|
      invariant Searching(p, i, j, star) && Paced(|items|, star, i, steps)
      invariant star.Some? ==> star.value.0 < i && star.value.1 <= j
      decreases |items| + |name| + 1 - Phase(star), |items| - i
    {
      if i < |items| && items[i] == Star {
        MeetStar(p, i, j, star);
        NewPhase(|items|, star, i, steps, Some((i, j)), i + 1);
        star := Some((i, j));
        i := i + 1;
      } else if i < |items| && MatchesChar(t, items[i], name[j], nocase) {
        MeetChar(p, i, j, star);
        SamePhase(|items|, star, i, steps);
        i, j := i + 1, j + 1;
      } else {
        if star.None? {
          Refuse(p, i, j);
          LastPhase(|items|, |name|, star, i, steps);
          return false, steps;
        }
        var (starIndex, eaten) := star.value;
        Retry(p, i, j, starIndex, eaten);
        NewPhase(|items|, star, i, steps, Some((starIndex, eaten + 1)), starIndex + 1);
        i, j := starIndex + 1, eaten + 1;
        star := Some((starIndex, j));
      }
      steps := steps + 1;
    }
    LastPhase(|items|, |name|, star, i, steps);
    NameEaten(p, i, star);
    while i < |items| && items[i] == Star
      invariant 0 <= i <= |items|
      invariant From(p, i, |name|) <==> From(p, 0, 0)
    {
      FromStep(p, i, |name|);
      i := i + 1;
    }
    FromStep(p, i, |name|);
    WholeProblem(p);
    matched := i == |items|;
  }

  // ------------------------------------------------------------------ why one resumption point is enough

  lemma FromStep(p: Problem, i: nat, j: nat)
    requires i <= |p.items| && j <= |p.name|
    ensures From(p, i, j) ==
            if i == |p.items| then j == |p.name|
            else if p.items[i] == Star then From(p, i + 1, j) || (j < |p.name| && From(p, i, j + 1))
            else j < |p.name| && Accepts(p, i, j) && From(p, i + 1, j + 1)
  {
    hide MatchesChar;
    if i < |p.items| {
      Seqs.DropHead(p.items, i);
    }
    if j < |p.name| {
      Seqs.DropHead(p.name, j);
    }
  }

  lemma WholeProblem(p: Problem)
    ensures From(p, 0, 0) == Matches(p.t, p.items, p.name, p.nocase)
  {
    assert p.items[0..] == p.items && p.name[0..] == p.name;
  }

  lemma Begin(p: Problem)
    ensures Searching(p, 0, 0, None) && Paced(|p.items|, None, 0, 0)
  {
  }

  /** A `*` may take any run, so matching from it later is matching from it now. */
  lemma {:induction false} StarAbsorbs(p: Problem, i: nat, j: nat, k: nat)
    requires i < |p.items| && p.items[i] == Star && j <= k <= |p.name| && From(p, i, k)
    ensures From(p, i, j)
    decreases k - j
  {
    hide From;
    if j < k {
      StarAbsorbs(p, i, j + 1, k);
      FromStep(p, i, j);
    }
  }

  lemma {:induction false} StarOpens(p: Problem, i: nat, j: nat)
    requires i < |p.items| && p.items[i] == Star && j <= |p.name|
    ensures From(p, i, j) <==> From(p, i + 1, j) || Later(p, i + 1, j + 1)
    decreases |p.name| - j
  {
    hide From;
    FromStep(p, i, j);
    if j < |p.name| {
      StarOpens(p, i, j + 1);
      LaterStep(p, i + 1, j + 1);
    }
  }

  lemma LaterStep(p: Problem, i: nat, j: nat)
    requires i <= |p.items| && j <= |p.name|
    ensures Later(p, i, j) <==> From(p, i, j) || Later(p, i, j + 1)
  {
    hide From;
  }

  /** Items without a `*` take one character each, so a match that starts later is later after them too. */
  lemma {:induction false} Slides(p: Problem, s: nat, i: nat, k: nat)
    requires s <= i <= |p.items| && k <= |p.name| && From(p, s, k)
    requires forall d :: s <= d < i ==> p.items[d] != Star
    ensures k + (i - s) <= |p.name| && From(p, i, k + (i - s))
    decreases i - s
  {
    hide From, Accepts;
    if s < i {
      FromStep(p, s, k);
      Slides(p, s + 1, i, k + 1);
    }
  }

  /** Whatever a later start for the items after the old `*` could match, the current place reaches. */
  lemma LaterIsBehind(p: Problem, i: nat, j: nat, s: nat, e: nat) returns (k: nat)
    requires i <= |p.items| && j <= |p.name| && s <= i && Tracked(p, s, i, e, j) && Later(p, s, e + 1)
    ensures j < k <= |p.name| && From(p, i, k)
  {
    hide From;
    var start :| e + 1 <= start <= |p.name| && From(p, s, start);
    forall d | s <= d < i
      ensures p.items[d] != Star
    {
      assert AcceptedFrom(p, s, e, d);
    }
    hide Accepts;
    Slides(p, s, i, start);
    k := start + (i - s);
  }

  lemma MeetStar(p: Problem, i: nat, j: nat, star: Option<(nat, nat)>)
    requires Searching(p, i, j, star) && i < |p.items| && j < |p.name| && p.items[i] == Star
    ensures Searching(p, i + 1, j, Some((i, j)))
  {
    hide From, Later, Accepts;
    StarOpens(p, i, j);
    if star.Some? && Later(p, star.value.0 + 1, star.value.1 + 1) {
      var k := LaterIsBehind(p, i, j, star.value.0 + 1, star.value.1);
      StarAbsorbs(p, i, j, k);
    }
  }

  lemma MeetChar(p: Problem, i: nat, j: nat, star: Option<(nat, nat)>)
    requires Searching(p, i, j, star) && i < |p.items| && j < |p.name|
    requires p.items[i] != Star && MatchesChar(p.t, p.items[i], p.name[j], p.nocase)
    ensures Searching(p, i + 1, j + 1, star)
  {
    FromStep(p, i, j);
    assert Accepts(p, i, j);
    assert star.Some? ==> AcceptedFrom(p, star.value.0 + 1, star.value.1, i);
    hide From, Later, AcceptedFrom;
  }

  lemma Stuck(p: Problem, i: nat, j: nat)
    requires i <= |p.items| && j < |p.name|
    requires i < |p.items| ==> p.items[i] != Star && !MatchesChar(p.t, p.items[i], p.name[j], p.nocase)
    ensures !From(p, i, j)
  {
    FromStep(p, i, j);
    hide From;
  }

  lemma Retry(p: Problem, i: nat, j: nat, s: nat, e: nat)
    requires Searching(p, i, j, Some((s, e))) && j < |p.name|
    requires i < |p.items| ==> p.items[i] != Star && !MatchesChar(p.t, p.items[i], p.name[j], p.nocase)
    ensures Searching(p, s + 1, e + 1, Some((s, e + 1)))
  {
    Stuck(p, i, j);
    hide From, Later, Accepts;
    LaterStep(p, s + 1, e + 1);
  }

  lemma Refuse(p: Problem, i: nat, j: nat)
    requires Searching(p, i, j, None) && j < |p.name|
    requires i < |p.items| ==> p.items[i] != Star && !MatchesChar(p.t, p.items[i], p.name[j], p.nocase)
    ensures !Matches(p.t, p.items, p.name, p.nocase)
  {
    Stuck(p, i, j);
    WholeProblem(p);
    hide From, Matches;
  }

  lemma NameEaten(p: Problem, i: nat, star: Option<(nat, nat)>)
    requires Searching(p, i, |p.name|, star)
    ensures i <= |p.items| && (From(p, 0, 0) <==> From(p, i, |p.name|))
  {
    hide From, Later, Accepts;
    if star.Some? && Later(p, star.value.0 + 1, star.value.1 + 1) {
      var k := LaterIsBehind(p, i, |p.name|, star.value.0 + 1, star.value.1);
    }
  }

  // ------------------------------------------------------------------ why it cannot hang

  lemma SamePhase(n: nat, star: Option<(nat, nat)>, i: nat, steps: nat)
    requires Paced(n, star, i, steps) && i < n
    ensures Paced(n, star, i + 1, steps + 1)
  {
  }

  lemma NewPhase(n: nat, star: Option<(nat, nat)>, i: nat, steps: nat, star': Option<(nat, nat)>, i': nat)
    requires Paced(n, star, i, steps) && Phase(star) < Phase(star') && Base(star') == i' <= n
    ensures Paced(n, star', i', steps + 1)
  {
    hide Phase;
    Times(Phase(star), Phase(star'), n + 1);
  }

  lemma {:induction false} Times(a: nat, b: nat, c: nat)
    requires a < b
    ensures a * c + c <= b * c
  {
    if a + 1 < b {
      Times(a, b - 1, c);
    }
    Distribute(b - 1, c);
  }

  lemma Distribute(a: nat, c: nat)
    ensures (a + 1) * c == a * c + c
  {
  }

  lemma LastPhase(n: nat, m: nat, star: Option<(nat, nat)>, i: nat, steps: nat)
    requires Paced(n, star, i, steps) && (star.Some? ==> star.value.0 < n && star.value.1 <= m)
    ensures steps <= (n + 1) * (n + m + 1)
  {
    var f := Phase(star);
    Times(f, n + m + 1, n + 1);
  }
}
