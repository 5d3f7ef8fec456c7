/** How two machines settle which copy of a record survives, and why it does not matter who asks, in what order,
    or how often. */
module MacroSync {
  import opened Wrappers
  import opened MacroText
  import opened Macros
  import opened Utf8
  import MacroRuns

  // ------------------------------------------------------------------ what is compared

  /** The first byte in which they differ is smaller in `a`. */
  ghost predicate DiffersBelow(a: Bytes, b: Bytes) {
    exists k :: 0 <= k < |a| && k < |b| && a[k] < b[k] && forall j :: 0 <= j < k ==> a[j] == b[j]
  }

  lemma {:induction false} BelowIs(a: Bytes, b: Bytes)
    requires |a| == |b|
    ensures BytesBelow(a, b) <==> DiffersBelow(a, b)
  {
    if a != [] {
      BelowIs(a[1..], b[1..]);
      if BytesBelow(a, b) {
        if a[0] == b[0] {
          var k :| 0 <= k < |a[1..]| && a[1..][k] < b[1..][k] && forall j :: 0 <= j < k ==> a[1..][j] == b[1..][j];
          forall j | 0 <= j < k + 1
            ensures a[j] == b[j]
          {
            if j > 0 {
              assert a[1..][j - 1] == b[1..][j - 1];
            }
          }
          assert a[k + 1] < b[k + 1];
        } else {
          assert a[0] < b[0];
        }
      }
      if DiffersBelow(a, b) {
        var k :| 0 <= k < |a| && k < |b| && a[k] < b[k] && forall j :: 0 <= j < k ==> a[j] == b[j];
        if k > 0 {
          assert a[0] == b[0];
          assert a[1..][k - 1] < b[1..][k - 1];
          assert forall j :: 0 <= j < k - 1 ==> a[1..][j] == a[j + 1] && b[1..][j] == b[j + 1];
          assert DiffersBelow(a[1..], b[1..]);
        }
      }
    }
  }

  /** The higher revision is the newer copy; between equals a deletion is; and between equals in that too, the
      bytes decide at the first in which they differ. */
  lemma NewerIs(a: Stamp, b: Stamp)
    requires StampOk(a) && StampOk(b)
    ensures WinsOver(a, b)
        <==> if a.revision != b.revision then a.revision > b.revision
             else if a.deleted != b.deleted then a.deleted
             else DiffersBelow(b.tieBreaker, a.tieBreaker)
  {
    BelowIs(b.tieBreaker, a.tieBreaker);
    hide BytesBelow, DiffersBelow;
  }

  /** A machine that has never heard of a record takes the other's, tombstone or not; equal copies are agreement;
      and otherwise the newer copy is the verdict. */
  lemma VerdictIs(ours: Option<Stamp>, theirs: Option<Stamp>)
    requires (ours.Some? ==> StampOk(ours.value)) && (theirs.Some? ==> StampOk(theirs.value))
    ensures Settle(ours, theirs) == Agreed <==> ours == theirs
    ensures Settle(ours, theirs) == Ours <==> ours.Some? && (theirs.None? || WinsOver(ours.value, theirs.value))
    ensures Settle(ours, theirs) == Theirs <==> theirs.Some? && (ours.None? || WinsOver(theirs.value, ours.value))
  {
    if ours.Some? && theirs.Some? {
      MacroRuns.BytesOrdered(ours.value.tieBreaker, theirs.value.tieBreaker);
      hide BytesBelow;
    }
  }

  // ------------------------------------------------------------------ any number of machines

  /** The copy both ends hold once they have settled. */
  function Survivor(ours: Option<Stamp>, theirs: Option<Stamp>): Option<Stamp> {
    if Settle(ours, theirs) == Theirs then theirs else ours
  }

  lemma {:induction false} BelowGoesOn(a: Bytes, b: Bytes, c: Bytes)
    requires BytesBelow(a, b) && BytesBelow(b, c)
    ensures BytesBelow(a, c)
  {
    if a != [] && a[0] == b[0] && b[0] == c[0] {
      BelowGoesOn(a[1..], b[1..], c[1..]);
    }
  }

  /** `newer` is at least as new as `older`. */
  predicate Covers(newer: Option<Stamp>, older: Option<Stamp>) {
    newer == older || older.None? || (newer.Some? && WinsOver(newer.value, older.value))
  }

  lemma CoversGoesOn(a: Option<Stamp>, b: Option<Stamp>, c: Option<Stamp>)
    requires Covers(a, b) && Covers(b, c)
    ensures Covers(a, c)
  {
    if a.Some? && b.Some? && c.Some? && BytesBelow(c.value.tieBreaker, b.value.tieBreaker)
       && BytesBelow(b.value.tieBreaker, a.value.tieBreaker) {
      BelowGoesOn(c.value.tieBreaker, b.value.tieBreaker, a.value.tieBreaker);
    }
    hide BytesBelow;
  }

  lemma CoversBoth(a: Option<Stamp>, b: Option<Stamp>)
    requires Covers(a, b) && Covers(b, a)
    ensures a == b
  {
    if a.Some? && b.Some? {
      MacroRuns.BytesOrdered(a.value.tieBreaker, b.value.tieBreaker);
    }
    hide BytesBelow;
  }

  lemma SurvivorCovers(a: Option<Stamp>, b: Option<Stamp>)
    ensures Survivor(a, b) == a || Survivor(a, b) == b
    ensures Covers(Survivor(a, b), a) && Covers(Survivor(a, b), b)
  {
    if a.Some? && b.Some? {
      MacroRuns.BytesOrdered(a.value.tieBreaker, b.value.tieBreaker);
    }
    hide BytesBelow;
  }

  /** What one machine holds after settling with each of the others in turn. */
  function AfterAll(held: Option<Stamp>, others: seq<Option<Stamp>>): Option<Stamp>
    decreases |others|
  {
    if others == [] then held else AfterAll(Survivor(held, others[0]), others[1..])
  }

  /** It holds one of the copies it met, and that one covers all of them. */
  lemma {:induction false} NewestIsHeld(held: Option<Stamp>, others: seq<Option<Stamp>>)
    ensures var last := AfterAll(held, others);
            && last in [held] + others
            && Covers(last, held)
            && forall k :: 0 <= k < |others| ==> Covers(last, others[k])
    decreases |others|
  {
    hide Covers, Survivor;
    if others == [] {
      SurvivorCovers(held, held);
    } else {
      var next := Survivor(held, others[0]);
      SurvivorCovers(held, others[0]);
      NewestIsHeld(next, others[1..]);
      var last := AfterAll(held, others);
      assert others == [others[0]] + others[1..];
      CoversGoesOn(last, next, held);
      CoversGoesOn(last, next, others[0]);
      forall k | 0 <= k < |others|
        ensures Covers(last, others[k])
      {
        if k > 0 {
          assert others[k] == others[1..][k - 1];
        }
      }
    }
  }

  /** Whichever machine starts, in whatever order it meets the others and however often, it ends with the same
      copy as any machine that met the same copies. */
  lemma OrderDoesNotMatter(held: Option<Stamp>, others: seq<Option<Stamp>>,
                           start: Option<Stamp>, met: seq<Option<Stamp>>)
    requires forall copy :: copy in [held] + others <==> copy in [start] + met
    ensures AfterAll(held, others) == AfterAll(start, met)
  {
    hide Covers, AfterAll;
    NewestIsHeld(held, others);
    NewestIsHeld(start, met);
    var (one, two) := (AfterAll(held, others), AfterAll(start, met));
    CoversMet(one, held, others, two);
    CoversMet(two, start, met, one);
    CoversBoth(one, two);
  }

  lemma CoversMet(last: Option<Stamp>, held: Option<Stamp>, others: seq<Option<Stamp>>, copy: Option<Stamp>)
    requires Covers(last, held) && (forall k :: 0 <= k < |others| ==> Covers(last, others[k])) && copy in [held] + others
    ensures Covers(last, copy)
  {
    hide Covers;
    var k :| 0 <= k < |[held] + others| && ([held] + others)[k] == copy;
    if k > 0 {
      assert copy == others[k - 1];
    }
  }
}
