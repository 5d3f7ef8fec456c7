/** Tearing down a table without recursion: what it holds goes onto a queue, and a table taken off the
    queue by its last owner is emptied onto the same queue in turn. */
module Teardown {
  import opened Values

  // ------------------------------------------------------------------ what a table holds

  function One(v: Value): multiset<Table> {
    if v.TableRef? then multiset{v.t} else multiset{}
  }

  ghost function InSeq(items: seq<Value>): multiset<Table> {
    if items == [] then multiset{} else One(items[0]) + InSeq(items[1..])
  }

  ghost function SomeKey<K, V>(m: map<K, V>): (k: K)
    requires m != map[]
    ensures k in m
  {
    var k :| k in m; k
  }

  ghost function InMap<K>(m: map<K, Value>): multiset<Table>
    decreases |m|
  {
    if m == map[] then multiset{} else One(m[SomeKey(m)]) + InMap(m - {SomeKey(m)})
  }

  /** Every reference to a table that a table itself owns: in the sequence, in the hash part, kept for
      a key, and the metatable. */
  ghost function HeldBy(s: State): multiset<Table> {
    InSeq(s.stores.items) + InMap(s.stores.hash) + InMap(s.stores.objects)
    + if s.metatable == null then multiset{} else multiset{s.metatable}
  }

  const GONE := State.State(EMPTY, null)

  lemma {:induction false} InMapPick<K>(m: map<K, Value>, k: K)
    requires k in m
    ensures InMap(m) == One(m[k]) + InMap(m - {k})
    decreases |m|
  {
    hide One, SomeKey;
    var c := SomeKey(m);
    if c != k {
      InMapPick(m - {c}, k);
      InMapPick(m - {k}, c);
      assert m - {c} - {k} == m - {k} - {c};
    }
  }

  method TakeSeq(items: seq<Value>, waiting: seq<Table>) returns (out: seq<Table>)
    ensures multiset(out) == multiset(waiting) + InSeq(items)
  {
    out := waiting;
    for i := 0 to |items|
      invariant multiset(out) + InSeq(items[i..]) == multiset(waiting) + InSeq(items)
    {
      assert items[i..][1..] == items[i + 1..];
      if items[i].TableRef? {
        out := out + [items[i].t];
      }
    }
  }

  /** Drained in whatever order the map gives. */
  method TakeMap<K(==)>(m: map<K, Value>, waiting: seq<Table>) returns (out: seq<Table>)
    ensures multiset(out) == multiset(waiting) + InMap(m)
  {
    out := waiting;
    var rest := m;
    while rest != map[]
      invariant multiset(out) + InMap(rest) == multiset(waiting) + InMap(m)
      decreases rest.Keys
    {
      var k :| k in rest;
      InMapPick(rest, k);
      if rest[k].TableRef? {
        out := out + [rest[k].t];
      }
      rest := rest - {k};
    }
  }

  method TakeTables(table: Table, waiting: seq<Table>) returns (out: seq<Table>)
    modifies table
    ensures multiset(out) == multiset(waiting) + old(HeldBy(StateOf(table)))
    ensures StateOf(table) == GONE
  {
    hide InSeq, InMap;
    out := TakeSeq(table.items, waiting);
    out := TakeMap(table.hash, out);
    out := TakeMap(table.objects, out);
    table.items, table.hash, table.objects, table.order := [], map[], map[], [];
    if table.metatable != null {
      out := out + [table.metatable];
      table.metatable := null;
    }
  }

  // ------------------------------------------------------------------ the ledger of references

  /** All references held by the tables of `held`. */
  ghost function Total(held: map<Table, multiset<Table>>): multiset<Table>
    decreases |held|
  {
    if held == map[] then multiset{} else held[SomeKey(held)] + Total(held - {SomeKey(held)})
  }

  /** Every live table's count is its owners outside the tables, plus the references live tables hold,
      plus those waiting to be given up; and no reference dangles. */
  ghost predicate Balanced(strong: map<Table, nat>, held: map<Table, multiset<Table>>,
                           outside: map<Table, nat>, queue: multiset<Table>)
  {
    && strong.Keys == held.Keys <= outside.Keys
    && (forall t :: t in strong ==> strong[t] == outside[t] + Total(held)[t] + queue[t])
    && (forall t :: t in queue ==> t in strong)
    && (forall t :: t in Total(held) ==> t in strong)
  }

  /** `c` takes in every table nobody outside owns and only members of `c` hold. */
  ghost predicate Closed(held: map<Table, multiset<Table>>, outside: map<Table, nat>, c: set<Table>)
    requires held.Keys <= outside.Keys
  {
    forall t :: t in held && outside[t] == 0 && (forall p :: p in held && p !in c ==> t !in held[p]) ==> t in c
  }

  /** `c` is the least such set. */
  ghost predicate Orphans(held: map<Table, multiset<Table>>, outside: map<Table, nat>, c: set<Table>)
    requires held.Keys <= outside.Keys
  {
    && c <= held.Keys
    && Closed(held, outside, c)
    && (forall d :: d <= held.Keys && Closed(held, outside, d) ==> c <= d)
  }

  lemma {:induction false} TotalPick(held: map<Table, multiset<Table>>, p: Table)
    requires p in held
    ensures Total(held) == held[p] + Total(held - {p})
    decreases |held|
  {
    hide SomeKey;
    var c := SomeKey(held);
    if c != p {
      TotalPick(held - {c}, p);
      TotalPick(held - {p}, c);
      assert held - {c} - {p} == held - {p} - {c};
    }
  }

  lemma {:induction false} TotalHolder(held: map<Table, multiset<Table>>, t: Table)
    ensures t in Total(held) <==> exists p :: p in held && t in held[p]
    decreases |held|
  {
    hide SomeKey;
    if held != map[] {
      var c := SomeKey(held);
      TotalHolder(held - {c}, t);
      assert forall p :: p in held ==> p == c || p in held - {c};
    }
  }

  lemma GiveUp(strong: map<Table, nat>, held: map<Table, multiset<Table>>,
               outside: map<Table, nat>, queue: multiset<Table>, c: Table)
    requires Balanced(strong, held, outside, queue) && c in queue
    ensures strong[c] >= 1
    ensures Balanced(strong[c := strong[c] - 1], held, outside, queue - multiset{c})
  {
  }

  lemma Free(strong: map<Table, nat>, held: map<Table, multiset<Table>>,
             outside: map<Table, nat>, queue: multiset<Table>, c: Table)
    requires Balanced(strong, held, outside, queue)
    requires c in strong && strong[c] == 0
    ensures Balanced(strong - {c}, held - {c}, outside, queue + held[c])
  {
    TotalPick(held, c);
  }

  /** A table whose last reference has gone is in every closed set that has taken in all tables freed
      before it. */
  lemma FreedIsForced(strong: map<Table, nat>, live: map<Table, multiset<Table>>, held: map<Table, multiset<Table>>,
                      outside: map<Table, nat>, queue: multiset<Table>, c: Table, d: set<Table>)
    requires Balanced(strong, live, outside, queue) && c in strong && strong[c] == 0
    requires held.Keys <= outside.Keys && live.Keys <= held.Keys
    requires forall p :: p in live ==> live[p] == held[p]
    requires held.Keys - live.Keys <= d && Closed(held, outside, d)
    ensures c in d
  {
    TotalHolder(live, c);
    forall p | p in held && p !in d
      ensures c !in held[p]
    {
      assert p in live;
    }
  }

  /** With nothing waiting and every survivor still owned, the tables that are gone form a closed set. */
  lemma GoneIsClosed(strong: map<Table, nat>, live: map<Table, multiset<Table>>, held: map<Table, multiset<Table>>,
                     outside: map<Table, nat>)
    requires Balanced(strong, live, outside, multiset{})
    requires forall t :: t in strong ==> strong[t] >= 1
    requires held.Keys <= outside.Keys && live.Keys <= held.Keys
    requires forall p :: p in live ==> live[p] == held[p]
    ensures Closed(held, outside, held.Keys - live.Keys)
  {
    forall t | t in live && outside[t] == 0
      ensures exists p :: p in live && t in live[p]
    {
      TotalHolder(live, t);
    }
  }

  /** Where the teardown stands: `freed` is gone, `queue` is waiting to be given up. */
  ghost predicate Underway(strong: map<Table, nat>, held: map<Table, multiset<Table>>, outside: map<Table, nat>,
                           freed: set<Table>, queue: multiset<Table>)
  {
    && freed <= held.Keys <= outside.Keys
    && Balanced(strong, held - freed, outside, queue)
    && (forall t :: t in strong ==> strong[t] >= 1)
    && (forall d :: d <= held.Keys && Closed(held, outside, d) ==> freed <= d)
  }

  lemma Begin(strong: map<Table, nat>, held: map<Table, multiset<Table>>, outside: map<Table, nat>, root: Table)
    requires Balanced(strong, held, outside, multiset{})
    requires root in strong && forall t :: t in strong ==> (strong[t] == 0 <==> t == root)
    ensures root in held && held.Keys <= outside.Keys
    ensures Underway(strong - {root}, held, outside, {root}, held[root])
  {
    hide Total;
    Free(strong, held, outside, multiset{}, root);
    assert multiset{} + held[root] == held[root];
    forall d | d <= held.Keys && Closed(held, outside, d)
      ensures {root} <= d
    {
      FreedIsForced(strong, held, held, outside, multiset{}, root, d);
    }
  }

  lemma Owned(strong: map<Table, nat>, held: map<Table, multiset<Table>>, outside: map<Table, nat>,
              freed: set<Table>, queue: multiset<Table>, c: Table)
    requires Underway(strong, held, outside, freed, queue) && c in queue
    ensures c in strong && c in held && c !in freed
  {
  }

  lemma KeepOn(strong: map<Table, nat>, held: map<Table, multiset<Table>>, outside: map<Table, nat>,
               freed: set<Table>, queue: multiset<Table>, c: Table)
    requires Underway(strong, held, outside, freed, queue) && c in queue
    requires c in strong && strong[c] != 1
    ensures strong[c] > 1 && Underway(strong[c := strong[c] - 1], held, outside, freed, queue - multiset{c})
  {
    GiveUp(strong, held - freed, outside, queue, c);
    hide Balanced, Closed;
  }

  lemma LetGo(strong: map<Table, nat>, held: map<Table, multiset<Table>>, outside: map<Table, nat>,
              freed: set<Table>, queue: multiset<Table>, c: Table)
    requires Underway(strong, held, outside, freed, queue) && c in queue
    requires c in strong && strong[c] == 1 && c in held
    ensures Underway(strong - {c}, held, outside, freed + {c}, queue - multiset{c} + held[c])
  {
    hide Total, Closed;
    var live := held - freed;
    GiveUp(strong, live, outside, queue, c);
    var counted := strong[c := 0];
    Free(counted, live, outside, queue - multiset{c}, c);
    NextIsForced(counted, held, outside, freed, queue - multiset{c}, c);
    hide Balanced;
    assert strong - {c} == counted - {c};
    assert live - {c} == held - (freed + {c});
  }

  lemma NextIsForced(strong: map<Table, nat>, held: map<Table, multiset<Table>>, outside: map<Table, nat>,
                     freed: set<Table>, queue: multiset<Table>, c: Table)
    requires freed <= held.Keys <= outside.Keys
    requires Balanced(strong, held - freed, outside, queue) && c in strong && strong[c] == 0
    requires forall d :: d <= held.Keys && Closed(held, outside, d) ==> freed <= d
    ensures forall d :: d <= held.Keys && Closed(held, outside, d) ==> freed + {c} <= d
  {
    forall d | d <= held.Keys && Closed(held, outside, d)
      ensures c in d
    {
      FreedIsForced(strong, held - freed, held, outside, queue, c, d);
    }
  }

  lemma Finish(strong: map<Table, nat>, held: map<Table, multiset<Table>>, outside: map<Table, nat>, freed: set<Table>)
    requires Underway(strong, held, outside, freed, multiset{})
    ensures Orphans(held, outside, freed)
    ensures Balanced(strong, held - freed, outside, multiset{})
    ensures forall t :: t in strong ==> strong[t] >= 1
  {
    GoneIsClosed(strong, held - freed, held, outside);
    assert held.Keys - (held - freed).Keys == freed;
  }

  // ------------------------------------------------------------------ the code

  /** The tables in `freed` are empty and every other one is as it was. */
  ghost predicate Standing(was: map<Table, State>, freed: set<Table>)
    reads was.Keys
  {
    forall t :: t in was ==> StateOf(t) == if t in freed then GONE else was[t]
  }

  /** What each table of `was` holds. */
  ghost function Held(was: map<Table, State>): map<Table, multiset<Table>> {
    map t | t in was :: HeldBy(was[t])
  }

  /** The reference counts that stand beside the tables. */
  class Counts {
    var strong: map<Table, nat>

    /** `Drop for Table`, once the last owner of `root` has let go. `was` is every table there is, as
        it stands before, and `outside` counts the owners of each that are not tables. */
    method Drop(root: Table, ghost was: map<Table, State>, ghost outside: map<Table, nat>)
      returns (ghost freed: set<Table>, ghost times: nat)
      requires Standing(was, {})
      requires Balanced(strong, Held(was), outside, multiset{})
      requires root in strong && forall t :: t in strong ==> (strong[t] == 0 <==> t == root)
      modifies this, was.Keys
      ensures was.Keys <= outside.Keys
      ensures Orphans(Held(was), outside, freed) && root in freed
      ensures times == |freed|
      ensures Standing(was, freed)
      ensures Balanced(strong, Held(was) - freed, outside, multiset{})
      ensures forall t :: t in strong ==> strong[t] >= 1
    {
      hide HeldBy, Orphans, Balanced, Underway, Standing, Held;
      ghost var held := Held(was);
      Begin(strong, held, outside, root);
      HeldKeys(was);
      freed, times := {}, 0;
      var waiting := [];
      strong := strong - {root};
      waiting := Unwrap(root, waiting, was, freed);
      NoneBefore(waiting, held[root]);
      freed, times := {root}, 1;
      while waiting != []
        invariant Underway(strong, held, outside, freed, multiset(waiting))
        invariant root in freed && freed <= was.Keys && times == |freed|
        invariant Standing(was, freed)
        decreases strong.Keys, |waiting|
      {
        var child := waiting[|waiting| - 1];
        ghost var queue := multiset(waiting);
        PopLast(waiting);
        waiting := waiting[..|waiting| - 1];
        Owned(strong, held, outside, freed, queue, child);
        if strong[child] != 1 {
          KeepOn(strong, held, outside, freed, queue, child);
          strong := strong[child := strong[child] - 1];
        } else {
          LetGo(strong, held, outside, freed, queue, child);
          strong := strong - {child};
          waiting := Unwrap(child, waiting, was, freed);
          freed, times := freed + {child}, times + 1;
        }
      }
      assert multiset(waiting) == multiset{};
      Finish(strong, held, outside, freed);
    }
  }

  /** The last owner of `child` takes it apart. */
  method Unwrap(child: Table, waiting: seq<Table>, ghost was: map<Table, State>, ghost freed: set<Table>)
    returns (out: seq<Table>)
    requires Standing(was, freed) && child in was && child !in freed
    modifies child
    ensures multiset(out) == multiset(waiting) + Held(was)[child]
    ensures Standing(was, freed + {child})
  {
    hide HeldBy, StateOf;
    out := TakeTables(child, waiting);
  }

  lemma HeldKeys(was: map<Table, State>)
    ensures Held(was).Keys == was.Keys
  {
  }

  lemma NoneBefore(waiting: seq<Table>, taken: multiset<Table>)
    requires multiset(waiting) == multiset([]) + taken
    ensures multiset(waiting) == taken
  {
  }

  lemma PopLast(waiting: seq<Table>)
    requires waiting != []
    ensures var child, rest := waiting[|waiting| - 1], waiting[..|waiting| - 1];
            child in multiset(waiting) && multiset(rest) == multiset(waiting) - multiset{child}
  {
    var child, rest := waiting[|waiting| - 1], waiting[..|waiting| - 1];
    assert waiting == rest + [child];
  }

  // ------------------------------------------------------------------ what that settles

  /** There is only one such set, so the order in which the queue is emptied cannot matter. */
  lemma OrphansUnique(held: map<Table, multiset<Table>>, outside: map<Table, nat>, a: set<Table>, b: set<Table>)
    requires held.Keys <= outside.Keys
    requires Orphans(held, outside, a) && Orphans(held, outside, b)
    ensures a == b
  {
    hide Closed;
  }

  /** Tables that keep each other alive, a table that holds itself among them, are never freed unless
      the root is one of them. */
  lemma CyclesSurvive(held: map<Table, multiset<Table>>, outside: map<Table, nat>, freed: set<Table>, cycle: set<Table>)
    requires held.Keys <= outside.Keys && Orphans(held, outside, freed)
    requires cycle <= held.Keys && forall t :: t in cycle ==> exists p :: p in cycle && t in held[p]
    ensures freed !! cycle
  {
    var rest := held.Keys - cycle;
    assert Closed(held, outside, rest) by {
      forall t | t in cycle
        ensures exists p :: p in held && p !in rest && t in held[p]
      {
        var p :| p in cycle && t in held[p];
        assert p in held && p !in rest;
      }
    }
  }

  /** So is a table somebody outside still owns. */
  lemma OwnedSurvive(held: map<Table, multiset<Table>>, outside: map<Table, nat>, freed: set<Table>, t: Table)
    requires held.Keys <= outside.Keys && Orphans(held, outside, freed)
    requires t in held && outside[t] > 0
    ensures t !in freed
  {
    var rest := held.Keys - {t};
    assert Closed(held, outside, rest) by {
      hide Orphans;
    }
  }

  // ------------------------------------------------------------------ the teardown it replaced

  /** The derived teardown: giving up the references in `list` one after another, each table freed by
      its last owner giving up its own, in the order `order` lists them, from inside. The result is
      what is left of the counts. */
  ghost function Recursive(strong: map<Table, nat>, order: map<Table, seq<Table>>, list: seq<Table>): map<Table, nat>
    ensures Recursive(strong, order, list).Keys <= strong.Keys
    decreases strong.Keys, |list|
  {
    if list == [] then strong
    else
      var c, later := list[0], list[1..];
      if c in strong && c in order && strong[c] == 1 then
        Recursive(Recursive(strong - {c}, order, order[c]), order, later)
      else if c in strong && strong[c] > 1 then
        Recursive(strong[c := strong[c] - 1], order, later)
      else
        Recursive(strong, order, later)
  }

  ghost function Unordered(order: map<Table, seq<Table>>): map<Table, multiset<Table>> {
    map t | t in order :: multiset(order[t])
  }

  lemma {:induction false} RecursiveUnderway(strong: map<Table, nat>, order: map<Table, seq<Table>>,
                                             outside: map<Table, nat>, list: seq<Table>, rest: multiset<Table>)
    requires Underway(strong, Unordered(order), outside, order.Keys - strong.Keys, multiset(list) + rest)
    ensures var left := Recursive(strong, order, list);
            Underway(left, Unordered(order), outside, order.Keys - left.Keys, rest)
    decreases strong.Keys, |list|
  {
    hide Underway;
    if list == [] {
      assert multiset(list) + rest == rest;
      return;
    }
    var held, c, later := Unordered(order), list[0], list[1..];
    var freed, queue := order.Keys - strong.Keys, multiset(list) + rest;
    assert list == [c] + later;
    assert queue - multiset{c} == multiset(later) + rest;
    Owned(strong, held, outside, freed, queue, c);
    if strong[c] == 1 {
      LetGo(strong, held, outside, freed, queue, c);
      var inner := strong - {c};
      assert order.Keys - inner.Keys == freed + {c} by {
        assert c in order;
      }
      assert queue - multiset{c} + held[c] == multiset(order[c]) + (multiset(later) + rest);
      RecursiveUnderway(inner, order, outside, order[c], multiset(later) + rest);
      RecursiveUnderway(Recursive(inner, order, order[c]), order, outside, later, rest);
    } else {
      KeepOn(strong, held, outside, freed, queue, c);
      var fewer := strong[c := strong[c] - 1];
      assert fewer.Keys == strong.Keys;
      RecursiveUnderway(fewer, order, outside, later, rest);
    }
  }

  /** The queue frees what the recursion freed and leaves every count as the recursion left it. */
  lemma QueueAgreesWithRecursion(strong: map<Table, nat>, order: map<Table, seq<Table>>, outside: map<Table, nat>,
                                 root: Table, freed: set<Table>, after: map<Table, nat>)
    requires Balanced(strong, Unordered(order), outside, multiset{})
    requires root in strong && forall t :: t in strong ==> (strong[t] == 0 <==> t == root)
    requires Unordered(order).Keys <= outside.Keys
    requires Orphans(Unordered(order), outside, freed)
    requires Balanced(after, Unordered(order) - freed, outside, multiset{})
    ensures root in order && after == Recursive(strong - {root}, order, order[root])
  {
    hide *;
    var held := Unordered(order);
    var begun := strong - {root};
    OnlyRootGone(strong, order, outside, root);
    Begin(strong, held, outside, root);
    assert held[root] == multiset(order[root]) by {
      UnorderedAt(order, root);
    }
    assert multiset(order[root]) + multiset{} == held[root];
    RecursiveUnderway(begun, order, outside, order[root], multiset{});
    var left := Recursive(begun, order, order[root]);
    Finish(left, held, outside, order.Keys - left.Keys);
    OrphansUnique(held, outside, freed, order.Keys - left.Keys);
    CountsDetermined(after, left, held - freed, outside);
  }

  lemma OnlyRootGone(strong: map<Table, nat>, order: map<Table, seq<Table>>, outside: map<Table, nat>, root: Table)
    requires Balanced(strong, Unordered(order), outside, multiset{}) && root in strong
    ensures order.Keys - (strong - {root}).Keys == {root}
  {
    assert Unordered(order).Keys == order.Keys;
  }

  lemma UnorderedAt(order: map<Table, seq<Table>>, t: Table)
    requires t in Unordered(order)
    ensures t in order && Unordered(order)[t] == multiset(order[t])
  {
  }

  /** Who owns what settles every count. */
  lemma CountsDetermined(a: map<Table, nat>, b: map<Table, nat>, held: map<Table, multiset<Table>>, outside: map<Table, nat>)
    requires Balanced(a, held, outside, multiset{}) && Balanced(b, held, outside, multiset{})
    ensures a == b
  {
    hide Total;
  }
}
