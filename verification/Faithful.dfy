/** When a VM table is a faithful picture of a shell table: one entry for each pair, under the key and
    with the value that stand for the pair's. */
module Faithful {
  import opened Wrappers
  import opened Values
  import opened TableProofs
  import opened Luna
  import opened IntoLua
  import Utf8

  /** `v` has something to stand for it. */
  predicate Stands(link: Seen, v: Value) {
    IsRef(v) ==> v in link && link[v] != VmNil
  }

  /** Each pair has its entry, and each entry its pair. */
  ghost predicate Shows(link: Seen, pairs: seq<Pair>, entries: map<VmValue, VmValue>) {
    && (forall i :: 0 <= i < |pairs| ==>
          Cross(link, pairs[i].0) in entries && entries[Cross(link, pairs[i].0)] == Cross(link, pairs[i].1))
    && (forall w :: w in entries ==> exists i :: 0 <= i < |pairs| && Cross(link, pairs[i].0) == w)
  }

  /** `entries` is `pairs` with each key and value replaced by what stands for it: nothing is lost, nothing
      merged and nothing added. */
  ghost predicate Pictures(link: Seen, pairs: seq<Pair>, entries: map<VmValue, VmValue>) {
    && (forall i :: 0 <= i < |pairs| ==> Stands(link, pairs[i].0) && Stands(link, pairs[i].1))
    && (forall i, j :: 0 <= i < j < |pairs| ==> Cross(link, pairs[i].0) != Cross(link, pairs[j].0))
    && Shows(link, pairs, entries)
  }

  predicate Callables(v: Value) {
    v.FunctionRef? ==> v.f.callable.Native? || v.f.callable.Stashed?
  }

  /** Both are handles to one Lua function. */
  predicate SameLua(a: Value, b: Value) {
    a.FunctionRef? && b.FunctionRef? && a.f.callable.Stashed? && a.f.callable == b.f.callable
  }

  /** What a table may hold for nothing of it to be lost on the way in: every function is one the VM can
      be given, and no two keys are the same Lua function. */
  ghost predicate Crossable(pairs: seq<Pair>) {
    && (forall i :: 0 <= i < |pairs| ==> Callables(pairs[i].0) && Callables(pairs[i].1))
    && (forall i, j :: 0 <= i < j < |pairs| ==> !SameLua(pairs[i].0, pairs[j].0))
  }

  // ------------------------------------------------------------------ keys as they are listed

  /** A key in the form `pairs` gives it. */
  predicate Plain(v: Value) {
    match v
    case Nil => false
    case Num(Float(f)) => f.Other?
    case _ => true
  }

  lemma PlainKeys(a: Value, b: Value)
    requires Plain(a) && Plain(b) && KeyOf(a) == KeyOf(b)
    ensures a == b
  {
  }

  lemma {:induction false} ItemsPlain(items: seq<Value>, n: nat)
    requires n <= |items| && n <= MAX_INT64
    ensures forall i :: 0 <= i < |ItemPairs(items, n)| ==> Plain(ItemPairs(items, n)[i].0)
  {
    if n > 0 {
      ItemsPlain(items, n - 1);
    }
  }

  lemma HashKeyPlain(s: Store, k: Key)
    requires ObjectsPart(s.objects, s.hash.Keys) && k in s.hash && InRange(k)
    ensures Plain(ValueOf(k, s.objects))
  {
    if k.RefKey? {
      assert KeyOf(s.objects[k.o]) == Some(RefKey(k.o));
    }
  }

  lemma {:induction false} HashPlain(s: Store, n: nat)
    requires n <= |s.order| && ObjectsPart(s.objects, s.hash.Keys)
    requires forall k :: k in s.order ==> k in s.hash && InRange(k)
    ensures forall i :: 0 <= i < |HashPairs(s, n)| ==> Plain(HashPairs(s, n)[i].0)
  {
    hide ObjectsPart, Plain, ValueOf;
    if n > 0 {
      HashPlain(s, n - 1);
      assert s.order[n - 1] in s.order;
      HashKeyPlain(s, s.order[n - 1]);
    }
  }

  /** Listed keys are plain, and no two are the same key. */
  ghost predicate Keyed(pairs: seq<Pair>) {
    && (forall i :: 0 <= i < |pairs| ==> Plain(pairs[i].0) && KeyOf(pairs[i].0).Some?)
    && (forall i, j :: 0 <= i < j < |pairs| ==> KeyOf(pairs[i].0) != KeyOf(pairs[j].0))
    && (forall i :: 0 <= i < |pairs| ==> pairs[i].1 != Nil)
  }

  lemma ListedKeyed(s: Store)
    requires Valid(s)
    ensures Keyed(Listed(s))
  {
    Listable(s);
    ItemsPlain(s.items, |s.items|);
    HashPlain(s, |s.order|);
    ListedKeys(s);
    NoNilValue(s);
    ListedIsKeyed(s);
  }

  lemma ListedIsKeyed(s: Store)
    requires Valid(s) && |s.items| <= MAX_INT64
    requires forall k :: k in s.order ==> k in s.hash && InRange(k)
    requires Lists(Listed(s), ListedOrder(s), Contents(s))
    requires forall k :: k in Contents(s) ==> Contents(s)[k] != Nil
    requires forall i :: 0 <= i < |ItemPairs(s.items, |s.items|)| ==> Plain(ItemPairs(s.items, |s.items|)[i].0)
    requires forall i :: 0 <= i < |HashPairs(s, |s.order|)| ==> Plain(HashPairs(s, |s.order|)[i].0)
    ensures Keyed(Listed(s))
  {
    hide Plain, Contents, ListedOrder, Valid, ItemPairs, HashPairs, KeyOf;
    var pairs, keys := Listed(s), ListedOrder(s);
    forall i | 0 <= i < |pairs|
      ensures Plain(pairs[i].0) && KeyOf(pairs[i].0) == Some(keys[i]) && pairs[i].1 != Nil
    {
      assert keys[i] in keys;
    }
  }

  // ------------------------------------------------------------------ on the way in

  ghost predicate Writable(link: Seen, pairs: seq<Pair>) {
    && (forall i :: 0 <= i < |pairs| ==>
          && Indexes(Cross(link, pairs[i].0))
          && Normal(Cross(link, pairs[i].0)) == Cross(link, pairs[i].0)
          && Cross(link, pairs[i].1) != VmNil)
    && (forall i, j :: 0 <= i < j < |pairs| ==> Cross(link, pairs[i].0) != Cross(link, pairs[j].0))
  }

  lemma ShowsOneMore(link: Seen, pairs: seq<Pair>, last: Pair, entries: map<VmValue, VmValue>)
    requires Shows(link, pairs, entries)
    requires forall i :: 0 <= i < |pairs| ==> Cross(link, pairs[i].0) != Cross(link, last.0)
    ensures Shows(link, pairs + [last], entries[Cross(link, last.0) := Cross(link, last.1)])
  {
    hide Cross;
    var all, k := pairs + [last], Cross(link, last.0);
    var more := entries[k := Cross(link, last.1)];
    assert all[|pairs|] == last;
    forall w | w in more
      ensures exists i :: 0 <= i < |all| && Cross(link, all[i].0) == w
    {
      if w != k {
        var i :| 0 <= i < |pairs| && Cross(link, pairs[i].0) == w;
        assert all[i] == pairs[i];
      }
    }
  }

  /** Keys that stay apart are written one beside the other. */
  lemma {:induction false} FilledExact(link: Seen, pairs: seq<Pair>)
    requires Writable(link, pairs)
    ensures Shows(link, pairs, Filled(link, pairs))
  {
    hide Cross, Indexes, Normal, Shows;
    if pairs == [] {
      NothingShown(link);
    } else {
      var n := |pairs| - 1;
      var init := pairs[..n];
      assert forall i :: 0 <= i < n ==> init[i] == pairs[i];
      FilledExact(link, init);
      ShowsOneMore(link, init, pairs[n], Filled(link, init));
      assert pairs == init + [pairs[n]];
    }
  }

  lemma NothingShown(link: Seen)
    ensures Shows(link, [], map[])
  {
  }

  lemma CrossStands(src: ShellHeap, seen: Seen, vm: map<VmTable, VmState>, v: Value)
    requires Linked(src, seen, vm) && Knows(seen, v) && v != Nil
    ensures Callables(v) <==> Stands(seen, v)
    ensures Callables(v) ==> Cross(seen, v) != VmNil
    ensures Plain(v) && Callables(v) ==> Indexes(Cross(seen, v)) && Normal(Cross(seen, v)) == Cross(seen, v)
  {
    if v.FunctionRef? {
      assert Answers(src.handles, v.f, seen[v]);
    } else if v.TableRef? {
      assert seen[v].VmTableRef?;
    }
  }

  lemma CrossApart(src: ShellHeap, seen: Seen, vm: map<VmTable, VmState>, a: Value, b: Value)
    requires Linked(src, seen, vm) && Inside(src, a) && Inside(src, b) && Knows(seen, a) && Knows(seen, b)
    requires Plain(a) && Plain(b) && Callables(a) && Callables(b) && a != b
    ensures Cross(seen, a) == Cross(seen, b) <==> SameLua(a, b)
  {
    hide Utf8.Valid;
    if a.FunctionRef? {
      assert Answers(src.handles, a.f, seen[a]);
    }
    if b.FunctionRef? {
      assert Answers(src.handles, b.f, seen[b]);
    }
  }

  /** The copy of a table pictures it exactly when everything in the table can cross: `into_lua` loses an
      entry only to a function the VM cannot be given, and merges two only when their keys are handles
      to one Lua function. */
  lemma CopiedPictures(src: ShellHeap, seen: Seen, vm: map<VmTable, VmState>, t: Table)
    requires Heap(src) && Linked(src, seen, vm) && t in src.tables && KnowsState(seen, src.tables[t])
    ensures var pairs := Listed(src.tables[t].stores);
            Pictures(seen, pairs, Filled(seen, pairs)) <==> Crossable(pairs)
  {
    var s := src.tables[t].stores;
    var pairs := Listed(s);
    assert PairsInside(src, pairs) && KnowsAll(seen, pairs);
    ListedKeyed(s);
    hide Heap, KnowsState, Listed, Valid;
    PicturesIff(src, seen, vm, pairs);
  }

  lemma PicturesIff(src: ShellHeap, seen: Seen, vm: map<VmTable, VmState>, pairs: seq<Pair>)
    requires Linked(src, seen, vm) && PairsInside(src, pairs) && KnowsAll(seen, pairs) && Keyed(pairs)
    ensures Pictures(seen, pairs, Filled(seen, pairs)) <==> Crossable(pairs)
  {
    if Crossable(pairs) {
      CrossableWritable(src, seen, vm, pairs);
      FilledExact(seen, pairs);
    }
    if Pictures(seen, pairs, Filled(seen, pairs)) {
      PicturedCrossable(src, seen, vm, pairs);
    }
  }

  lemma CrossableWritable(src: ShellHeap, seen: Seen, vm: map<VmTable, VmState>, pairs: seq<Pair>)
    requires Linked(src, seen, vm) && PairsInside(src, pairs) && KnowsAll(seen, pairs) && Keyed(pairs)
    requires Crossable(pairs)
    ensures Writable(seen, pairs)
    ensures forall i :: 0 <= i < |pairs| ==> Stands(seen, pairs[i].0) && Stands(seen, pairs[i].1)
  {
    hide Linked, Inside, Knows, Cross, Stands, Callables, Plain, SameLua, Indexes, Normal;
    forall i | 0 <= i < |pairs|
      ensures Indexes(Cross(seen, pairs[i].0)) && Normal(Cross(seen, pairs[i].0)) == Cross(seen, pairs[i].0)
      ensures Cross(seen, pairs[i].1) != VmNil && Stands(seen, pairs[i].0) && Stands(seen, pairs[i].1)
    {
      CrossStands(src, seen, vm, pairs[i].0);
      CrossStands(src, seen, vm, pairs[i].1);
    }
    forall i, j | 0 <= i < j < |pairs|
      ensures Cross(seen, pairs[i].0) != Cross(seen, pairs[j].0)
    {
      CrossApart(src, seen, vm, pairs[i].0, pairs[j].0);
    }
  }

  lemma PicturedCrossable(src: ShellHeap, seen: Seen, vm: map<VmTable, VmState>, pairs: seq<Pair>)
    requires Linked(src, seen, vm) && PairsInside(src, pairs) && KnowsAll(seen, pairs) && Keyed(pairs)
    requires Pictures(seen, pairs, Filled(seen, pairs))
    ensures Crossable(pairs)
  {
    hide Linked, Inside, Knows, Cross, Stands, Callables, Plain, SameLua, Filled;
    forall i | 0 <= i < |pairs|
      ensures Callables(pairs[i].0) && Callables(pairs[i].1)
    {
      assert pairs[i].0 != Nil;
      CrossStands(src, seen, vm, pairs[i].0);
      CrossStands(src, seen, vm, pairs[i].1);
    }
    forall i, j | 0 <= i < j < |pairs|
      ensures !SameLua(pairs[i].0, pairs[j].0)
    {
      assert Cross(seen, pairs[i].0) != Cross(seen, pairs[j].0);
      CrossApart(src, seen, vm, pairs[i].0, pairs[j].0);
    }
  }
}
