/** A value comes back from the VM as the same graph only if everything in it can cross: whatever cannot leaves
    a table with fewer entries than it had. */
module BothWays {
  import opened Wrappers
  import opened Values
  import opened TableProofs
  import opened Luna
  import opened IntoLua
  import opened Faithful
  import opened FromLua
  import opened RoundTrip

  // ------------------------------------------------------------------ counting

  lemma {:induction false} DistinctCount<T>(keys: seq<T>)
    requires Distinct(keys)
    ensures |set k | k in keys| == |keys|
  {
    var all := set k | k in keys;
    if keys == [] {
      assert all == {};
    } else {
      var n := |keys| - 1;
      var most := keys[..n];
      assert forall i, j :: 0 <= i < j < n ==> most[i] == keys[i] && most[j] == keys[j];
      DistinctCount(most);
      assert keys == most + [keys[n]];
      assert keys[n] !in most;
      assert all == (set k | k in most) + {keys[n]};
    }
  }

  /** The keys that were written under. */
  function WrittenKeys(writes: seq<Write>): set<Key> {
    if writes == [] then {}
    else
      var last := KeyOf(writes[|writes| - 1].key);
      WrittenKeys(writes[..|writes| - 1]) + if last.Some? then {last.value} else {}
  }

  lemma {:induction false} WrittenFew(writes: seq<Write>)
    ensures |WrittenKeys(writes)| <= |writes|
  {
    hide KeyOf;
    if writes != [] {
      WrittenFew(writes[..|writes| - 1]);
    }
  }

  lemma {:induction false} WrittenUnder(writes: seq<Write>, k: Key)
    requires LastWritten(writes, Some(k)) != Nil
    ensures k in WrittenKeys(writes)
  {
    hide KeyOf;
    if KeyOf(writes[|writes| - 1].key) != Some(k) {
      WrittenUnder(writes[..|writes| - 1], k);
    }
  }

  /** A table lists no more pairs than were written to it. */
  lemma ListedFew(writes: seq<Write>)
    ensures Valid(Run(writes)) && |Listed(Run(writes))| <= |writes|
  {
    hide KeyOf, Contents, Listed, ListedOrder, Valid, LastWritten, WrittenKeys, Run;
    RunContents(writes, None);
    var s := Run(writes);
    ListedKeys(s);
    NoNilValue(s);
    var keys := ListedOrder(s);
    forall k | k in keys
      ensures k in WrittenKeys(writes)
    {
      RunContents(writes, Some(k));
      WrittenUnder(writes, k);
    }
    DistinctCount(keys);
    Subset((set k | k in keys), WrittenKeys(writes));
    WrittenFew(writes);
  }

  /** Each entry of a VM table is written back once. */
  lemma LoggedCount(link: Seen, entries: map<VmValue, VmValue>, log: Log)
    requires Logged(link, entries, log)
    ensures |log.writes| == |entries|
  {
    hide Back;
    DistinctCount(log.keys);
    assert (set k | k in log.keys) == entries.Keys;
  }

  /** What writes an entry of its own. */
  predicate Written(seen: Seen, pair: Pair) {
    Cross(seen, pair.1) != VmNil && Indexes(Cross(seen, pair.0))
  }

  lemma PutCount(entries: map<VmValue, VmValue>, k: VmValue, v: VmValue)
    ensures |Put(entries, k, v)| <= |entries| + 1
    ensures |Put(entries, k, v)| == |entries| + 1 ==> Indexes(k) && v != VmNil && Normal(k) !in entries
  {
    if Indexes(k) {
      if v == VmNil {
        assert (entries - {Normal(k)}).Keys == entries.Keys - {Normal(k)};
        Subset(entries.Keys - {Normal(k)}, entries.Keys);
      } else {
        assert entries[Normal(k) := v].Keys == entries.Keys + {Normal(k)};
        if Normal(k) in entries {
          assert entries.Keys + {Normal(k)} == entries.Keys;
        }
      }
    }
  }

  /** As many entries as pairs means one for each: all of them written, and under keys of their own. */
  lemma {:induction false} FilledCount(seen: Seen, pairs: seq<Pair>)
    ensures |Filled(seen, pairs)| <= |pairs|
    ensures |Filled(seen, pairs)| == |pairs| ==>
              && (forall i :: 0 <= i < |pairs| ==> Written(seen, pairs[i]))
              && (forall i :: 0 <= i < |pairs| ==> Normal(Cross(seen, pairs[i].0)) in Filled(seen, pairs))
              && (forall i, j :: 0 <= i < j < |pairs| ==> Normal(Cross(seen, pairs[i].0)) != Normal(Cross(seen, pairs[j].0)))
  {
    hide Cross, Normal, Indexes;
    if pairs != [] {
      var n := |pairs| - 1;
      var init := pairs[..n];
      FilledCount(seen, init);
      assert forall i :: 0 <= i < n ==> init[i] == pairs[i];
      PutCount(Filled(seen, init), Cross(seen, pairs[n].0), Cross(seen, pairs[n].1));
      if |Filled(seen, pairs)| == |pairs| {
        FilledLast(seen, init, pairs[n]);
      }
    }
  }

  lemma FilledLast(seen: Seen, init: seq<Pair>, last: Pair)
    requires Written(seen, last)
    ensures var entries := Filled(seen, init);
            Put(entries, Cross(seen, last.0), Cross(seen, last.1)).Keys == entries.Keys + {Normal(Cross(seen, last.0))}
  {
    hide Cross, Normal;
  }

  // ------------------------------------------------------------------ only what crosses

  /** A copy with as many entries as the table has pairs was made of a table that can cross. */
  lemma FullCopyCrosses(src: ShellHeap, seen: Seen, vm: map<VmTable, VmState>, pairs: seq<Pair>)
    requires Linked(src, seen, vm) && PairsInside(src, pairs) && KnowsAll(seen, pairs) && Keyed(pairs)
    requires |Filled(seen, pairs)| >= |pairs|
    ensures Crossable(pairs)
  {
    hide Linked, Inside, Knows, Cross, Stands, Callables, Plain, SameLua, Filled, KeyOf, Normal;
    FilledCount(seen, pairs);
    forall i | 0 <= i < |pairs|
      ensures Callables(pairs[i].0) && Callables(pairs[i].1)
    {
      assert Written(seen, pairs[i]);
      WrittenStands(src, seen, vm, pairs[i].0);
      WrittenStands(src, seen, vm, pairs[i].1);
    }
    forall i, j | 0 <= i < j < |pairs|
      ensures !SameLua(pairs[i].0, pairs[j].0)
    {
      if SameLua(pairs[i].0, pairs[j].0) {
        SameLuaMeets(src, seen, vm, pairs[i].0, pairs[j].0);
      }
    }
  }

  lemma WrittenStands(src: ShellHeap, seen: Seen, vm: map<VmTable, VmState>, v: Value)
    requires Linked(src, seen, vm) && Knows(seen, v) && Cross(seen, v) != VmNil
    ensures Callables(v)
  {
    if v.FunctionRef? {
      assert Answers(src.handles, v.f, seen[v]);
    }
  }

  lemma SameLuaMeets(src: ShellHeap, seen: Seen, vm: map<VmTable, VmState>, a: Value, b: Value)
    requires Linked(src, seen, vm) && Knows(seen, a) && Knows(seen, b) && SameLua(a, b)
    ensures Cross(seen, a) == Cross(seen, b)
  {
    assert Answers(src.handles, a.f, seen[a]) && Answers(src.handles, b.f, seen[b]);
  }

  /** A table that comes back whole can cross. */
  lemma TwinCrosses(src: ShellHeap, seen: Seen, vm: map<VmTable, VmState>, brought: Brought, link: Seen,
                    shell: map<Table, State>, logs: map<VmTable, Log>, t: Table)
    requires Heap(src) && Linked(src, seen, vm) && Settled(src, seen, vm, {})
    requires SettledBack(vm, brought, link, shell, logs, {})
    requires t in Renaming(seen, brought) && Renaming(seen, brought)[t] in shell && t in src.tables
    requires TableTwin(Renaming(seen, brought), src.tables[t], shell[Renaming(seen, brought)[t]])
    ensures Crossable(Listed(src.tables[t].stores))
  {
    hide Heap, Linked, Settled, Listed, Valid, MetaOf, Crossable, SettledBack, Restored, Logged, Run, Twins, VmValid,
         PairsInside, Twin, Filled;
    InRenaming(seen, brought, t);
    SettledAt(src, seen, vm, t);
    var u := seen[TableRef(t)].t;
    RestoredAt(vm, brought, link, shell, logs, u);
    var s, s' := src.tables[t], shell[brought[u]];
    var pairs := Listed(s.stores);
    ListedKeyed(s.stores);
    RestoredMeans(link, vm[u], logs[u], s');
    LoggedCount(link, vm[u].entries, logs[u]);
    ListedFew(logs[u].writes);
    TwinsCount(Renaming(seen, brought), pairs, Listed(s'.stores));
    KnowsPairs(seen, s);
    FullCopyCrosses(src, seen, vm, pairs);
  }

  lemma KnowsPairs(seen: Seen, s: State)
    requires Valid(s.stores) && KnowsState(seen, s)
    ensures KnowsAll(seen, Listed(s.stores))
  {
    hide Listed, Valid;
  }

  lemma InRenaming(seen: Seen, brought: Brought, t: Table)
    requires t in Renaming(seen, brought)
    ensures TableRef(t) in seen && seen[TableRef(t)].VmTableRef? && seen[TableRef(t)].t in brought
    ensures Renaming(seen, brought)[t] == brought[seen[TableRef(t)].t]
  {
    InTables(seen, t);
  }

  lemma TwinsCount(sigma: map<Table, Table>, pairs: seq<Pair>, pairs': seq<Pair>)
    requires Twins(sigma, pairs, pairs')
    ensures |pairs| == |pairs'|
  {
    hide HasTwin, IsTwin;
  }

  lemma RootCrosses(src: ShellHeap, seen: Seen, vm: map<VmTable, VmState>, link: Seen, sigma: map<Table, Table>,
                    value: Value, back: Value)
    requires Linked(src, seen, vm) && Knows(seen, value) && Back(link, Cross(seen, value), back) && Twin(sigma, value, back)
    ensures Callables(value)
  {
    if value.FunctionRef? {
      assert Answers(src.handles, value.f, seen[value]);
    }
  }

  lemma HeapValid(src: ShellHeap)
    requires Heap(src)
    ensures forall t :: t in src.tables ==> Valid(src.tables[t].stores)
  {
  }

  /** What comes back as the same graph was made of nothing that cannot cross. */
  lemma OnlyWhatCrosses(src: ShellHeap, value: Value, seen: Seen, vm: map<VmTable, VmState>,
                        brought: Brought, link: Seen, shell: map<Table, State>, logs: map<VmTable, Log>, back: Value)
    requires Heap(src) && Linked(src, seen, vm) && Settled(src, seen, vm, {}) && Knows(seen, value)
    requires SettledBack(vm, brought, link, shell, logs, {}) && Back(link, Cross(seen, value), back)
    requires SameGraph(src, value, Renaming(seen, brought), shell, back)
    ensures Callables(value)
    ensures forall t :: t in src.tables && Forced(src, value, TableRef(t)) ==> Crossable(Listed(src.tables[t].stores))
  {
    hide Heap, Linked, Settled, SettledBack, Renaming, TableTwin, Cross, Back, Twin, Crossable, Listed, Valid, Knows,
         Callables, Hereditary, Forced;
    var sigma := Renaming(seen, brought);
    HeapValid(src);
    RootCrosses(src, seen, vm, link, sigma, value, back);
    forall t | t in src.tables && Forced(src, value, TableRef(t))
      ensures Crossable(Listed(src.tables[t].stores))
    {
      ForcedIn(src, value, t, sigma.Keys);
      TwinCrosses(src, seen, vm, brought, link, shell, logs, t);
    }
  }

  /** A value through the boundary and back, as a builtin that answers with what it was given sends it. */
  method ThereAndBack(value: Value, ghost src: ShellHeap)
    returns (back: Value, ghost sigma: map<Table, Table>, ghost shell: map<Table, State>)
    requires Snapshot(src) && Heap(src) && Inside(src, value)
    ensures ShellSnapshot(shell) && forall t :: t in shell ==> fresh(t)
    ensures SameGraph(src, value, sigma, shell, back)
            <==> Callables(value)
                 && forall t :: t in src.tables && Forced(src, value, TableRef(t)) ==> Crossable(Listed(src.tables[t].stores))
  {
    hide Snapshot, Heap, Linked, Settled, Tied, SettledBack, ReachableVm, WholeHeap, Renaming, SameGraph, Cross,
         Back, Crossable, Listed, Valid, Inside, Callables, VmSnapshot, ShellSnapshot, Hereditary, Forced;
    var w;
    ghost var seen, vm, fills, brought, link, logs, fills';
    w, seen, vm, fills := IntoLua.Transfer(value, src);
    CopyIsWhole(src, seen, vm);
    CrossInVm(src, seen, vm, value);
    back, brought, link, shell, logs, fills' := FromLua.Transfer(w, vm);
    sigma := Renaming(seen, brought);
    if Callables(value) && AllCross(src, Tables(seen)) {
      ThereAndBackAgain(src, value, seen, vm, brought, link, shell, logs, back);
    }
    if SameGraph(src, value, sigma, shell, back) {
      OnlyWhatCrosses(src, value, seen, vm, brought, link, shell, logs, back);
    }
  }
}
