/** A value sent into the VM and brought back is the same graph: no table is lost, none merged, cycles
    and metatables included. Only the order of keys and the identity of functions are not kept. */
module RoundTrip {
  import opened Wrappers
  import opened Values
  import opened TableProofs
  import opened Luna
  import opened IntoLua
  import opened Faithful
  import opened FromLua
  import Utf8

  /** What a VM table may hold for all of it to come back: no thread or userdata, and no key that is a
      whole float, which the shell would clamp to its largest or smallest integer. */
  ghost predicate Homed(entries: map<VmValue, VmValue>) {
    forall k :: k in entries ==> !k.VmOther? && !entries[k].VmOther? && !(k.VmNumber? && k.f.Whole?)
  }

  ghost predicate PairsTextual(pairs: seq<Pair>) {
    forall i :: 0 <= i < |pairs| ==> Textual(pairs[i].0) && Textual(pairs[i].1)
  }

  // ------------------------------------------------------------------ on the way back

  lemma BackCross(brought: Brought, link: Seen, shell: map<Table, State>, w: VmValue, v: Value)
    requires Tied(brought, link, shell) && Back(link, w, v)
    ensures !w.VmOther? ==> Cross(link, v) == w && Stands(link, v) && Textual(v) && (w != VmNil ==> v != Nil)
  {
    hide Utf8.Valid;
  }

  lemma BackKey(brought: Brought, link: Seen, shell: map<Table, State>, w: VmValue, v: Value)
    requires Tied(brought, link, shell) && Back(link, w, v)
    requires Indexes(w) && !w.VmOther? && !(w.VmNumber? && w.f.Whole?)
    ensures Plain(v) && KeyOf(v).Some?
  {
    hide Utf8.Valid;
  }

  lemma CrossHome(brought: Brought, link: Seen, shell: map<Table, State>, v: Value)
    requires Tied(brought, link, shell) && Stands(link, v)
    ensures !Cross(link, v).VmOther?
    ensures Plain(v) ==> !(Cross(link, v).VmNumber? && Cross(link, v).f.Whole?)
  {
  }

  /** Writes under distinct keys. */
  ghost predicate Apart(writes: seq<Write>) {
    && (forall i :: 0 <= i < |writes| ==> KeyOf(writes[i].key).Some? && writes[i].value != Nil)
    && (forall i, j :: 0 <= i < j < |writes| ==> KeyOf(writes[i].key) != KeyOf(writes[j].key))
  }

  lemma {:induction false} LastWrittenAt(writes: seq<Write>, i: nat)
    requires Apart(writes) && i < |writes|
    ensures LastWritten(writes, KeyOf(writes[i].key)) == writes[i].value
  {
    hide KeyOf;
    var n := |writes| - 1;
    if i < n {
      LastWrittenAt(writes[..n], i);
    }
  }

  lemma {:induction false} WriterOf(writes: seq<Write>, k: Key) returns (i: nat)
    requires LastWritten(writes, Some(k)) != Nil
    ensures i < |writes| && KeyOf(writes[i].key) == Some(k)
  {
    hide KeyOf;
    var n := |writes| - 1;
    if KeyOf(writes[n].key) == Some(k) {
      i := n;
    } else {
      i := WriterOf(writes[..n], k);
    }
  }

  /** Each write is listed. */
  lemma ListedWrite(writes: seq<Write>, i: nat) returns (j: nat)
    requires Apart(writes) && i < |writes|
    ensures Valid(Run(writes)) && j < |Listed(Run(writes))|
    ensures KeyOf(Listed(Run(writes))[j].0) == KeyOf(writes[i].key)
    ensures Listed(Run(writes))[j].1 == writes[i].value
  {
    hide KeyOf, Contents, Listed, ListedOrder, Valid;
    var s, k := Run(writes), KeyOf(writes[i].key);
    RunContents(writes, k);
    LastWrittenAt(writes, i);
    ListedKeys(s);
    assert k.value in ListedOrder(s);
    j :| 0 <= j < |ListedOrder(s)| && ListedOrder(s)[j] == k.value;
  }

  /** And whatever is listed was written. */
  lemma WrittenListed(writes: seq<Write>, j: nat) returns (i: nat)
    requires Apart(writes) && Valid(Run(writes)) && j < |Listed(Run(writes))|
    ensures i < |writes| && KeyOf(Listed(Run(writes))[j].0) == KeyOf(writes[i].key)
    ensures Listed(Run(writes))[j].1 == writes[i].value
  {
    hide KeyOf, Contents, Listed, ListedOrder, Valid, Distinct;
    var s := Run(writes);
    ListedKeys(s);
    var k := ListedOrder(s)[j];
    assert k in ListedOrder(s);
    RunContents(writes, Some(k));
    NoNilValue(s);
    i := WriterOf(writes, k);
    LastWrittenAt(writes, i);
  }

  lemma LoggedApart(brought: Brought, link: Seen, shell: map<Table, State>, s: VmState, log: Log)
    requires Tied(brought, link, shell) && VmValid(s) && Homed(s.entries) && Logged(link, s.entries, log)
    ensures Apart(log.writes)
    ensures forall i :: 0 <= i < |log.writes| ==> LoggedAt(link, s.entries, log, i)
  {
    hide Tied, Back, KeyOf, Plain, Cross, Textual, Stands, Indexes, Normal;
    forall i | 0 <= i < |log.writes|
      ensures LoggedAt(link, s.entries, log, i) && KeyOf(log.writes[i].key).Some? && log.writes[i].value != Nil
    {
      var k := log.keys[i];
      assert k in log.keys;
      BackCross(brought, link, shell, k, log.writes[i].key);
      BackKey(brought, link, shell, k, log.writes[i].key);
      BackCross(brought, link, shell, s.entries[k], log.writes[i].value);
    }
    forall i, j | 0 <= i < j < |log.writes|
      ensures KeyOf(log.writes[i].key) != KeyOf(log.writes[j].key)
    {
      assert LoggedAt(link, s.entries, log, i) && LoggedAt(link, s.entries, log, j);
      if KeyOf(log.writes[i].key) == KeyOf(log.writes[j].key) {
        PlainKeys(log.writes[i].key, log.writes[j].key);
      }
    }
  }

  /** The `i`th write stands for the entry it came from. */
  predicate LoggedAt(link: Seen, entries: map<VmValue, VmValue>, log: Log, i: nat) {
    && i < |log.keys| == |log.writes| && log.keys[i] in entries
    && Plain(log.writes[i].key)
    && Cross(link, log.writes[i].key) == log.keys[i] && Cross(link, log.writes[i].value) == entries[log.keys[i]]
    && Stands(link, log.writes[i].key) && Stands(link, log.writes[i].value)
    && Textual(log.writes[i].key) && Textual(log.writes[i].value)
  }

  lemma PairOfWrite(link: Seen, entries: map<VmValue, VmValue>, log: Log, j: nat) returns (i: nat)
    requires Apart(log.writes) && Valid(Run(log.writes)) && j < |Listed(Run(log.writes))|
    requires forall i :: 0 <= i < |log.writes| ==> LoggedAt(link, entries, log, i)
    ensures LoggedAt(link, entries, log, i)
    ensures Listed(Run(log.writes))[j] == (log.writes[i].key, log.writes[i].value)
  {
    hide Run, Listed, Valid, KeyOf, Plain, Cross, Stands, Textual;
    i := WrittenListed(log.writes, j);
    ListedKeyed(Run(log.writes));
    var pair := Listed(Run(log.writes))[j];
    assert LoggedAt(link, entries, log, i);
    assert Plain(pair.0);
    PlainKeys(pair.0, log.writes[i].key);
  }

  /** Each listed pair stands for an entry. */
  lemma HomedPair(brought: Brought, link: Seen, shell: map<Table, State>, s: VmState, log: Log, j: nat)
    requires Tied(brought, link, shell) && VmValid(s) && Homed(s.entries) && Logged(link, s.entries, log)
    requires Valid(Run(log.writes)) && j < |Listed(Run(log.writes))|
    ensures var pair := Listed(Run(log.writes))[j];
            && Stands(link, pair.0) && Stands(link, pair.1) && Textual(pair.0) && Textual(pair.1)
            && Cross(link, pair.0) in s.entries && s.entries[Cross(link, pair.0)] == Cross(link, pair.1)
  {
    hide *;
    LoggedApart(brought, link, shell, s, log);
    var i := PairOfWrite(link, s.entries, log, j);
    LoggedAtMeans(link, s.entries, log, i);
  }

  lemma LoggedAtMeans(link: Seen, entries: map<VmValue, VmValue>, log: Log, i: nat)
    requires LoggedAt(link, entries, log, i)
    ensures i < |log.writes| && i < |log.keys| && log.keys[i] in entries
    ensures var w := log.writes[i];
            && Stands(link, w.key) && Stands(link, w.value) && Textual(w.key) && Textual(w.value)
            && Cross(link, w.key) == log.keys[i] && entries[log.keys[i]] == Cross(link, w.value)
  {
  }

  /** And two of them never stand for the same one. */
  lemma HomedDistinct(brought: Brought, link: Seen, shell: map<Table, State>, s: VmState, log: Log, j: nat, j': nat)
    requires Tied(brought, link, shell) && VmValid(s) && Homed(s.entries) && Logged(link, s.entries, log)
    requires Valid(Run(log.writes)) && j < j' < |Listed(Run(log.writes))|
    ensures Cross(link, Listed(Run(log.writes))[j].0) != Cross(link, Listed(Run(log.writes))[j'].0)
  {
    hide *;
    LoggedApart(brought, link, shell, s, log);
    var i := PairOfWrite(link, s.entries, log, j);
    var i' := PairOfWrite(link, s.entries, log, j');
    LoggedAtMeans(link, s.entries, log, i);
    LoggedAtMeans(link, s.entries, log, i');
    ListedKeyed(Run(log.writes));
    KeyedApart(Listed(Run(log.writes)), j, j');
    LoggedDistinct(link, s.entries, log, i, i');
  }

  lemma KeyedApart(pairs: seq<Pair>, j: nat, j': nat)
    requires Keyed(pairs) && j < j' < |pairs|
    ensures pairs[j].0 != pairs[j'].0
  {
    hide KeyOf, Plain;
  }

  lemma LoggedDistinct(link: Seen, entries: map<VmValue, VmValue>, log: Log, i: nat, i': nat)
    requires Logged(link, entries, log) && i < |log.keys| && i' < |log.keys|
    ensures log.keys[i] == log.keys[i'] ==> i == i'
  {
    hide Back;
  }

  /** Every entry is listed. */
  lemma HomedShown(brought: Brought, link: Seen, shell: map<Table, State>, s: VmState, log: Log, w: VmValue) returns (j: nat)
    requires Tied(brought, link, shell) && VmValid(s) && Homed(s.entries) && Logged(link, s.entries, log)
    requires w in s.entries
    ensures Valid(Run(log.writes)) && j < |Listed(Run(log.writes))| && Cross(link, Listed(Run(log.writes))[j].0) == w
  {
    hide *;
    LoggedApart(brought, link, shell, s, log);
    var i := LoggedKey(link, s.entries, log, w);
    j := ListedWrite(log.writes, i);
    var i' := PairOfWrite(link, s.entries, log, j);
    LoggedAtMeans(link, s.entries, log, i');
    SameWrite(log.writes, i, i');
  }

  lemma LoggedKey(link: Seen, entries: map<VmValue, VmValue>, log: Log, w: VmValue) returns (i: nat)
    requires Logged(link, entries, log) && w in entries
    ensures i < |log.keys| == |log.writes| && log.keys[i] == w
  {
    assert w in log.keys;
    i :| 0 <= i < |log.keys| && log.keys[i] == w;
  }

  lemma HomedPictures(brought: Brought, link: Seen, shell: map<Table, State>, s: VmState, log: Log)
    requires Tied(brought, link, shell) && VmValid(s) && Homed(s.entries) && Logged(link, s.entries, log)
    ensures Valid(Run(log.writes))
    ensures Pictures(link, Listed(Run(log.writes)), s.entries)
    ensures PairsTextual(Listed(Run(log.writes)))
  {
    hide Tied, VmValid, Run, Listed, Valid, Homed, Logged, Textual, Stands, Cross;
    RunContents(log.writes, None);
    var pairs := Listed(Run(log.writes));
    forall j | 0 <= j < |pairs|
      ensures Stands(link, pairs[j].0) && Stands(link, pairs[j].1) && Textual(pairs[j].0) && Textual(pairs[j].1)
      ensures Cross(link, pairs[j].0) in s.entries && s.entries[Cross(link, pairs[j].0)] == Cross(link, pairs[j].1)
    {
      HomedPair(brought, link, shell, s, log, j);
    }
    forall j, j' | 0 <= j < j' < |pairs|
      ensures Cross(link, pairs[j].0) != Cross(link, pairs[j'].0)
    {
      HomedDistinct(brought, link, shell, s, log, j, j');
    }
    forall w | w in s.entries
      ensures exists j :: 0 <= j < |pairs| && Cross(link, pairs[j].0) == w
    {
      var j := HomedShown(brought, link, shell, s, log, w);
    }
  }

  lemma SameWrite(writes: seq<Write>, i: nat, j: nat)
    requires Apart(writes) && i < |writes| && j < |writes| && KeyOf(writes[i].key) == KeyOf(writes[j].key)
    ensures i == j
  {
    hide KeyOf;
  }

  lemma PicturedHomed(brought: Brought, link: Seen, shell: map<Table, State>, s: VmState, pairs: seq<Pair>)
    requires Tied(brought, link, shell) && Keyed(pairs) && Pictures(link, pairs, s.entries)
    ensures Homed(s.entries)
  {
    hide Tied, Cross, Stands, Plain, KeyOf;
    forall w | w in s.entries
      ensures !w.VmOther? && !s.entries[w].VmOther? && !(w.VmNumber? && w.f.Whole?)
    {
      var i :| 0 <= i < |pairs| && Cross(link, pairs[i].0) == w;
      CrossHome(brought, link, shell, pairs[i].0);
      CrossHome(brought, link, shell, pairs[i].1);
    }
  }

  /** What `from_lua` makes of a VM table pictures it exactly when everything in the table has a home in
      the shell. */
  lemma RestoredPictures(brought: Brought, link: Seen, shell: map<Table, State>, s: VmState, log: Log, t: State)
    requires Tied(brought, link, shell) && VmValid(s) && Restored(link, s, log, t)
    ensures Valid(t.stores)
    ensures Pictures(link, Listed(t.stores), s.entries) <==> Homed(s.entries)
  {
    hide Tied, Pictures, Homed, Logged, Listed, Valid;
    RunContents(log.writes, None);
    if Homed(s.entries) {
      HomedPictures(brought, link, shell, s, log);
    }
    if Pictures(link, Listed(t.stores), s.entries) {
      ListedKeyed(t.stores);
      PicturedHomed(brought, link, shell, s, Listed(t.stores));
    }
  }

  // ------------------------------------------------------------------ two pictures of one table

  /** `v'` is `v` once tables have been renamed by `sigma`; a function is a handle to the same Lua function,
      or to the callback made for the same closure. */
  predicate Twin(sigma: map<Table, Table>, v: Value, v': Value) {
    match v
    case TableRef(t) => t in sigma && v' == TableRef(sigma[t])
    case FunctionRef(f) =>
      && v'.FunctionRef? && v'.f.callable.Stashed?
      && (f.callable.Stashed? ==> v'.f.callable == f.callable)
      && (f.callable.Native? ==> v'.f.callable.handle.wraps == f)
    case _ => v' == v
  }

  predicate PairTwin(sigma: map<Table, Table>, p: Pair, q: Pair) {
    Twin(sigma, p.0, q.0) && Twin(sigma, p.1, q.1)
  }

  predicate HasTwin(sigma: map<Table, Table>, p: Pair, pairs': seq<Pair>) {
    exists j :: 0 <= j < |pairs'| && PairTwin(sigma, p, pairs'[j])
  }

  predicate IsTwin(sigma: map<Table, Table>, pairs: seq<Pair>, q: Pair) {
    exists i :: 0 <= i < |pairs| && PairTwin(sigma, pairs[i], q)
  }

  /** The same map, its order aside. */
  ghost predicate Twins(sigma: map<Table, Table>, pairs: seq<Pair>, pairs': seq<Pair>) {
    && |pairs| == |pairs'|
    && (forall i :: 0 <= i < |pairs| ==> HasTwin(sigma, pairs[i], pairs'))
    && (forall j :: 0 <= j < |pairs'| ==> IsTwin(sigma, pairs, pairs'[j]))
  }

  /** Where each table ends up. */
  function Renaming(seen: Seen, brought: Brought): map<Table, Table> {
    map t | t in Tables(seen) && seen[TableRef(t)].VmTableRef? && seen[TableRef(t)].t in brought
      :: brought[seen[TableRef(t)].t]
  }

  lemma {:induction false} CrossedKeys(link: Seen, pairs: seq<Pair>, n: nat) returns (keys: set<VmValue>)
    requires n <= |pairs|
    requires forall i, j :: 0 <= i < j < |pairs| ==> Cross(link, pairs[i].0) != Cross(link, pairs[j].0)
    ensures |keys| == n
    ensures forall w :: w in keys ==> exists i :: 0 <= i < n && Cross(link, pairs[i].0) == w
    ensures forall i :: 0 <= i < n ==> Cross(link, pairs[i].0) in keys
  {
    hide Cross;
    if n == 0 {
      keys := {};
    } else {
      keys := CrossedKeys(link, pairs, n - 1);
      assert Cross(link, pairs[n - 1].0) !in keys;
      keys := keys + {Cross(link, pairs[n - 1].0)};
    }
  }

  lemma PicturesSize(link: Seen, pairs: seq<Pair>, entries: map<VmValue, VmValue>)
    requires Pictures(link, pairs, entries)
    ensures |pairs| == |entries|
  {
    hide Cross, Stands;
    var keys := CrossedKeys(link, pairs, |pairs|);
    assert keys == entries.Keys;
  }

  lemma TwinTable(src: ShellHeap, seen: Seen, vm: map<VmTable, VmState>, brought: Brought, link: Seen,
                  shell: map<Table, State>, t: Table, v': Value)
    requires Linked(src, seen, vm) && Tied(brought, link, shell)
    requires TableRef(t) in seen && Stands(link, v') && seen[TableRef(t)] == Cross(link, v')
    ensures Twin(Renaming(seen, brought), TableRef(t), v')
  {
    assert t in Tables(seen);
    assert seen[TableRef(t)].VmTableRef?;
    assert v'.TableRef? && link[v'] == seen[TableRef(t)];
  }

  lemma TwinFunction(src: ShellHeap, seen: Seen, vm: map<VmTable, VmState>, brought: Brought, link: Seen,
                     shell: map<Table, State>, sigma: map<Table, Table>, f: Function, v': Value)
    requires Linked(src, seen, vm) && Tied(brought, link, shell)
    requires FunctionRef(f) in seen && seen[FunctionRef(f)] != VmNil
    requires Stands(link, v') && seen[FunctionRef(f)] == Cross(link, v')
    ensures Twin(sigma, FunctionRef(f), v')
  {
    assert Answers(src.handles, f, seen[FunctionRef(f)]);
  }

  lemma TwinPlain(seen: Seen, brought: Brought, link: Seen, shell: map<Table, State>, sigma: map<Table, Table>,
                  v: Value, v': Value)
    requires Tied(brought, link, shell) && !IsRef(v)
    requires Stands(link, v') && Textual(v) && Textual(v') && Cross(seen, v) == Cross(link, v')
    ensures Twin(sigma, v, v')
  {
    hide Utf8.Valid;
  }

  lemma TwinOf(src: ShellHeap, seen: Seen, vm: map<VmTable, VmState>, brought: Brought, link: Seen,
               shell: map<Table, State>, v: Value, v': Value)
    requires Linked(src, seen, vm) && Tied(brought, link, shell)
    requires Stands(seen, v) && Stands(link, v') && Textual(v) && Textual(v')
    requires Cross(seen, v) == Cross(link, v')
    ensures Twin(Renaming(seen, brought), v, v')
  {
    hide Linked, Tied, Textual, Twin, Renaming;
    if v.TableRef? {
      TwinTable(src, seen, vm, brought, link, shell, v.t, v');
    } else if v.FunctionRef? {
      TwinFunction(src, seen, vm, brought, link, shell, Renaming(seen, brought), v.f, v');
    } else {
      TwinPlain(seen, brought, link, shell, Renaming(seen, brought), v, v');
    }
  }

  lemma ShownAt(link: Seen, pairs: seq<Pair>, entries: map<VmValue, VmValue>, i: nat)
    requires Pictures(link, pairs, entries) && i < |pairs|
    ensures Stands(link, pairs[i].0) && Stands(link, pairs[i].1)
    ensures Cross(link, pairs[i].0) in entries && entries[Cross(link, pairs[i].0)] == Cross(link, pairs[i].1)
  {
    hide Cross, Stands;
  }

  lemma ShownBy(link: Seen, pairs: seq<Pair>, entries: map<VmValue, VmValue>, w: VmValue) returns (i: nat)
    requires Pictures(link, pairs, entries) && w in entries
    ensures i < |pairs| && Cross(link, pairs[i].0) == w
  {
    hide Cross, Stands;
    i :| 0 <= i < |pairs| && Cross(link, pairs[i].0) == w;
  }

  lemma TwinPair(src: ShellHeap, seen: Seen, vm: map<VmTable, VmState>, brought: Brought, link: Seen,
                 shell: map<Table, State>, pairs: seq<Pair>, pairs': seq<Pair>, entries: map<VmValue, VmValue>, i: nat, j: nat)
    requires Linked(src, seen, vm) && Tied(brought, link, shell)
    requires Pictures(seen, pairs, entries) && Pictures(link, pairs', entries)
    requires PairsTextual(pairs) && PairsTextual(pairs') && i < |pairs| && j < |pairs'|
    requires Cross(seen, pairs[i].0) == Cross(link, pairs'[j].0)
    ensures PairTwin(Renaming(seen, brought), pairs[i], pairs'[j])
  {
    hide Linked, Tied, Cross, Stands, Textual, Twin, Renaming, Pictures;
    ShownAt(seen, pairs, entries, i);
    ShownAt(link, pairs', entries, j);
    TwinOf(src, seen, vm, brought, link, shell, pairs[i].0, pairs'[j].0);
    TwinOf(src, seen, vm, brought, link, shell, pairs[i].1, pairs'[j].1);
  }

  /** Two pictures of one table are each other's twins. */
  lemma PicturesTwins(src: ShellHeap, seen: Seen, vm: map<VmTable, VmState>, brought: Brought, link: Seen,
                      shell: map<Table, State>, pairs: seq<Pair>, pairs': seq<Pair>, entries: map<VmValue, VmValue>)
    requires Linked(src, seen, vm) && Tied(brought, link, shell)
    requires Pictures(seen, pairs, entries) && Pictures(link, pairs', entries)
    requires PairsTextual(pairs) && PairsTextual(pairs')
    ensures Twins(Renaming(seen, brought), pairs, pairs')
  {
    hide Linked, Tied, Cross, Stands, PairsTextual, PairTwin, Renaming, Pictures, HasTwin, IsTwin;
    PicturesSize(seen, pairs, entries);
    PicturesSize(link, pairs', entries);
    var sigma := Renaming(seen, brought);
    forall i | 0 <= i < |pairs|
      ensures HasTwin(sigma, pairs[i], pairs')
    {
      ShownAt(seen, pairs, entries, i);
      var j := ShownBy(link, pairs', entries, Cross(seen, pairs[i].0));
      TwinPair(src, seen, vm, brought, link, shell, pairs, pairs', entries, i, j);
      TwinFound(sigma, pairs, pairs', i, j);
    }
    forall j | 0 <= j < |pairs'|
      ensures IsTwin(sigma, pairs, pairs'[j])
    {
      ShownAt(link, pairs', entries, j);
      var i := ShownBy(seen, pairs, entries, Cross(link, pairs'[j].0));
      TwinPair(src, seen, vm, brought, link, shell, pairs, pairs', entries, i, j);
      TwinFound(sigma, pairs, pairs', i, j);
    }
  }

  lemma TwinFound(sigma: map<Table, Table>, pairs: seq<Pair>, pairs': seq<Pair>, i: nat, j: nat)
    requires i < |pairs| && j < |pairs'| && PairTwin(sigma, pairs[i], pairs'[j])
    ensures HasTwin(sigma, pairs[i], pairs') && IsTwin(sigma, pairs, pairs'[j])
  {
    hide PairTwin;
  }

  // ------------------------------------------------------------------ the VM's heap after the way in

  /** What is written to a VM table is something a VM table can hold, and refers to VM tables that were
      made. */
  lemma {:induction false} FilledWhole(src: ShellHeap, seen: Seen, vm: map<VmTable, VmState>, pairs: seq<Pair>)
    requires Linked(src, seen, vm) && KnowsAll(seen, pairs)
    ensures forall k :: k in Filled(seen, pairs) ==>
              && Indexes(k) && Normal(k) == k && Filled(seen, pairs)[k] != VmNil
              && InVm(vm, k) && InVm(vm, Filled(seen, pairs)[k])
  {
    hide Linked, Cross, Knows;
    if pairs != [] {
      var last := pairs[|pairs| - 1];
      assert forall i :: 0 <= i < |pairs| - 1 ==> pairs[..|pairs| - 1][i] == pairs[i];
      FilledWhole(src, seen, vm, pairs[..|pairs| - 1]);
      CrossInVm(src, seen, vm, last.0);
      CrossInVm(src, seen, vm, last.1);
    }
  }

  lemma CrossInVm(src: ShellHeap, seen: Seen, vm: map<VmTable, VmState>, v: Value)
    requires Linked(src, seen, vm) && Knows(seen, v)
    ensures InVm(vm, Cross(seen, v))
  {
    if v.FunctionRef? {
      assert Answers(src.handles, v.f, seen[v]);
    }
  }

  lemma SettledAt(src: ShellHeap, seen: Seen, vm: map<VmTable, VmState>, t: Table)
    requires Heap(src) && Linked(src, seen, vm) && Settled(src, seen, vm, {}) && TableRef(t) in seen
    ensures t in src.tables && Valid(src.tables[t].stores)
    ensures KnowsState(seen, src.tables[t]) && PairsInside(src, Listed(src.tables[t].stores))
    ensures seen[TableRef(t)].VmTableRef? && seen[TableRef(t)].t in vm
    ensures vm[seen[TableRef(t)].t] == Copied(seen, src.tables[t])
  {
    hide Copied, Listed, Valid, PairsInside;
  }

  lemma SourceTable(src: ShellHeap, seen: Seen, vm: map<VmTable, VmState>, u: VmTable) returns (t: Table)
    requires Linked(src, seen, vm) && u in vm
    ensures TableRef(t) in seen && seen[TableRef(t)] == VmTableRef(u)
  {
    var v :| v in seen && v.TableRef? && seen[v] == VmTableRef(u);
    t := v.t;
  }

  lemma CopyIsWhole(src: ShellHeap, seen: Seen, vm: map<VmTable, VmState>)
    requires Heap(src) && Linked(src, seen, vm) && Settled(src, seen, vm, {})
    ensures WholeHeap(vm)
  {
    hide Heap, Linked, Settled, Listed, Valid, Filled, Cross, Indexes, Normal;
    forall u | u in vm
      ensures VmValid(vm[u]) && (vm[u].metatable != null ==> vm[u].metatable in vm)
      ensures forall k :: k in vm[u].entries ==> InVm(vm, k) && InVm(vm, vm[u].entries[k])
    {
      var t := SourceTable(src, seen, vm, u);
      SettledAt(src, seen, vm, t);
      FilledWhole(src, seen, vm, Listed(src.tables[t].stores));
      if src.tables[t].metatable != null {
        CrossInVm(src, seen, vm, TableRef(src.tables[t].metatable));
      }
    }
  }

  // ------------------------------------------------------------------ there and back

  /** Everything in the tables reachable from `value` can cross. */
  ghost predicate AllCross(src: ShellHeap, tables: set<Table>)
    requires Heap(src) && tables <= src.tables.Keys
  {
    forall t :: t in tables ==> Crossable(Listed(src.tables[t].stores))
  }

  lemma PictureIn(src: ShellHeap, seen: Seen, vm: map<VmTable, VmState>, t: Table)
    requires Heap(src) && Linked(src, seen, vm) && Settled(src, seen, vm, {}) && TableRef(t) in seen
    requires t in src.tables ==> Crossable(Listed(src.tables[t].stores))
    ensures t in src.tables && seen[TableRef(t)].VmTableRef? && seen[TableRef(t)].t in vm
    ensures Pictures(seen, Listed(src.tables[t].stores), vm[seen[TableRef(t)].t].entries)
    ensures vm[seen[TableRef(t)].t].metatable == MetaOf(seen, src.tables[t].metatable)
    ensures src.tables[t].metatable != null ==> TableRef(src.tables[t].metatable) in seen
  {
    SettledAt(src, seen, vm, t);
    CopiedPictures(src, seen, vm, t);
    hide Heap, Linked, Settled, Listed, Valid, Pictures, MetaOf, Crossable;
  }

  /** A table the VM's side was reached through is reached on the way back. */
  lemma ChildBack(src: ShellHeap, seen: Seen, vm: map<VmTable, VmState>, back: set<VmTable>, pairs: seq<Pair>,
                  entries: map<VmValue, VmValue>, i: nat)
    requires Linked(src, seen, vm) && Pictures(seen, pairs, entries) && EntriesWithin(back, entries) && i < |pairs|
    ensures pairs[i].0.TableRef? ==> pairs[i].0 in seen && seen[pairs[i].0].VmTableRef? && seen[pairs[i].0].t in back
    ensures pairs[i].1.TableRef? ==> pairs[i].1 in seen && seen[pairs[i].1].VmTableRef? && seen[pairs[i].1].t in back
  {
    ShownAt(seen, pairs, entries, i);
    hide Pictures;
  }

  /** The shell tables whose VM tables are in `back`. */
  ghost predicate IsBack(seen: Seen, back: set<VmTable>, t: Table) {
    TableRef(t) in seen && seen[TableRef(t)].VmTableRef? && seen[TableRef(t)].t in back
  }

  ghost function BackTables(seen: Seen, back: set<VmTable>): set<Table> {
    set t | t in Tables(seen) && IsBack(seen, back, t)
  }

  lemma ChildrenBack(src: ShellHeap, seen: Seen, vm: map<VmTable, VmState>, back: set<VmTable>, pairs: seq<Pair>,
                     entries: map<VmValue, VmValue>)
    requires Linked(src, seen, vm) && Pictures(seen, pairs, entries) && EntriesWithin(back, entries)
    ensures PairsWithin(BackTables(seen, back), pairs)
  {
    hide Linked, Pictures, EntriesWithin;
    var d := BackTables(seen, back);
    forall i | 0 <= i < |pairs|
      ensures (pairs[i].0.TableRef? ==> pairs[i].0.t in d) && (pairs[i].1.TableRef? ==> pairs[i].1.t in d)
    {
      ChildBack(src, seen, vm, back, pairs, entries, i);
      assert pairs[i].0.TableRef? ==> IsBack(seen, back, pairs[i].0.t);
      assert pairs[i].1.TableRef? ==> IsBack(seen, back, pairs[i].1.t);
    }
  }

  lemma MetaBack(src: ShellHeap, seen: Seen, vm: map<VmTable, VmState>, back: set<VmTable>, meta: Table)
    requires Linked(src, seen, vm) && TableRef(meta) in seen
    requires MetaOf(seen, meta) != null ==> MetaOf(seen, meta) in back
    ensures meta in BackTables(seen, back)
  {
    assert seen[TableRef(meta)].VmTableRef?;
  }

  lemma BackHereditary(src: ShellHeap, seen: Seen, vm: map<VmTable, VmState>, back: set<VmTable>)
    requires Heap(src) && Linked(src, seen, vm) && Settled(src, seen, vm, {})
    requires Tables(seen) <= src.tables.Keys && AllCross(src, Tables(seen))
    requires back <= vm.Keys && HereditaryVm(vm, back)
    ensures Hereditary(src, BackTables(seen, back))
  {
    hide Heap, Linked, Settled, Listed, Valid, Pictures, MetaOf, Crossable, EntriesWithin, PairsWithin;
    var d := BackTables(seen, back);
    forall t | t in d
      ensures t in src.tables && Valid(src.tables[t].stores) && PairsWithin(d, Listed(src.tables[t].stores))
      ensures src.tables[t].metatable != null ==> src.tables[t].metatable in d
    {
      SettledAt(src, seen, vm, t);
      PictureIn(src, seen, vm, t);
      var u := seen[TableRef(t)].t;
      assert u in back && EntriesWithin(back, vm[u].entries);
      ChildrenBack(src, seen, vm, back, Listed(src.tables[t].stores), vm[u].entries);
      if src.tables[t].metatable != null {
        MetaBack(src, seen, vm, back, src.tables[t].metatable);
      }
    }
  }

  lemma ForcedIn(src: ShellHeap, value: Value, t: Table, d: set<Table>)
    requires Heap(src) && Forced(src, value, TableRef(t)) && d <= src.tables.Keys && Hereditary(src, d)
    requires value.TableRef? ==> value.t in d
    ensures t in d
  {
    hide Heap, Hereditary;
  }

  lemma RootBack(src: ShellHeap, seen: Seen, vm: map<VmTable, VmState>, back: set<VmTable>, value: Value)
    requires Linked(src, seen, vm) && Knows(seen, value)
    requires Cross(seen, value).VmTableRef? ==> Cross(seen, value).t in back
    ensures value.TableRef? ==> value.t in BackTables(seen, back)
  {
    if value.TableRef? {
      assert seen[value].VmTableRef?;
    }
  }

  /** Nothing is lost: every VM table that was made is met again. */
  lemma AllBack(src: ShellHeap, value: Value, seen: Seen, vm: map<VmTable, VmState>, back: set<VmTable>)
    requires Heap(src) && Linked(src, seen, vm) && Settled(src, seen, vm, {})
    requires Reachable(src, value, Tables(seen)) && Knows(seen, value)
    requires AllCross(src, Tables(seen))
    requires ReachableVm(vm, Cross(seen, value), back)
    ensures back == vm.Keys
  {
    hide Heap, Linked, Settled, Hereditary, HereditaryVm, ForcedVm, Forced, AllCross, Tables, Cross, Knows;
    BackHereditary(src, seen, vm, back);
    RootBack(src, seen, vm, back, value);
    var d := BackTables(seen, back);
    forall u | u in vm
      ensures u in back
    {
      var t := SourceTable(src, seen, vm, u);
      TableIn(seen, t);
      ForcedIn(src, value, t, d);
    }
  }

  lemma TableIn(seen: Seen, t: Table)
    requires TableRef(t) in seen
    ensures t in Tables(seen)
  {
  }

  /** `t'` is the table `t` became: the same map, and the same metatable. */
  ghost predicate TableTwin(sigma: map<Table, Table>, s: State, s': State) {
    && Valid(s.stores) && Valid(s'.stores)
    && Twins(sigma, Listed(s.stores), Listed(s'.stores))
    && (s.metatable == null ==> s'.metatable == null)
    && (s.metatable != null ==> s'.metatable != null && Twin(sigma, TableRef(s.metatable), TableRef(s'.metatable)))
  }

  /** The tables of `shell` are those reachable from `value`, each renamed to one of its own, and `back` is
      `value` under that renaming. */
  ghost predicate SameGraph(src: ShellHeap, value: Value, sigma: map<Table, Table>, shell: map<Table, State>, back: Value)
    requires Heap(src)
  {
    && Reachable(src, value, sigma.Keys)
    && sigma.Values == shell.Keys
    && (forall a, b :: a in sigma && b in sigma && sigma[a] == sigma[b] ==> a == b)
    && (forall t :: t in sigma ==> t in src.tables && sigma[t] in shell && TableTwin(sigma, src.tables[t], shell[sigma[t]]))
    && Twin(sigma, value, back)
  }

  lemma RenamingKeys(src: ShellHeap, seen: Seen, vm: map<VmTable, VmState>, brought: Brought)
    requires Linked(src, seen, vm) && brought.Keys == vm.Keys
    ensures Renaming(seen, brought).Keys == Tables(seen)
  {
    forall t | t in Tables(seen)
      ensures t in Renaming(seen, brought)
    {
      assert TableRef(t) in seen;
    }
  }

  lemma RenamingOneToOne(src: ShellHeap, seen: Seen, vm: map<VmTable, VmState>, brought: Brought, link: Seen,
                         shell: map<Table, State>, a: Table, b: Table)
    requires Linked(src, seen, vm) && Tied(brought, link, shell)
    requires a in Renaming(seen, brought) && b in Renaming(seen, brought)
    requires Renaming(seen, brought)[a] == Renaming(seen, brought)[b]
    ensures a == b
  {
    var u, w := seen[TableRef(a)].t, seen[TableRef(b)].t;
    assert link[TableRef(brought[u])] == VmTableRef(u) && link[TableRef(brought[w])] == VmTableRef(w);
    assert seen[TableRef(a)] == seen[TableRef(b)];
    assert TableRef(a) == TableRef(b);
  }

  lemma RenamingOnto(src: ShellHeap, seen: Seen, vm: map<VmTable, VmState>, brought: Brought, link: Seen,
                     shell: map<Table, State>)
    requires Linked(src, seen, vm) && Tied(brought, link, shell) && brought.Keys == vm.Keys
    ensures Renaming(seen, brought).Values == shell.Keys
  {
    var sigma := Renaming(seen, brought);
    RenamingKeys(src, seen, vm, brought);
    forall t' | t' in shell
      ensures t' in sigma.Values
    {
      assert TableRef(t') in link;
      var u := link[TableRef(t')].t;
      var t := SourceTable(src, seen, vm, u);
      TableIn(seen, t);
      assert sigma[t] == t';
    }
    forall t' | t' in sigma.Values
      ensures t' in shell
    {
      var t :| t in sigma && sigma[t] == t';
    }
  }

  lemma TextualPairs(src: ShellHeap, pairs: seq<Pair>)
    requires PairsInside(src, pairs)
    ensures PairsTextual(pairs)
  {
    hide Textual;
  }

  lemma RestoredAt(heap: VmHeap, brought: Brought, link: Seen, shell: map<Table, State>, logs: map<VmTable, Log>, u: VmTable)
    requires SettledBack(heap, brought, link, shell, logs, {}) && u in brought
    ensures u in heap && u in logs && brought[u] in shell && Restored(link, heap[u], logs[u], shell[brought[u]])
  {
    hide Restored;
  }

  lemma TablesTwin(src: ShellHeap, seen: Seen, vm: map<VmTable, VmState>, brought: Brought, link: Seen,
                   shell: map<Table, State>, logs: map<VmTable, Log>, t: Table)
    requires Heap(src) && Linked(src, seen, vm) && Settled(src, seen, vm, {}) && t in Tables(seen) && TableRef(t) in seen
    requires t in src.tables ==> Crossable(Listed(src.tables[t].stores))
    requires WholeHeap(vm) && Tied(brought, link, shell) && SettledBack(vm, brought, link, shell, logs, {})
    requires brought.Keys == vm.Keys
    ensures var sigma := Renaming(seen, brought);
            t in src.tables && t in sigma && sigma[t] in shell && TableTwin(sigma, src.tables[t], shell[sigma[t]])
  {
    hide Heap, Linked, Settled, Listed, Valid, Pictures, MetaOf, Crossable, Tied, SettledBack, Restored, Logged, Run,
         Homed, Twins, Twin, VmValid, PairsInside, PairsTextual;
    SettledAt(src, seen, vm, t);
    PictureIn(src, seen, vm, t);
    var u := seen[TableRef(t)].t;
    RestoredAt(vm, brought, link, shell, logs, u);
    var s, s' := src.tables[t], shell[brought[u]];
    var pairs := Listed(s.stores);
    ListedKeyed(s.stores);
    VmTableHomed(src, seen, vm, pairs, vm[u]);
    assert VmValid(vm[u]);
    RestoredTextual(brought, link, shell, vm[u], logs[u], s');
    TextualPairs(src, pairs);
    PicturesTwins(src, seen, vm, brought, link, shell, pairs, Listed(s'.stores), vm[u].entries);
    MetaTwin(src, seen, vm, brought, link, shell, vm[u], logs[u], s, s');
  }

  /** What came from a shell table has a home there. */
  lemma VmTableHomed(src: ShellHeap, seen: Seen, vm: map<VmTable, VmState>, pairs: seq<Pair>, s: VmState)
    requires Linked(src, seen, vm) && Keyed(pairs) && Pictures(seen, pairs, s.entries)
    ensures Homed(s.entries)
  {
    hide Linked, Cross, Stands, Plain, KeyOf;
    forall w | w in s.entries
      ensures !w.VmOther? && !s.entries[w].VmOther? && !(w.VmNumber? && w.f.Whole?)
    {
      var i :| 0 <= i < |pairs| && Cross(seen, pairs[i].0) == w;
      CrossInHome(src, seen, vm, pairs[i].0);
      CrossInHome(src, seen, vm, pairs[i].1);
    }
  }

  lemma CrossInHome(src: ShellHeap, seen: Seen, vm: map<VmTable, VmState>, v: Value)
    requires Linked(src, seen, vm) && Stands(seen, v)
    ensures !Cross(seen, v).VmOther?
    ensures Plain(v) ==> !(Cross(seen, v).VmNumber? && Cross(seen, v).f.Whole?)
  {
    if v.FunctionRef? {
      assert Answers(src.handles, v.f, seen[v]);
    }
  }

  lemma RestoredTextual(brought: Brought, link: Seen, shell: map<Table, State>, s: VmState, log: Log, t: State)
    requires Tied(brought, link, shell) && VmValid(s) && Restored(link, s, log, t) && Homed(s.entries)
    ensures Valid(t.stores) && Pictures(link, Listed(t.stores), s.entries) && PairsTextual(Listed(t.stores))
  {
    HomedPictures(brought, link, shell, s, log);
    hide *;
    RestoredMeans(link, s, log, t);
  }

  lemma RestoredMeans(link: Seen, s: VmState, log: Log, t: State)
    requires Restored(link, s, log, t)
    ensures Logged(link, s.entries, log) && t.stores == Run(log.writes)
    ensures if s.metatable == null then t.metatable == null
            else t.metatable != null && Back(link, VmTableRef(s.metatable), TableRef(t.metatable))
  {
  }

  lemma MetaTwin(src: ShellHeap, seen: Seen, vm: map<VmTable, VmState>, brought: Brought, link: Seen,
                 shell: map<Table, State>, u: VmState, log: Log, s: State, s': State)
    requires Linked(src, seen, vm) && Tied(brought, link, shell) && Restored(link, u, log, s')
    requires u.metatable == MetaOf(seen, s.metatable) && (s.metatable != null ==> TableRef(s.metatable) in seen)
    ensures s.metatable == null ==> s'.metatable == null
    ensures s.metatable != null ==>
              s'.metatable != null && Twin(Renaming(seen, brought), TableRef(s.metatable), TableRef(s'.metatable))
  {
    RestoredMeans(link, u, log, s');
    hide Restored, Renaming, Twin, Run, Logged;
    if s.metatable != null {
      assert seen[TableRef(s.metatable)].VmTableRef?;
      assert Back(link, VmTableRef(u.metatable), TableRef(s'.metatable));
      TwinTable(src, seen, vm, brought, link, shell, s.metatable, TableRef(s'.metatable));
    }
  }

  /** What `into_lua` made of `value`, brought back by `from_lua`, is `value` again. */
  lemma ThereAndBackAgain(src: ShellHeap, value: Value, seen: Seen, vm: map<VmTable, VmState>,
                          brought: Brought, link: Seen, shell: map<Table, State>, logs: map<VmTable, Log>, back: Value)
    requires Heap(src) && Inside(src, value) && Linked(src, seen, vm) && Settled(src, seen, vm, {})
    requires Reachable(src, value, Tables(seen)) && Knows(seen, value)
    requires WholeHeap(vm) && Tied(brought, link, shell) && SettledBack(vm, brought, link, shell, logs, {})
    requires ReachableVm(vm, Cross(seen, value), brought.Keys) && Back(link, Cross(seen, value), back)
    requires Callables(value) && AllCross(src, Tables(seen))
    ensures SameGraph(src, value, Renaming(seen, brought), shell, back)
  {
    hide Heap, Linked, Settled, Tied, SettledBack, Reachable, ReachableVm, WholeHeap, Tables, Renaming, TableTwin, Cross,
         Back, Twin, Crossable, Listed, Valid, Inside, Knows, Callables;
    AllBack(src, value, seen, vm, brought.Keys);
    RenamingKeys(src, seen, vm, brought);
    RenamingOnto(src, seen, vm, brought, link, shell);
    var sigma := Renaming(seen, brought);
    forall a, b | a in sigma && b in sigma && sigma[a] == sigma[b]
      ensures a == b
    {
      RenamingOneToOne(src, seen, vm, brought, link, shell, a, b);
    }
    forall t | t in sigma
      ensures t in src.tables && sigma[t] in shell && TableTwin(sigma, src.tables[t], shell[sigma[t]])
    {
      InTables(seen, t);
      TablesTwin(src, seen, vm, brought, link, shell, logs, t);
    }
    RootTwin(src, seen, vm, brought, link, shell, value, back);
  }

  lemma InTables(seen: Seen, t: Table)
    requires t in Tables(seen)
    ensures TableRef(t) in seen
  {
  }

  lemma RootTwin(src: ShellHeap, seen: Seen, vm: map<VmTable, VmState>, brought: Brought, link: Seen,
                 shell: map<Table, State>, value: Value, back: Value)
    requires Linked(src, seen, vm) && Tied(brought, link, shell) && Inside(src, value) && Knows(seen, value)
    requires Callables(value) && Back(link, Cross(seen, value), back)
    ensures Twin(Renaming(seen, brought), value, back)
  {
    hide Linked, Tied, Renaming, Textual;
    if value == Nil {
      assert back == Nil;
    } else {
      CrossStands(src, seen, vm, value);
      CrossInHome(src, seen, vm, value);
      BackCross(brought, link, shell, Cross(seen, value), back);
      TwinOf(src, seen, vm, brought, link, shell, value, back);
    }
  }
}
