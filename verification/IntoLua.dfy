/** Values crossing from the shell into the VM: a worklist copy of a heap of tables that may share
    tables and hold themselves. */
module IntoLua {
  import opened Values
  import opened Luna

  type Pair = (Value, Value)
  type Seen = map<Value, VmValue>

  predicate IsRef(v: Value) {
    v.TableRef? || v.FunctionRef?
  }

  /** What `v` is on the other side, once every reference in it has crossed. */
  function Cross(seen: Seen, v: Value): VmValue {
    match v
    case Nil => VmNil
    case Bool(b) => VmBool(b)
    case Num(Int(i)) => VmInteger(i)
    case Num(Float(f)) => VmNumber(f)
    case Str(text) => VmString(text)
    case Raw(bytes) => VmString(bytes)
    case TableRef(_) => if v in seen then seen[v] else VmNil
    case FunctionRef(_) => if v in seen then seen[v] else VmNil
  }

  /** What a function may become: a Rust closure gets a new callback of its own, a stashed Lua function
      is handed back, and anything else is nil. */
  predicate Answers(handles: set<LuaFunction>, f: Function, w: VmValue) {
    match f.callable
    case Native => w.VmFunction? && w.callee.wraps == f && w.callee !in handles
    case Stashed(handle) => w == VmFunction(handle)
    case Named => w == VmNil
    case Foreign => w == VmNil
  }

  // ------------------------------------------------------------------ the shell's heap

  /** The tables of the shell at one moment, and the Lua functions it keeps alive. */
  datatype ShellHeap = ShellHeap(tables: map<Table, State>, handles: set<LuaFunction>)

  ghost predicate Snapshot(src: ShellHeap)
    reads src.tables.Keys
  {
    forall t :: t in src.tables ==> StateOf(t) == src.tables[t]
  }

  /** `v` refers to what the heap holds only, and its text is text. */
  predicate Inside(src: ShellHeap, v: Value) {
    && (v.TableRef? ==> v.t in src.tables)
    && (v.FunctionRef? && v.f.callable.Stashed? ==> v.f.callable.handle in src.handles)
    && Textual(v)
  }

  ghost predicate PairsInside(src: ShellHeap, pairs: seq<Pair>) {
    forall i :: 0 <= i < |pairs| ==> Inside(src, pairs[i].0) && Inside(src, pairs[i].1)
  }

  /** Every table is well formed and refers to what the heap holds only. */
  ghost predicate Heap(src: ShellHeap) {
    forall t :: t in src.tables ==>
      && Valid(src.tables[t].stores)
      && PairsInside(src, Listed(src.tables[t].stores))
      && (src.tables[t].metatable != null ==> src.tables[t].metatable in src.tables)
  }

  ghost predicate PairsWithin(tables: set<Table>, pairs: seq<Pair>) {
    forall i :: 0 <= i < |pairs| ==>
      (pairs[i].0.TableRef? ==> pairs[i].0.t in tables) && (pairs[i].1.TableRef? ==> pairs[i].1.t in tables)
  }

  ghost predicate Hereditary(src: ShellHeap, tables: set<Table>)
    requires Heap(src)
  {
    forall t :: t in tables && t in src.tables ==>
      PairsWithin(tables, Listed(src.tables[t].stores)) && (src.tables[t].metatable != null ==> src.tables[t].metatable in tables)
  }

  /** `v` is within every set of tables that has the root and everything its members refer to. */
  ghost predicate Forced(src: ShellHeap, root: Value, v: Value)
    requires Heap(src)
  {
    v.TableRef? ==>
      && v.t in src.tables
      && forall d :: d <= src.tables.Keys && Hereditary(src, d) && (root.TableRef? ==> root.t in d) ==> v.t in d
  }

  /** `tables` are the ones reachable from `root`. */
  ghost predicate Reachable(src: ShellHeap, root: Value, tables: set<Table>)
    requires Heap(src)
  {
    && tables <= src.tables.Keys
    && Hereditary(src, tables)
    && (root.TableRef? ==> root.t in tables)
    && (forall t :: t in tables ==> Forced(src, root, TableRef(t)))
  }

  // ------------------------------------------------------------------ the copy

  ghost predicate VmSnapshot(vm: map<VmTable, VmState>)
    reads vm.Keys
  {
    forall u :: u in vm ==> VmStateOf(u) == vm[u]
  }

  ghost predicate Extends(seen: Seen, more: Seen) {
    forall v :: v in seen ==> v in more && more[v] == seen[v]
  }

  predicate Knows(seen: Seen, v: Value) {
    IsRef(v) ==> v in seen
  }

  ghost predicate KnowsAll(seen: Seen, pairs: seq<Pair>) {
    forall i :: 0 <= i < |pairs| ==> Knows(seen, pairs[i].0) && Knows(seen, pairs[i].1)
  }

  /** The entries a VM table has once these pairs are written to it in turn. */
  function Filled(seen: Seen, pairs: seq<Pair>): map<VmValue, VmValue> {
    if pairs == [] then map[]
    else
      var last := pairs[|pairs| - 1];
      Put(Filled(seen, pairs[..|pairs| - 1]), Cross(seen, last.0), Cross(seen, last.1))
  }

  function MetaOf(seen: Seen, meta: Table?): VmTable? {
    if meta != null && Cross(seen, TableRef(meta)).VmTableRef? then Cross(seen, TableRef(meta)).t else null
  }

  /** The VM table that `s` becomes. */
  ghost function Copied(seen: Seen, s: State): VmState
    requires Valid(s.stores)
  {
    VmState.VmState(Filled(seen, Listed(s.stores)), MetaOf(seen, s.metatable))
  }

  ghost predicate KnowsState(seen: Seen, s: State)
    requires Valid(s.stores)
  {
    KnowsAll(seen, Listed(s.stores)) && (s.metatable != null ==> TableRef(s.metatable) in seen)
  }

  function Tables(seen: Seen): set<Table> {
    set v | v in seen && v.TableRef? :: v.t
  }

  /** `seen` links each table to one VM table of its own and each function to what it answers. */
  ghost predicate Linked(src: ShellHeap, seen: Seen, vm: map<VmTable, VmState>) {
    && (forall v :: v in seen ==> IsRef(v))
    && (forall v :: v in seen && v.TableRef? ==> seen[v].VmTableRef? && seen[v].t in vm)
    && (forall v :: v in seen && v.FunctionRef? ==> Answers(src.handles, v.f, seen[v]))
    && (forall v, w :: v in seen && w in seen && v.TableRef? && w.TableRef? && seen[v] == seen[w] ==> v == w)
    && (forall u :: u in vm ==> exists v :: v in seen && v.TableRef? && seen[v] == VmTableRef(u))
  }

  /** Every table in `seen` but those of `open` has been copied. */
  ghost predicate Settled(src: ShellHeap, seen: Seen, vm: map<VmTable, VmState>, open: set<Table>)
    requires Heap(src)
  {
    forall v :: v in seen && v.TableRef? && v.t !in open ==>
      && v.t in src.tables
      && seen[v].VmTableRef? && seen[v].t in vm
      && KnowsState(seen, src.tables[v.t])
      && vm[seen[v].t] == Copied(seen, src.tables[v.t])
  }

  ghost predicate AllForced(src: ShellHeap, root: Value, seen: Seen)
    requires Heap(src)
  {
    forall v :: v in seen ==> Forced(src, root, v)
  }

  /** The queue holds tables that are seen and still blank, each once. */
  ghost predicate Queued(seen: Seen, vm: map<VmTable, VmState>, waiting: seq<(Table, VmTable)>) {
    && (forall i :: 0 <= i < |waiting| ==>
          && TableRef(waiting[i].0) in seen
          && seen[TableRef(waiting[i].0)] == VmTableRef(waiting[i].1)
          && waiting[i].1 in vm && vm[waiting[i].1] == BLANK)
    && (forall i, j :: 0 <= i < j < |waiting| ==> waiting[i].0 != waiting[j].0)
  }

  function Froms(waiting: seq<(Table, VmTable)>): set<Table> {
    set i | 0 <= i < |waiting| :: waiting[i].0
  }

  /** The invariant of the walk; `busy` is the table being filled, if one is. */
  ghost predicate Walk(src: ShellHeap, root: Value, seen: Seen, vm: map<VmTable, VmState>,
                       waiting: seq<(Table, VmTable)>, busy: set<Table>)
  {
    && Heap(src)
    && Linked(src, seen, vm)
    && Queued(seen, vm, waiting)
    && busy !! Froms(waiting) && busy <= Tables(seen)
    && Settled(src, seen, vm, Froms(waiting) + busy)
    && AllForced(src, root, seen)
  }

  /** What stands for `value` in the VM: a table met for the first time is made here and left for its own turn. */
  method Crossing(value: Value, seen: Seen, waiting: seq<(Table, VmTable)>, ghost src: ShellHeap,
                  ghost root: Value, ghost vm: map<VmTable, VmState>, ghost busy: set<Table>)
    returns (w: VmValue, seen': Seen, waiting': seq<(Table, VmTable)>, ghost vm': map<VmTable, VmState>)
    requires Heap(src) && Walk(src, root, seen, vm, waiting, busy) && Forced(src, root, value)
    requires VmSnapshot(vm)
    ensures Walk(src, root, seen', vm', waiting', busy)
    ensures Extends(seen, seen') && Knows(seen', value) && w == Cross(seen', value)
    ensures !IsRef(value) ==> SameScalar(value, w)
    ensures VmSnapshot(vm') && vm.Keys <= vm'.Keys && (forall u :: u in vm ==> vm'[u] == vm[u])
    ensures forall u :: u in vm' && u !in vm ==> fresh(u)
    ensures |Tables(seen')| - |waiting'| == |Tables(seen)| - |waiting|
  {
    hide Walk, Forced, VmSnapshot, Tables, Extends;
    seen', waiting', vm' := seen, waiting, vm;
    match value {
      case Nil => w := VmNil;
      case Bool(b) => w := VmBool(b);
      case Num(Int(i)) => w := VmInteger(i);
      case Num(Float(f)) => w := VmNumber(f);
      case Str(text) => w := VmString(text);
      case Raw(bytes) => w := VmString(bytes);
      case TableRef(t) =>
        if value in seen {
          w := seen[value];
        } else {
          var out := new VmTable();
          NewTable(src, root, seen, vm, waiting, busy, t, out);
          SnapshotMore(vm, out);
          seen' := seen[value := VmTableRef(out)];
          waiting' := waiting + [(t, out)];
          vm' := vm[out := BLANK];
          w := VmTableRef(out);
        }
      case FunctionRef(f) =>
        if value in seen {
          w := seen[value];
        } else {
          match f.callable {
            case Named => w := VmNil;
            case Foreign => w := VmNil;
            case Stashed(handle) => w := VmFunction(handle);
            case Native =>
              var wrapped := new LuaFunction(f);
              w := VmFunction(wrapped);
          }
          NewFunction(src, root, seen, vm, waiting, busy, f, w);
          seen' := seen[value := w];
        }
    }
    if seen' == seen {
      ExtendsSelf(seen);
    }
  }

  /** Whatever holds no reference keeps its sort, its value and its truth on the way in, and a table stays a
      table. */
  lemma ScalarsCross(src: ShellHeap, seen: Seen, vm: map<VmTable, VmState>, v: Value)
    requires Linked(src, seen, vm) && Knows(seen, v)
    ensures !IsRef(v) ==> SameScalar(v, Cross(seen, v))
    ensures v.TableRef? ==> Cross(seen, v).VmTableRef? && VmTruthy(Cross(seen, v))
    ensures v.FunctionRef? ==> (VmTruthy(Cross(seen, v)) <==> v.f.callable.Native? || v.f.callable.Stashed?)
  {
    if v.FunctionRef? {
      assert Answers(src.handles, v.f, seen[v]);
    }
  }

  // ------------------------------------------------------------------ steps of the invariant

  lemma ExtendsSelf(seen: Seen)
    ensures Extends(seen, seen)
  {
  }

  lemma ExtendsTrans(a: Seen, b: Seen, c: Seen)
    requires Extends(a, b) && Extends(b, c)
    ensures Extends(a, c)
  {
  }

  lemma CrossSame(seen: Seen, more: Seen, v: Value)
    requires Extends(seen, more) && Knows(seen, v)
    ensures Knows(more, v) && Cross(more, v) == Cross(seen, v)
  {
  }

  lemma {:induction false} FilledSame(seen: Seen, more: Seen, pairs: seq<Pair>)
    requires Extends(seen, more) && KnowsAll(seen, pairs)
    ensures KnowsAll(more, pairs) && Filled(more, pairs) == Filled(seen, pairs)
  {
    hide Extends, Put, Cross;
    forall i | 0 <= i < |pairs|
      ensures Knows(more, pairs[i].0) && Knows(more, pairs[i].1)
    {
      CrossSame(seen, more, pairs[i].0);
      CrossSame(seen, more, pairs[i].1);
    }
    if pairs != [] {
      var last := pairs[|pairs| - 1];
      CrossSame(seen, more, last.0);
      CrossSame(seen, more, last.1);
      FilledSame(seen, more, pairs[..|pairs| - 1]);
    }
  }

  lemma CopiedSame(seen: Seen, more: Seen, s: State)
    requires Valid(s.stores) && Extends(seen, more) && KnowsState(seen, s)
    ensures KnowsState(more, s) && Copied(more, s) == Copied(seen, s)
  {
    hide Valid, Listed, Filled, KnowsAll;
    FilledSame(seen, more, Listed(s.stores));
  }

  /** Tables already copied stay right when more is seen and more VM tables are made. */
  lemma SettledMore(src: ShellHeap, seen: Seen, vm: map<VmTable, VmState>, open: set<Table>,
                    more: Seen, vm': map<VmTable, VmState>, open': set<Table>)
    requires Heap(src) && Settled(src, seen, vm, open) && Extends(seen, more)
    requires vm.Keys <= vm'.Keys && forall u :: u in vm ==> vm'[u] == vm[u]
    requires open <= open' && forall v :: v in more && v !in seen && v.TableRef? ==> v.t in open'
    ensures Settled(src, more, vm', open')
  {
    hide KnowsState, Copied, Valid, Listed;
    forall v | v in more && v.TableRef? && v.t !in open'
      ensures v.t in src.tables && more[v].VmTableRef? && more[v].t in vm'
      ensures KnowsState(more, src.tables[v.t]) && vm'[more[v].t] == Copied(more, src.tables[v.t])
    {
      assert v in seen;
      CopiedSame(seen, more, src.tables[v.t]);
    }
  }

  lemma LinkedTable(src: ShellHeap, seen: Seen, vm: map<VmTable, VmState>, t: Table, out: VmTable)
    requires Linked(src, seen, vm) && TableRef(t) !in seen && out !in vm
    ensures Linked(src, seen[TableRef(t) := VmTableRef(out)], vm[out := BLANK])
  {
    var more, vm' := seen[TableRef(t) := VmTableRef(out)], vm[out := BLANK];
    forall u | u in vm'
      ensures exists v :: v in more && v.TableRef? && more[v] == VmTableRef(u)
    {
      if u == out {
        assert TableRef(t) in more;
      } else {
        var v :| v in seen && v.TableRef? && seen[v] == VmTableRef(u);
        assert v in more;
      }
    }
  }

  lemma LinkedFunction(src: ShellHeap, seen: Seen, vm: map<VmTable, VmState>, f: Function, w: VmValue)
    requires Linked(src, seen, vm) && FunctionRef(f) !in seen && Answers(src.handles, f, w)
    ensures Linked(src, seen[FunctionRef(f) := w], vm)
  {
    var more := seen[FunctionRef(f) := w];
    forall u | u in vm
      ensures exists v :: v in more && v.TableRef? && more[v] == VmTableRef(u)
    {
      var v :| v in seen && v.TableRef? && seen[v] == VmTableRef(u);
      assert v in more;
    }
  }

  lemma QueuedTable(seen: Seen, vm: map<VmTable, VmState>, waiting: seq<(Table, VmTable)>, t: Table, out: VmTable)
    requires Queued(seen, vm, waiting) && TableRef(t) !in seen && out !in vm
    ensures Queued(seen[TableRef(t) := VmTableRef(out)], vm[out := BLANK], waiting + [(t, out)])
    ensures Froms(waiting + [(t, out)]) == Froms(waiting) + {t}
    ensures t !in Froms(waiting)
  {
    var waiting' := waiting + [(t, out)];
    assert waiting'[|waiting|].0 == t;
    forall x | x in Froms(waiting)
      ensures x in Froms(waiting')
    {
      var i :| 0 <= i < |waiting| && waiting[i].0 == x;
      assert waiting'[i].0 == x;
    }
  }

  lemma QueuedFunction(seen: Seen, vm: map<VmTable, VmState>, waiting: seq<(Table, VmTable)>, f: Function, w: VmValue)
    requires Queued(seen, vm, waiting)
    ensures Queued(seen[FunctionRef(f) := w], vm, waiting)
  {
  }

  lemma TablesMore(seen: Seen, v: Value, w: VmValue)
    requires v !in seen
    ensures Extends(seen, seen[v := w])
    ensures Tables(seen[v := w]) == Tables(seen) + if v.TableRef? then {v.t} else {}
    ensures v.TableRef? ==> v.t !in Tables(seen)
  {
    assert forall x :: x in seen[v := w] <==> x in seen || x == v;
  }

  lemma ForcedMore(src: ShellHeap, root: Value, seen: Seen, v: Value, w: VmValue)
    requires Heap(src) && AllForced(src, root, seen) && Forced(src, root, v)
    ensures AllForced(src, root, seen[v := w])
  {
    hide Heap, Forced;
  }

  lemma NewTable(src: ShellHeap, root: Value, seen: Seen, vm: map<VmTable, VmState>,
                 waiting: seq<(Table, VmTable)>, busy: set<Table>, t: Table, out: VmTable)
    requires Walk(src, root, seen, vm, waiting, busy)
    requires Heap(src) && Forced(src, root, TableRef(t))
    requires TableRef(t) !in seen && out !in vm
    ensures Walk(src, root, seen[TableRef(t) := VmTableRef(out)], vm[out := BLANK], waiting + [(t, out)], busy)
    ensures Extends(seen, seen[TableRef(t) := VmTableRef(out)])
    ensures |Tables(seen[TableRef(t) := VmTableRef(out)])| == |Tables(seen)| + 1
  {
    hide Heap, Linked, Forced, Queued, Settled, AllForced, Tables, Extends, Froms;
    var more, vm', waiting' := seen[TableRef(t) := VmTableRef(out)], vm[out := BLANK], waiting + [(t, out)];
    LinkedTable(src, seen, vm, t, out);
    QueuedTable(seen, vm, waiting, t, out);
    TablesMore(seen, TableRef(t), VmTableRef(out));
    SettledMore(src, seen, vm, Froms(waiting) + busy, more, vm', Froms(waiting') + busy);
    ForcedMore(src, root, seen, TableRef(t), VmTableRef(out));
  }

  lemma NewFunction(src: ShellHeap, root: Value, seen: Seen, vm: map<VmTable, VmState>,
                    waiting: seq<(Table, VmTable)>, busy: set<Table>, f: Function, w: VmValue)
    requires Walk(src, root, seen, vm, waiting, busy)
    requires Heap(src) && FunctionRef(f) !in seen && Answers(src.handles, f, w)
    ensures Walk(src, root, seen[FunctionRef(f) := w], vm, waiting, busy)
    ensures Extends(seen, seen[FunctionRef(f) := w])
    ensures Tables(seen[FunctionRef(f) := w]) == Tables(seen)
  {
    hide Heap, Linked, Queued, Settled, AllForced, Tables, Extends, Froms, Answers;
    var more := seen[FunctionRef(f) := w];
    LinkedFunction(src, seen, vm, f, w);
    QueuedFunction(seen, vm, waiting, f, w);
    TablesMore(seen, FunctionRef(f), w);
    SettledMore(src, seen, vm, Froms(waiting) + busy, more, vm, Froms(waiting) + busy);
    ForcedMore(src, root, seen, FunctionRef(f), w);
  }

  lemma SnapshotMore(vm: map<VmTable, VmState>, u: VmTable)
    requires VmSnapshot(vm)
    ensures VmSnapshot(vm[u := VmStateOf(u)])
  {
  }

  // ------------------------------------------------------------------ the loop

  /** `into_lua`. `src` is the heap of shell tables the value lives in. */
  method Transfer(value: Value, ghost src: ShellHeap)
    returns (root: VmValue, ghost seen: Seen, ghost vm: map<VmTable, VmState>, ghost fills: nat)
    requires Snapshot(src) && Heap(src) && Inside(src, value)
    ensures Linked(src, seen, vm) && VmSnapshot(vm) && forall u :: u in vm ==> fresh(u)
    ensures Settled(src, seen, vm, {})
    ensures Reachable(src, value, Tables(seen))
    ensures Knows(seen, value) && root == Cross(seen, value)
    ensures !IsRef(value) ==> SameScalar(value, root)
    ensures fills == |Tables(seen)|
  {
    hide Snapshot, VmSnapshot, Heap, Walk, Linked, Settled, Reachable, Tables, Forced, Filled, Listed, Valid, Extends;
    var known: Seen, waiting := map[], [];
    vm, fills := map[], 0;
    Start(src, value);
    NoVm();
    root, known, waiting, vm := Crossing(value, known, waiting, src, value, vm, {});
    while waiting != []
      invariant Walk(src, value, known, vm, waiting, {})
      invariant VmSnapshot(vm) && forall u :: u in vm ==> fresh(u)
      invariant Snapshot(src)
      invariant Knows(known, value) && root == Cross(known, value)
      invariant fills + |waiting| == |Tables(known)|
      decreases |src.tables| - fills
    {
      FillsBounded(src, value, known, vm, waiting);
      var (from, into) := waiting[|waiting| - 1];
      assert waiting == waiting[..|waiting| - 1] + [(from, into)];
      waiting := waiting[..|waiting| - 1];
      ghost var before := known;
      known, waiting, vm := Fill(from, into, known, waiting, src, value, vm);
      CrossSame(before, known, value);
      fills := fills + 1;
    }
    assert waiting == [];
    Done(src, value, known, vm);
    seen := known;
  }

  /** One turn of the loop: every pair of `from`, and its metatable, onto `into`. */
  method Fill(from: Table, into: VmTable, seen: Seen, waiting: seq<(Table, VmTable)>, ghost src: ShellHeap,
              ghost root: Value, ghost vm: map<VmTable, VmState>)
    returns (seen': Seen, waiting': seq<(Table, VmTable)>, ghost vm': map<VmTable, VmState>)
    requires Snapshot(src) && Heap(src) && VmSnapshot(vm)
    requires Walk(src, root, seen, vm, waiting + [(from, into)], {})
    modifies into
    ensures Walk(src, root, seen', vm', waiting', {}) && Extends(seen, seen')
    ensures VmSnapshot(vm') && Snapshot(src) && forall u :: u in vm' && u !in vm ==> fresh(u)
    ensures |Tables(seen')| - |waiting'| == |Tables(seen)| - |waiting|
  {
    hide Snapshot, VmSnapshot, Heap, Walk, Tables, Forced, Filled, Listed, Valid, Extends, KnowsAll, Copied, KnowsState;
    Pop(src, root, seen, vm, waiting, from, into);
    SourceOf(src, from);
    ghost var source := src.tables[from];
    var entries := from.Pairs();
    seen', waiting', vm' := seen, waiting, vm;
    ExtendsSelf(seen);
    NothingFilled(seen, entries);
    for j := 0 to |entries|
      invariant Walk(src, root, seen', vm', waiting', {from}) && Extends(seen, seen')
      invariant VmSnapshot(vm') && Snapshot(src) && into in vm'
      invariant forall u :: u in vm' && u !in vm ==> fresh(u)
      invariant TableRef(from) in seen' && seen'[TableRef(from)] == VmTableRef(into)
      invariant KnowsAll(seen', entries[..j])
      invariant vm'[into] == VmState.VmState(Filled(seen', entries[..j]), null)
      invariant |Tables(seen')| - |waiting'| == |Tables(seen)| - |waiting|
    {
      ForcedEntry(src, root, seen', vm', waiting', from, j);
      var k, v;
      ghost var seen0 := seen';
      k, seen', waiting', vm' := Crossing(entries[j].0, seen', waiting', src, root, vm', {from});
      ghost var seen1 := seen';
      v, seen', waiting', vm' := Crossing(entries[j].1, seen', waiting', src, root, vm', {from});
      OneMore(seen0, seen1, seen', entries, j);
      ExtendsTrans(seen, seen0, seen');
      KeepsLink(seen0, seen', from);
      ghost var entry := VmState.VmState(Put(vm'[into].entries, k, v), null);
      Refill(src, root, seen', vm', waiting', from, into, entry);
      vm' := Write(into, k, v, vm', src);
    }
    assert entries[..|entries|] == entries;
    var meta := from.metatable;
    SourceOf(src, from);
    if meta != null {
      ForcedMeta(src, root, seen', vm', waiting', from);
      var w;
      ghost var seen0 := seen';
      w, seen', waiting', vm' := Crossing(TableRef(meta), seen', waiting', src, root, vm', {from});
      FilledSame(seen0, seen', entries);
      ExtendsTrans(seen, seen0, seen');
      KeepsLink(seen0, seen', from);
      if w.VmTableRef? {
        Refill(src, root, seen', vm', waiting', from, into, vm'[into].(metatable := w.t));
        vm' := SetMeta(into, w.t, vm', src);
      }
    }
    CopiedIs(seen', source, entries, vm'[into]);
    Close(src, root, seen', vm', waiting', from, into);
  }

  method Write(into: VmTable, k: VmValue, v: VmValue, ghost vm: map<VmTable, VmState>, ghost src: ShellHeap)
    returns (ghost vm': map<VmTable, VmState>)
    requires VmSnapshot(vm) && Snapshot(src) && into in vm
    modifies into
    ensures vm' == vm[into := VmState.VmState(Put(vm[into].entries, k, v), vm[into].metatable)]
    ensures VmSnapshot(vm') && Snapshot(src)
  {
    hide Put;
    into.Set(k, v);
    vm' := vm[into := VmStateOf(into)];
  }

  method SetMeta(into: VmTable, meta: VmTable, ghost vm: map<VmTable, VmState>, ghost src: ShellHeap)
    returns (ghost vm': map<VmTable, VmState>)
    requires VmSnapshot(vm) && Snapshot(src) && into in vm
    modifies into
    ensures vm' == vm[into := vm[into].(metatable := meta)]
    ensures VmSnapshot(vm') && Snapshot(src)
  {
    into.metatable := meta;
    vm' := vm[into := VmStateOf(into)];
  }

  // ------------------------------------------------------------------ steps of the loop

  lemma Start(src: ShellHeap, value: Value)
    requires Heap(src) && Inside(src, value)
    ensures Walk(src, value, map[], map[], [], {}) && Forced(src, value, value)
    ensures Tables(map[]) == {}
  {
  }

  lemma NoVm()
    ensures VmSnapshot(map[])
  {
  }

  lemma FillsBounded(src: ShellHeap, root: Value, seen: Seen, vm: map<VmTable, VmState>,
                     waiting: seq<(Table, VmTable)>)
    requires Walk(src, root, seen, vm, waiting, {})
    ensures |Tables(seen)| <= |src.tables|
    ensures forall i :: 0 <= i < |waiting| ==> waiting[i].1 in vm
  {
    forall t | t in Tables(seen)
      ensures t in src.tables
    {
      assert TableRef(t) in seen;
      assert Forced(src, root, TableRef(t));
    }
    Subset(Tables(seen), src.tables.Keys);
  }

  lemma Subset<T>(a: set<T>, b: set<T>)
    requires a <= b
    ensures |a| <= |b|
  {
    assert b == a + (b - a);
  }

  lemma Pop(src: ShellHeap, root: Value, seen: Seen, vm: map<VmTable, VmState>,
            waiting: seq<(Table, VmTable)>, from: Table, into: VmTable)
    requires Walk(src, root, seen, vm, waiting + [(from, into)], {})
    ensures Walk(src, root, seen, vm, waiting, {from})
    ensures from in src.tables && into in vm && vm[into] == BLANK
    ensures TableRef(from) in seen && seen[TableRef(from)] == VmTableRef(into)
  {
    hide Heap, Linked, Settled;
    var queue := waiting + [(from, into)];
    assert queue[|waiting|] == (from, into);
    assert forall i :: 0 <= i < |waiting| ==> queue[i] == waiting[i];
    assert Forced(src, root, TableRef(from));
    assert Froms(queue) == Froms(waiting) + {from} by {
      forall x | x in Froms(waiting)
        ensures x in Froms(queue)
      {
        var i :| 0 <= i < |waiting| && waiting[i].0 == x;
        assert queue[i].0 == x;
      }
    }
    assert from !in Froms(waiting);
    assert Froms(queue) + {} == Froms(waiting) + {from};
  }

  lemma SourceOf(src: ShellHeap, from: Table)
    requires Snapshot(src) && Heap(src) && from in src.tables
    ensures StateOf(from) == src.tables[from] && Valid(src.tables[from].stores)
  {
  }

  lemma NothingFilled(seen: Seen, entries: seq<Pair>)
    ensures KnowsAll(seen, entries[..0]) && Filled(seen, entries[..0]) == map[]
  {
  }

  lemma ForcedChild(src: ShellHeap, root: Value, from: Table, v: Value)
    requires Heap(src) && Forced(src, root, TableRef(from)) && Inside(src, v)
    requires v.TableRef? ==> forall d :: d <= src.tables.Keys && Hereditary(src, d) && from in d ==> v.t in d
    ensures Forced(src, root, v)
  {
    hide Heap, Hereditary;
  }

  lemma ForcedEntry(src: ShellHeap, root: Value, seen: Seen, vm: map<VmTable, VmState>,
                    waiting: seq<(Table, VmTable)>, from: Table, j: nat)
    requires Heap(src) && Walk(src, root, seen, vm, waiting, {from}) && from in src.tables && TableRef(from) in seen
    requires j < |Listed(src.tables[from].stores)|
    ensures Forced(src, root, Listed(src.tables[from].stores)[j].0) && Forced(src, root, Listed(src.tables[from].stores)[j].1)
  {
    hide Listed, Valid;
    assert Forced(src, root, TableRef(from));
    hide Forced;
    ForcedChild(src, root, from, Listed(src.tables[from].stores)[j].0);
    ForcedChild(src, root, from, Listed(src.tables[from].stores)[j].1);
  }

  lemma ForcedMeta(src: ShellHeap, root: Value, seen: Seen, vm: map<VmTable, VmState>,
                   waiting: seq<(Table, VmTable)>, from: Table)
    requires Heap(src) && Walk(src, root, seen, vm, waiting, {from}) && from in src.tables && TableRef(from) in seen
    requires src.tables[from].metatable != null
    ensures Forced(src, root, TableRef(src.tables[from].metatable))
  {
    hide Listed, Valid;
    assert Forced(src, root, TableRef(from));
    hide Forced;
    ForcedChild(src, root, from, TableRef(src.tables[from].metatable));
  }

  lemma OneMore(seen0: Seen, seen1: Seen, seen2: Seen, entries: seq<Pair>, j: nat)
    requires j < |entries| && Extends(seen0, seen1) && Extends(seen1, seen2)
    requires KnowsAll(seen0, entries[..j]) && Knows(seen1, entries[j].0) && Knows(seen2, entries[j].1)
    ensures Extends(seen0, seen2) && KnowsAll(seen2, entries[..j + 1])
    ensures Filled(seen2, entries[..j + 1])
         == Put(Filled(seen0, entries[..j]), Cross(seen1, entries[j].0), Cross(seen2, entries[j].1))
  {
    ExtendsTrans(seen0, seen1, seen2);
    hide Extends, Put, Cross;
    FilledSame(seen0, seen2, entries[..j]);
    CrossSame(seen1, seen2, entries[j].0);
    assert entries[..j + 1][..j] == entries[..j];
    assert forall i :: 0 <= i < j ==> entries[..j + 1][i] == entries[..j][i];
  }

  lemma KeepsLink(seen: Seen, more: Seen, from: Table)
    requires Extends(seen, more) && TableRef(from) in seen
    ensures TableRef(from) in more && more[TableRef(from)] == seen[TableRef(from)]
  {
  }

  lemma Refill(src: ShellHeap, root: Value, seen: Seen, vm: map<VmTable, VmState>,
               waiting: seq<(Table, VmTable)>, from: Table, into: VmTable, state: VmState)
    requires Walk(src, root, seen, vm, waiting, {from})
    requires into in vm && TableRef(from) in seen && seen[TableRef(from)] == VmTableRef(into)
    ensures Walk(src, root, seen, vm[into := state], waiting, {from})
  {
    hide Heap, AllForced, KnowsState, Copied;
    forall i | 0 <= i < |waiting|
      ensures waiting[i].1 != into
    {
      assert waiting[i].0 in Froms(waiting);
    }
    RefillSettled(src, seen, vm, Froms(waiting) + {from}, from, into, state);
    RefillLinked(src, seen, vm, into, state);
    hide Settled, Linked;
  }

  lemma RefillLinked(src: ShellHeap, seen: Seen, vm: map<VmTable, VmState>, into: VmTable, state: VmState)
    requires Linked(src, seen, vm) && into in vm
    ensures Linked(src, seen, vm[into := state])
  {
    assert vm[into := state].Keys == vm.Keys;
  }

  lemma RefillSettled(src: ShellHeap, seen: Seen, vm: map<VmTable, VmState>, open: set<Table>,
                      from: Table, into: VmTable, state: VmState)
    requires Heap(src) && Settled(src, seen, vm, open) && Linked(src, seen, vm) && from in open
    requires into in vm && TableRef(from) in seen && seen[TableRef(from)] == VmTableRef(into)
    ensures Settled(src, seen, vm[into := state], open)
  {
    hide Heap, KnowsState, Copied;
  }

  lemma CopiedIs(seen: Seen, s: State, entries: seq<Pair>, copy: VmState)
    requires Valid(s.stores) && entries == Listed(s.stores) && KnowsAll(seen, entries)
    requires s.metatable != null ==> TableRef(s.metatable) in seen
    requires copy == VmState.VmState(Filled(seen, entries), MetaOf(seen, s.metatable))
    ensures KnowsState(seen, s) && copy == Copied(seen, s)
  {
  }

  lemma Close(src: ShellHeap, root: Value, seen: Seen, vm: map<VmTable, VmState>,
              waiting: seq<(Table, VmTable)>, from: Table, into: VmTable)
    requires Heap(src) && Walk(src, root, seen, vm, waiting, {from})
    requires from in src.tables && into in vm && TableRef(from) in seen && seen[TableRef(from)] == VmTableRef(into)
    requires KnowsState(seen, src.tables[from]) && vm[into] == Copied(seen, src.tables[from])
    ensures Walk(src, root, seen, vm, waiting, {})
  {
    hide Heap, Linked, Queued, AllForced, KnowsState, Copied;
    assert Settled(src, seen, vm, Froms(waiting) + {});
  }

  lemma Done(src: ShellHeap, value: Value, seen: Seen, vm: map<VmTable, VmState>)
    requires Heap(src) && Walk(src, value, seen, vm, [], {}) && Knows(seen, value)
    ensures Linked(src, seen, vm) && Settled(src, seen, vm, {}) && Reachable(src, value, Tables(seen))
  {
    hide Linked, Copied;
    assert Froms([]) + {} == {};
    forall t | t in Tables(seen)
      ensures t in src.tables && Forced(src, value, TableRef(t))
    {
      assert TableRef(t) in seen;
    }
    hide Forced;
    SettledHereditary(src, seen, vm);
    hide Hereditary, Settled, Heap;
    assert value.TableRef? ==> value.t in Tables(seen);
  }

  lemma SettledHereditary(src: ShellHeap, seen: Seen, vm: map<VmTable, VmState>)
    requires Heap(src) && Settled(src, seen, vm, {})
    ensures Hereditary(src, Tables(seen))
  {
    hide Copied, Listed, Valid;
    var tables := Tables(seen);
    forall t | t in tables
      ensures t in src.tables && PairsWithin(tables, Listed(src.tables[t].stores))
      ensures src.tables[t].metatable != null ==> src.tables[t].metatable in tables
    {
      assert TableRef(t) in seen;
      var pairs := Listed(src.tables[t].stores);
      assert KnowsAll(seen, pairs);
      forall i | 0 <= i < |pairs|
        ensures pairs[i].0.TableRef? ==> pairs[i].0.t in tables
        ensures pairs[i].1.TableRef? ==> pairs[i].1.t in tables
      {
        assert Knows(seen, pairs[i].0) && Knows(seen, pairs[i].1);
      }
    }
  }
}
