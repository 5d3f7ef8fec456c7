/** Values coming back from the VM: the same walk in the other direction, filling tables the shell can
    keep. A function comes back as a new handle each time it is met. */
module FromLua {
  import opened Values
  import opened TableProofs
  import opened Luna
  import opened IntoLua

  type Brought = map<VmTable, Table>
  type Waiting = seq<(VmTable, Table)>
  type VmHeap = map<VmTable, VmState>

  const UNFILLED := State.State(EMPTY, null)

  /** In what order a table's entries were written, and what was written for each. */
  datatype Log = Log(keys: seq<VmValue>, writes: seq<Write>)

  /** What `w` comes back as; `link` says what each new reference stands for. A thread or userdata has no
      home on this side. */
  predicate Back(link: Seen, w: VmValue, v: Value) {
    match w
    case VmNil => v == Nil
    case VmBool(b) => v == Bool(b)
    case VmInteger(i) => v == Num(Int(i))
    case VmNumber(f) => v == Num(Float(f))
    case VmString(s) => v == OfBytes(s)
    case VmTableRef(_) => v.TableRef? && v in link && link[v] == w
    case VmFunction(callee) => v.FunctionRef? && v in link && link[v] == w && v.f.callable == Stashed(callee)
    case VmOther(_) => v == Nil
  }

  /** A table, a function, or a thread or userdata, which comes back as nil. */
  predicate IsVmRef(w: VmValue) {
    w.VmTableRef? || w.VmFunction? || w.VmOther?
  }

  /** Whatever holds no reference keeps its sort, its value and its truth on the way back, and a table or a function
      stays one. */
  lemma ScalarsComeBack(link: Seen, w: VmValue, v: Value)
    requires Back(link, w, v)
    ensures !IsVmRef(w) ==> SameScalar(v, w) && Textual(v)
    ensures w.VmTableRef? ==> v.TableRef? && Truthy(v)
    ensures w.VmFunction? ==> v.FunctionRef? && Truthy(v)
  {
  }

  // ------------------------------------------------------------------ the VM's heap

  predicate InVm(heap: VmHeap, w: VmValue) {
    w.VmTableRef? ==> w.t in heap
  }

  ghost predicate WholeHeap(heap: VmHeap) {
    forall u :: u in heap ==>
      && VmValid(heap[u])
      && (forall k :: k in heap[u].entries ==> InVm(heap, k) && InVm(heap, heap[u].entries[k]))
      && (heap[u].metatable != null ==> heap[u].metatable in heap)
  }

  ghost predicate EntriesWithin(tables: set<VmTable>, entries: map<VmValue, VmValue>) {
    forall k :: k in entries ==>
      (k.VmTableRef? ==> k.t in tables) && (entries[k].VmTableRef? ==> entries[k].t in tables)
  }

  ghost predicate HereditaryVm(heap: VmHeap, tables: set<VmTable>) {
    forall u :: u in tables && u in heap ==>
      EntriesWithin(tables, heap[u].entries) && (heap[u].metatable != null ==> heap[u].metatable in tables)
  }

  ghost predicate ForcedVm(heap: VmHeap, root: VmValue, w: VmValue) {
    w.VmTableRef? ==>
      && w.t in heap
      && forall d :: d <= heap.Keys && HereditaryVm(heap, d) && (root.VmTableRef? ==> root.t in d) ==> w.t in d
  }

  ghost predicate ReachableVm(heap: VmHeap, root: VmValue, tables: set<VmTable>) {
    && tables <= heap.Keys
    && HereditaryVm(heap, tables)
    && (root.VmTableRef? ==> root.t in tables)
    && (forall u :: u in tables ==> ForcedVm(heap, root, VmTableRef(u)))
  }

  // ------------------------------------------------------------------ the copy

  ghost predicate ShellSnapshot(shell: map<Table, State>)
    reads shell.Keys
  {
    forall t :: t in shell ==> StateOf(t) == shell[t]
  }

  /** The log accounts for every entry: each key once, with what it and its value came back as. */
  ghost predicate Logged(link: Seen, entries: map<VmValue, VmValue>, log: Log) {
    && |log.keys| == |log.writes|
    && Distinct(log.keys)
    && (forall k :: k in log.keys ==> k in entries)
    && (forall k :: k in entries ==> k in log.keys)
    && (forall i :: 0 <= i < |log.keys| ==>
          Back(link, log.keys[i], log.writes[i].key) && Back(link, entries[log.keys[i]], log.writes[i].value))
  }

  /** The shell table that `s` came back as. */
  ghost predicate Restored(link: Seen, s: VmState, log: Log, t: State) {
    && Logged(link, s.entries, log)
    && t.stores == Run(log.writes)
    && (if s.metatable == null then t.metatable == null
        else t.metatable != null && Back(link, VmTableRef(s.metatable), TableRef(t.metatable)))
  }

  /** Each VM table has one shell table of its own, and every new reference stands for something. */
  ghost predicate Tied(brought: Brought, link: Seen, shell: map<Table, State>) {
    && (forall u :: u in brought ==>
          brought[u] in shell && TableRef(brought[u]) in link && link[TableRef(brought[u])] == VmTableRef(u))
    && (forall v :: v in link ==> IsRef(v))
    && (forall v :: v in link && v.TableRef? ==>
          v.t in shell && link[v].VmTableRef? && link[v].t in brought && brought[link[v].t] == v.t)
    && (forall v :: v in link && v.FunctionRef? ==>
          link[v].VmFunction? && v.f.callable == Stashed(link[v].callee))
    && (forall t :: t in shell ==> TableRef(t) in link)
  }

  ghost predicate QueuedBack(brought: Brought, shell: map<Table, State>, waiting: Waiting) {
    && (forall i :: 0 <= i < |waiting| ==>
          && waiting[i].0 in brought && brought[waiting[i].0] == waiting[i].1
          && waiting[i].1 in shell && shell[waiting[i].1] == UNFILLED)
    && (forall i, j :: 0 <= i < j < |waiting| ==> waiting[i].0 != waiting[j].0)
  }

  function FromsBack(waiting: Waiting): set<VmTable> {
    set i | 0 <= i < |waiting| :: waiting[i].0
  }

  ghost predicate SettledBack(heap: VmHeap, brought: Brought, link: Seen, shell: map<Table, State>,
                              logs: map<VmTable, Log>, open: set<VmTable>)
  {
    forall u :: u in brought && u !in open ==>
      u in heap && u in logs && brought[u] in shell && Restored(link, heap[u], logs[u], shell[brought[u]])
  }

  ghost predicate AllForcedVm(heap: VmHeap, root: VmValue, brought: Brought) {
    forall u :: u in brought ==> ForcedVm(heap, root, VmTableRef(u))
  }

  /** The invariant of the walk; `busy` is the table being read, if one is. */
  ghost predicate WalkBack(heap: VmHeap, root: VmValue, brought: Brought, link: Seen, shell: map<Table, State>,
                           logs: map<VmTable, Log>, waiting: Waiting, busy: set<VmTable>)
  {
    && WholeHeap(heap)
    && Tied(brought, link, shell)
    && QueuedBack(brought, shell, waiting)
    && busy !! FromsBack(waiting) && busy <= brought.Keys
    && SettledBack(heap, brought, link, shell, logs, FromsBack(waiting) + busy)
    && AllForcedVm(heap, root, brought)
  }

  /** What `w` comes back as: a table met for the first time is made here and left for its own turn. */
  method Shallow(w: VmValue, brought: Brought, waiting: Waiting, ghost heap: VmHeap, ghost root: VmValue,
                 ghost link: Seen, ghost shell: map<Table, State>, ghost logs: map<VmTable, Log>, ghost busy: set<VmTable>)
    returns (v: Value, brought': Brought, waiting': Waiting, ghost link': Seen, ghost shell': map<Table, State>)
    requires WalkBack(heap, root, brought, link, shell, logs, waiting, busy) && ForcedVm(heap, root, w)
    requires ShellSnapshot(shell)
    ensures WalkBack(heap, root, brought', link', shell', logs, waiting', busy)
    ensures Extends(link, link') && Back(link', w, v)
    ensures !IsVmRef(w) ==> SameScalar(v, w)
    ensures ShellSnapshot(shell') && shell.Keys <= shell'.Keys && (forall t :: t in shell ==> shell'[t] == shell[t])
    ensures brought.Keys <= brought'.Keys && (forall u :: u in brought ==> brought'[u] == brought[u])
    ensures forall t :: t in shell' && t !in shell ==> fresh(t)
    ensures |brought'| - |waiting'| == |brought| - |waiting|
  {
    hide WalkBack, ForcedVm, ShellSnapshot, Extends;
    v, brought', waiting', link', shell' := Nil, brought, waiting, link, shell;
    ExtendsSelf(link);
    match w {
      case VmNil =>
      case VmBool(b) => v := Bool(b);
      case VmInteger(i) => v := Num(Int(i));
      case VmNumber(f) => v := Num(Float(f));
      case VmString(s) => v := OfBytes(s);
      case VmFunction(callee) =>
        var handle := new Function(Stashed(callee));
        v := FunctionRef(handle);
        FreshHandle(heap, root, brought, link, shell, logs, waiting, busy, handle, callee);
        link' := link[v := w];
      case VmTableRef(u) =>
        if u in brought {
          v := TableRef(brought[u]);
          Remembered(heap, root, brought, link, shell, logs, waiting, busy, u);
        } else {
          var out := new Table();
          v := TableRef(out);
          FreshTable(heap, root, brought, link, shell, logs, waiting, busy, u, out);
          ShellMore(shell, out);
          brought' := brought[u := out];
          waiting' := waiting + [(u, out)];
          link', shell' := link[v := w], shell[out := UNFILLED];
        }
      case VmOther(_) =>
    }
  }

  // ------------------------------------------------------------------ steps of the invariant

  lemma ShellMore(shell: map<Table, State>, t: Table)
    requires ShellSnapshot(shell)
    ensures ShellSnapshot(shell[t := StateOf(t)])
  {
  }

  lemma Remembered(heap: VmHeap, root: VmValue, brought: Brought, link: Seen, shell: map<Table, State>,
                   logs: map<VmTable, Log>, waiting: Waiting, busy: set<VmTable>, u: VmTable)
    requires WalkBack(heap, root, brought, link, shell, logs, waiting, busy) && u in brought
    ensures Back(link, VmTableRef(u), TableRef(brought[u]))
  {
  }

  lemma BackSame(link: Seen, more: Seen, w: VmValue, v: Value)
    requires Extends(link, more) && Back(link, w, v)
    ensures Back(more, w, v)
  {
    hide OfBytes;
  }

  lemma RestoredSame(link: Seen, more: Seen, s: VmState, log: Log, t: State)
    requires Extends(link, more) && Restored(link, s, log, t)
    ensures Restored(more, s, log, t)
  {
    hide Extends, Back, Run, Distinct;
    forall i | 0 <= i < |log.keys|
      ensures Back(more, log.keys[i], log.writes[i].key) && Back(more, s.entries[log.keys[i]], log.writes[i].value)
    {
      BackSame(link, more, log.keys[i], log.writes[i].key);
      BackSame(link, more, s.entries[log.keys[i]], log.writes[i].value);
    }
    if s.metatable != null {
      BackSame(link, more, VmTableRef(s.metatable), TableRef(t.metatable));
    }
  }

  lemma SettledBackMore(heap: VmHeap, brought: Brought, link: Seen, shell: map<Table, State>, logs: map<VmTable, Log>,
                        open: set<VmTable>, brought': Brought, link': Seen, shell': map<Table, State>, open': set<VmTable>)
    requires SettledBack(heap, brought, link, shell, logs, open) && Extends(link, link')
    requires shell.Keys <= shell'.Keys && forall t :: t in shell ==> shell'[t] == shell[t]
    requires brought.Keys <= brought'.Keys && forall u :: u in brought ==> brought'[u] == brought[u]
    requires open <= open' && forall u :: u in brought' && u !in brought ==> u in open'
    ensures SettledBack(heap, brought', link', shell', logs, open')
  {
    hide Restored, Extends;
    forall u | u in brought' && u !in open'
      ensures u in heap && u in logs && brought'[u] in shell' && Restored(link', heap[u], logs[u], shell'[brought'[u]])
    {
      RestoredSame(link, link', heap[u], logs[u], shell[brought[u]]);
    }
  }

  lemma TiedTable(brought: Brought, link: Seen, shell: map<Table, State>, u: VmTable, out: Table)
    requires Tied(brought, link, shell) && u !in brought && out !in shell
    ensures TableRef(out) !in link
    ensures Tied(brought[u := out], link[TableRef(out) := VmTableRef(u)], shell[out := UNFILLED])
  {
    assert TableRef(out) !in link;
  }

  lemma TiedHandle(brought: Brought, link: Seen, shell: map<Table, State>, f: Function, callee: LuaFunction)
    requires Tied(brought, link, shell) && FunctionRef(f) !in link && f.callable == Stashed(callee)
    ensures Tied(brought, link[FunctionRef(f) := VmFunction(callee)], shell)
  {
  }

  lemma QueuedBackTable(brought: Brought, shell: map<Table, State>, waiting: Waiting, u: VmTable, out: Table)
    requires QueuedBack(brought, shell, waiting) && u !in brought && out !in shell
    ensures QueuedBack(brought[u := out], shell[out := UNFILLED], waiting + [(u, out)])
    ensures FromsBack(waiting + [(u, out)]) == FromsBack(waiting) + {u}
    ensures u !in FromsBack(waiting)
  {
    var waiting' := waiting + [(u, out)];
    assert waiting'[|waiting|].0 == u;
    forall x | x in FromsBack(waiting)
      ensures x in FromsBack(waiting')
    {
      var i :| 0 <= i < |waiting| && waiting[i].0 == x;
      assert waiting'[i].0 == x;
    }
  }

  lemma ExtendsOne(link: Seen, v: Value, w: VmValue)
    requires v !in link
    ensures Extends(link, link[v := w])
  {
  }

  lemma FreshTable(heap: VmHeap, root: VmValue, brought: Brought, link: Seen, shell: map<Table, State>,
                   logs: map<VmTable, Log>, waiting: Waiting, busy: set<VmTable>, u: VmTable, out: Table)
    requires WalkBack(heap, root, brought, link, shell, logs, waiting, busy)
    requires ForcedVm(heap, root, VmTableRef(u)) && u !in brought && out !in shell
    ensures WalkBack(heap, root, brought[u := out], link[TableRef(out) := VmTableRef(u)], shell[out := UNFILLED],
                     logs, waiting + [(u, out)], busy)
    ensures Extends(link, link[TableRef(out) := VmTableRef(u)])
  {
    hide WholeHeap, Tied, QueuedBack, SettledBack, ForcedVm, Extends, FromsBack;
    var brought', link', shell' := brought[u := out], link[TableRef(out) := VmTableRef(u)], shell[out := UNFILLED];
    TiedTable(brought, link, shell, u, out);
    QueuedBackTable(brought, shell, waiting, u, out);
    ExtendsOne(link, TableRef(out), VmTableRef(u));
    SettledBackMore(heap, brought, link, shell, logs, FromsBack(waiting) + busy,
                    brought', link', shell', FromsBack(waiting + [(u, out)]) + busy);
  }

  lemma FreshHandle(heap: VmHeap, root: VmValue, brought: Brought, link: Seen, shell: map<Table, State>,
                    logs: map<VmTable, Log>, waiting: Waiting, busy: set<VmTable>, f: Function, callee: LuaFunction)
    requires WalkBack(heap, root, brought, link, shell, logs, waiting, busy)
    requires FunctionRef(f) !in link && f.callable == Stashed(callee)
    ensures WalkBack(heap, root, brought, link[FunctionRef(f) := VmFunction(callee)], shell, logs, waiting, busy)
    ensures Extends(link, link[FunctionRef(f) := VmFunction(callee)])
  {
    hide WholeHeap, Tied, QueuedBack, SettledBack, AllForcedVm, Extends, FromsBack;
    var link' := link[FunctionRef(f) := VmFunction(callee)];
    TiedHandle(brought, link, shell, f, callee);
    ExtendsOne(link, FunctionRef(f), VmFunction(callee));
    SettledBackMore(heap, brought, link, shell, logs, FromsBack(waiting) + busy,
                    brought, link', shell, FromsBack(waiting) + busy);
  }

  // ------------------------------------------------------------------ the loop

  /** `from_lua`. `heap` is the heap of VM tables the value lives in. */
  method Transfer(w: VmValue, ghost heap: VmHeap)
    returns (root: Value, ghost brought: Brought, ghost link: Seen, ghost shell: map<Table, State>,
             ghost logs: map<VmTable, Log>, ghost fills: nat)
    requires VmSnapshot(heap) && WholeHeap(heap) && InVm(heap, w)
    ensures Tied(brought, link, shell) && ShellSnapshot(shell) && forall t :: t in shell ==> fresh(t)
    ensures SettledBack(heap, brought, link, shell, logs, {})
    ensures ReachableVm(heap, w, brought.Keys)
    ensures Back(link, w, root)
    ensures !IsVmRef(w) ==> SameScalar(root, w)
    ensures fills == |brought|
  {
    hide VmSnapshot, ShellSnapshot, WholeHeap, WalkBack, Tied, SettledBack, ReachableVm, ForcedVm, Back, Extends;
    var known: Brought, waiting := map[], [];
    link, shell, logs, fills := map[], map[], map[], 0;
    StartBack(heap, w);
    NoShell();
    root, known, waiting, link, shell := Shallow(w, known, waiting, heap, w, link, shell, logs, {});
    while waiting != []
      invariant WalkBack(heap, w, known, link, shell, logs, waiting, {})
      invariant ShellSnapshot(shell) && forall t :: t in shell ==> fresh(t)
      invariant VmSnapshot(heap)
      invariant Back(link, w, root)
      invariant fills + |waiting| == |known|
      decreases |heap| - fills
    {
      FillsBoundedBack(heap, w, known, link, shell, logs, waiting);
      var (from, into) := waiting[|waiting| - 1];
      assert waiting == waiting[..|waiting| - 1] + [(from, into)];
      waiting := waiting[..|waiting| - 1];
      ghost var before := link;
      known, waiting, link, shell, logs := Fill(from, into, known, waiting, heap, w, link, shell, logs);
      BackSame(before, link, w, root);
      fills := fills + 1;
    }
    assert waiting == [];
    DoneBack(heap, w, root, known, link, shell, logs);
    brought := known;
  }

  /** What has been read so far: `rest` is what has not. */
  ghost predicate PartLogged(link: Seen, entries: map<VmValue, VmValue>, log: Log, rest: map<VmValue, VmValue>) {
    && |log.keys| == |log.writes|
    && Distinct(log.keys)
    && (forall k :: k in log.keys ==> k in entries && k !in rest)
    && (forall k :: k in entries ==> k in log.keys || k in rest)
    && (forall k :: k in rest ==> k in entries && rest[k] == entries[k])
    && (forall i :: 0 <= i < |log.keys| ==>
          Back(link, log.keys[i], log.writes[i].key) && Back(link, entries[log.keys[i]], log.writes[i].value))
  }

  /** One turn of the loop: every entry of `from`, in whatever order the VM gives them, and its metatable,
      onto `into`. */
  method Fill(from: VmTable, into: Table, brought: Brought, waiting: Waiting, ghost heap: VmHeap, ghost root: VmValue,
              ghost link: Seen, ghost shell: map<Table, State>, ghost logs: map<VmTable, Log>)
    returns (brought': Brought, waiting': Waiting, ghost link': Seen, ghost shell': map<Table, State>,
             ghost logs': map<VmTable, Log>)
    requires VmSnapshot(heap) && ShellSnapshot(shell)
    requires WalkBack(heap, root, brought, link, shell, logs, waiting + [(from, into)], {})
    modifies into
    ensures WalkBack(heap, root, brought', link', shell', logs', waiting', {}) && Extends(link, link')
    ensures VmSnapshot(heap) && ShellSnapshot(shell') && forall t :: t in shell' && t !in shell ==> fresh(t)
    ensures |brought'| - |waiting'| == |brought| - |waiting|
  {
    hide VmSnapshot, ShellSnapshot, WalkBack, ForcedVm, Back, Extends, PartLogged, Run, Logged, Stored, Restored, WholeHeap;
    PopBack(heap, root, brought, link, shell, logs, waiting, from, into);
    SourceBack(heap, from);
    brought', waiting', link', shell' := brought, waiting, link, shell;
    ExtendsSelf(link);
    var rest := from.entries;
    ghost var log := Log([], []);
    NothingLogged(link, rest);
    while rest != map[]
      invariant WalkBack(heap, root, brought', link', shell', logs, waiting', {from}) && Extends(link, link')
      invariant VmSnapshot(heap) && ShellSnapshot(shell') && into in shell'
      invariant forall t :: t in shell' && t !in shell ==> fresh(t)
      invariant from in brought' && brought'[from] == into
      invariant PartLogged(link', heap[from].entries, log, rest)
      invariant shell'[into] == State.State(Run(log.writes), null)
      invariant |brought'| - |waiting'| == |brought| - |waiting|
      decreases rest.Keys
    {
      var k :| k in rest;
      ForcedEntryVm(heap, root, brought', link', shell', logs, waiting', from, k, log, rest);
      var key, item;
      ghost var link0 := link';
      key, brought', waiting', link', shell' := Shallow(k, brought', waiting', heap, root, link', shell', logs, {from});
      ghost var link1 := link';
      item, brought', waiting', link', shell' := Shallow(rest[k], brought', waiting', heap, root, link', shell', logs, {from});
      ExtendsTrans(link, link0, link1);
      ExtendsTrans(link, link1, link');
      LogMore(link0, link1, link', heap[from].entries, log, rest, k, key, item);
      RunMore(log.writes, key, item);
      log := Log(log.keys + [k], log.writes + [Write(key, item)]);
      RefillBack(heap, root, brought', link', shell', logs, waiting', from, into, State.State(Run(log.writes), null));
      shell' := WriteBack(into, key, item, shell', heap);
      rest := rest - {k};
    }
    AllLogged(link', heap[from].entries, log, rest);
    ghost var link2 := link';
    brought', waiting', link', shell' := FillMeta(from, into, brought', waiting', heap, root, link', shell', logs, log);
    ExtendsTrans(link, link2, link');
    logs' := logs[from := log];
    CloseBack(heap, root, brought', link', shell', logs, waiting', from, into, log);
  }

  method FillMeta(from: VmTable, into: Table, brought: Brought, waiting: Waiting, ghost heap: VmHeap, ghost root: VmValue,
                  ghost link: Seen, ghost shell: map<Table, State>, ghost logs: map<VmTable, Log>, ghost log: Log)
    returns (brought': Brought, waiting': Waiting, ghost link': Seen, ghost shell': map<Table, State>)
    requires VmSnapshot(heap) && ShellSnapshot(shell) && from in heap && into in shell
    requires WalkBack(heap, root, brought, link, shell, logs, waiting, {from})
    requires from in brought && brought[from] == into
    requires Logged(link, heap[from].entries, log) && shell[into] == State.State(Run(log.writes), null)
    modifies into
    ensures WalkBack(heap, root, brought', link', shell', logs, waiting', {from}) && Extends(link, link')
    ensures VmSnapshot(heap) && ShellSnapshot(shell') && shell.Keys <= shell'.Keys
    ensures forall t :: t in shell' && t !in shell ==> fresh(t)
    ensures from in brought' && brought'[from] == into && Restored(link', heap[from], log, shell'[into])
    ensures |brought'| - |waiting'| == |brought| - |waiting|
  {
    hide VmSnapshot, ShellSnapshot, WalkBack, ForcedVm, Back, Extends, Logged, Run;
    SourceBack(heap, from);
    ExtendsSelf(link);
    brought', waiting', link', shell' := brought, waiting, link, shell;
    if from.metatable != null {
      ForcedMetaVm(heap, root, brought, link, shell, logs, waiting, from);
      var meta;
      meta, brought', waiting', link', shell' :=
        Shallow(VmTableRef(from.metatable), brought, waiting, heap, root, link, shell, logs, {from});
      LoggedSame(link, link', heap[from].entries, log);
      MetaIsTable(link', from.metatable, meta);
      if meta.TableRef? {
        RefillBack(heap, root, brought', link', shell', logs, waiting', from, into, shell'[into].(metatable := meta.t));
        shell' := SetMetaBack(into, meta.t, shell', heap);
      }
    }
  }

  method WriteBack(into: Table, key: Value, item: Value, ghost shell: map<Table, State>, ghost heap: VmHeap)
    returns (ghost shell': map<Table, State>)
    requires ShellSnapshot(shell) && VmSnapshot(heap) && into in shell
    modifies into
    ensures shell' == shell[into := State.State(Stored(shell[into].stores, key, item), shell[into].metatable)]
    ensures ShellSnapshot(shell') && VmSnapshot(heap)
  {
    hide Stored;
    into.Set(key, item);
    shell' := shell[into := StateOf(into)];
  }

  method SetMetaBack(into: Table, meta: Table, ghost shell: map<Table, State>, ghost heap: VmHeap)
    returns (ghost shell': map<Table, State>)
    requires ShellSnapshot(shell) && VmSnapshot(heap) && into in shell
    modifies into
    ensures shell' == shell[into := shell[into].(metatable := meta)]
    ensures ShellSnapshot(shell') && VmSnapshot(heap)
  {
    into.metatable := meta;
    shell' := shell[into := StateOf(into)];
  }

  // ------------------------------------------------------------------ steps of the loop

  lemma StartBack(heap: VmHeap, w: VmValue)
    requires WholeHeap(heap) && InVm(heap, w)
    ensures WalkBack(heap, w, map[], map[], map[], map[], [], {}) && ForcedVm(heap, w, w)
  {
  }

  lemma NoShell()
    ensures ShellSnapshot(map[])
  {
  }

  lemma FillsBoundedBack(heap: VmHeap, root: VmValue, brought: Brought, link: Seen, shell: map<Table, State>,
                         logs: map<VmTable, Log>, waiting: Waiting)
    requires WalkBack(heap, root, brought, link, shell, logs, waiting, {})
    ensures |brought| <= |heap|
    ensures forall i :: 0 <= i < |waiting| ==> waiting[i].1 in shell
  {
    forall u | u in brought
      ensures u in heap
    {
      assert ForcedVm(heap, root, VmTableRef(u));
    }
    Subset(brought.Keys, heap.Keys);
  }

  lemma PopBack(heap: VmHeap, root: VmValue, brought: Brought, link: Seen, shell: map<Table, State>,
                logs: map<VmTable, Log>, waiting: Waiting, from: VmTable, into: Table)
    requires WalkBack(heap, root, brought, link, shell, logs, waiting + [(from, into)], {})
    ensures WalkBack(heap, root, brought, link, shell, logs, waiting, {from})
    ensures from in heap && into in shell && shell[into] == UNFILLED && WholeHeap(heap)
    ensures from in brought && brought[from] == into
  {
    hide WholeHeap, Tied, SettledBack;
    var queue := waiting + [(from, into)];
    assert queue[|waiting|] == (from, into);
    assert forall i :: 0 <= i < |waiting| ==> queue[i] == waiting[i];
    assert ForcedVm(heap, root, VmTableRef(from));
    assert FromsBack(queue) == FromsBack(waiting) + {from} by {
      forall x | x in FromsBack(waiting)
        ensures x in FromsBack(queue)
      {
        var i :| 0 <= i < |waiting| && waiting[i].0 == x;
        assert queue[i].0 == x;
      }
    }
    assert from !in FromsBack(waiting);
    assert FromsBack(queue) + {} == FromsBack(waiting) + {from};
  }

  lemma SourceBack(heap: VmHeap, from: VmTable)
    requires VmSnapshot(heap) && from in heap
    ensures VmStateOf(from) == heap[from]
  {
  }

  lemma NothingLogged(link: Seen, entries: map<VmValue, VmValue>)
    ensures PartLogged(link, entries, Log([], []), entries)
    ensures Run([]) == EMPTY
  {
  }

  lemma RunMore(writes: seq<Write>, key: Value, item: Value)
    ensures Run(writes + [Write(key, item)]) == Stored(Run(writes), key, item)
  {
    hide Stored;
    var all := writes + [Write(key, item)];
    assert all[..|all| - 1] == writes;
  }

  lemma ForcedChildVm(heap: VmHeap, root: VmValue, from: VmTable, w: VmValue)
    requires ForcedVm(heap, root, VmTableRef(from)) && InVm(heap, w)
    requires w.VmTableRef? ==> forall d :: d <= heap.Keys && HereditaryVm(heap, d) && from in d ==> w.t in d
    ensures ForcedVm(heap, root, w)
  {
    hide HereditaryVm;
  }

  lemma ForcedEntryVm(heap: VmHeap, root: VmValue, brought: Brought, link: Seen, shell: map<Table, State>,
                      logs: map<VmTable, Log>, waiting: Waiting, from: VmTable, k: VmValue, log: Log, rest: map<VmValue, VmValue>)
    requires WalkBack(heap, root, brought, link, shell, logs, waiting, {from}) && from in heap && from in brought
    requires PartLogged(link, heap[from].entries, log, rest) && k in rest
    ensures ForcedVm(heap, root, k) && ForcedVm(heap, root, rest[k])
  {
    hide Back, Tied, SettledBack, QueuedBack, Distinct;
    assert ForcedVm(heap, root, VmTableRef(from));
    assert k in heap[from].entries && rest[k] == heap[from].entries[k];
    hide ForcedVm, PartLogged;
    ForcedChildVm(heap, root, from, k);
    ForcedChildVm(heap, root, from, rest[k]);
  }

  lemma ForcedMetaVm(heap: VmHeap, root: VmValue, brought: Brought, link: Seen, shell: map<Table, State>,
                     logs: map<VmTable, Log>, waiting: Waiting, from: VmTable)
    requires WalkBack(heap, root, brought, link, shell, logs, waiting, {from}) && from in heap && from in brought
    requires heap[from].metatable != null
    ensures ForcedVm(heap, root, VmTableRef(heap[from].metatable))
  {
    hide Back, Tied, SettledBack, QueuedBack, Distinct;
    assert ForcedVm(heap, root, VmTableRef(from));
    hide ForcedVm;
    ForcedChildVm(heap, root, from, VmTableRef(heap[from].metatable));
  }

  lemma PartLoggedSame(link: Seen, more: Seen, entries: map<VmValue, VmValue>, log: Log, rest: map<VmValue, VmValue>)
    requires Extends(link, more) && PartLogged(link, entries, log, rest)
    ensures PartLogged(more, entries, log, rest)
  {
    hide Extends, Back, Distinct;
    forall i | 0 <= i < |log.keys|
      ensures Back(more, log.keys[i], log.writes[i].key) && Back(more, entries[log.keys[i]], log.writes[i].value)
    {
      BackSame(link, more, log.keys[i], log.writes[i].key);
      BackSame(link, more, entries[log.keys[i]], log.writes[i].value);
    }
  }

  lemma LogMore(link0: Seen, link1: Seen, link2: Seen, entries: map<VmValue, VmValue>, log: Log,
                rest: map<VmValue, VmValue>, k: VmValue, key: Value, item: Value)
    requires Extends(link0, link1) && Extends(link1, link2)
    requires PartLogged(link0, entries, log, rest) && k in rest
    requires Back(link1, k, key) && Back(link2, rest[k], item)
    ensures PartLogged(link2, entries, Log(log.keys + [k], log.writes + [Write(key, item)]), rest - {k})
  {
    ExtendsTrans(link0, link1, link2);
    PartLoggedSame(link0, link2, entries, log, rest);
    BackSame(link1, link2, k, key);
    hide Extends, Back;
    assert k !in log.keys;
    assert forall x :: x in log.keys + [k] <==> x in log.keys || x == k;
    assert Distinct(log.keys + [k]);
  }

  lemma AllLogged(link: Seen, entries: map<VmValue, VmValue>, log: Log, rest: map<VmValue, VmValue>)
    requires PartLogged(link, entries, log, rest) && rest == map[]
    ensures Logged(link, entries, log)
  {
    hide Back, Distinct;
  }

  lemma LoggedSame(link: Seen, more: Seen, entries: map<VmValue, VmValue>, log: Log)
    requires Extends(link, more) && Logged(link, entries, log)
    ensures Logged(more, entries, log)
  {
    hide Extends, Back, Distinct;
    forall i | 0 <= i < |log.keys|
      ensures Back(more, log.keys[i], log.writes[i].key) && Back(more, entries[log.keys[i]], log.writes[i].value)
    {
      BackSame(link, more, log.keys[i], log.writes[i].key);
      BackSame(link, more, entries[log.keys[i]], log.writes[i].value);
    }
  }

  lemma MetaIsTable(link: Seen, meta: VmTable, v: Value)
    requires Back(link, VmTableRef(meta), v)
    ensures v.TableRef? && Back(link, VmTableRef(meta), TableRef(v.t))
  {
  }

  lemma RefillBack(heap: VmHeap, root: VmValue, brought: Brought, link: Seen, shell: map<Table, State>,
                   logs: map<VmTable, Log>, waiting: Waiting, from: VmTable, into: Table, state: State)
    requires WalkBack(heap, root, brought, link, shell, logs, waiting, {from})
    requires into in shell && from in brought && brought[from] == into
    ensures WalkBack(heap, root, brought, link, shell[into := state], logs, waiting, {from})
  {
    hide WholeHeap, AllForcedVm, Restored;
    forall i | 0 <= i < |waiting|
      ensures waiting[i].1 != into
    {
      assert waiting[i].0 in FromsBack(waiting);
      assert link[TableRef(waiting[i].1)] == VmTableRef(waiting[i].0);
    }
    assert link[TableRef(into)] == VmTableRef(from);
    RefillSettledBack(heap, brought, link, shell, logs, FromsBack(waiting) + {from}, from, into, state);
    RefillTied(brought, link, shell, into, state);
    hide SettledBack, Tied;
  }

  lemma RefillTied(brought: Brought, link: Seen, shell: map<Table, State>, into: Table, state: State)
    requires Tied(brought, link, shell) && into in shell
    ensures Tied(brought, link, shell[into := state])
  {
    assert shell[into := state].Keys == shell.Keys;
  }

  lemma RefillSettledBack(heap: VmHeap, brought: Brought, link: Seen, shell: map<Table, State>, logs: map<VmTable, Log>,
                          open: set<VmTable>, from: VmTable, into: Table, state: State)
    requires SettledBack(heap, brought, link, shell, logs, open) && Tied(brought, link, shell)
    requires from in open && from in brought && brought[from] == into && into in shell
    ensures SettledBack(heap, brought, link, shell[into := state], logs, open)
  {
    hide Restored;
    forall u | u in brought && u !in open
      ensures brought[u] != into
    {
      assert link[TableRef(brought[u])] == VmTableRef(u);
    }
  }

  lemma CloseBack(heap: VmHeap, root: VmValue, brought: Brought, link: Seen, shell: map<Table, State>,
                  logs: map<VmTable, Log>, waiting: Waiting, from: VmTable, into: Table, log: Log)
    requires WalkBack(heap, root, brought, link, shell, logs, waiting, {from})
    requires from in heap && from in brought && brought[from] == into && into in shell
    requires Restored(link, heap[from], log, shell[into])
    ensures WalkBack(heap, root, brought, link, shell, logs[from := log], waiting, {})
  {
    hide WholeHeap, Tied, QueuedBack, AllForcedVm, Restored;
    assert SettledBack(heap, brought, link, shell, logs[from := log], FromsBack(waiting) + {});
  }

  lemma DoneBack(heap: VmHeap, w: VmValue, root: Value, brought: Brought, link: Seen, shell: map<Table, State>,
                 logs: map<VmTable, Log>)
    requires WalkBack(heap, w, brought, link, shell, logs, [], {}) && Back(link, w, root)
    ensures Tied(brought, link, shell) && SettledBack(heap, brought, link, shell, logs, {})
    ensures ReachableVm(heap, w, brought.Keys)
  {
    hide Restored;
    assert FromsBack([]) + {} == {};
    forall u | u in brought
      ensures u in heap && ForcedVm(heap, w, VmTableRef(u))
    {
    }
    hide ForcedVm;
    SettledHereditaryVm(heap, brought, link, shell, logs);
    hide HereditaryVm, SettledBack, WholeHeap;
  }

  lemma BackIsTied(brought: Brought, link: Seen, shell: map<Table, State>, w: VmValue, v: Value)
    requires Tied(brought, link, shell) && Back(link, w, v)
    ensures w.VmTableRef? ==> w.t in brought
  {
  }

  lemma SettledHereditaryVm(heap: VmHeap, brought: Brought, link: Seen, shell: map<Table, State>, logs: map<VmTable, Log>)
    requires Tied(brought, link, shell) && SettledBack(heap, brought, link, shell, logs, {})
    ensures HereditaryVm(heap, brought.Keys)
  {
    hide Tied, Back, Run;
    forall u | u in brought
      ensures u in heap && EntriesWithin(brought.Keys, heap[u].entries)
      ensures heap[u].metatable != null ==> heap[u].metatable in brought
    {
      var s, log := heap[u], logs[u];
      assert Restored(link, s, log, shell[brought[u]]);
      forall k | k in s.entries
        ensures k.VmTableRef? ==> k.t in brought
        ensures s.entries[k].VmTableRef? ==> s.entries[k].t in brought
      {
        var i :| 0 <= i < |log.keys| && log.keys[i] == k;
        BackIsTied(brought, link, shell, k, log.writes[i].key);
        BackIsTied(brought, link, shell, s.entries[k], log.writes[i].value);
      }
      if s.metatable != null {
        BackIsTied(brought, link, shell, VmTableRef(s.metatable), TableRef(shell[brought[u]].metatable));
      }
    }
  }
}
