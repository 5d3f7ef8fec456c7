/** The value the shell and its Lua share, and the table: an array part, a hash part, the hash keys in
    the order they were first written, and the objects behind keys that are references. */
module Values {
  import opened Wrappers
  import Utf8

  type Int64 = i: int | -0x8000_0000_0000_0000 <= i < 0x8000_0000_0000_0000

  const MAX_INT64: Int64 := 0x7FFF_FFFF_FFFF_FFFF
  const MIN_INT64: Int64 := -0x8000_0000_0000_0000

  /** A float, as far as keys can tell one from another: whole and finite, neither (known by its bit
      pattern), or not a number. */
  datatype Float = Whole(n: int) | Other(bits: nat) | NaN

  datatype Number = Int(i: Int64) | Float(f: Float)
  {
    /** The integer value, if there is one exactly. The cast from a float saturates. */
    function AsInt(): Option<Int64> {
      match this
      case Int(i) => Some(i)
      case Float(Whole(n)) => Some(if n > MAX_INT64 then MAX_INT64 else if n < MIN_INT64 then MIN_INT64 else n)
      case Float(_) => None
    }
  }

  /** What a callable is: a bare name, a Rust closure, a Lua function kept alive, or something the
      boundary does not know. */
  datatype Callable = Named | Native | Stashed(handle: LuaFunction) | Foreign

  /** A function inside the VM; a callback made for a Rust closure remembers which. */
  class LuaFunction {
    const wraps: Function?

    constructor (wraps: Function?)
      ensures this.wraps == wraps
    {
      this.wraps := wraps;
    }
  }

  class Function {
    const callable: Callable

    constructor (callable: Callable)
      ensures this.callable == callable
    {
      this.callable := callable;
    }
  }

  datatype Value =
    | Nil
    | Bool(b: bool)
    | Num(n: Number)
    | Str(text: Utf8.Bytes)
    | Raw(bytes: Utf8.Bytes)
    | TableRef(t: Table)
    | FunctionRef(f: Function)

  datatype Key =
    | BoolKey(b: bool)
    | IntKey(i: int)
    | FloatKey(bits: nat)
    | StrKey(text: Utf8.Bytes)
    | RawKey(bytes: Utf8.Bytes)
    | RefKey(o: object)

  /** The only way a byte string is built: text is `Str`, anything else is `Raw`. */
  function OfBytes(b: Utf8.Bytes): Value {
    if Utf8.Valid(b) then Str(b) else Raw(b)
  }

  /** What that keeps true of every value. */
  predicate Textual(v: Value) {
    (v.Str? ==> Utf8.Valid(v.text)) && (v.Raw? ==> !Utf8.Valid(v.bytes))
  }

  /** Only nil and `false` are false. */
  predicate Truthy(v: Value) {
    v != Nil && v != Bool(false)
  }

  /** Lua's `==`: numbers across their sorts, references by identity. A float that is a number is equal to the
      floats of its own bits alone, and a whole one compares as the integer it is cast to. */
  predicate LuaEq(a: Value, b: Value) {
    if a.Num? && b.Num? then
      if a.n.AsInt().Some? && b.n.AsInt().Some? then a.n.AsInt() == b.n.AsInt()
      else a.n == b.n && !a.n.f.NaN?
    else a == b
  }

  /** Where a table keeps what is stored under `v`: equal keys are one, and nil and NaN are none at all. */
  function KeyOf(v: Value): Option<Key> {
    match v
    case Nil => None
    case Bool(b) => Some(BoolKey(b))
    case Num(n) =>
      (match n.AsInt()
       case Some(i) => Some(IntKey(i))
       case None => if n.f.NaN? then None else Some(FloatKey(n.f.bits)))
    case Str(text) => Some(StrKey(text))
    case Raw(bytes) => Some(RawKey(bytes))
    case TableRef(t) => Some(RefKey(t))
    case FunctionRef(f) => Some(RefKey(f))
  }

  predicate InRange(k: Key) {
    k.IntKey? ==> MIN_INT64 <= k.i <= MAX_INT64
  }

  /** The value a key stands for; a reference needs the object kept beside it. */
  function ValueOf(k: Key, objects: map<object, Value>): Value
    requires InRange(k)
  {
    match k
    case BoolKey(b) => Bool(b)
    case IntKey(i) => Num(Int(i))
    case FloatKey(bits) => Num(Float(Other(bits)))
    case StrKey(text) => Str(text)
    case RawKey(bytes) => Raw(bytes)
    case RefKey(o) => if o in objects then objects[o] else Nil
  }

  // ------------------------------------------------------------------ the table as a value

  /** Everything a table stores but its metatable. */
  datatype Store = Store(items: seq<Value>, hash: map<Key, Value>, order: seq<Key>, objects: map<object, Value>)

  const EMPTY := Store([], map[], [], map[])

  ghost predicate Distinct<T>(s: seq<T>) {
    forall i, j :: 0 <= i < j < |s| ==> s[i] != s[j]
  }

  /** The sequence part never ends in nil. */
  predicate SequencePart(items: seq<Value>) {
    |items| <= MAX_INT64 && (items != [] ==> items[|items| - 1] != Nil)
  }

  /** The hash part holds no nil, and no key from 1 to `n`. */
  ghost predicate HashPart(hash: map<Key, Value>, n: int) {
    && (forall k :: k in hash ==> hash[k] != Nil && InRange(k))
    && (forall i :: 1 <= i <= n ==> IntKey(i) !in hash)
  }

  /** The order lists exactly the hash keys, each once. */
  ghost predicate OrderPart(order: seq<Key>, hash: set<Key>) {
    && Distinct(order)
    && (forall k :: k in order ==> k in hash)
    && (forall k :: k in hash ==> k in order)
  }

  /** The kept objects are exactly those whose keys are in the hash part. */
  ghost predicate ObjectsPart(objects: map<object, Value>, hash: set<Key>) {
    && (forall k :: k in hash && k.RefKey? ==> k.o in objects)
    && (forall o :: o in objects ==> RefKey(o) in hash && KeyOf(objects[o]) == Some(RefKey(o)))
  }

  /** What every write keeps. The hash part never holds the key that would continue the sequence, so
      `#t` is a border and no key has two homes. */
  ghost predicate Valid(s: Store) {
    && SequencePart(s.items)
    && HashPart(s.hash, |s.items| + 1)
    && OrderPart(s.order, s.hash.Keys)
    && ObjectsPart(s.objects, s.hash.Keys)
  }

  /** The finite map a table is: no key has the value nil. */
  ghost function Contents(s: Store): map<Key, Value> {
    s.hash + (map i | 1 <= i <= |s.items| && s.items[i - 1] != Nil :: IntKey(i) := s.items[i - 1])
  }

  /** What a write means: nil and NaN keys are ignored, nil removes. */
  ghost function Written(m: map<Key, Value>, key: Value, value: Value): map<Key, Value> {
    match KeyOf(key)
    case None => m
    case Some(k) => if value == Nil then m - {k} else m[k := value]
  }

  /** What a read answers. */
  ghost function Looked(m: map<Key, Value>, key: Value): Value {
    match KeyOf(key)
    case None => Nil
    case Some(k) => if k in m then m[k] else Nil
  }

  // ------------------------------------------------------------------ what the code does, on values

  /** The position `key` names in the sequence part, if it can name one. */
  function Position(key: Value): Option<nat> {
    if key.Num? && key.n.AsInt().Some? && key.n.AsInt().value >= 1 then Some(key.n.AsInt().value) else None
  }

  function Got(s: Store, key: Value): Value {
    if Position(key).Some? && Position(key).value <= |s.items| then s.items[Position(key).value - 1]
    else match KeyOf(key)
      case None => Nil
      case Some(k) => if k in s.hash then s.hash[k] else Nil
  }

  /** Without the nils it ends in. */
  function Trimmed(items: seq<Value>): seq<Value> {
    if |items| > 0 && items[|items| - 1] == Nil then Trimmed(items[..|items| - 1]) else items
  }

  function Without<T(==)>(s: seq<T>, x: T): seq<T> {
    if s == [] then [] else if s[0] == x then Without(s[1..], x) else [s[0]] + Without(s[1..], x)
  }

  /** The hash entries that follow the sequence, moved onto its end. */
  function Joined(s: Store): Store
    decreases s.hash.Keys
  {
    var next := IntKey(|s.items| + 1);
    if next !in s.hash then s
    else Joined(s.(items := s.items + [s.hash[next]], hash := s.hash - {next}, order := Without(s.order, next)))
  }

  function Stored(s: Store, key: Value, value: Value): Store {
    var at := Position(key);
    if at.Some? && at.value <= |s.items| then s.(items := Trimmed(s.items[at.value - 1 := value]))
    else if at.Some? && at.value == |s.items| + 1 && value != Nil then Joined(s.(items := s.items + [value]))
    else HashStored(s, key, value)
  }

  /** A write that leaves the sequence part alone. */
  function HashStored(s: Store, key: Value, value: Value): Store {
    match KeyOf(key)
    case None => s
    case Some(k) =>
      if value == Nil then
        Store(s.items, s.hash - {k}, Without(s.order, k), if k.RefKey? then s.objects - {k.o} else s.objects)
      else
        Store(s.items, s.hash[k := value], if k in s.hash then s.order else s.order + [k],
              if k.RefKey? then s.objects[k.o := key] else s.objects)
  }

  // ------------------------------------------------------------------ the code itself

  class Table {
    var items: seq<Value>
    var hash: map<Key, Value>
    var order: seq<Key>
    var objects: map<object, Value>
    var metatable: Table?

    constructor ()
      ensures Stores() == EMPTY && metatable == null
    {
      items, hash, order, objects, metatable := [], map[], [], map[], null;
    }

    ghost function Stores(): Store
      reads this
    {
      Store(items, hash, order, objects)
    }

    method Get(key: Value) returns (value: Value)
      ensures value == Got(Stores(), key)
    {
      if key.Num? {
        var at := key.n.AsInt();
        if at.Some? && at.value >= 1 && at.value <= |items| {
          return items[at.value - 1];
        }
      }
      var k := KeyOf(key);
      value := if k.Some? && k.value in hash then hash[k.value] else Nil;
    }

    method Set(key: Value, value: Value)
      modifies this
      ensures Stores() == Stored(old(Stores()), key, value) && metatable == old(metatable)
    {
      hide KeyOf, Without, HashStored;
      if key.Num? && key.n.AsInt().Some? && key.n.AsInt().value >= 1 {
        var index := key.n.AsInt().value;
        if index <= |items| {
          items := items[index - 1 := value];
          while |items| > 0 && items[|items| - 1] == Nil
            invariant Trimmed(items) == Trimmed(old(items)[index - 1 := value])
            invariant hash == old(hash) && order == old(order) && objects == old(objects)
            invariant metatable == old(metatable)
          {
            items := items[..|items| - 1];
          }
          return;
        }
        if index == |items| + 1 && value != Nil {
          items := items + [value];
          var next := |items| + 1;
          while IntKey(next) in hash
            invariant next == |items| + 1
            invariant Joined(Stores()) == Joined(old(Stores()).(items := old(items) + [value]))
            invariant metatable == old(metatable)
            decreases hash.Keys
          {
            var v := hash[IntKey(next)];
            hash := hash - {IntKey(next)};
            order := Without(order, IntKey(next));
            items := items + [v];
            next := next + 1;
          }
          return;
        }
      }
      SetHash(key, value);
    }

    /** The rest of `Set`: a write that leaves the sequence part alone. */
    method SetHash(key: Value, value: Value)
      modifies this
      ensures Stores() == HashStored(old(Stores()), key, value) && metatable == old(metatable)
    {
      var k := KeyOf(key);
      if k.None? {
        return;
      }
      if k.value.RefKey? {
        objects := objects[k.value.o := key];
      }
      if value == Nil {
        hash := hash - {k.value};
        order := Without(order, k.value);
        if k.value.RefKey? {
          objects := objects - {k.value.o};
          assert objects == old(objects) - {k.value.o};
        }
      } else {
        var isNew := k.value !in hash;
        hash := hash[k.value := value];
        if isNew {
          order := order + [k.value];
        }
      }
    }

    method Length() returns (n: nat)
      ensures n == |items|
    {
      n := |items|;
    }

    method Pairs() returns (out: seq<(Value, Value)>)
      requires Valid(Stores())
      ensures out == Listed(Stores())
    {
      hide Valid;
      Listable(Stores());
      out := [];
      for i := 0 to |items|
        invariant i <= MAX_INT64
        invariant out == ItemPairs(items, i)
      {
        if items[i] != Nil {
          out := out + [(Num(Int(i + 1)), items[i])];
        }
      }
      for j := 0 to |order|
        invariant out == ItemPairs(items, |items|) + HashPairs(Stores(), j)
      {
        if order[j] in hash {
          var key := match order[j]
            case RefKey(o) => (if o in objects then objects[o] else Nil)
            case _ => ValueOf(order[j], objects);
          out := out + [(key, hash[order[j]])];
        }
      }
    }
  }

  /** A table's fields at one moment. */
  datatype State = State(stores: Store, metatable: Table?)

  ghost function StateOf(t: Table): State
    reads t
  {
    State(t.Stores(), t.metatable)
  }

  // ------------------------------------------------------------------ listing

  /** The pairs of the first `n` positions, holes left out. */
  function ItemPairs(items: seq<Value>, n: nat): seq<(Value, Value)>
    requires n <= |items| && n <= MAX_INT64
  {
    if n == 0 then []
    else ItemPairs(items, n - 1) + (if items[n - 1] == Nil then [] else [(Num(Int(n)), items[n - 1])])
  }

  function HashPairs(s: Store, n: nat): seq<(Value, Value)>
    requires n <= |s.order|
    requires forall k :: k in s.order ==> k in s.hash && InRange(k)
  {
    if n == 0 then []
    else HashPairs(s, n - 1) + [(ValueOf(s.order[n - 1], s.objects), s.hash[s.order[n - 1]])]
  }

  ghost function Listed(s: Store): seq<(Value, Value)>
    requires Valid(s)
  {
    ItemPairs(s.items, |s.items|) + HashPairs(s, |s.order|)
  }

  lemma Listable(s: Store)
    requires Valid(s)
    ensures |s.items| <= MAX_INT64
    ensures forall k :: k in s.order ==> k in s.hash && InRange(k)
  {
  }
}
