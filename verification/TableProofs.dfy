/** A table is one finite map with an order: whatever is written to it, in any sequence, reads answer
    what was written last, and listing follows the order in which keys came to be. */
module TableProofs {
  import opened Wrappers
  import opened Values
  import Seqs

  datatype Write = Write(key: Value, value: Value)

  /** A table after a run of writes. */
  function Run(writes: seq<Write>): Store {
    if writes == [] then EMPTY
    else
      var last := writes[|writes| - 1];
      Stored(Run(writes[..|writes| - 1]), last.key, last.value)
  }

  /** The value most recently written under `k`, nil if none was. */
  function LastWritten(writes: seq<Write>, k: Option<Key>): Value {
    if writes == [] || k.None? then Nil
    else
      var last := writes[|writes| - 1];
      if KeyOf(last.key) == k then last.value else LastWritten(writes[..|writes| - 1], k)
  }

  /** Two values index one entry exactly when Lua calls them equal, and nil and NaN alone index none. An integer
      and the whole float of its value are one key; a float past the integers is the nearest of them. */
  lemma KeysAreEquality(a: Value, b: Value)
    ensures KeyOf(a).None? <==> a == Nil || a == Num(Float(NaN))
    ensures KeyOf(a).Some? && KeyOf(b).Some? ==> (KeyOf(a) == KeyOf(b) <==> LuaEq(a, b))
    ensures forall i: Int64 :: KeyOf(Num(Float(Whole(i)))) == KeyOf(Num(Int(i)))
  {
  }

  /** The keys that are present, by the moment they last stopped being absent. */
  function Births(writes: seq<Write>): seq<Key> {
    if writes == [] then [] else Born(Births(writes[..|writes| - 1]), writes[|writes| - 1])
  }

  function Born(born: seq<Key>, w: Write): seq<Key> {
    match KeyOf(w.key)
    case None => born
    case Some(k) =>
      if w.value == Nil then Without(born, k)
      else if k in born then born
      else born + [k]
  }

  /** Those of `keys` that `hash` holds, in the same order. */
  function Kept(keys: seq<Key>, hash: set<Key>): seq<Key> {
    if keys == [] then [] else if keys[0] in hash then [keys[0]] + Kept(keys[1..], hash) else Kept(keys[1..], hash)
  }

  /** The positions among the first `n` that hold something. */
  function Positions(items: seq<Value>, n: nat): seq<Key>
    requires n <= |items|
  {
    if n == 0 then [] else Positions(items, n - 1) + (if items[n - 1] == Nil then [] else [IntKey(n)])
  }

  // ------------------------------------------------------------------ main results

  /** One write keeps the invariant and means exactly one update of the map. */
  lemma OneWrite(s: Store, key: Value, value: Value)
    requires Valid(s)
    ensures Valid(Stored(s, key, value))
    ensures Contents(Stored(s, key, value)) == Written(Contents(s), key, value)
  {
    hide *;
    WriteValid(s, key, value);
    WriteContents(s, key, value);
  }

  /** A read is a lookup in that map. */
  lemma OneRead(s: Store, key: Value)
    requires Valid(s)
    ensures Got(s, key) == Looked(Contents(s), key)
  {
    if KeyOf(key).Some? {
      ContentsAt(s, KeyOf(key).value);
    }
  }

  /** After any run of writes, a read answers the last value written under that key. */
  lemma {:induction false} ReadsLastWritten(writes: seq<Write>, key: Value)
    ensures Valid(Run(writes))
    ensures Got(Run(writes), key) == LastWritten(writes, KeyOf(key))
  {
    RunContents(writes, KeyOf(key));
    OneRead(Run(writes), key);
  }

  /** `#t` is a border: what it counts is there at its end, and nothing follows. */
  lemma LengthIsBorder(s: Store)
    requires Valid(s)
    ensures var n := |s.items|;
            (n == 0 || IntKey(n) in Contents(s)) && IntKey(n + 1) !in Contents(s)
  {
  }

  /** `pairs` lists every key of the map once, with its value: positions first, in order, and then the
      hash keys by the moment each last came to be. Overwriting a key does not move it, and a key that
      was removed and written again is last. */
  lemma ListsEveryKeyOnce(writes: seq<Write>)
    ensures Valid(Run(writes))
    ensures var s := Run(writes);
            Lists(Listed(s), Positions(s.items, |s.items|) + Kept(Births(writes), s.hash.Keys), Contents(s))
  {
    hide Run, Births, Kept, Positions, Listed, Lists, Contents;
    OrderIsBirthOrder(writes);
    ListedKeys(Run(writes));
  }

  // ------------------------------------------------------------------ one write

  /** What `s` holds under `k`. */
  function At(s: Store, k: Key): Value {
    if k.IntKey? && 1 <= k.i <= |s.items| then s.items[k.i - 1]
    else if k in s.hash then s.hash[k]
    else Nil
  }

  lemma ContentsAt(s: Store, k: Key)
    requires HashPart(s.hash, |s.items|)
    ensures k in Contents(s) <==> At(s, k) != Nil
    ensures k in Contents(s) ==> Contents(s)[k] == At(s, k)
  {
  }

  lemma SameContents(s: Store, m: map<Key, Value>)
    requires HashPart(s.hash, |s.items|)
    requires forall k :: k in m <==> At(s, k) != Nil
    requires forall k :: k in m ==> m[k] == At(s, k)
    ensures Contents(s) == m
  {
    var c := Contents(s);
    forall k | k in c
      ensures k in m && c[k] == m[k]
    {
      ContentsAt(s, k);
    }
    forall k | k in m
      ensures k in c
    {
      ContentsAt(s, k);
    }
  }

  /** `Valid`, but for a hash part that may continue the sequence. */
  ghost predicate Open(s: Store) {
    && SequencePart(s.items)
    && HashPart(s.hash, |s.items|)
    && OrderPart(s.order, s.hash.Keys)
    && ObjectsPart(s.objects, s.hash.Keys)
  }

  lemma {:induction false} WithoutIn<T>(s: seq<T>, x: T)
    ensures forall y :: y in Without(s, x) ==> y in s && y != x
    ensures forall y :: y in s && y != x ==> y in Without(s, x)
    ensures Distinct(s) ==> Distinct(Without(s, x))
  {
    if s != [] {
      WithoutIn(s[1..], x);
      assert forall y :: y in s ==> y == s[0] || y in s[1..];
      if Distinct(s) {
        assert forall i, j :: 0 <= i < j < |s[1..]| ==> s[1..][i] == s[i + 1] && s[1..][j] == s[j + 1];
        assert s[0] !in s[1..];
      }
    }
  }

  lemma OrderWithout(order: seq<Key>, hash: map<Key, Value>, k: Key)
    requires OrderPart(order, hash.Keys)
    ensures OrderPart(Without(order, k), (hash - {k}).Keys)
  {
    WithoutIn(order, k);
  }

  /** The store one turn of the joining loop leaves. */
  function JoinStep(s: Store): Store
    requires IntKey(|s.items| + 1) in s.hash
  {
    var next := IntKey(|s.items| + 1);
    s.(items := s.items + [s.hash[next]], hash := s.hash - {next}, order := Without(s.order, next))
  }

  lemma JoinStepOpen(s: Store)
    requires Open(s) && IntKey(|s.items| + 1) in s.hash
    ensures Open(JoinStep(s))
  {
    var next := IntKey(|s.items| + 1);
    OrderWithout(s.order, s.hash, next);
    assert InRange(next);
    hide OrderPart;
  }

  lemma JoinStepAt(s: Store, k: Key)
    requires HashPart(s.hash, |s.items|) && IntKey(|s.items| + 1) in s.hash
    ensures At(JoinStep(s), k) == At(s, k)
  {
  }

  lemma {:induction false} JoinedValid(s: Store)
    requires Open(s)
    ensures Valid(Joined(s))
    ensures forall k :: At(Joined(s), k) == At(s, k)
    decreases s.hash.Keys
  {
    hide At, OrderPart, ObjectsPart, SequencePart;
    if IntKey(|s.items| + 1) in s.hash {
      JoinStepOpen(s);
      JoinedValid(JoinStep(s));
      forall k
        ensures At(Joined(s), k) == At(s, k)
      {
        JoinStepAt(s, k);
        assert At(Joined(s), k) == At(JoinStep(s), k);
      }
    }
  }

  lemma {:induction false} TrimmedIsPrefix(items: seq<Value>)
    ensures Trimmed(items) <= items
    ensures Trimmed(items) != [] ==> Trimmed(items)[|Trimmed(items)| - 1] != Nil
    ensures forall i :: |Trimmed(items)| <= i < |items| ==> items[i] == Nil
  {
    if |items| > 0 && items[|items| - 1] == Nil {
      TrimmedIsPrefix(items[..|items| - 1]);
    }
  }

  /** Which of the four ways a write goes. */
  predicate Overwrites(s: Store, key: Value) {
    Position(key).Some? && Position(key).value <= |s.items|
  }

  predicate Appends(s: Store, key: Value, value: Value) {
    Position(key).Some? && Position(key).value == |s.items| + 1 && value != Nil
  }

  lemma ExtendOpen(s: Store, value: Value)
    requires Valid(s) && value != Nil && |s.items| < MAX_INT64
    ensures Open(s.(items := s.items + [value]))
  {
    hide OrderPart, ObjectsPart;
  }

  lemma OverwriteValid(s: Store, at: nat, value: Value)
    requires Valid(s) && 1 <= at <= |s.items|
    ensures Valid(s.(items := Trimmed(s.items[at - 1 := value])))
  {
    hide OrderPart, ObjectsPart, Trimmed;
    TrimmedIsPrefix(s.items[at - 1 := value]);
  }

  lemma RemoveValid(s: Store, k: Key)
    requires Valid(s)
    ensures Valid(Store(s.items, s.hash - {k}, Without(s.order, k), if k.RefKey? then s.objects - {k.o} else s.objects))
  {
    OrderWithout(s.order, s.hash, k);
    ObjectsWithout(s.objects, s.hash, k);
    hide OrderPart, ObjectsPart;
  }

  lemma ObjectsWithout(objects: map<object, Value>, hash: map<Key, Value>, k: Key)
    requires ObjectsPart(objects, hash.Keys)
    ensures ObjectsPart(if k.RefKey? then objects - {k.o} else objects, (hash - {k}).Keys)
  {
    hide KeyOf;
  }

  lemma InsertValid(s: Store, key: Value, value: Value)
    requires Valid(s) && value != Nil && KeyOf(key).Some?
    requires Position(key).Some? ==> Position(key).value > |s.items| + 1
    ensures var k := KeyOf(key).value;
            Valid(Store(s.items, s.hash[k := value], if k in s.hash then s.order else s.order + [k],
                        if k.RefKey? then s.objects[k.o := key] else s.objects))
  {
    var k := KeyOf(key).value;
    var hash := s.hash[k := value];
    var order := if k in s.hash then s.order else s.order + [k];
    InsertOrder(s.order, s.hash, k, value);
    InsertObjects(s.objects, s.hash, key, value);
    hide OrderPart, ObjectsPart;
  }

  lemma InsertOrder(order: seq<Key>, hash: map<Key, Value>, k: Key, value: Value)
    requires OrderPart(order, hash.Keys)
    ensures OrderPart(if k in hash then order else order + [k], hash[k := value].Keys)
  {
    assert hash[k := value].Keys == hash.Keys + {k};
    assert forall x :: x in order + [k] <==> x in order || x == k;
  }

  lemma InsertObjects(objects: map<object, Value>, hash: map<Key, Value>, key: Value, value: Value)
    requires ObjectsPart(objects, hash.Keys) && KeyOf(key).Some?
    ensures var k := KeyOf(key).value;
            ObjectsPart(if k.RefKey? then objects[k.o := key] else objects, hash[k := value].Keys)
  {
  }

  lemma WriteValid(s: Store, key: Value, value: Value)
    requires Valid(s)
    ensures Valid(Stored(s, key, value))
  {
    hide Valid, Joined, Trimmed;
    if Overwrites(s, key) {
      OverwriteValid(s, Position(key).value, value);
    } else if Appends(s, key, value) {
      ExtendOpen(s, value);
      JoinedValid(s.(items := s.items + [value]));
    } else if KeyOf(key).Some? {
      if value == Nil {
        RemoveValid(s, KeyOf(key).value);
      } else {
        InsertValid(s, key, value);
      }
    }
  }

  /** A write changes what its own key holds and nothing else. */
  lemma WriteAt(s: Store, key: Value, value: Value, k: Key)
    requires Valid(s)
    ensures At(Stored(s, key, value), k) == if KeyOf(key) == Some(k) then value else At(s, k)
  {
    hide Joined, Trimmed, OrderPart, ObjectsPart;
    if Overwrites(s, key) {
      TrimmedIsPrefix(s.items[Position(key).value - 1 := value]);
      if k.IntKey? && 1 <= k.i <= |s.items| {
        NotInHash(s, k);
        var items := s.items[Position(key).value - 1 := value];
        assert if k.i <= |Trimmed(items)| then Trimmed(items)[k.i - 1] == items[k.i - 1] else items[k.i - 1] == Nil;
      }
    } else if Appends(s, key, value) {
      var grown := s.(items := s.items + [value]);
      ExtendOpen(s, value);
      JoinedValid(grown);
      assert At(Joined(grown), k) == At(grown, k);
    }
  }

  lemma WriteContents(s: Store, key: Value, value: Value)
    requires Valid(s)
    ensures Contents(Stored(s, key, value)) == Written(Contents(s), key, value)
  {
    hide Stored, At, Contents, OrderPart, ObjectsPart, SequencePart, HashPart;
    var t, m := Stored(s, key, value), Written(Contents(s), key, value);
    WriteValid(s, key, value);
    ValidHash(s);
    ValidHash(t);
    forall k
      ensures k in m <==> At(t, k) != Nil
      ensures k in m ==> m[k] == At(t, k)
    {
      ContentsAt(s, k);
      WriteAt(s, key, value, k);
    }
    SameContents(t, m);
  }

  lemma ValidHash(s: Store)
    requires Valid(s)
    ensures HashPart(s.hash, |s.items|)
  {
  }

  // ------------------------------------------------------------------ runs of writes

  lemma {:induction false} RunContents(writes: seq<Write>, k: Option<Key>)
    ensures Valid(Run(writes))
    ensures k.Some? ==>
              LastWritten(writes, k) == if k.value in Contents(Run(writes)) then Contents(Run(writes))[k.value] else Nil
  {
    if writes != [] {
      var rest, last := writes[..|writes| - 1], writes[|writes| - 1];
      RunContents(rest, k);
      OneWrite(Run(rest), last.key, last.value);
      NoNilValue(Run(rest));
    }
  }

  lemma NoNilValue(s: Store)
    requires Valid(s)
    ensures forall k :: k in Contents(s) ==> Contents(s)[k] != Nil
  {
  }

  // ------------------------------------------------------------------ order

  lemma {:induction false} KeptWithout(s: seq<Key>, x: Key, ks: set<Key>)
    ensures Kept(s, ks - {x}) == Without(Kept(s, ks), x)
  {
    if s != [] {
      KeptWithout(s[1..], x, ks);
      if s[0] in ks {
        Seqs.HeadTail(s[0], Kept(s[1..], ks));
      }
    }
  }

  lemma {:induction false} WithoutKept(s: seq<Key>, x: Key, ks: set<Key>)
    ensures Kept(Without(s, x), ks) == Kept(s, ks - {x})
  {
    if s != [] {
      WithoutKept(s[1..], x, ks);
      if s[0] != x {
        Seqs.HeadTail(s[0], Without(s[1..], x));
      }
    }
  }

  lemma {:induction false} KeptAppend(s: seq<Key>, k: Key, ks: set<Key>)
    ensures Kept(s + [k], ks) == Kept(s, ks) + if k in ks then [k] else []
  {
    if s == [] {
      assert [k][1..] == [];
    } else {
      KeptAppend(s[1..], k, ks);
      Seqs.ConcatHead(s, [k]);
    }
  }

  lemma {:induction false} KeptSame(s: seq<Key>, ks: set<Key>, ks': set<Key>)
    requires forall k :: k in s ==> (k in ks <==> k in ks')
    ensures Kept(s, ks) == Kept(s, ks')
  {
    if s != [] {
      assert forall k :: k in s[1..] ==> k in s;
      KeptSame(s[1..], ks, ks');
    }
  }

  lemma {:induction false} JoinOrder(s: Store, born: seq<Key>)
    requires s.order == Kept(born, s.hash.Keys)
    ensures Joined(s).order == Kept(born, Joined(s).hash.Keys)
    decreases s.hash.Keys
  {
    var next := IntKey(|s.items| + 1);
    if next in s.hash {
      KeptWithout(born, next, s.hash.Keys);
      var hash := s.hash - {next};
      assert hash.Keys == s.hash.Keys - {next};
      JoinOrder(s.(items := s.items + [s.hash[next]], hash := hash, order := Without(s.order, next)), born);
    }
  }

  ghost predicate BornIs(s: Store, born: seq<Key>) {
    && s.order == Kept(born, s.hash.Keys)
    && Distinct(born)
    && (forall k :: k in born ==> k in Contents(s))
    && (forall k :: k in Contents(s) ==> k in born)
  }

  lemma BornSet(s: Store, born: seq<Key>, w: Write)
    requires Valid(s) && BornIs(s, born)
    ensures var born' := Born(born, w);
            && Distinct(born')
            && (forall k :: k in born' ==> k in Written(Contents(s), w.key, w.value))
            && (forall k :: k in Written(Contents(s), w.key, w.value) ==> k in born')
  {
    if KeyOf(w.key).Some? {
      WithoutIn(born, KeyOf(w.key).value);
    }
  }

  lemma BornOrder(s: Store, born: seq<Key>, w: Write)
    requires Valid(s) && BornIs(s, born)
    ensures var t := Stored(s, w.key, w.value); t.order == Kept(Born(born, w), t.hash.Keys)
  {
    hide Valid, Contents, Trimmed, Joined, Without, Kept, Distinct;
    if KeyOf(w.key).None? {
      return;
    }
    var k := KeyOf(w.key).value;
    BornKept(s, born, w);
    if Overwrites(s, w.key) {
      NotInHash(s, k);
    } else if Appends(s, w.key, w.value) {
      NotInHash(s, k);
      JoinOrder(s.(items := s.items + [w.value]), Born(born, w));
    } else if w.value != Nil {
      BornInHash(s, born, w);
    } else {
      assert (s.hash - {k}).Keys == s.hash.Keys - {k};
      WithoutKept(born, k, s.hash.Keys - {k});
      KeptWithout(born, k, s.hash.Keys);
      assert s.hash.Keys - {k} - {k} == s.hash.Keys - {k};
    }
  }

  lemma NotInHash(s: Store, k: Key)
    requires Valid(s) && k.IntKey? && 1 <= k.i <= |s.items| + 1
    ensures k !in s.hash
  {
    assert IntKey(k.i) !in s.hash;
  }

  /** A key the hash part does not hold leaves no trace in its order. */
  lemma BornKept(s: Store, born: seq<Key>, w: Write)
    requires s.order == Kept(born, s.hash.Keys) && KeyOf(w.key).Some?
    ensures KeyOf(w.key).value !in s.hash ==> Kept(Born(born, w), s.hash.Keys) == s.order
  {
    var k := KeyOf(w.key).value;
    if k !in s.hash {
      WithoutKept(born, k, s.hash.Keys);
      KeptAppend(born, k, s.hash.Keys);
      assert s.hash.Keys - {k} == s.hash.Keys;
    }
  }

  lemma BornInHash(s: Store, born: seq<Key>, w: Write)
    requires Valid(s) && BornIs(s, born) && KeyOf(w.key).Some? && w.value != Nil
    requires !Overwrites(s, w.key)
    ensures var k := KeyOf(w.key).value;
            (if k in s.hash then s.order else s.order + [k]) == Kept(Born(born, w), s.hash[k := w.value].Keys)
  {
    var k := KeyOf(w.key).value;
    ValidHash(s);
    ContentsAt(s, k);
    hide Valid, Contents, Kept, Without;
    var hash := s.hash[k := w.value];
    assert hash.Keys == s.hash.Keys + {k};
    KeptAppend(born, k, hash.Keys);
    if k in s.hash {
      assert hash.Keys == s.hash.Keys;
    } else {
      assert k !in born;
      KeptSame(born, s.hash.Keys, hash.Keys);
    }
  }

  lemma {:induction false} OrderIsBirthOrder(writes: seq<Write>)
    ensures Valid(Run(writes)) && BornIs(Run(writes), Births(writes))
  {
    if writes != [] {
      var rest, last := writes[..|writes| - 1], writes[|writes| - 1];
      OrderIsBirthOrder(rest);
      OneWrite(Run(rest), last.key, last.value);
      BornSet(Run(rest), Births(rest), last);
      BornOrder(Run(rest), Births(rest), last);
    }
  }

  // ------------------------------------------------------------------ listing

  lemma {:induction false} PositionsAscend(items: seq<Value>, n: nat)
    requires n <= |items|
    ensures forall k :: k in Positions(items, n) ==> k.IntKey? && 1 <= k.i <= n && items[k.i - 1] != Nil
    ensures forall i :: 1 <= i <= n && items[i - 1] != Nil ==> IntKey(i) in Positions(items, n)
    ensures forall i, j :: 0 <= i < j < |Positions(items, n)| ==>
              Positions(items, n)[i] in Positions(items, n) && Positions(items, n)[j] in Positions(items, n)
              && Positions(items, n)[i].i < Positions(items, n)[j].i
  {
    if n > 0 {
      PositionsAscend(items, n - 1);
      var before := Positions(items, n - 1);
      forall i, j | 0 <= i < j < |Positions(items, n)|
        ensures Positions(items, n)[i].i < Positions(items, n)[j].i
      {
        assert before[i] in before;
        if j < |before| {
          assert before[j] in before;
        }
      }
    }
  }

  lemma {:induction false} ItemPairsKeys(items: seq<Value>, n: nat)
    requires n <= |items| && n <= MAX_INT64
    ensures |ItemPairs(items, n)| == |Positions(items, n)|
    ensures forall i :: 0 <= i < |Positions(items, n)| ==> ItemAt(items, ItemPairs(items, n)[i], Positions(items, n)[i])
  {
    if n > 0 {
      ItemPairsKeys(items, n - 1);
    }
  }

  /** `pair` lists the key `k` of the sequence part. */
  predicate ItemAt(items: seq<Value>, pair: (Value, Value), k: Key) {
    KeyOf(pair.0) == Some(k) && k.IntKey? && 1 <= k.i <= |items| && pair.1 == items[k.i - 1]
  }

  lemma {:induction false} HashPairsKeys(s: Store, n: nat)
    requires OrderPart(s.order, s.hash.Keys) && ObjectsPart(s.objects, s.hash.Keys)
    requires forall k :: k in s.hash ==> InRange(k)
    requires n <= |s.order|
    ensures |HashPairs(s, n)| == n
    ensures forall i :: 0 <= i < n ==>
              KeyOf(HashPairs(s, n)[i].0) == Some(s.order[i]) && HashPairs(s, n)[i].1 == s.hash[s.order[i]]
  {
    if n > 0 {
      HashPairsKeys(s, n - 1);
      assert s.order[n - 1] in s.hash;
    }
  }

  /** The keys in the order they are listed. */
  function ListedOrder(s: Store): seq<Key> {
    Positions(s.items, |s.items|) + s.order
  }

  lemma ListedDistinct(s: Store)
    requires Valid(s)
    ensures OrderPart(ListedOrder(s), Contents(s).Keys)
  {
    var ps, m := Positions(s.items, |s.items|), Contents(s);
    PositionsAscend(s.items, |s.items|);
    forall k | k in ps
      ensures k !in s.hash && k in m
    {
      NotInHash(s, k);
      ContentsAt(s, k);
    }
    assert forall i :: 0 <= i < |ps| ==> ps[i] in ps;
    Union(ps, s.order, s.hash.Keys, m.Keys);
  }

  lemma Union(a: seq<Key>, b: seq<Key>, hash: set<Key>, all: set<Key>)
    requires Distinct(a) && OrderPart(b, hash)
    requires forall k :: k in a ==> k !in hash && k in all
    requires forall k :: k in hash ==> k in all
    requires forall k :: k in all ==> k in hash || k in a
    ensures OrderPart(a + b, all)
  {
    assert forall i :: 0 <= i < |a| ==> a[i] in a;
    assert forall i :: 0 <= i < |b| ==> b[i] in b;
    assert forall k :: k in a + b <==> k in a || k in b;
  }

  lemma ListedPairs(s: Store)
    requires Valid(s)
    ensures |Listed(s)| == |ListedOrder(s)|
    ensures forall i :: 0 <= i < |ListedOrder(s)| ==>
              KeyOf(Listed(s)[i].0) == Some(ListedOrder(s)[i]) && Listed(s)[i].1 == At(s, ListedOrder(s)[i])
  {
    var n := |s.items|;
    ItemPairsKeys(s.items, n);
    HashPairsKeys(s, |s.order|);
    forall i | 0 <= i < |ListedOrder(s)|
      ensures KeyOf(Listed(s)[i].0) == Some(ListedOrder(s)[i]) && Listed(s)[i].1 == At(s, ListedOrder(s)[i])
    {
      if i < |Positions(s.items, n)| {
        assert ItemAt(s.items, ItemPairs(s.items, n)[i], Positions(s.items, n)[i]);
      } else {
        var k := s.order[i - |Positions(s.items, n)|];
        assert k in s.order;
        if k.IntKey? {
          assert IntKey(k.i) in s.hash;
        }
      }
    }
  }

  /** `pairs` lists the map `m`: under the keys `keys`, which are all of its keys, each once. */
  ghost predicate Lists(pairs: seq<(Value, Value)>, keys: seq<Key>, m: map<Key, Value>) {
    && Distinct(keys)
    && (forall k :: k in keys ==> k in m)
    && (forall k :: k in m ==> k in keys)
    && |pairs| == |keys|
    && (forall i :: 0 <= i < |keys| ==> KeyOf(pairs[i].0) == Some(keys[i]) && pairs[i].1 == m[keys[i]])
  }

  lemma ListedKeys(s: Store)
    requires Valid(s)
    ensures Lists(Listed(s), ListedOrder(s), Contents(s))
  {
    ListedDistinct(s);
    ListedPairs(s);
    ValidHash(s);
    hide Valid, At, Contents, Listed, ListedOrder, Distinct, HashPart, KeyOf;
    var keys, m := ListedOrder(s), Contents(s);
    forall i | 0 <= i < |keys|
      ensures keys[i] in m && Listed(s)[i].1 == m[keys[i]]
    {
      assert keys[i] in keys;
      ContentsAt(s, keys[i]);
    }
  }
}
