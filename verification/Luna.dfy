/** The VM's side of the boundary: its values, and its tables as raw maps with a metatable. */
module Luna {
  import opened Values
  import Utf8

  datatype VmValue =
    | VmNil
    | VmBool(b: bool)
    | VmInteger(i: Int64)
    | VmNumber(f: Float)
    | VmString(s: Utf8.Bytes)
    | VmTableRef(t: VmTable)
    | VmFunction(callee: LuaFunction)
    | VmOther(o: object)

  datatype VmState = VmState(entries: map<VmValue, VmValue>, metatable: VmTable?)

  const BLANK := VmState.VmState(map[], null)

  /** A whole float that is an integer indexes as that integer. */
  function Normal(k: VmValue): VmValue {
    if k.VmNumber? && k.f.Whole? && MIN_INT64 <= k.f.n <= MAX_INT64 then VmInteger(k.f.n) else k
  }

  predicate Indexes(k: VmValue) {
    !k.VmNil? && k != VmNumber(NaN)
  }

  /** A raw write; nil and NaN keys are an error that changes nothing. */
  function Put(entries: map<VmValue, VmValue>, k: VmValue, v: VmValue): map<VmValue, VmValue> {
    if !Indexes(k) then entries
    else if v == VmNil then entries - {Normal(k)}
    else entries[Normal(k) := v]
  }

  class VmTable {
    var entries: map<VmValue, VmValue>
    var metatable: VmTable?

    constructor ()
      ensures VmStateOf(this) == BLANK
    {
      entries, metatable := map[], null;
    }

    method Set(k: VmValue, v: VmValue)
      modifies this
      ensures entries == Put(old(entries), k, v) && metatable == old(metatable)
    {
      entries := Put(entries, k, v);
    }
  }

  ghost function VmStateOf(t: VmTable): VmState
    reads t
  {
    VmState.VmState(t.entries, t.metatable)
  }

  /** Lua's truth. */
  predicate VmTruthy(w: VmValue) {
    w != VmNil && w != VmBool(false)
  }

  /** Both are nil, or one boolean, one number of one sort, or one string of bytes. */
  predicate SameScalar(v: Value, w: VmValue) {
    && (Truthy(v) <==> VmTruthy(w))
    && (v.Nil? <==> w.VmNil?)
    && (v.Bool? <==> w.VmBool?) && (v.Bool? && w.VmBool? ==> v.b == w.b)
    && (v.Num? && v.n.Int? <==> w.VmInteger?) && (v.Num? && v.n.Int? && w.VmInteger? ==> v.n.i == w.i)
    && (v.Num? && v.n.Float? <==> w.VmNumber?) && (v.Num? && v.n.Float? && w.VmNumber? ==> v.n.f == w.f)
    && (v.Str? || v.Raw? <==> w.VmString?)
    && (v.Str? && w.VmString? ==> v.text == w.s) && (v.Raw? && w.VmString? ==> v.bytes == w.s)
  }

  /** What a VM table can hold at all. */
  ghost predicate VmValid(s: VmState) {
    forall k :: k in s.entries ==> Indexes(k) && Normal(k) == k && s.entries[k] != VmNil
  }
}
