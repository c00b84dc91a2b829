/** The `extern`/`any` bridge (`src/store/managed.rs`). */
module Conversions {
  import opened Options
  import opened Bytes
  import opened Layout
  import opened Codec
  import opened Heap
  import opened Tracing
  import opened Managed

  /** `GcObject::extern_wrapper`: an object whose body is the wrapped index. */
  function Wrapper(e: nat): GcObject {
    GcObject(0, ObjExtern, ToLe(e, 4))
  }

  predicate IsReference(v: Val) {
    v.AnyRef? || v.ExternRef?
  }

  /**
   `extern.convert_any`: the new contents and the value, with `at` the entry an allocation takes and
   `room` whether the budget admits it. An error leaves the contents alone.
   */
  function ExternConvertAny(st: Store, v: Val, at: nat, room: bool): (r: (Store, Result<Val>))
    requires IsReference(v) && at <= |st.exts|
  {
    match v
    case AnyRef(None) => (st, Ok(ExternRef(None)))
    case ExternRef(_) => (st, Ok(v))
    case AnyRef(Some(h)) =>
      if DecodeHandle(h).ObjSlot? && !IsLive(st, Gc(h)) then (st, Err)
      else if DecodeHandle(h).ObjSlot? && ExternIndex(st.objs[h].value).Some? then
        (st, Ok(ExternRef(Some(ExternIndex(st.objs[h].value).value))))
      else if !room then (st, Err)
      else (st.(exts := Filled(st.exts, at, Internal(h))), Ok(ExternRef(Some(at))))
  }

  /** `any.convert_extern`: an internalized entry gives back its handle, a host entry gets a fresh wrapper at `at`. */
  function AnyConvertExtern(st: Store, v: Val, at: nat, room: bool): (r: (Store, Result<Val>))
    requires IsReference(v) && at <= |st.objs|
  {
    match v
    case ExternRef(None) => (st, Ok(AnyRef(None)))
    case AnyRef(_) => (st, Ok(v))
    case ExternRef(Some(e)) =>
      if !IsLive(st, Ext(e)) then (st, Err)
      else match st.exts[e].value
        case Internal(h) => (st, Ok(AnyRef(Some(h))))
        case Host(_) =>
          if !room then (st, Err)
          else (st.(objs := Filled(st.objs, at, Wrapper(e))), Ok(AnyRef(Some(at))))
  }

  lemma {:induction false} WrapperReads(e: nat)
    requires e < NULL_REF
    ensures |Wrapper(e).data| == 4 && ExternIndex(Wrapper(e)) == Some(e)
  {
    assert Pow256(4) == U32;
    LeRoundTrip(e, 4);
    assert ToLe(e, 4)[..4] == ToLe(e, 4);
  }

  lemma {:induction false} WrapperIsOk(st: Store, types: Layouts, e: nat)
    requires ContentsOk(st, types) && IsLive(st, Ext(e)) && st.exts[e].value.Host?
    ensures ObjectOk(st, Wrapper(e), types)
  {
    WrapperReads(e);
    var o := Wrapper(e);
    var slots := [Slot(0, Handle(KExtern))];
    assert SlotsIn(o, types) == Some(slots);
    assert o.data[0..4] == o.data[..4];
    assert slots[0].End() == 4;
    assert Tile(slots, 4);
    assert FieldOk(st, slots[0], o.data);
  }

  /**
   Converting a live reference never fails for a missing referent, keeps the contents intact, and
   gives a live reference.
   */
  lemma {:induction false} ExternConversionOk(st: Store, types: Layouts, v: Val, at: nat, room: bool)
    requires ContentsOk(st, types) && ValOk(st, v) && IsReference(v) && Empty(st.exts, at)
    ensures var (after, r) := ExternConvertAny(st, v, at, room);
      && Follows(st, after) && ContentsOk(after, types)
      && (r.Err? ==> !room) && (r.Ok? ==> ValOk(after, r.value))
  {
    if v.AnyRef? && v.any.Some? {
      var h := v.any.value;
      if DecodeHandle(h).ObjSlot? {
        assert ObjectOk(st, st.objs[h].value, types);
      }
      if !(DecodeHandle(h).ObjSlot? && ExternIndex(st.objs[h].value).Some?) {
        NewEntryOk(st, types, at, Internal(h));
      }
    }
  }

  lemma {:induction false} AnyConversionOk(st: Store, types: Layouts, v: Val, at: nat, room: bool)
    requires ContentsOk(st, types) && ValOk(st, v) && IsReference(v) && Empty(st.objs, at)
    ensures var (after, r) := AnyConvertExtern(st, v, at, room);
      && Follows(st, after) && ContentsOk(after, types)
      && (r.Err? ==> !room) && (r.Ok? ==> ValOk(after, r.value))
  {
    if v.ExternRef? && v.ext.Some? {
      var e := v.ext.value;
      assert EntryOk(st, st.exts[e].value);
      if st.exts[e].value.Host? {
        var after := st.(objs := Filled(st.objs, at, Wrapper(e)));
        WrapperIsOk(st, types, e);
        ObjectStaysOk(st, after, Wrapper(e), types);
        NewObjectOk(st, types, at, Wrapper(e));
      }
    }
  }
}
