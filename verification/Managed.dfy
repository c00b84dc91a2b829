/**
 Operations on the three managed arenas (`src/store/managed.rs`, `src/exec/gc.rs`) and the
 invariant of their contents: every reference names a live entry, an extern wrapper wraps a live
 host entry, and an internalized entry never wraps a wrapper.
 */
module Managed {
  import opened Options
  import opened Bytes
  import opened Layout
  import opened Codec
  import opened Heap
  import opened Tracing

  // --- values ---

  /** A reference value that is null or names a live entry; a scalar that fits its width. */
  ghost predicate ValOk(st: Store, v: Val) {
    match v
    case FuncRef(f) => f.Some? ==> f.value < NULL_REF
    case ExternRef(e) => e.Some? ==> IsLive(st, Ext(e.value))
    case ExnRef(x) => x.Some? ==> IsLive(st, Exn(x.value))
    case AnyRef(a) => a.Some? ==> HandleOk(st, a.value)
    case _ => Fits(v)
  }

  /** A non-null `anyref` handle: an `i31`, or the slot of a live object. */
  ghost predicate HandleOk(st: Store, h: nat) {
    h < U32 && h != NULL_REF && (DecodeHandle(h).ObjSlot? ==> IsLive(st, Gc(h)))
  }

  ghost predicate ValsOk(st: Store, vs: seq<Val>) {
    forall i :: 0 <= i < |vs| ==> ValOk(st, vs[i])
  }

  ghost predicate NodesLive(st: Store, ns: seq<Node>) {
    forall x :: x in ns ==> IsLive(st, x)
  }

  // --- the invariant of the contents ---

  /** Indices stay below the null sentinel, so a stored handle is never mistaken for null. */
  ghost predicate SizesOk(st: Store) {
    |st.objs| <= NULL_REF && |st.exts| <= NULL_REF && |st.exns| <= NULL_REF
  }

  /** An object whose body its type's layout tiles. */
  ghost predicate BodyOk(o: GcObject, types: Layouts) {
    SlotsIn(o, types).Some? && Tile(SlotsIn(o, types).value, |o.data|)
  }

  /** Every reference slot of the body holds null or a live handle. */
  ghost predicate FieldsOk(st: Store, o: GcObject, types: Layouts)
    requires BodyOk(o, types)
  {
    forall k :: 0 <= k < |SlotsIn(o, types).value| ==> FieldOk(st, SlotsIn(o, types).value[k], o.data)
  }

  ghost predicate FieldOk(st: Store, s: Slot, data: seq<u8>) {
    s.End() <= |data| && ValOk(st, ReadSlot(s, data))
  }

  ghost predicate ObjectOk(st: Store, o: GcObject, types: Layouts) {
    BodyOk(o, types) && FieldsOk(st, o, types) && (o.kind.ObjExtern? ==> WrapperOk(st, o))
  }

  /** A wrapper wraps a live host entry. */
  ghost predicate WrapperOk(st: Store, o: GcObject) {
    |o.data| == 4 &&
    var e := FromLe(o.data[..4]);
    IsLive(st, Ext(e)) && st.exts[e].value.Host?
  }

  /** An internalized entry holds an `i31` or a live struct or array, never a wrapper. */
  ghost predicate EntryOk(st: Store, e: ExternEntry) {
    e.Internal? ==>
      HandleOk(st, e.handle) && (DecodeHandle(e.handle).ObjSlot? ==> !st.objs[e.handle].value.kind.ObjExtern?)
  }

  ghost predicate ContentsOk(st: Store, types: Layouts) {
    && SizesOk(st)
    && (forall i :: 0 <= i < |st.objs| && st.objs[i].Some? ==> ObjectOk(st, st.objs[i].value, types))
    && (forall i :: 0 <= i < |st.exts| && st.exts[i].Some? ==> EntryOk(st, st.exts[i].value))
    && (forall i :: 0 <= i < |st.exns| && st.exns[i].Some? ==> ValsOk(st, st.exns[i].value.args))
  }

  // --- what the invariant means for tracing ---

  lemma SeedValLive(st: Store, v: Val)
    requires ValOk(st, v)
    ensures NodesLive(st, SeedVal(v))
  {
  }

  lemma {:induction false} SeedValsLive(st: Store, vs: seq<Val>)
    requires ValsOk(st, vs)
    ensures NodesLive(st, SeedVals(vs))
  {
    if vs != [] {
      SeedValsLive(st, vs[..|vs| - 1]);
      SeedValLive(st, vs[|vs| - 1]);
    }
  }

  lemma SeedSlotLive(st: Store, s: Slot, data: seq<u8>)
    requires FieldOk(st, s, data)
    ensures SeedSlot(s, data).Some? && NodesLive(st, SeedSlot(s, data).value)
  {
  }

  lemma {:induction false} SeedSlotsLive(st: Store, slots: seq<Slot>, data: seq<u8>)
    requires forall k :: 0 <= k < |slots| ==> FieldOk(st, slots[k], data)
    ensures SeedSlots(slots, data).Some? && NodesLive(st, SeedSlots(slots, data).value)
  {
    if slots != [] {
      SeedSlotsLive(st, slots[..|slots| - 1], data);
      SeedSlotLive(st, slots[|slots| - 1], data);
    }
  }

  /** Nothing live is corrupt, and nothing live refers to anything that is not. */
  lemma {:induction false} LiveRefsAreLive(st: Store, types: Layouts, x: Node)
    requires ContentsOk(st, types) && IsLive(st, x)
    ensures Refs(st, types, x).Some? && NodesLive(st, Refs(st, types, x).value)
  {
    match x
    case Gc(i) =>
      var o := st.objs[i].value;
      assert ObjectOk(st, o, types);
      if !o.kind.ObjExtern? { SeedSlotsLive(st, SlotsIn(o, types).value, o.data); }
    case Ext(i) => assert EntryOk(st, st.exts[i].value);
    case Exn(i) => SeedValsLive(st, st.exns[i].value.args);
  }

  // --- stores that lose nothing ---

  /** Every live entry of `st` is live in `after`; objects keep their kind, externrefs their entry. */
  ghost predicate Follows(st: Store, after: Store) {
    && |st.objs| <= |after.objs| && |st.exts| <= |after.exts| && |st.exns| <= |after.exns|
    && (forall i :: 0 <= i < |st.objs| && st.objs[i].Some? ==>
          after.objs[i].Some? && after.objs[i].value.kind == st.objs[i].value.kind)
    && (forall i :: 0 <= i < |st.exts| && st.exts[i].Some? ==> after.exts[i] == st.exts[i])
    && (forall i :: 0 <= i < |st.exns| && st.exns[i].Some? ==> after.exns[i].Some?)
  }

  lemma ValStaysOk(st: Store, after: Store, v: Val)
    requires Follows(st, after) && ValOk(st, v)
    ensures ValOk(after, v)
  {
  }

  lemma ValsStayOk(st: Store, after: Store, vs: seq<Val>)
    requires Follows(st, after) && ValsOk(st, vs)
    ensures ValsOk(after, vs)
  {
    forall i | 0 <= i < |vs| ensures ValOk(after, vs[i]) { ValStaysOk(st, after, vs[i]); }
  }

  lemma ObjectStaysOk(st: Store, after: Store, o: GcObject, types: Layouts)
    requires Follows(st, after) && ObjectOk(st, o, types)
    ensures ObjectOk(after, o, types)
  {
    var slots := SlotsIn(o, types).value;
    forall k | 0 <= k < |slots| ensures FieldOk(after, slots[k], o.data) {
      assert FieldOk(st, slots[k], o.data);
      ValStaysOk(st, after, ReadSlot(slots[k], o.data));
    }
  }

  lemma EntryStaysOk(st: Store, after: Store, e: ExternEntry)
    requires Follows(st, after) && EntryOk(st, e)
    ensures EntryOk(after, e)
  {
  }

  /** Entries that were intact stay intact. */
  lemma {:induction false} AllStayOk(st: Store, after: Store, types: Layouts)
    requires ContentsOk(st, types) && Follows(st, after)
    ensures forall n :: 0 <= n < |st.objs| && st.objs[n].Some? ==> ObjectOk(after, st.objs[n].value, types)
    ensures forall n :: 0 <= n < |st.exts| && st.exts[n].Some? ==> EntryOk(after, st.exts[n].value)
    ensures forall n :: 0 <= n < |st.exns| && st.exns[n].Some? ==> ValsOk(after, st.exns[n].value.args)
  {
    forall n | 0 <= n < |st.objs| && st.objs[n].Some? ensures ObjectOk(after, st.objs[n].value, types) {
      ObjectStaysOk(st, after, st.objs[n].value, types);
    }
    forall n | 0 <= n < |st.exts| && st.exts[n].Some? ensures EntryOk(after, st.exts[n].value) {
      EntryStaysOk(st, after, st.exts[n].value);
    }
    forall n | 0 <= n < |st.exns| && st.exns[n].Some? ensures ValsOk(after, st.exns[n].value.args) {
      ValsStayOk(st, after, st.exns[n].value.args);
    }
  }

  // --- filling one slot ---

  /** `slots` with `e` in the empty or first fresh slot `i`. */
  function Filled<E>(slots: seq<Option<E>>, i: nat, e: E): seq<Option<E>>
    requires i <= |slots|
  {
    if i < |slots| then slots[i := Some(e)] else slots + [Some(e)]
  }

  predicate Empty<E>(slots: seq<Option<E>>, i: nat) {
    i <= |slots| && (i < |slots| ==> slots[i].None?) && i < NULL_REF
  }

  /** Storing an object that is intact once it is there keeps the contents intact; it may refer to itself. */
  lemma {:induction false} NewObjectOk(st: Store, types: Layouts, i: nat, o: GcObject)
    requires ContentsOk(st, types) && Empty(st.objs, i) && ObjectOk(st.(objs := Filled(st.objs, i, o)), o, types)
    ensures var after := st.(objs := Filled(st.objs, i, o));
      Follows(st, after) && ContentsOk(after, types)
  {
    AllStayOk(st, st.(objs := Filled(st.objs, i, o)), types);
  }

  lemma {:induction false} NewEntryOk(st: Store, types: Layouts, i: nat, e: ExternEntry)
    requires ContentsOk(st, types) && Empty(st.exts, i) && EntryOk(st, e)
    ensures var after := st.(exts := Filled(st.exts, i, e));
      Follows(st, after) && ContentsOk(after, types)
  {
    var after := st.(exts := Filled(st.exts, i, e));
    EntryStaysOk(st, after, e);
    AllStayOk(st, after, types);
  }

  lemma {:induction false} NewExnOk(st: Store, types: Layouts, i: nat, x: ExnEntity)
    requires ContentsOk(st, types) && Empty(st.exns, i) && ValsOk(st.(exns := Filled(st.exns, i, x)), x.args)
    ensures var after := st.(exns := Filled(st.exns, i, x));
      Follows(st, after) && ContentsOk(after, types)
  {
    AllStayOk(st, st.(exns := Filled(st.exns, i, x)), types);
  }

  // --- reading and writing fields ---

  /** `struct.set` / `array.set`: slot `k` of object `i` is overwritten. */
  function FieldWritten(st: Store, types: Layouts, i: nat, k: nat, v: Val): Store
    requires IsLive(st, Gc(i)) && SlotsIn(st.objs[i].value, types).Some?
    requires k < |SlotsIn(st.objs[i].value, types).value|
    requires var s := SlotsIn(st.objs[i].value, types).value[k];
      s.End() <= |st.objs[i].value.data| && Accepts(s.kind, v)
  {
    var o := st.objs[i].value;
    st.(objs := st.objs[i := Some(o.(data := WriteSlot(SlotsIn(o, types).value[k], o.data, v)))])
  }

  /** A value in the store's sense survives being written to a slot and read back, narrowed at most. */
  lemma WrittenIsOk(st: Store, s: Slot, data: seq<u8>, v: Val)
    requires SizesOk(st) && s.End() <= |data| && Accepts(s.kind, v) && ValOk(st, v)
    ensures ValOk(st, ReadSlot(s, WriteSlot(s, data, v)))
  {
    ValOkFits(st, v);
    WriteThenRead(s, data, v);
    assert Pow256(4) == U32;
  }

  lemma ValOkFits(st: Store, v: Val)
    requires SizesOk(st) && ValOk(st, v)
    ensures Plain(v)
  {
    assert Pow256(4) == U32;
  }

  /** Overwriting a field with a live value keeps the contents intact. */
  lemma {:induction false} FieldWriteOk(st: Store, types: Layouts, i: nat, k: nat, v: Val)
    requires ContentsOk(st, types) && IsLive(st, Gc(i)) && !st.objs[i].value.kind.ObjExtern?
    requires SlotsIn(st.objs[i].value, types).Some? && k < |SlotsIn(st.objs[i].value, types).value|
    requires Accepts(SlotsIn(st.objs[i].value, types).value[k].kind, v) && ValOk(st, v)
    ensures SlotsIn(st.objs[i].value, types).value[k].End() <= |st.objs[i].value.data|
    ensures var after := FieldWritten(st, types, i, k, v);
      Follows(st, after) && ContentsOk(after, types)
  {
    var o := st.objs[i].value;
    var slots := SlotsIn(o, types).value;
    assert ObjectOk(st, o, types) && FieldOk(st, slots[k], o.data);
    var after := FieldWritten(st, types, i, k, v);
    var o' := after.objs[i].value;
    assert SlotsIn(o', types) == SlotsIn(o, types);
    forall j | 0 <= j < |slots| ensures FieldOk(st, slots[j], o'.data) {
      assert FieldOk(st, slots[j], o.data);
      if j == k { WrittenIsOk(st, slots[k], o.data, v); } else { WriteKeepsOthers(slots, o.data, k, j, v); }
    }
    assert ObjectOk(st, o', types);
    ObjectStaysOk(st, after, o', types);
    AllStayOk(st, after, types);
  }

  // --- building a body ---

  /** One value per slot, each of the slot's kind and inside the body. */
  predicate Suits(slots: seq<Slot>, size: nat, vals: seq<Val>) {
    |slots| == |vals| && forall k :: 0 <= k < |slots| ==> slots[k].End() <= size && Accepts(slots[k].kind, vals[k])
  }

  /** A zeroed body with the first `n` values written to their slots, in order. */
  function BodyOf(slots: seq<Slot>, size: nat, vals: seq<Val>, n: nat): (data: seq<u8>)
    requires n <= |slots| && Suits(slots, size, vals)
    ensures |data| == size
  {
    if n == 0 then seq(size, _ => 0) else WriteSlot(slots[n - 1], BodyOf(slots, size, vals, n - 1), vals[n - 1])
  }

  /** A value that fits its width, with null in its one representation. */
  predicate Plain(v: Val) {
    Fits(v) && (RefKindOf(v).Some? && RefHandle(v) == NULL_REF ==> v == RefVal(RefKindOf(v).value, NULL_REF))
  }

  /** The last value written reads back. */
  lemma {:induction false} LastReads(slots: seq<Slot>, size: nat, vals: seq<Val>, k: nat)
    requires k < |slots| && Suits(slots, size, vals) && Plain(vals[k])
    ensures ReadSlot(slots[k], BodyOf(slots, size, vals, k + 1)) == Narrowed(slots[k].kind, vals[k])
  {
    WriteThenRead(slots[k], BodyOf(slots, size, vals, k), vals[k]);
  }

  /** A later write leaves an earlier slot's reading alone. */
  lemma {:induction false} EarlierReads(slots: seq<Slot>, size: nat, vals: seq<Val>, n: nat, k: nat)
    requires k < n < |slots| && Suits(slots, size, vals) && Tile(slots, size)
    ensures ReadSlot(slots[k], BodyOf(slots, size, vals, n + 1)) == ReadSlot(slots[k], BodyOf(slots, size, vals, n))
  {
    WriteKeepsOthers(slots, BodyOf(slots, size, vals, n), n, k, vals[n]);
  }

  lemma {:induction false} ReadingStays(slots: seq<Slot>, size: nat, vals: seq<Val>, m: nat, n: nat, k: nat, v: Val)
    requires k < m <= n <= |slots| && Suits(slots, size, vals) && Tile(slots, size)
    requires ReadSlot(slots[k], BodyOf(slots, size, vals, m)) == v
    ensures ReadSlot(slots[k], BodyOf(slots, size, vals, n)) == v
    decreases n - m
  {
    if m < n {
      EarlierReads(slots, size, vals, m, k);
      ReadingStays(slots, size, vals, m + 1, n, k, v);
    }
  }

  /** The body reads back exactly the values it was built from, packed scalars narrowed. */
  lemma {:induction false} BodyReads(slots: seq<Slot>, size: nat, vals: seq<Val>, n: nat, k: nat)
    requires k < n <= |slots| && Suits(slots, size, vals) && Tile(slots, size) && Plain(vals[k])
    ensures ReadSlot(slots[k], BodyOf(slots, size, vals, n)) == Narrowed(slots[k].kind, vals[k])
  {
    LastReads(slots, size, vals, k);
    ReadingStays(slots, size, vals, k + 1, n, k, Narrowed(slots[k].kind, vals[k]));
  }

  lemma NarrowedOk(st: Store, kind: SlotKind, v: Val)
    requires ValOk(st, v) && Accepts(kind, v)
    ensures ValOk(st, Narrowed(kind, v))
  {
    assert Pow256(4) == U32;
  }

  /** An object built from live values is intact. */
  lemma {:induction false} BuiltObjectOk(st: Store, types: Layouts, o: GcObject, slots: seq<Slot>, vals: seq<Val>)
    requires SizesOk(st) && !o.kind.ObjExtern? && SlotsIn(o, types) == Some(slots) && Tile(slots, |o.data|)
    requires Suits(slots, |o.data|, vals) && ValsOk(st, vals)
    requires o.data == BodyOf(slots, |o.data|, vals, |slots|)
    ensures ObjectOk(st, o, types)
  {
    forall k | 0 <= k < |slots| ensures FieldOk(st, slots[k], o.data) {
      ValOkFits(st, vals[k]);
      BodyReads(slots, |o.data|, vals, |slots|, k);
      NarrowedOk(st, slots[k].kind, vals[k]);
    }
  }
}
