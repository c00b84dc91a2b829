/**
 Allocating instructions from the peek to the placement (`src/exec/step.rs`, `src/exec/collect.rs`,
 `src/exec/gc.rs`, `src/exec/gc_array.rs`, `src/exec/exn.rs`): the charge is computed before anything is
 popped, reserved, and matched by what is placed.
 */
module Allocating {
  import opened Options
  import opened Arenas
  import opened Bytes
  import opened Layout
  import opened Codec
  import opened Budget
  import opened Heap
  import opened Tracing
  import opened Collector
  import opened Managed

  /** An instruction is done, waits for the limiter with nothing popped, or fails. */
  datatype Outcome = Done(index: nat) | Waits(target: nat) | Fails

  /** Every slot reads back its value. */
  ghost predicate ReadsBack(slots: seq<Slot>, data: seq<u8>, vals: seq<Val>, from: nat) {
    && |slots| == |vals|
    && forall k :: from <= k < |slots| ==>
         slots[k].End() <= |data| && ReadSlot(slots[k], data) == Narrowed(slots[k].kind, vals[k])
  }

  lemma {:induction false} WritesOneMore(slots: seq<Slot>, data: seq<u8>, vals: seq<Val>, i: nat)
    requires i < |slots| && Suits(slots, |data|, vals) && Tile(slots, |data|)
    requires Plain(vals[i]) && ReadsBack(slots, data, vals, i + 1)
    ensures ReadsBack(slots, WriteSlot(slots[i], data, vals[i]), vals, i)
  {
    WriteThenRead(slots[i], data, vals[i]);
    forall k | i < k < |slots|
      ensures ReadSlot(slots[k], WriteSlot(slots[i], data, vals[i])) == ReadSlot(slots[k], data)
    {
      WriteKeepsOthers(slots, data, i, k, vals[i]);
    }
  }

  /** The body of a new object: operands lie on the stack in field order and are popped from the last. */
  method BuildBody(slots: seq<Slot>, size: nat, vals: seq<Val>) returns (data: seq<u8>)
    requires Suits(slots, size, vals) && Tile(slots, size) && forall k :: 0 <= k < |vals| ==> Plain(vals[k])
    ensures |data| == size && ReadsBack(slots, data, vals, 0)
  {
    data := seq(size, _ => 0);
    var i := |slots|;
    while i > 0
      invariant 0 <= i <= |slots| && |data| == size && ReadsBack(slots, data, vals, i)
    {
      i := i - 1;
      WritesOneMore(slots, data, vals, i);
      data := WriteSlot(slots[i], data, vals[i]);
    }
  }

  /** The object stands in its slot, every field reads back, and it weighs the charge that was peeked. */
  ghost predicate Stands(
    st: Store, index: nat, typeId: nat, kind: ObjKind, slots: seq<Slot>, vals: seq<Val>, charge: nat) {
    && IsLive(st, Gc(index))
    && var o := st.objs[index].value;
      o.typeId == typeId && o.kind == kind && ReadsBack(slots, o.data, vals, 0) && ByteSize(o) == charge
  }

  /** Nothing was placed or reserved, and the limiter is asked for what the flow says. */
  ghost predicate WaitsRightly(store: StoreInner, target: nat, charge: nat, before: Reserve, collecting: bool)
    reads store, store.gc
  {
    && store.gc.reserved == before.reserved <= target
    && Decide(before, charge, collecting, store.gc.used) == Suspend(target)
  }

  /** Every slot is taken and the next index would be the null sentinel. */
  ghost predicate NoHandle(store: StoreInner)
    reads store, store.gc
  {
    store.gc.free == [] && |store.gc.slots| >= NULL_REF
  }

  method NewObject(
    store: StoreInner, typeId: nat, kind: ObjKind, slots: seq<Slot>, size: nat, vals: seq<Val>,
    stackRoots: seq<(nat, RefKind)>)
    returns (r: Outcome)
    requires store.Valid() && Suits(slots, size, vals) && Tile(slots, size)
    requires forall k :: 0 <= k < |vals| ==> Plain(vals[k])
    modifies store.gc, store.externrefs, store.exns
    ensures store.Valid()
    ensures r.Done? ==> Stands(store.Contents(), r.index, typeId, kind, slots, vals, ObjectCharge(size))
    ensures r.Done? ==> store.gc.used <= store.gc.reserved
    ensures var charge := ObjectCharge(size);
      && (r.Waits? ==> WaitsRightly(store, r.target, charge, old(store.gc.Reserves()), old(store.gc.collecting)))
      && (r.Fails? ==> WillCollect(old(store.gc.Reserves()), charge, old(store.gc.collecting)) || NoHandle(store))
  {
    var charge := ObjectCharge(size);
    var decision := store.GcReserve(charge, stackRoots);
    if decision.Err? {
      return Fails;
    }
    if decision.value.Suspend? {
      return Waits(decision.value.target);
    }
    r := PlaceBuilt(store, typeId, kind, slots, size, vals);
  }

  /** The instruction's own part, once its charge is reserved. It fails only for lack of a handle. */
  method PlaceBuilt(store: StoreInner, typeId: nat, kind: ObjKind, slots: seq<Slot>, size: nat, vals: seq<Val>)
    returns (r: Outcome)
    requires store.Valid() && FitsReserve(store.gc.Reserves(), ObjectCharge(size))
    requires Suits(slots, size, vals) && Tile(slots, size) && forall k :: 0 <= k < |vals| ==> Plain(vals[k])
    modifies store.gc
    ensures store.Valid() && store.gc.used <= store.gc.reserved && !r.Waits?
    ensures r.Fails? <==> old(NoHandle(store))
    ensures r.Fails? ==> NoHandle(store)
    ensures r.Done? ==> Stands(store.Contents(), r.index, typeId, kind, slots, vals, ObjectCharge(size))
  {
    var data := BuildBody(slots, size, vals);
    r := PlaceOne(store, GcObject(typeId, kind, data));
  }

  /** A reserved object takes the next slot, and fails only for lack of a handle. */
  method PlaceOne(store: StoreInner, o: GcObject) returns (r: Outcome)
    requires store.Valid() && FitsReserve(store.gc.Reserves(), ByteSize(o))
    modifies store.gc
    ensures store.Valid() && store.gc.used <= store.gc.reserved && !r.Waits?
    ensures r.Fails? <==> old(NoHandle(store))
    ensures r.Fails? ==> NoHandle(store)
    ensures r.Done? ==> r.index < |store.gc.slots| && store.gc.slots[r.index] == Some(o)
  {
    ArenaStaysOk(store.gc.history);
    PlacedFills(store.gc.Value(), o);
    var placed := store.AllocGc(o);
    r := if placed.Ok? then Done(placed.value) else Fails;
  }

  /** `struct.new` and `struct.new_default`. */
  method NewStruct(
    store: StoreInner, typeId: nat, kinds: seq<SlotKind>, vals: seq<Val>, stackRoots: seq<(nat, RefKind)>)
    returns (r: Outcome)
    requires store.Valid() && |vals| == |kinds|
    requires forall k :: 0 <= k < |vals| ==> Accepts(kinds[k], vals[k]) && Plain(vals[k])
    modifies store.gc, store.externrefs, store.exns
    ensures store.Valid()
    ensures r.Done? ==>
      Stands(store.Contents(), r.index, typeId, ObjStruct, SlotsOf(kinds), vals, ObjectCharge(TotalWidth(kinds)))
    ensures r.Done? ==> store.gc.used <= store.gc.reserved
    ensures var charge := ObjectCharge(TotalWidth(kinds));
      && (r.Waits? ==> WaitsRightly(store, r.target, charge, old(store.gc.Reserves()), old(store.gc.collecting)))
      && (r.Fails? ==> WillCollect(old(store.gc.Reserves()), charge, old(store.gc.collecting)) || NoHandle(store))
  {
    var slots := SlotsOf(kinds);
    StructTiles(kinds);
    forall k | 0 <= k < |slots| ensures slots[k].End() <= TotalWidth(kinds) { TilesFit(slots, TotalWidth(kinds), k); }
    r := NewObject(store, typeId, ObjStruct, slots, TotalWidth(kinds), vals, stackRoots);
  }

  /** `array.new`, `array.new_default` and `array.new_fixed`; a body too large to count traps before it is reserved. */
  method NewArray(store: StoreInner, typeId: nat, kind: SlotKind, vals: seq<Val>, stackRoots: seq<(nat, RefKind)>)
    returns (r: Outcome)
    requires store.Valid() && forall k :: 0 <= k < |vals| ==> Accepts(kind, vals[k]) && Plain(vals[k])
    modifies store.gc, store.externrefs, store.exns
    ensures store.Valid()
    ensures |vals| * Width(kind) > USIZE_MAX ==> r.Fails?
    ensures r.Done? ==>
      var charge := ObjectCharge(|vals| * Width(kind));
      Stands(store.Contents(), r.index, typeId, ObjArray, ElemsOf(kind, |vals|), vals, charge)
    ensures r.Done? ==> store.gc.used <= store.gc.reserved
    ensures var charge := ObjectCharge(|vals| * Width(kind));
      && (r.Waits? ==> WaitsRightly(store, r.target, charge, old(store.gc.Reserves()), old(store.gc.collecting)))
      && (r.Fails? && |vals| * Width(kind) <= USIZE_MAX ==>
            WillCollect(old(store.gc.Reserves()), charge, old(store.gc.collecting)) || NoHandle(store))
  {
    var size := |vals| * Width(kind);
    if size > USIZE_MAX {
      return Fails;
    }
    var slots := ElemsOf(kind, |vals|);
    ArrayTiles(kind, |vals|);
    forall k | 0 <= k < |slots| ensures slots[k].End() <= size { TilesFit(slots, size, k); }
    r := NewObject(store, typeId, ObjArray, slots, size, vals, stackRoots);
  }

  /** `throw`: the arguments stay on the stack as roots until the exception's charge is reserved. */
  method Throw(store: StoreInner, tag: nat, args: seq<Val>, stackRoots: seq<(nat, RefKind)>) returns (r: Outcome)
    requires store.Valid()
    modifies store.gc, store.externrefs, store.exns
    ensures store.Valid()
    ensures r.Done? ==>
      && IsLive(store.Contents(), Exn(r.index)) && store.exns.slots[r.index] == Some(ExnEntity(tag, args))
      && store.gc.used <= store.gc.reserved
    ensures r.Waits? ==> store.gc.reserved == old(store.gc.reserved)
    ensures r.Fails? ==> WillCollect(old(store.gc.Reserves()), ExnCharge(|args|), old(store.gc.collecting))
  {
    var decision := store.GcReserve(ExnCharge(|args|), stackRoots);
    if decision.Err? {
      return Fails;
    }
    if decision.value.Suspend? {
      return Waits(decision.value.target);
    }
    r := PlaceThrown(store, ExnEntity(tag, args));
  }

  /** Once its charge is reserved, allocating the exception cannot fail. */
  method PlaceThrown(store: StoreInner, x: ExnEntity) returns (r: Outcome)
    requires store.Valid() && FitsReserve(store.gc.Reserves(), ExnCharge(|x.args|))
    modifies store.gc`used, store.exns
    ensures store.Valid() && r.Done? && store.gc.used <= store.gc.reserved
    ensures r.index < |store.exns.slots| && store.exns.slots[r.index] == Some(x)
  {
    ArenaStaysOk(store.exns.history);
    PlacedFills(store.exns.Value(), x);
    var placed := store.AllocExn(x);
    r := Done(placed.value);
  }
}
