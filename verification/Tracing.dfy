/**
 What the collector follows (`src/store/gc_collect.rs`): the references held by objects, internalized
 externrefs and exceptions, and reachability across the three arenas. Object bodies are bytes, and a
 reference in one is found through the layout of the object's type.
 */
module Tracing {
  import opened Options
  import opened Bytes
  import opened Layout
  import opened Codec
  import opened Heap

  /** A referent: an index into one of the three managed arenas. */
  datatype Node = Gc(i: nat) | Ext(i: nat) | Exn(i: nat)

  datatype ExternEntry = Host(payload: nat) | Internal(handle: nat)
  datatype ExnEntity = ExnEntity(tag: nat, args: seq<Val>)

  /** The contents of the three arenas. */
  datatype Store = Store(objs: seq<Option<GcObject>>, exts: seq<Option<ExternEntry>>, exns: seq<Option<ExnEntity>>)

  /** The layouts the engine's type registry has for canonical type ids. */
  type Layouts = map<nat, BodyLayout>

  // --- seeding ---

  /** `seed_handle`: nothing for null, `i31` and function references. */
  function SeedHandle(handle: nat, kind: RefKind): seq<Node> {
    if handle == NULL_REF then []
    else match kind
      case KFunc => []
      case KAny => (match DecodeHandle(handle) case ObjSlot(i) => [Gc(i)] case I31(_) => [])
      case KExtern => [Ext(handle)]
      case KExn => [Exn(handle)]
  }

  function SeedVal(v: Val): seq<Node> {
    match v
    case ExternRef(Some(h)) => SeedHandle(h, KExtern)
    case AnyRef(Some(h)) => SeedHandle(h, KAny)
    case ExnRef(Some(h)) => SeedHandle(h, KExn)
    case _ => []
  }

  function SeedVals(vs: seq<Val>): seq<Node> {
    if vs == [] then [] else SeedVals(vs[..|vs| - 1]) + SeedVal(vs[|vs| - 1])
  }

  /** `seed_slot`: a reference slot outside the body is corrupt metadata. */
  function SeedSlot(s: Slot, data: seq<u8>): Option<seq<Node>> {
    match s.kind
    case Scalar(_) => Some([])
    case Handle(k) =>
      if s.End() <= |data| then Some(SeedHandle(FromLe(data[s.offset..s.End()]), k)) else None
  }

  function SeedSlots(slots: seq<Slot>, data: seq<u8>): Option<seq<Node>> {
    if slots == [] then Some([])
    else
      var before, last := SeedSlots(slots[..|slots| - 1], data), SeedSlot(slots[|slots| - 1], data);
      if before.Some? && last.Some? then Some(before.value + last.value) else None
  }

  /** The slots of an object's body by the layout of its type; nothing when the two do not match. */
  function SlotsIn(o: GcObject, types: Layouts): Option<seq<Slot>> {
    match o.kind
    case ObjStruct =>
      if o.typeId in types && types[o.typeId].StructOf? then Some(SlotsOf(types[o.typeId].kinds)) else None
    case ObjArray =>
      if o.typeId in types && types[o.typeId].ArrayOf? && |o.data| % Width(types[o.typeId].kind) == 0
      then Some(ElemsOf(types[o.typeId].kind, |o.data| / Width(types[o.typeId].kind))) else None
    case ObjExtern => if |o.data| >= 4 then Some([Slot(0, Handle(KExtern))]) else None
  }

  /** The index an extern wrapper wraps. */
  function ExternIndex(o: GcObject): Option<nat> {
    if o.kind.ObjExtern? && |o.data| >= 4 then Some(FromLe(o.data[..4])) else None
  }

  /** `trace_gc`: the referents of one object. A wrapper's index is pushed as it is, null check or not. */
  function ObjectRefs(o: GcObject, types: Layouts): Option<seq<Node>> {
    match o.kind
    case ObjExtern => (match ExternIndex(o) case Some(e) => Some([Ext(e)]) case None => None)
    case _ => var slots := SlotsIn(o, types); if slots.Some? then SeedSlots(slots.value, o.data) else None
  }

  /** The referents of a node; nothing when it is dangling or its metadata is corrupt. */
  function Refs(st: Store, types: Layouts, x: Node): Option<seq<Node>> {
    match x
    case Gc(i) => if i < |st.objs| && st.objs[i].Some? then ObjectRefs(st.objs[i].value, types) else None
    case Ext(i) =>
      if i < |st.exts| && st.exts[i].Some? then
        Some(if st.exts[i].value.Internal? then SeedHandle(st.exts[i].value.handle, KAny) else [])
      else None
    case Exn(i) => if i < |st.exns| && st.exns[i].Some? then Some(SeedVals(st.exns[i].value.args)) else None
  }

  predicate IsLive(st: Store, x: Node) {
    match x
    case Gc(i) => i < |st.objs| && st.objs[i].Some?
    case Ext(i) => i < |st.exts| && st.exts[i].Some?
    case Exn(i) => i < |st.exns| && st.exns[i].Some?
  }

  /** The live nodes of a store, as a finite set. */
  ghost function Nodes(st: Store): (s: set<Node>)
    ensures forall x :: x in s <==> IsLive(st, x)
  {
    (set i | 0 <= i < |st.objs| && st.objs[i].Some? :: Gc(i))
      + (set i | 0 <= i < |st.exts| && st.exts[i].Some? :: Ext(i))
      + (set i | 0 <= i < |st.exns| && st.exns[i].Some? :: Exn(i))
  }

  /** The references of every intact live node. Dangling and corrupt nodes have no entry. */
  ghost function GraphOf(st: Store, types: Layouts): (g: map<Node, seq<Node>>)
    ensures forall x :: x in g <==> Refs(st, types, x).Some?
    ensures forall x :: x in g ==> g[x] == Refs(st, types, x).value
  {
    map x | x in Nodes(st) && Refs(st, types, x).Some? :: Refs(st, types, x).value
  }
}
