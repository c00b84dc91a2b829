/** The mark-sweep collector over a store's three managed arenas (`src/store/gc_collect.rs`). */
module Collector {
  import opened Options
  import opened Arenas
  import opened Bytes
  import opened Budget
  import opened Layout
  import opened Codec
  import opened Heap
  import opened Tracing
  import opened Reachability
  import opened Managed
  import Conversions

  /** `st` with every entry that is not in `live` removed. */
  ghost predicate KeptExactly(st: Store, live: iset<Node>, after: Store) {
    && |after.objs| == |st.objs| && |after.exts| == |st.exts| && |after.exns| == |st.exns|
    && (forall i :: 0 <= i < |st.objs| ==> after.objs[i] == if Gc(i) in live then st.objs[i] else None)
    && (forall i :: 0 <= i < |st.exts| ==> after.exts[i] == if Ext(i) in live then st.exts[i] else None)
    && (forall i :: 0 <= i < |st.exns| ==> after.exns[i] == if Exn(i) in live then st.exns[i] else None)
  }

  /** Which nodes the mark bitmap and the two visited sets stand for. */
  ghost predicate Represents(marked: set<nat>, exts: set<nat>, exns: set<nat>, seen: set<Node>) {
    && (forall i: nat :: Gc(i) in seen <==> i in marked)
    && (forall i: nat :: Ext(i) in seen <==> i in exts)
    && (forall i: nat :: Exn(i) in seen <==> i in exns)
  }

  /** The same for a set of nodes that need not be finite. */
  ghost predicate Visited(marked: set<nat>, exts: set<nat>, exns: set<nat>, live: iset<Node>) {
    && (forall i: nat :: Gc(i) in live <==> i in marked)
    && (forall i: nat :: Ext(i) in live <==> i in exts)
    && (forall i: nat :: Exn(i) in live <==> i in exns)
  }

  function ExternSize(e: ExternEntry): nat { ENTRY_OVERHEAD }
  function ExnSize(e: ExnEntity): nat { ExnCharge(|e.args|) }

  function BodyLen(o: GcObject): nat { |o.data| }
  function OneEach(o: GcObject): nat { 1 }

  /** Every body's length, its overhead included, fits a `usize`, as the length of a vector of bytes does. */
  ghost predicate BodiesFit(slots: seq<Option<GcObject>>) {
    forall i :: 0 <= i < |slots| && slots[i].Some? ==> BodyLen(slots[i].value) + OBJECT_OVERHEAD <= USIZE_MAX
  }

  function ArgBytes(x: ExnEntity): nat { VAL_BYTES * |x.args| }

  ghost predicate ArgsFit(slots: seq<Option<ExnEntity>>) {
    forall i :: 0 <= i < |slots| && slots[i].Some? ==> ArgBytes(slots[i].value) + ENTRY_OVERHEAD <= USIZE_MAX
  }

  /** Live exceptions are charged all their arguments' bytes, and more. */
  lemma {:induction false} ChargesCoverArgs(slots: seq<Option<ExnEntity>>)
    requires ArgsFit(slots)
    ensures Total(slots, ArgBytes) <= Total(slots, ExnSize)
  {
    if slots != [] { ChargesCoverArgs(slots[..|slots| - 1]); }
  }

  /** Live objects are charged all their body bytes, and the overhead of each. */
  lemma {:induction false} ChargesCoverBodies(slots: seq<Option<GcObject>>)
    requires BodiesFit(slots)
    ensures Total(slots, ByteSize) == Total(slots, BodyLen) + OBJECT_OVERHEAD * Total(slots, OneEach)
  {
    if slots != [] { ChargesCoverBodies(slots[..|slots| - 1]); }
  }

  function SeedHandles(hs: seq<(nat, RefKind)>): seq<Node> {
    if hs == [] then [] else SeedHandles(hs[..|hs| - 1]) + SeedHandle(hs[|hs| - 1].0, hs[|hs| - 1].1)
  }

  function SeedAll(vss: seq<seq<Val>>): seq<Node> {
    if vss == [] then [] else SeedAll(vss[..|vss| - 1]) + SeedVals(vss[|vss| - 1])
  }

  class StoreInner {
    const gc: GcHeap
    const externrefs: ReclaimArena<ExternEntry>
    const exns: ReclaimArena<ExnEntity>
    /** Global values, table elements, and the element-segment instances of every instance. */
    var globals: seq<Val>
    var tables: seq<seq<Val>>
    var elems: seq<seq<Val>>
    var pending: Option<nat>
    var hostRoots: seq<(nat, RefKind)>
    /** The engine's layouts, by canonical type id. */
    var types: Layouts

    constructor (collecting: bool, reservation: nat, types: Layouts)
      ensures Valid() && Contents() == Store([], [], []) && gc.collecting == collecting && EntityRoots() == []
      ensures fresh(gc) && fresh(externrefs) && fresh(exns)
      ensures gc.free == [] && externrefs.free == [] && exns.free == []
    {
      gc := new GcHeap(collecting, reservation);
      var exts := new ReclaimArena<ExternEntry>();
      var exceptions := new ReclaimArena<ExnEntity>();
      externrefs, exns := exts, exceptions;
      globals, tables, elems, pending, hostRoots := [], [], [], None, [];
      this.types := types;
    }

    function Contents(): Store
      reads gc, externrefs, exns
    {
      Store(gc.slots, externrefs.slots, exns.slots)
    }

    ghost predicate Separate() {
      externrefs as object != exns
    }

    /** Every arena is intact, no mark is left over, and `used` is the sum of all live charges. */
    ghost predicate Valid()
      reads this, gc, externrefs, exns
    {
      && Separate() && gc.Valid() && externrefs.Valid() && exns.Valid()
      && gc.MarkSet() == {}
      && gc.used == Total(gc.slots, ByteSize) + Total(externrefs.slots, ExternSize) + Total(exns.slots, ExnSize)
    }

    function EntityRoots(): seq<Node>
      reads this
    {
      SeedVals(globals) + SeedAll(tables) + SeedAll(elems)
        + (if pending.Some? then [Exn(pending.value)] else []) + SeedHandles(hostRoots)
    }

    /** The bytes in use cover the bodies of all live objects, their overhead, and all exception arguments. */
    lemma UsedCoversBodies()
      requires Valid() && BodiesFit(gc.slots)
      ensures Total(gc.slots, BodyLen) + OBJECT_OVERHEAD * Total(gc.slots, OneEach) <= gc.used
      ensures ArgsFit(exns.slots) ==>
        Total(gc.slots, BodyLen) + OBJECT_OVERHEAD * Total(gc.slots, OneEach) + Total(exns.slots, ArgBytes) <= gc.used
    {
      ChargesCoverBodies(gc.slots);
      if ArgsFit(exns.slots) { ChargesCoverArgs(exns.slots); }
    }

    // --- allocation: every entry is charged to the one budget ---

    /** `GcHeap::alloc` in a store whose budget can count the object. */
    method PlaceObject(o: GcObject) returns (r: Result<nat>)
      requires Valid() && gc.used + ByteSize(o) <= USIZE_MAX
      modifies gc
      ensures Valid() && gc.collecting == old(gc.collecting) && gc.reserved == old(gc.reserved)
      ensures r.Err? == (old(gc.free) == [] && |old(gc.slots)| >= NULL_REF)
      ensures r.Err? ==> gc.Value() == old(gc.Value()) && gc.used == old(gc.used)
      ensures r.Ok? ==> ObjectPlaced(old(gc.Value()), old(gc.used), o, r.value)
    {
      ArenaStaysOk(gc.history);
      PlacedTotal(gc.Value(), o, ByteSize);
      r := gc.Alloc(o, NULL_REF);
    }

    /** The heap holds the new object at `index`, the next slot of `before`, and its bytes are counted. */
    ghost predicate ObjectPlaced(before: Arena<GcObject>, used: nat, o: GcObject, index: nat)
      reads gc
    {
      index == NextIndex(before) && gc.Value() == Placed(before, o) && gc.used == used + ByteSize(o)
    }

    /** Places an object whose charge was reserved; fails only when no handle is left. */
    method AllocGc(o: GcObject) returns (r: Result<nat>)
      requires Valid() && FitsReserve(gc.Reserves(), ByteSize(o))
      modifies gc
      ensures Valid() && gc.collecting == old(gc.collecting) && gc.reserved == old(gc.reserved)
      ensures r.Err? == (old(gc.free) == [] && |old(gc.slots)| >= NULL_REF)
      ensures r.Err? ==> gc.Value() == old(gc.Value()) && gc.used == old(gc.used)
      ensures r.Ok? ==> ObjectPlaced(old(gc.Value()), old(gc.used), o, r.value) && gc.used <= gc.reserved
      ensures r.Ok? && BodiesFit(gc.slots) ==> Total(gc.slots, BodyLen) <= gc.reserved
    {
      r := PlaceObject(o);
      if BodiesFit(gc.slots) { UsedCoversBodies(); }
    }

    /** Places an object outside the reservation flow, up to the hard ceiling. */
    method AllocUnreserved(o: GcObject) returns (r: Result<nat>)
      requires Valid()
      modifies gc
      ensures Valid() && gc.collecting == old(gc.collecting) && gc.reserved == old(gc.reserved)
      ensures r.Ok? ==
        (CanFitLimit(old(gc.Reserves()), ByteSize(o)) && (old(gc.free) != [] || |old(gc.slots)| < NULL_REF))
      ensures r.Err? ==> Contents() == old(Contents()) && gc.used == old(gc.used)
      ensures r.Ok? ==> ObjectPlaced(old(gc.Value()), old(gc.used), o, r.value)
    {
      if !CanFitLimit(gc.Reserves(), ByteSize(o)) {
        return Err;
      }
      r := PlaceObject(o);
    }

    method PushExtern(e: ExternEntry) returns (r: Result<nat>)
      requires Valid()
      modifies gc`used, externrefs
      ensures Valid() && r.Ok? == CanFitLimit(old(gc.Reserves()), ENTRY_OVERHEAD)
      ensures r.Err? ==> externrefs.Value() == old(externrefs.Value()) && gc.used == old(gc.used)
      ensures r.Ok? ==>
        && r.value == NextIndex(old(externrefs.Value())) && externrefs.Value() == Placed(old(externrefs.Value()), e)
        && gc.used == old(gc.used) + ENTRY_OVERHEAD
      ensures r.Ok? ==>
        IndexBounded(|old(externrefs.slots)|, old(UnreservedCeiling(gc.Reserves())), r.value, |externrefs.slots|)
    {
      if !CanFitLimit(gc.Reserves(), ExternSize(e)) {
        return Err;
      }
      ArenaStaysOk(externrefs.history);
      PlacedTotal(externrefs.Value(), e, ExternSize);
      ExternIndexBounded(externrefs.Value(), e, gc.used, UnreservedCeiling(gc.Reserves()));
      gc.Charge(ExternSize(e));
      var index := externrefs.Alloc(e);
      r := Ok(index);
    }

    method AllocExn(x: ExnEntity) returns (r: Result<nat>)
      requires Valid()
      modifies gc`used, exns
      ensures Valid() && r.Ok? == CanFitLimit(old(gc.Reserves()), ExnCharge(|x.args|))
      ensures r.Err? ==> exns.Value() == old(exns.Value()) && gc.used == old(gc.used)
      ensures r.Ok? ==>
        && r.value == NextIndex(old(exns.Value())) && exns.Value() == Placed(old(exns.Value()), x)
        && gc.used == old(gc.used) + ExnCharge(|x.args|)
      ensures r.Ok? ==> IndexBounded(|old(exns.slots)|, old(UnreservedCeiling(gc.Reserves())), r.value, |exns.slots|)
    {
      if !CanFitLimit(gc.Reserves(), ExnSize(x)) {
        return Err;
      }
      ArenaStaysOk(exns.history);
      PlacedTotal(exns.Value(), x, ExnSize);
      ExnIndexBounded(exns.Value(), x, gc.used, UnreservedCeiling(gc.Reserves()));
      gc.Charge(ExnSize(x));
      var index := exns.Alloc(x);
      r := Ok(index);
    }

    // --- conversions ---

    /** Whether the budget admits one more extern entry, or one more wrapper object. */
    predicate RoomForEntry()
      reads gc
    {
      CanFitLimit(gc.Reserves(), ENTRY_OVERHEAD)
    }

    predicate RoomForWrapper()
      reads gc
    {
      CanFitLimit(gc.Reserves(), ObjectCharge(4)) && (gc.free != [] || |gc.slots| < NULL_REF)
    }

    method ExternConvertAny(v: Val) returns (r: Result<Val>)
      requires Valid() && Conversions.IsReference(v)
      modifies gc`used, externrefs
      ensures Valid()
      ensures var at := NextIndex(old(externrefs.Value()));
        at <= |old(externrefs.slots)| &&
        (Contents(), r) == Conversions.ExternConvertAny(old(Contents()), v, at, old(RoomForEntry()))
    {
      ArenaStaysOk(externrefs.history);
      PlacedFills(externrefs.Value(), Internal(0));
      if v.AnyRef? && v.any.Some? {
        var h := v.any.value;
        if DecodeHandle(h).ObjSlot? {
          if !(h < |gc.slots| && gc.slots[h].Some?) {
            return Err;
          }
          var e := ExternIndex(gc.slots[h].value);
          if e.Some? {
            return Ok(ExternRef(e));
          }
        }
        PlacedFills(externrefs.Value(), Internal(h));
        var index := PushExtern(Internal(h));
        r := if index.Ok? then Ok(ExternRef(Some(index.value))) else Err;
      } else {
        r := Ok(if v.AnyRef? then ExternRef(None) else v);
      }
    }

    method AnyConvertExtern(v: Val) returns (r: Result<Val>)
      requires Valid() && Conversions.IsReference(v)
      modifies gc
      ensures Valid() && gc.collecting == old(gc.collecting)
      ensures var at := NextIndex(old(gc.Value()));
        at <= |old(gc.slots)| &&
        (Contents(), r) == Conversions.AnyConvertExtern(old(Contents()), v, at, old(RoomForWrapper()))
    {
      ArenaStaysOk(gc.history);
      PlacedFills(gc.Value(), Conversions.Wrapper(0));
      if v.ExternRef? && v.ext.Some? {
        var e := v.ext.value;
        if !(e < |externrefs.slots| && externrefs.slots[e].Some?) {
          return Err;
        }
        var entry := externrefs.slots[e].value;
        if entry.Internal? {
          return Ok(AnyRef(Some(entry.handle)));
        }
        PlacedFills(gc.Value(), Conversions.Wrapper(e));
        var slot := AllocUnreserved(Conversions.Wrapper(e));
        r := if slot.Ok? then Ok(AnyRef(Some(slot.value))) else Err;
      } else {
        r := Ok(if v.ExternRef? then AnyRef(None) else v);
      }
    }

    /** `trace_reachable`: follows the worklist to the end, or stops at a dangling or corrupt node. */
    method TraceReachable(roots: seq<Node>) returns (r: Result<(set<nat>, set<nat>)>)
      requires gc.Valid() && gc.MarkSet() == {}
      modifies gc`marks, gc`marked
      ensures gc.Valid()
      ensures var g := GraphOf(Contents(), types);
        && (r.Err? ==> exists x :: x !in g && Reachable(g, roots, x))
        && (r.Ok? ==> exists seen ::
              Represents(gc.MarkSet(), r.value.0, r.value.1, seen) && InTrace(g, roots, seen, []))
    {
      var work := roots;
      var extSeen, exnSeen: set<nat> := {}, {};
      ghost var g := GraphOf(Contents(), types);
      ghost var seen: set<Node> := {};
      TraceStart(g, roots);
      while work != []
        invariant InTrace(g, roots, seen, work) && Represents(gc.MarkSet(), extSeen, exnSeen, seen)
        invariant g == GraphOf(Contents(), types) && gc.Valid()
        decreases g.Keys - seen, |work|
      {
        var x := work[|work| - 1];
        assert x in work;
        var newly;
        newly, extSeen, exnSeen := Visit(x, extSeen, exnSeen, seen);
        if newly {
          var kids := Refs(Contents(), types, x);
          if kids.None? {
            return Err;
          }
          TraceVisit(g, roots, seen, work);
          seen := seen + {x};
          work := work[..|work| - 1] + kids.value;
        } else {
          if x.Gc? && !Occupied(gc.slots, x.i) {
            return Err;
          }
          TraceSkip(g, roots, seen, work);
          work := work[..|work| - 1];
        }
      }
      r := Ok((extSeen, exnSeen));
    }

    /** Records a first visit: a mark bit for an object, a set entry for the other two arenas. */
    method Visit(x: Node, extSeen: set<nat>, exnSeen: set<nat>, ghost seen: set<Node>)
      returns (newly: bool, ext': set<nat>, exn': set<nat>)
      requires gc.Valid() && Represents(gc.MarkSet(), extSeen, exnSeen, seen)
      modifies gc`marks, gc`marked
      ensures gc.Valid() && newly == (x !in seen && (x.Gc? ==> Occupied(gc.slots, x.i)))
      ensures newly ==> Represents(gc.MarkSet(), ext', exn', seen + {x})
      ensures !newly ==> Represents(gc.MarkSet(), ext', exn', seen)
    {
      ext', exn' := extSeen, exnSeen;
      match x
      case Gc(i) =>
        newly := gc.Mark(i);
      case Ext(i) =>
        newly := i !in extSeen;
        ext' := extSeen + {i};
      case Exn(i) =>
        newly := i !in exnSeen;
        exn' := exnSeen + {i};
    }

    /** Sweeps the three arenas, crediting what each one frees. */
    method SweepAll(extSeen: set<nat>, exnSeen: set<nat>)
      requires Separate() && gc.Valid() && externrefs.Valid() && exns.Valid()
      requires gc.used == Total(gc.slots, ByteSize) + Total(externrefs.slots, ExternSize) + Total(exns.slots, ExnSize)
      modifies gc, externrefs, exns
      ensures Valid() && gc.collecting == old(gc.collecting) && gc.Reserves() == old(gc.Reserves()).(used := gc.used)
      ensures gc.Value() == Swept(old(gc.Value()), old(gc.MarkSet()))
      ensures externrefs.Value() == Swept(old(externrefs.Value()), extSeen)
      ensures exns.Value() == Swept(old(exns.Value()), exnSeen)
    {
      SweepEntries(extSeen, exnSeen);
      gc.Sweep();
    }

    method SweepEntries(extSeen: set<nat>, exnSeen: set<nat>)
      requires Separate() && gc.Valid() && externrefs.Valid() && exns.Valid()
      requires Total(externrefs.slots, ExternSize) + Total(exns.slots, ExnSize) <= gc.used
      modifies gc`used, externrefs, exns
      ensures gc.Valid() && externrefs.Valid() && exns.Valid()
      ensures externrefs.Value() == Swept(old(externrefs.Value()), extSeen)
      ensures exns.Value() == Swept(old(exns.Value()), exnSeen)
      ensures gc.used + Total(old(externrefs.slots), ExternSize) + Total(old(exns.slots), ExnSize) ==
        old(gc.used) + Total(externrefs.slots, ExternSize) + Total(exns.slots, ExnSize)
    {
      SweepExterns(extSeen);
      SweepExns(exnSeen);
    }

    method SweepExterns(live: set<nat>)
      requires gc.Valid() && externrefs.Valid() && Total(externrefs.slots, ExternSize) <= gc.used
      modifies gc`used, externrefs
      ensures gc.Valid() && externrefs.Valid() && externrefs.Value() == Swept(old(externrefs.Value()), live)
      ensures gc.used + Total(old(externrefs.slots), ExternSize) == old(gc.used) + Total(externrefs.slots, ExternSize)
    {
      var freed := externrefs.Sweep(live, ExternSize);
      gc.Credit(freed);
    }

    method SweepExns(live: set<nat>)
      requires gc.Valid() && exns.Valid() && Total(exns.slots, ExnSize) <= gc.used
      modifies gc`used, exns
      ensures gc.Valid() && exns.Valid() && exns.Value() == Swept(old(exns.Value()), live)
      ensures gc.used + Total(old(exns.slots), ExnSize) == old(gc.used) + Total(exns.slots, ExnSize)
    {
      var freed := exns.Sweep(live, ExnSize);
      gc.Credit(freed);
    }

    /** Runs one collection, seeded with the given operand roots and the store's own. */
    method Collect(stackRoots: seq<(nat, RefKind)>) returns (r: Result<()>)
      requires Valid()
      modifies gc, externrefs, exns
      ensures Valid() && gc.collecting == old(gc.collecting) && gc.Reserves() == old(gc.Reserves()).(used := gc.used)
      ensures !gc.collecting ==> r.Ok? && Contents() == old(Contents())
      ensures gc.collecting ==>
        var g, roots := GraphOf(old(Contents()), types), SeedHandles(stackRoots) + EntityRoots();
        && (r.Err? <==> exists x :: x !in g && Reachable(g, roots, x))
        && (r.Err? ==> Contents() == old(Contents()) && gc.used == old(gc.used))
        && (r.Ok? ==> KeptExactly(old(Contents()), ReachableSet(g, roots), Contents()))
        && (r.Ok? ==> SweptBy(old(gc.Value()), old(externrefs.Value()), old(exns.Value()), ReachableSet(g, roots)))
    {
      if !gc.collecting {
        return Ok(());
      }
      var roots := SeedHandles(stackRoots) + EntityRoots();
      var live := TraceReachable(roots);
      if live.Err? {
        gc.ClearMarks();
        return Err;
      }
      SweepTraced(live.value.0, live.value.1, roots);
      r := Ok(());
    }

    /** A finished trace found exactly the reachable nodes, and they are what the sweep leaves. */
    method SweepTraced(extSeen: set<nat>, exnSeen: set<nat>, ghost roots: seq<Node>)
      requires Separate() && gc.Valid() && externrefs.Valid() && exns.Valid()
      requires gc.used == Total(gc.slots, ByteSize) + Total(externrefs.slots, ExternSize) + Total(exns.slots, ExnSize)
      requires exists seen ::
        Represents(gc.MarkSet(), extSeen, exnSeen, seen) && InTrace(GraphOf(Contents(), types), roots, seen, [])
      modifies gc, externrefs, exns
      ensures Valid() && gc.collecting == old(gc.collecting) && gc.Reserves() == old(gc.Reserves()).(used := gc.used)
      ensures var g := GraphOf(old(Contents()), types);
        && KeptExactly(old(Contents()), ReachableSet(g, roots), Contents())
        && SweptBy(old(gc.Value()), old(externrefs.Value()), old(exns.Value()), ReachableSet(g, roots))
        && forall x :: Reachable(g, roots, x) ==> x in g
    {
      ghost var st := Contents();
      ghost var g := GraphOf(st, types);
      ghost var seen :| Represents(gc.MarkSet(), extSeen, exnSeen, seen) && InTrace(g, roots, seen, []);
      ghost var marked := gc.MarkSet();
      SweepAll(extSeen, exnSeen);
      SweptIsKept(st, g, roots, seen, marked, extSeen, exnSeen, Contents());
      assert Visited(marked, extSeen, exnSeen, ReachableSet(g, roots));
    }

    /** Each arena, free list and generations included, is the sweep of what it was by what `live` holds of it. */
    ghost predicate SweptBy(objs: Arena<GcObject>, exts: Arena<ExternEntry>, xs: Arena<ExnEntity>, live: iset<Node>)
      reads gc, externrefs, exns
    {
      exists marked, extSeen, exnSeen ::
        && Visited(marked, extSeen, exnSeen, live) && gc.Value() == Swept(objs, marked)
        && externrefs.Value() == Swept(exts, extSeen) && exns.Value() == Swept(xs, exnSeen)
    }

    /** What a collection over these roots leaves of `st`. */
    ghost predicate KeptReachable(st: Store, stackRoots: seq<(nat, RefKind)>)
      reads this, gc, externrefs, exns
    {
      KeptExactly(st, ReachableSet(GraphOf(st, types), SeedHandles(stackRoots) + EntityRoots()), Contents())
    }

    /**
     `gc_reserve`, with operands still on the stack: place now, collecting or taking a free grant if
     that helps, or suspend for the limiter. The error is the collection's.
     */
    method GcReserve(charge: nat, stackRoots: seq<(nat, RefKind)>) returns (r: Result<Decision>)
      requires Valid()
      modifies gc, externrefs, exns
      ensures Valid()
      ensures r.Err? <==>
        && WillCollect(old(gc.Reserves()), charge, old(gc.collecting))
        && var g, roots := GraphOf(old(Contents()), types), SeedHandles(stackRoots) + EntityRoots();
          exists x :: x !in g && Reachable(g, roots, x)
      ensures r.Ok? ==> r.value == Decide(old(gc.Reserves()), charge, old(gc.collecting), gc.used)
      ensures r.Ok? && r.value.Place? ==> gc.Reserves() == r.value.budget && FitsReserve(gc.Reserves(), charge)
      ensures r.Ok? && r.value.Suspend? ==> gc.reserved == old(gc.reserved) && gc.reserved <= r.value.target
      ensures if r.Ok? && WillCollect(old(gc.Reserves()), charge, old(gc.collecting))
              then KeptReachable(old(Contents()), stackRoots) else Contents() == old(Contents())
    {
      ghost var before := gc.Reserves();
      if FitsReserve(gc.Reserves(), charge) {
        r := Ok(Place(gc.Reserves(), 0));
        return;
      }
      var done := CollectIfNeeded(charge, stackRoots);
      if done.Err? {
        return Err;
      }
      var decision := GrowOrSuspend(charge);
      assert decision == Decide(before, charge, gc.collecting, gc.used);
      r := Ok(decision);
    }

    /** The flow's collection, run when the growth needed is not free. */
    method CollectIfNeeded(charge: nat, stackRoots: seq<(nat, RefKind)>) returns (r: Result<()>)
      requires Valid() && !FitsReserve(gc.Reserves(), charge)
      modifies gc, externrefs, exns
      ensures Valid() && gc.collecting == old(gc.collecting) && gc.Reserves() == old(gc.Reserves()).(used := gc.used)
      ensures r.Err? <==>
        && WillCollect(old(gc.Reserves()), charge, old(gc.collecting))
        && var g, roots := GraphOf(old(Contents()), types), SeedHandles(stackRoots) + EntityRoots();
          exists x :: x !in g && Reachable(g, roots, x)
      ensures if r.Ok? && WillCollect(old(gc.Reserves()), charge, old(gc.collecting))
              then KeptReachable(old(Contents()), stackRoots)
              else Contents() == old(Contents()) && gc.used == old(gc.used)
    {
      r := Ok(());
      if !IsFreeGrant(gc.Reserves(), DesiredReservation(gc.Reserves(), charge)) && gc.collecting {
        r := Collect(stackRoots);
      }
    }

    /** The end of the flow: what fits is placed, a free grant is taken, anything more is for the limiter. */
    method GrowOrSuspend(charge: nat) returns (d: Decision)
      requires Valid()
      modifies gc`reserved, gc`nextGrow
      ensures Valid()
      ensures var b := old(gc.Reserves());
        d == if FitsReserve(b, charge) then Place(b, 0)
             else if IsFreeGrant(b, DesiredReservation(b, charge)) then
               Place(Granted(b, DesiredReservation(b, charge)).0, Granted(b, DesiredReservation(b, charge)).1)
             else Suspend(DesiredReservation(b, charge))
      ensures d.Place? ==> gc.Reserves() == d.budget && FitsReserve(gc.Reserves(), charge)
      ensures d.Suspend? ==> gc.Reserves() == old(gc.Reserves()) && gc.reserved <= d.target
    {
      PlaceMeansFits(gc.Reserves(), charge, false, 0);
      if FitsReserve(gc.Reserves(), charge) {
        return Place(gc.Reserves(), 0);
      }
      var target := DesiredReservation(gc.Reserves(), charge);
      if IsFreeGrant(gc.Reserves(), target) {
        var granted := gc.Grant(target);
        d := Place(gc.Reserves(), granted);
      } else {
        d := Suspend(target);
      }
    }
  }

  // --- the null sentinel ---

  /**
   What an entry's index is bounded by: the charges of a full arena bound a fresh index by the budget's
   ceiling, so under a ceiling of `ENTRY_OVERHEAD * NULL_REF` bytes (128 GiB) no index is ever the null
   sentinel, though nothing tests for it.
   */
  predicate IndexBounded(before: nat, ceiling: nat, index: nat, after: nat) {
    && (index == before ==> ENTRY_OVERHEAD * (index + 1) <= ceiling)
    && (before <= NULL_REF && ceiling <= ENTRY_OVERHEAD * NULL_REF ==> index < NULL_REF && after <= NULL_REF)
  }

  /** A full arena's entries weigh at least their overhead each. */
  lemma {:induction false} FullWeighs<E>(slots: seq<Option<E>>, size: E -> nat)
    requires (forall i :: 0 <= i < |slots| ==> slots[i].Some?) && forall e :: ENTRY_OVERHEAD <= size(e)
    ensures ENTRY_OVERHEAD * |slots| <= Total(slots, size)
  {
    if slots != [] { FullWeighs(slots[..|slots| - 1], size); }
  }

  lemma {:induction false} NextIndexBounded<E>(a: Arena<E>, e: E, size: E -> nat, used: nat, ceiling: nat)
    requires ArenaOk(a) && (forall x :: ENTRY_OVERHEAD <= size(x))
    requires Total(a.slots, size) <= used && used + size(e) <= ceiling
    ensures IndexBounded(|a.slots|, ceiling, NextIndex(a), |Placed(a, e).slots|)
  {
    PlacedOk(a, e);
    if a.free == [] {
      forall i | 0 <= i < |a.slots| ensures a.slots[i].Some? { assert i !in a.free; }
      FullWeighs(a.slots, size);
    }
  }

  lemma ExternIndexBounded(a: Arena<ExternEntry>, e: ExternEntry, used: nat, ceiling: nat)
    requires ArenaOk(a) && Total(a.slots, ExternSize) <= used && used + ExternSize(e) <= ceiling
    ensures IndexBounded(|a.slots|, ceiling, NextIndex(a), |Placed(a, e).slots|)
  {
    NextIndexBounded(a, e, ExternSize, used, ceiling);
  }

  lemma ExnIndexBounded(a: Arena<ExnEntity>, x: ExnEntity, used: nat, ceiling: nat)
    requires ArenaOk(a) && Total(a.slots, ExnSize) <= used && used + ExnSize(x) <= ceiling
    ensures IndexBounded(|a.slots|, ceiling, NextIndex(a), |Placed(a, x).slots|)
  {
    NextIndexBounded(a, x, ExnSize, used, ceiling);
  }

  /**
   Above that ceiling an entry at the sentinel's index is lost at once: stored and read back its
   reference is null, and no root or field that holds it is ever traced.
   */
  lemma {:induction false} SentinelEntryIsLost(kind: RefKind, data: seq<u8>)
    requires (kind == KExtern || kind == KExn) && |data| >= 4
    ensures var v := if kind == KExtern then ExternRef(Some(NULL_REF)) else ExnRef(Some(NULL_REF));
      && SeedVal(v) == [] && SeedHandle(NULL_REF, kind) == []
      && ReadSlot(Slot(0, Handle(kind)), WriteSlot(Slot(0, Handle(kind)), data, v)) == RefVal(kind, NULL_REF) != v
  {
    assert Pow256(4) == U32;
    LeRoundTrip(NULL_REF, 4);
  }

  /** The next index is the sentinel exactly when every slot below it is taken. */
  lemma {:induction false} SentinelIsNext<E>(a: Arena<E>)
    requires ArenaOk(a) && |a.slots| <= NULL_REF
    ensures NextIndex(a) == NULL_REF <==> a.free == [] && |a.slots| == NULL_REF
  {
    if a.free != [] { assert a.free[|a.free| - 1] in a.free; }
  }

  /** The bytes that many entries are charged. */
  function EntryBytes(n: nat): nat {
    ENTRY_OVERHEAD * n
  }

  /**
   A store that gets there: the limiter grants 128 GiB and the entry's own charge, the host makes an externref for
   every index below the sentinel, and the next one is given the sentinel's.
   */
  method ReachesSentinel(types: Layouts) returns (store: StoreInner, index: nat)
    ensures fresh(store) && store.Valid() && index == NULL_REF && IsLive(store.Contents(), Ext(index))
  {
    store := new StoreInner(true, 0, types);
    var granted := store.gc.Grant(EntryBytes(NULL_REF + 1));
    FillEntries(store, NULL_REF);
    var last := store.PushExtern(Host(0));
    index := last.value;
  }

  /** Fills an empty extern arena with `n` entries. */
  method FillEntries(store: StoreInner, n: nat)
    requires store.Valid() && store.externrefs.slots == [] && store.externrefs.free == []
    requires store.gc.used == 0 && EntryBytes(n) <= store.gc.reserved
    modifies store.gc`used, store.externrefs
    ensures store.Valid() && |store.externrefs.slots| == n && store.externrefs.free == []
    ensures store.gc.used == EntryBytes(n)
  {
    for i := 0 to n
      invariant store.Valid() && |store.externrefs.slots| == i && store.externrefs.free == []
      invariant store.gc.used == EntryBytes(i)
    {
      var pushed := store.PushExtern(Host(0));
    }
  }

  /** An arena's allocation fills its next slot, which was empty. */
  lemma PlacedFills<E>(a: Arena<E>, e: E)
    requires ArenaOk(a)
    ensures NextIndex(a) <= |a.slots| && Placed(a, e).slots == Filled(a.slots, NextIndex(a), e)
    ensures !Occupied(a.slots, NextIndex(a))
  {
    PlacedOk(a, e);
  }

  /** What is left after sweeping by the visited sets is what a finished trace found reachable. */
  lemma {:induction false} SweptIsKept(
    st: Store, g: map<Node, seq<Node>>, roots: seq<Node>, seen: set<Node>, marked: set<nat>, exts: set<nat>,
    exns: set<nat>, after: Store)
    requires Represents(marked, exts, exns, seen) && InTrace(g, roots, seen, [])
    requires |after.objs| == |st.objs| && |after.exts| == |st.exts| && |after.exns| == |st.exns|
    requires forall i :: 0 <= i < |st.objs| ==> after.objs[i] == if i in marked then st.objs[i] else None
    requires forall i :: 0 <= i < |st.exts| ==> after.exts[i] == if i in exts then st.exts[i] else None
    requires forall i :: 0 <= i < |st.exns| ==> after.exns[i] == if i in exns then st.exns[i] else None
    ensures KeptExactly(st, ReachableSet(g, roots), after)
    ensures forall x :: Reachable(g, roots, x) ==> x in g
    ensures Visited(marked, exts, exns, ReachableSet(g, roots))
  {
    forall x ensures x in seen <==> Reachable(g, roots, x) { TraceDone(g, roots, seen, x); }
  }
}
