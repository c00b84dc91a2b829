/**
 What the host presents: handles it may have kept for too long, tested by the code as it tests them
 (`src/value_match.rs`, `src/value/gc_ref.rs`, `src/store/managed.rs`), and exactly when storing what
 they name leaves nothing dangling.
 */
module Presenting {
  import opened Options
  import opened Arenas
  import opened Bytes
  import opened Layout
  import opened Codec
  import opened Heap
  import opened Tracing
  import opened Collector
  import opened Managed
  import opened Conversions
  import opened Mutator
  import opened Survival
  import opened MutatorSafety

  // --- the test as a liveness test ---

  lemma {:induction false} GenerationsMeet(n: nat, later: nat)
    requires n <= later
    ensures GenerationAfter(n) == GenerationAfter(later) <==> Apart(n, later)
  {
    GenerationIsModular(n);
    GenerationIsModular(later);
    SameGeneration(n, later);
  }

  lemma NotApart(n: nat, later: nat)
    requires Apart(n, later) && later - n < U32_MAX
    ensures later == n
  {
  }

  /** How often the slot of a handle has been freed since the handle was made. */
  function FreedSince(m: Machine, h: HostRef, x: Node): int {
    FreesAt(m.frees, x) - h.born
  }

  /**
   For a stamped handle the test is exact up to wrap-around: it passes if and only if the arena answers
   and the slot has been freed a multiple of 2^32-1 times since.
   */
  lemma {:induction false} StampedPasses(m: Machine, types: Layouts, h: HostRef, x: Node)
    requires MachineOk(m, types) && h in m.handles && h.stamped && x in Named(h)
    ensures FreedSince(m, h, x) >= 0 && (Passes(m, h) <==> Answers(m.st, x) && Apart(h.born, FreesAt(m.frees, x)))
  {
    assert StampOk(m.st, m.frees, h);
    GenerationsMeet(h.born, FreesAt(m.frees, x));
  }

  /** Short of 2^32-1 frees, a stamped handle that passes names the live entry it was made of. */
  lemma {:induction false} StampIsLiveness(m: Machine, types: Layouts, h: HostRef, x: Node)
    requires MachineOk(m, types) && h in m.handles && h.stamped && x in Named(h)
    requires FreedSince(m, h, x) < U32_MAX
    ensures Passes(m, h) <==> IsLive(m.st, x) && FreedSince(m, h, x) == 0
  {
    StampedPasses(m, types, h, x);
    assert StampOk(m.st, m.frees, h);
    if Passes(m, h) { NotApart(h.born, FreesAt(m.frees, x)); }
  }

  /**
   The only accepted handles whose entry is gone are externrefs, unstamped or wrapped around: the test
   of an object or exception handle looks for the entry itself.
   */
  lemma {:induction false} OnlyExternsEscape(m: Machine, types: Layouts, h: HostRef)
    requires MachineOk(m, types) && Accepted(m, Held(h)) && !Present(m.st, Held(h))
    ensures h.kind == KExtern && Named(h) == [Ext(h.index)]
    ensures h.stamped ==> FreedSince(m, h, Ext(h.index)) >= U32_MAX
  {
    var x :| x in Named(h) && !IsLive(m.st, x);
    if h.stamped && FreedSince(m, h, x) < U32_MAX { StampIsLiveness(m, types, h, x); }
  }

  // --- presented values ---

  /** A presented value is a value of store `st` exactly when what it names is there. */
  lemma {:induction false} GivenIn(m: Machine, st: Store, g: Given)
    requires HandlesOk(m.st, m.frees, m.handles) && Accepted(m, g)
    ensures ValOk(st, GivenVal(g)) <==> Present(st, g)
  {
    match g
    case Bare(v) => RootlessOk(st, v);
    case Held(h) => assert WellFormed(h);
  }

  lemma {:induction false} GivensIn(m: Machine, st: Store, gs: seq<Given>)
    requires HandlesOk(m.st, m.frees, m.handles) && AllAccepted(m, gs)
    ensures ValsOk(st, GivenVals(gs)) <==> AllPresent(st, gs)
  {
    forall i | 0 <= i < |gs| ensures ValOk(st, GivenVals(gs)[i]) <==> Present(st, gs[i]) { GivenIn(m, st, gs[i]); }
    if ValsOk(st, GivenVals(gs)) {
      forall i | 0 <= i < |gs| ensures Present(st, gs[i]) { assert ValOk(st, GivenVals(gs)[i]); }
    }
  }

  lemma {:induction false} GivenPlain(m: Machine, g: Given)
    requires HandlesOk(m.st, m.frees, m.handles) && Accepted(m, g)
    ensures Plain(GivenVal(g))
  {
    match g
    case Bare(v) => ValOkFits(NOTHING, v);
    case Held(h) =>
      assert WellFormed(h);
      assert Pow256(4) == U32;
  }

  // --- storing at once ---

  lemma {:induction false} PushIff(m: Machine, types: Layouts, gs: seq<Given>)
    requires MachineOk(m, types) && AllAccepted(m, gs)
    ensures MachineOk(m.(stack := m.stack + GivenVals(gs)), types) <==> AllPresent(m.st, gs)
  {
    var vs := GivenVals(gs);
    GivensIn(m, m.st, gs);
    ConcatIff(m.st, m.stack, vs);
  }

  lemma ConcatIff(st: Store, a: seq<Val>, b: seq<Val>)
    requires ValsOk(st, a)
    ensures ValsOk(st, a + b) <==> ValsOk(st, b)
  {
    if ValsOk(st, a + b) {
      forall i | 0 <= i < |b| ensures ValOk(st, b[i]) { assert (a + b)[|a| + i] == b[i]; }
    }
  }

  lemma SetAtIff(st: Store, vs: seq<Val>, i: nat, v: Val)
    requires ValsOk(st, vs) && i <= |vs|
    ensures ValsOk(st, SetAt(vs, i, v)) <==> ValOk(st, v)
  {
    if ValsOk(st, SetAt(vs, i, v)) { assert SetAt(vs, i, v)[i] == v; }
  }

  lemma TableIff(st: Store, tables: seq<seq<Val>>, t: nat, vs: seq<Val>)
    requires AllValsOk(st, tables) && t < |tables|
    ensures AllValsOk(st, tables[t := vs]) <==> ValsOk(st, vs)
  {
    if AllValsOk(st, tables[t := vs]) { assert tables[t := vs][t] == vs; }
  }

  lemma {:induction false} ElemIff(m: Machine, types: Layouts, t: nat, i: nat, g: Given)
    requires MachineOk(m, types) && Accepted(m, g) && t < |m.tables| && i <= |m.tables[t]|
    ensures MachineOk(m.(tables := m.tables[t := SetAt(m.tables[t], i, GivenVal(g))]), types) <==> Present(m.st, g)
  {
    GivenIn(m, m.st, g);
    SetAtIff(m.st, m.tables[t], i, GivenVal(g));
    TableIff(m.st, m.tables, t, SetAt(m.tables[t], i, GivenVal(g)));
  }

  lemma {:induction false} GlobalIff(m: Machine, types: Layouts, i: nat, g: Given)
    requires MachineOk(m, types) && Accepted(m, g) && i <= |m.globals|
    ensures MachineOk(m.(globals := SetAt(m.globals, i, GivenVal(g))), types) <==> Present(m.st, g)
  {
    GivenIn(m, m.st, g);
    SetAtIff(m.st, m.globals, i, GivenVal(g));
  }

  lemma {:induction false} RerootIff(m: Machine, types: Layouts, g: Given)
    requires MachineOk(m, types) && Accepted(m, g)
    ensures MachineOk(Rooted(m, RootOf(GivenVal(g))), types) <==> Present(m.st, g)
  {
    var v, n := GivenVal(g), Rooted(m, RootOf(GivenVal(g)));
    GivenIn(m, m.st, g);
    if g.Held? {
      assert WellFormed(g.h) && RootOf(v) == [(g.h.index, g.h.kind)];
      assert n.roots[|m.roots|] == (g.h.index, g.h.kind);
      if MachineOk(n, types) { assert RootOk(n.st, n.roots[|m.roots|]); }
    }
    if Present(m.st, g) {
      OneRootable(m.st, v);
      RootedOk(m, types, RootOf(v));
    }
  }

  /** A reference written to a field reads back as itself. */
  lemma {:induction false} FieldReadsBack(m: Machine, types: Layouts, i: nat, k: nat, h: HostRef)
    requires MachineOk(m, types) && Accepted(m, Held(h)) && Writes(m.st, types, i, k, GivenVal(Held(h)))
    requires MachineOk(m.(st := FieldWritten(m.st, types, i, k, GivenVal(Held(h)))), types)
    ensures ValOk(FieldWritten(m.st, types, i, k, GivenVal(Held(h))), GivenVal(Held(h)))
  {
    var v, after := GivenVal(Held(h)), FieldWritten(m.st, types, i, k, GivenVal(Held(h)));
    var o, s := m.st.objs[i].value, SlotsIn(m.st.objs[i].value, types).value[k];
    assert ObjectOk(after, after.objs[i].value, types) && SlotsIn(after.objs[i].value, types) == SlotsIn(o, types);
    assert FieldOk(after, s, after.objs[i].value.data);
    GivenPlain(m, Held(h));
    assert WellFormed(h);
    WriteThenRead(s, o.data, v);
  }

  lemma {:induction false} FieldIff(m: Machine, types: Layouts, i: nat, k: nat, g: Given)
    requires MachineOk(m, types) && Accepted(m, g) && Writes(m.st, types, i, k, GivenVal(g))
    ensures MachineOk(m.(st := FieldWritten(m.st, types, i, k, GivenVal(g))), types) <==> Present(m.st, g)
  {
    var after := FieldWritten(m.st, types, i, k, GivenVal(g));
    GivenIn(m, m.st, g);
    GivenIn(m, after, g);
    if g.Held? {
      SameLive(m.st, after, g.h);
      if MachineOk(m.(st := after), types) { FieldReadsBack(m, types, i, k, g.h); }
    }
    if Present(m.st, g) {
      FieldWriteOk(m.st, types, i, k, GivenVal(g));
      GrownOk(m, types, after);
    }
  }

  lemma SameLive(st: Store, after: Store, h: HostRef)
    requires |after.objs| == |st.objs| && after.exts == st.exts && after.exns == st.exns
    requires forall i :: 0 <= i < |st.objs| ==> after.objs[i].Some? == st.objs[i].Some?
    ensures NodesLive(after, Named(h)) <==> NodesLive(st, Named(h))
  {
  }

  lemma {:induction false} ReturnIff(m: Machine, types: Layouts, gs: seq<Given>)
    requires MachineOk(m, types) && m.marks != [] && AllAccepted(m, gs)
    ensures MachineOk(Closed(m, false).(stack := m.stack + GivenVals(gs)), types) <==> AllPresent(m.st, gs)
  {
    ClosedOk(m, types, false);
    GivensIn(m, m.st, gs);
    ConcatIff(m.st, m.stack, GivenVals(gs));
  }

  /** The conversion looks its entry up: whether or not that is still there, nothing dangles. */
  lemma {:induction false} CoerceOk(m: Machine, types: Layouts, op: Op, n: Machine)
    requires MachineOk(m, types) && op.HostCoerce? && StoreStep(m, types, op, n)
    ensures MachineOk(n, types)
  {
    var v := ExternRef(Some(op.h.index));
    if IsLive(m.st, Ext(op.h.index)) {
      AnyConversionOk(m.st, types, v, op.at, op.room);
      GrownOk(m, types, n.st);
      var r := AnyConvertExtern(m.st, v, op.at, op.room).1;
      ConcatIff(n.st, m.stack, if r.Ok? then [r.value] else []);
      StackOk(m.(st := n.st), types, n.stack);
    } else {
      assert n == m.(stack := m.stack + []);
    }
  }

  /** Storing presented values leaves nothing dangling if and only if all they name is there. */
  lemma {:induction false} StoreStepIff(m: Machine, types: Layouts, op: Op, n: Machine)
    requires MachineOk(m, types) && StoreStep(m, types, op, n)
    ensures MachineOk(n, types) <==> Safe(m, types, op)
  {
    match op
    case HostArgs(given) => PushIff(m, types, given);
    case HostCoerce(_, _, _) => CoerceOk(m, types, op, n);
    case HostGlobal(i, g) => GlobalIff(m, types, i, g);
    case HostElem(t, i, g) => ElemIff(m, types, t, i, g);
    case HostField(h, k, g) => FieldIff(m, types, h.index, k, g);
    case HostReroot(g) => RerootIff(m, types, g);
    case HostReturn(given) => ReturnIff(m, types, given);
  }

  // --- testing, reserving, then placing ---

  lemma {:induction false} ReservedOk(m: Machine, types: Layouts, collects: bool)
    requires MachineOk(m, types)
    ensures MachineOk(Reserved(m, types, collects), types)
    ensures Reserved(m, types, collects).handles == m.handles
  {
    if collects { CollectKeepsOk(m, types); }
  }

  lemma LiveReserved(m: Machine, types: Layouts, collects: bool, x: Node)
    requires collects ==> Traceable(m, types)
    ensures IsLive(Reserved(m, types, collects).st, x) <==> IsLive(m.st, x) && (collects ==> x in Survivors(m, types))
  {
  }

  /** What lasts is what is there once the entry is placed. */
  lemma {:induction false} LastsIff(
    m: Machine, types: Layouts, collects: bool, entry: Node, after: Store, gs: seq<Given>)
    requires collects ==> Traceable(m, types)
    requires forall x :: IsLive(after, x) <==> x == entry || IsLive(Reserved(m, types, collects).st, x)
    ensures AllPresent(after, gs) <==> AllLast(m, types, collects, entry, gs)
  {
    forall i | 0 <= i < |gs| ensures Present(after, gs[i]) <==> Lasts(m, types, collects, entry, gs[i]) {
      if gs[i].Held? {
        forall x | x in Named(gs[i].h)
          ensures IsLive(after, x) <==> x == entry || (IsLive(m.st, x) && (collects ==> x in Survivors(m, types)))
        {
          LiveReserved(m, types, collects, x);
        }
      }
    }
    if AllPresent(after, gs) {
      forall i | 0 <= i < |gs| ensures Lasts(m, types, collects, entry, gs[i]) { assert Present(after, gs[i]); }
    } else {
      var i :| 0 <= i < |gs| && !Present(after, gs[i]);
      assert !Lasts(m, types, collects, entry, gs[i]);
    }
  }

  /** The fields of an intact built object are values of its store. */
  lemma {:induction false} BuiltFieldOk(
    m: Machine, types: Layouts, after: Store, o: GcObject, slots: seq<Slot>, gs: seq<Given>, k: nat)
    requires HandlesOk(m.st, m.frees, m.handles) && AllAccepted(m, gs) && k < |gs|
    requires SlotsIn(o, types) == Some(slots) && Tile(slots, |o.data|) && Suits(slots, |o.data|, GivenVals(gs))
    requires o.data == BodyOf(slots, |o.data|, GivenVals(gs), |slots|) && ObjectOk(after, o, types)
    ensures Present(after, gs[k])
  {
    if gs[k].Held? {
      GivenPlain(m, gs[k]);
      BodyReads(slots, |o.data|, GivenVals(gs), |slots|, k);
      assert FieldOk(after, slots[k], o.data);
      assert WellFormed(gs[k].h) && Accepts(slots[k].kind, GivenVals(gs)[k]);
      GivenIn(m, after, gs[k]);
    }
  }

  lemma {:induction false} ObjectIff(
    m: Machine, mid: Machine, types: Layouts, o: GcObject, slots: seq<Slot>, gs: seq<Given>, at: nat)
    requires MachineOk(m, types) && MachineOk(mid, types) && AllAccepted(m, gs)
    requires Builds(mid.st, types, o, slots, GivenVals(gs), at)
    ensures var after := mid.st.(objs := Filled(mid.st.objs, at, o));
      MachineOk(Rooted(mid.(st := after), [(at, KAny)]), types) <==> AllPresent(after, gs)
  {
    var after := mid.st.(objs := Filled(mid.st.objs, at, o));
    GivensIn(m, after, gs);
    if AllPresent(after, gs) {
      BuildsOk(mid, types, o, slots, GivenVals(gs), at);
      assert Rootable(after, (at, KAny));
      RootedOk(mid.(st := after), types, [(at, KAny)]);
    }
    if MachineOk(Rooted(mid.(st := after), [(at, KAny)]), types) {
      assert ObjectOk(after, after.objs[at].value, types);
      forall k | 0 <= k < |gs| ensures Present(after, gs[k]) { BuiltFieldOk(m, types, after, o, slots, gs, k); }
    }
  }

  lemma {:induction false} ExnIff(m: Machine, mid: Machine, types: Layouts, tag: nat, gs: seq<Given>, at: nat)
    requires MachineOk(m, types) && MachineOk(mid, types) && AllAccepted(m, gs) && Empty(mid.st.exns, at)
    ensures var after := mid.st.(exns := Filled(mid.st.exns, at, ExnEntity(tag, GivenVals(gs))));
      MachineOk(Rooted(mid.(st := after), [(at, KExn)]), types) <==> AllPresent(after, gs)
  {
    var x := ExnEntity(tag, GivenVals(gs));
    var after := mid.st.(exns := Filled(mid.st.exns, at, x));
    GivensIn(m, after, gs);
    if AllPresent(after, gs) {
      NewExnOk(mid.st, types, at, x);
      GrownOk(mid, types, after);
      assert Rootable(after, (at, KExn));
      RootedOk(mid.(st := after), types, [(at, KExn)]);
    }
    assert after.exns[at] == Some(x);
    if MachineOk(Rooted(mid.(st := after), [(at, KExn)]), types) { assert ValsOk(after, after.exns[at].value.args); }
  }

  lemma {:induction false} ExternOk(mid: Machine, types: Layouts, payload: nat, at: nat)
    requires MachineOk(mid, types) && Empty(mid.st.exts, at)
    ensures var after := mid.st.(exts := Filled(mid.st.exts, at, Host(payload)));
      MachineOk(Rooted(mid.(st := after), [(at, KExtern)]), types)
  {
    var after := mid.st.(exts := Filled(mid.st.exts, at, Host(payload)));
    NewEntryOk(mid.st, types, at, Host(payload));
    GrownOk(mid, types, after);
    assert Rootable(after, (at, KExtern));
    RootedOk(mid.(st := after), types, [(at, KExtern)]);
  }

  lemma FilledLive(st: Store, at: nat, o: GcObject, x: Node)
    requires at <= |st.objs|
    ensures IsLive(st.(objs := Filled(st.objs, at, o)), x) <==> x == Gc(at) || IsLive(st, x)
  {
  }

  lemma {:induction false} ObjectStepIff(m: Machine, types: Layouts, op: Op, n: Machine)
    requires MachineOk(m, types) && op.HostObject? && AllocStep(m, types, op, n)
    ensures MachineOk(n, types) <==> Safe(m, types, op)
  {
    var mid := Reserved(m, types, op.collects);
    ReservedOk(m, types, op.collects);
    ObjectIff(m, mid, types, op.o, op.slots, op.given, op.at);
    var after := mid.st.(objs := Filled(mid.st.objs, op.at, op.o));
    forall x ensures IsLive(after, x) <==> x == Gc(op.at) || IsLive(mid.st, x) { FilledLive(mid.st, op.at, op.o, x); }
    LastsIff(m, types, op.collects, Gc(op.at), after, op.given);
  }

  lemma {:induction false} ExnStepIff(m: Machine, types: Layouts, op: Op, n: Machine)
    requires MachineOk(m, types) && op.HostExn? && AllocStep(m, types, op, n)
    ensures MachineOk(n, types) <==> Safe(m, types, op)
  {
    var mid := Reserved(m, types, op.collects);
    var x := ExnEntity(op.tag, GivenVals(op.given));
    ReservedOk(m, types, op.collects);
    ExnIff(m, mid, types, op.tag, op.given, op.at);
    LastsIff(m, types, op.collects, Exn(op.at), mid.st.(exns := Filled(mid.st.exns, op.at, x)), op.given);
  }

  /** A host allocation leaves nothing dangling if and only if what its fields name lasts until it is placed. */
  lemma {:induction false} AllocStepIff(m: Machine, types: Layouts, op: Op, n: Machine)
    requires MachineOk(m, types) && AllocStep(m, types, op, n)
    ensures MachineOk(n, types) <==> Safe(m, types, op)
  {
    match op
    case HostObject(_, _, _, _, _) => ObjectStepIff(m, types, op, n);
    case HostExn(_, _, _, _) => ExnStepIff(m, types, op, n);
    case HostExtern(payload, at, collects) =>
      ReservedOk(m, types, collects);
      ExternOk(Reserved(m, types, collects), types, payload, at);
  }
}
