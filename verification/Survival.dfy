/** What a collection leaves behind is intact: the references of whatever survives survive with it. */
module Survival {
  import opened Options
  import opened Bytes
  import opened Layout
  import opened Codec
  import opened Heap
  import opened Tracing
  import opened Reachability
  import opened Collector
  import opened Managed
  import opened Mutator

  /** Everything in `xs` survives. */
  ghost predicate AllIn(xs: seq<Node>, live: iset<Node>) {
    forall x :: x in xs ==> x in live
  }

  // --- seeds of parts are seeds of the whole ---

  lemma {:induction false} SeedValsHold(vs: seq<Val>, live: iset<Node>, i: nat)
    requires i < |vs| && AllIn(SeedVals(vs), live)
    ensures AllIn(SeedVal(vs[i]), live)
    decreases |vs|
  {
    var init := vs[..|vs| - 1];
    assert AllIn(SeedVals(init), live);
    if i < |vs| - 1 { SeedValsHold(init, live, i); }
  }

  lemma {:induction false} SeedAllHolds(vss: seq<seq<Val>>, live: iset<Node>, i: nat)
    requires i < |vss| && AllIn(SeedAll(vss), live)
    ensures AllIn(SeedVals(vss[i]), live)
    decreases |vss|
  {
    var init := vss[..|vss| - 1];
    assert AllIn(SeedAll(init), live);
    if i < |vss| - 1 { SeedAllHolds(init, live, i); }
  }

  lemma {:induction false} SeedHandlesHold(hs: seq<(nat, RefKind)>, live: iset<Node>, i: nat)
    requires i < |hs| && AllIn(SeedHandles(hs), live)
    ensures AllIn(SeedHandle(hs[i].0, hs[i].1), live)
    decreases |hs|
  {
    var init := hs[..|hs| - 1];
    assert AllIn(SeedHandles(init), live);
    if i < |hs| - 1 { SeedHandlesHold(init, live, i); }
  }

  lemma {:induction false} SeedSlotsHold(slots: seq<Slot>, data: seq<u8>, live: iset<Node>, i: nat)
    requires i < |slots| && SeedSlots(slots, data).Some? && AllIn(SeedSlots(slots, data).value, live)
    ensures SeedSlot(slots[i], data).Some? && AllIn(SeedSlot(slots[i], data).value, live)
    decreases |slots|
  {
    var init := slots[..|slots| - 1];
    assert AllIn(SeedSlots(init, data).value, live);
    if i < |slots| - 1 { SeedSlotsHold(init, data, live, i); }
  }

  // --- survival ---

  /** A collection that kept exactly `live`, which holds the references of everything in it. */
  ghost predicate CollectedTo(st: Store, types: Layouts, live: iset<Node>, after: Store) {
    && ContentsOk(st, types) && KeptExactly(st, live, after)
    && forall x :: x in live && IsLive(st, x) && Refs(st, types, x).Some? ==> AllIn(Refs(st, types, x).value, live)
  }

  lemma ValSurvives(st: Store, live: iset<Node>, after: Store, v: Val)
    requires SizesOk(st) && KeptExactly(st, live, after) && ValOk(st, v) && AllIn(SeedVal(v), live)
    ensures ValOk(after, v)
  {
    if SeedVal(v) != [] { assert SeedVal(v)[0] in live; }
  }

  lemma {:induction false} ValsSurvive(st: Store, live: iset<Node>, after: Store, vs: seq<Val>)
    requires SizesOk(st) && KeptExactly(st, live, after) && ValsOk(st, vs) && AllIn(SeedVals(vs), live)
    ensures ValsOk(after, vs)
  {
    forall i | 0 <= i < |vs| ensures ValOk(after, vs[i]) {
      SeedValsHold(vs, live, i);
      ValSurvives(st, live, after, vs[i]);
    }
  }

  lemma {:induction false} FieldSurvives(st: Store, live: iset<Node>, after: Store, s: Slot, data: seq<u8>)
    requires SizesOk(st) && KeptExactly(st, live, after) && FieldOk(st, s, data)
    requires SeedSlot(s, data).Some? && AllIn(SeedSlot(s, data).value, live)
    ensures FieldOk(after, s, data)
  {
    assert AllIn(SeedVal(ReadSlot(s, data)), live);
    ValSurvives(st, live, after, ReadSlot(s, data));
  }

  lemma {:induction false} WrapperSurvives(st: Store, live: iset<Node>, after: Store, o: GcObject)
    requires KeptExactly(st, live, after) && WrapperOk(st, o) && Ext(FromLe(o.data[..4])) in live
    ensures WrapperOk(after, o)
  {
  }

  lemma {:induction false} ObjectSurvives(st: Store, types: Layouts, live: iset<Node>, after: Store, i: nat)
    requires CollectedTo(st, types, live, after) && i < |st.objs| && st.objs[i].Some? && Gc(i) in live
    ensures ObjectOk(after, st.objs[i].value, types)
  {
    var o := st.objs[i].value;
    assert ObjectOk(st, o, types);
    var slots := SlotsIn(o, types).value;
    LiveRefsAreLive(st, types, Gc(i));
    assert AllIn(Refs(st, types, Gc(i)).value, live);
    if o.kind.ObjExtern? {
      var e := FromLe(o.data[..4]);
      assert Ext(e) in Refs(st, types, Gc(i)).value;
      WrapperSurvives(st, live, after, o);
      WrapperFieldOk(after, o);
    } else {
      forall k | 0 <= k < |slots| ensures FieldOk(after, slots[k], o.data) {
        assert FieldOk(st, slots[k], o.data);
        SeedSlotsHold(slots, o.data, live, k);
        FieldSurvives(st, live, after, slots[k], o.data);
      }
    }
  }

  lemma WrapperFieldOk(st: Store, o: GcObject)
    requires WrapperOk(st, o)
    ensures FieldOk(st, Slot(0, Handle(KExtern)), o.data)
  {
    assert o.data[0..4] == o.data[..4];
  }

  lemma {:induction false} EntrySurvives(st: Store, types: Layouts, live: iset<Node>, after: Store, i: nat)
    requires CollectedTo(st, types, live, after) && i < |st.exts| && st.exts[i].Some? && Ext(i) in live
    ensures EntryOk(after, st.exts[i].value)
  {
    var e := st.exts[i].value;
    assert EntryOk(st, e) && Refs(st, types, Ext(i)).Some?;
    if e.Internal? && DecodeHandle(e.handle).ObjSlot? {
      assert Gc(e.handle) in Refs(st, types, Ext(i)).value;
    }
  }

  lemma {:induction false} ExnSurvives(st: Store, types: Layouts, live: iset<Node>, after: Store, i: nat)
    requires CollectedTo(st, types, live, after) && i < |st.exns| && st.exns[i].Some? && Exn(i) in live
    ensures ValsOk(after, st.exns[i].value.args)
  {
    assert Refs(st, types, Exn(i)).Some?;
    ValsSurvive(st, live, after, st.exns[i].value.args);
  }

  lemma {:induction false} ContentsSurvive(st: Store, types: Layouts, live: iset<Node>, after: Store)
    requires CollectedTo(st, types, live, after)
    ensures ContentsOk(after, types)
  {
    forall i | 0 <= i < |after.objs| && after.objs[i].Some? ensures ObjectOk(after, after.objs[i].value, types) {
      ObjectSurvives(st, types, live, after, i);
    }
    forall i | 0 <= i < |after.exts| && after.exts[i].Some? ensures EntryOk(after, after.exts[i].value) {
      EntrySurvives(st, types, live, after, i);
    }
    forall i | 0 <= i < |after.exns| && after.exns[i].Some? ensures ValsOk(after, after.exns[i].value.args) {
      ExnSurvives(st, types, live, after, i);
    }
  }

  lemma {:induction false} AllValsSurvive(st: Store, live: iset<Node>, after: Store, vss: seq<seq<Val>>)
    requires SizesOk(st) && KeptExactly(st, live, after) && AllValsOk(st, vss) && AllIn(SeedAll(vss), live)
    ensures AllValsOk(after, vss)
  {
    forall i | 0 <= i < |vss| ensures ValsOk(after, vss[i]) {
      SeedAllHolds(vss, live, i);
      ValsSurvive(st, live, after, vss[i]);
    }
  }

  lemma NodesSurvive(st: Store, live: iset<Node>, after: Store, xs: seq<Node>)
    requires KeptExactly(st, live, after) && NodesLive(st, xs) && AllIn(xs, live)
    ensures NodesLive(after, xs)
  {
  }

  lemma {:induction false} RootsSurvive(st: Store, live: iset<Node>, after: Store, rs: seq<(nat, RefKind)>)
    requires KeptExactly(st, live, after) && RootsOk(st, rs) && AllIn(SeedHandles(rs), live)
    ensures RootsOk(after, rs)
  {
    forall i | 0 <= i < |rs| ensures RootOk(after, rs[i]) {
      assert RootOk(st, rs[i]);
      SeedHandlesHold(rs, live, i);
      NodesSurvive(st, live, after, SeedHandle(rs[i].0, rs[i].1));
    }
  }

  /** The reachable set holds its roots and the references of everything in it. */
  lemma {:induction false} ReachableIsCollected(st: Store, types: Layouts, roots: seq<Node>)
    requires ContentsOk(st, types)
    ensures var live := ReachableSet(GraphOf(st, types), roots);
      AllIn(roots, live) && CollectedTo(st, types, live, Kept(st, live))
  {
    var g := GraphOf(st, types);
    var live := ReachableSet(g, roots);
    forall x | x in roots ensures x in live { RootReached(g, roots, x); }
    forall x | x in live && IsLive(st, x) && Refs(st, types, x).Some? ensures AllIn(Refs(st, types, x).value, live) {
      forall z | z in Refs(st, types, x).value ensures z in live { EdgeReached(g, roots, x, z); }
    }
  }

  lemma {:induction false} HeldSurvives(m: Machine, live: iset<Node>, after: Store)
    requires SizesOk(m.st) && KeptExactly(m.st, live, after) && HeldOk(m) && AllIn(Roots(m), live)
    ensures HeldOk(m.(st := after))
  {
    assert AllIn(SeedVals(m.stack), live) && AllIn(SeedVals(m.globals), live);
    assert AllIn(SeedAll(m.tables), live) && AllIn(SeedAll(m.elems), live) && AllIn(SeedHandles(m.roots), live);
    ValsSurvive(m.st, live, after, m.stack);
    ValsSurvive(m.st, live, after, m.globals);
    AllValsSurvive(m.st, live, after, m.tables);
    AllValsSurvive(m.st, live, after, m.elems);
    RootsSurvive(m.st, live, after, m.roots);
    if m.pending.Some? { assert Exn(m.pending.value) in Roots(m); }
  }

  /** A handle whose slot was not freed still names what it named. */
  lemma {:induction false} HandlesSurvive(m: Machine, live: iset<Node>, after: Store)
    requires HandlesOk(m.st, m.frees, m.handles) && KeptExactly(m.st, live, after)
    ensures HandlesOk(after, FreedBy(m.frees, m.st, live), m.handles)
  {
    var frees := FreedBy(m.frees, m.st, live);
    forall h | h in m.handles && h.stamped ensures StampOk(after, frees, h) {
      assert StampOk(m.st, m.frees, h);
    }
  }

  /** A collection keeps every reference the machine holds, and everything it leaves is intact. */
  lemma {:induction false} CollectKeepsOk(m: Machine, types: Layouts)
    requires MachineOk(m, types)
    ensures MachineOk(Collected(m, types), types)
  {
    var live := Survivors(m, types);
    ReachableIsCollected(m.st, types, Roots(m));
    ContentsSurvive(m.st, types, live, Kept(m.st, live));
    HeldSurvives(m, live, Kept(m.st, live));
    HandlesSurvive(m, live, Kept(m.st, live));
  }

  // --- a collection right after a collection ---

  lemma RefsSurvive(st: Store, types: Layouts, live: iset<Node>, after: Store, x: Node)
    requires KeptExactly(st, live, after) && x in live
    ensures Refs(after, types, x) == Refs(st, types, x)
  {
  }

  /** Collecting again frees nothing more. */
  lemma {:induction false} CollectTwice(m: Machine, types: Layouts)
    requires Traceable(m, types)
    ensures Collected(Collected(m, types), types).st == Collected(m, types).st
  {
    var live, once := Survivors(m, types), Collected(m, types);
    var g, g', roots := GraphOf(m.st, types), GraphOf(once.st, types), Roots(m);
    forall y | Reachable(g, roots, y) && y in g ensures y in g' && g'[y] == g[y] {
      RefsSurvive(m.st, types, live, once.st, y);
    }
    forall x | x in live ensures x in Survivors(once, types) {
      var n: nat :| ReachedIn(g, roots, x, n);
      ReachedInBoth(g, g', roots, x, n);
    }
    SurvivorsStay(once, types, live);
  }

  /** A store that holds nothing outside `live`, all of which survives, loses nothing. */
  lemma SurvivorsStay(m: Machine, types: Layouts, live: iset<Node>)
    requires forall x :: IsLive(m.st, x) ==> x in live
    requires forall x :: x in live ==> x in Survivors(m, types)
    ensures Collected(m, types).st == m.st
  {
    var kept := Kept(m.st, Survivors(m, types));
    assert forall i :: 0 <= i < |m.st.objs| && m.st.objs[i].Some? ==> IsLive(m.st, Gc(i)) && Gc(i) in live;
    assert forall i :: 0 <= i < |m.st.exts| && m.st.exts[i].Some? ==> IsLive(m.st, Ext(i)) && Ext(i) in live;
    assert forall i :: 0 <= i < |m.st.exns| && m.st.exns[i].Some? ==> IsLive(m.st, Exn(i)) && Exn(i) in live;
    assert kept.objs == m.st.objs && kept.exts == m.st.exts && kept.exns == m.st.exns;
  }
}
