/** Guest steps, and host steps that present no handles, leave nothing dangling where nothing dangled before. */
module MutatorSafety {
  import opened Options
  import opened Layout
  import opened Codec
  import opened Heap
  import opened Tracing
  import opened Collector
  import opened Managed
  import opened Conversions
  import opened Mutator
  import opened Survival

  // --- values ---

  lemma RootlessOk(st: Store, v: Val)
    requires Rootless(v)
    ensures ValOk(st, v)
  {
    ValStaysOk(NOTHING, st, v);
  }

  lemma FieldReadOk(st: Store, types: Layouts, i: nat, k: nat, v: Val)
    requires ContentsOk(st, types) && ReadsField(st, types, i, k, v)
    ensures ValOk(st, v)
  {
    assert ObjectOk(st, st.objs[i].value, types);
    assert FieldOk(st, SlotsIn(st.objs[i].value, types).value[k], st.objs[i].value.data);
  }

  lemma ArgReadOk(st: Store, types: Layouts, x: nat, v: Val)
    requires ContentsOk(st, types) && ReadsArg(st, x, v)
    ensures ValOk(st, v)
  {
  }

  /** Whatever an instruction can obtain is live. */
  lemma {:induction false} SourcedOk(m: Machine, types: Layouts, v: Val)
    requires MachineOk(m, types) && Sourced(m, types, v)
    ensures ValOk(m.st, v)
  {
    if Rootless(v) {
      RootlessOk(m.st, v);
    } else if i, k :| AnyRef(Some(i)) in m.stack && ReadsField(m.st, types, i, k, v) {
      FieldReadOk(m.st, types, i, k, v);
    } else if x :| ExnRef(Some(x)) in m.stack && ReadsArg(m.st, x, v) {
      ArgReadOk(m.st, types, x, v);
    }
  }

  lemma {:induction false} AllSourcedOk(m: Machine, types: Layouts, vs: seq<Val>)
    requires MachineOk(m, types) && AllSourced(m, types, vs)
    ensures ValsOk(m.st, vs)
  {
    forall i | 0 <= i < |vs| ensures ValOk(m.st, vs[i]) { SourcedOk(m, types, vs[i]); }
  }

  lemma {:induction false} AllSourcedInOk(m: Machine, types: Layouts, vss: seq<seq<Val>>)
    requires MachineOk(m, types) && AllSourcedIn(m, types, vss)
    ensures AllValsOk(m.st, vss)
  {
    forall i | 0 <= i < |vss| ensures ValsOk(m.st, vss[i]) { AllSourcedOk(m, types, vss[i]); }
  }

  // --- roots and marks ---

  /** A reference that can be rooted: in range, and live unless it is an `i31`. */
  ghost predicate Rootable(st: Store, r: (nat, RefKind)) {
    RootOk(st, r) && WellFormed(HostRef(r.1, r.0, true, 0))
  }

  ghost predicate AllRootable(st: Store, rs: seq<(nat, RefKind)>) {
    forall i :: 0 <= i < |rs| ==> Rootable(st, rs[i])
  }

  lemma RootableIsOk(st: Store, rs: seq<(nat, RefKind)>)
    requires AllRootable(st, rs)
    ensures RootsOk(st, rs)
  {
    forall i | 0 <= i < |rs| ensures RootOk(st, rs[i]) { assert Rootable(st, rs[i]); }
  }

  lemma OneRootable(st: Store, v: Val)
    requires SizesOk(st) && ValOk(st, v)
    ensures AllRootable(st, RootOf(v))
  {
  }

  lemma RootableConcat(st: Store, a: seq<(nat, RefKind)>, b: seq<(nat, RefKind)>)
    requires AllRootable(st, a) && AllRootable(st, b)
    ensures AllRootable(st, a + b)
  {
  }

  lemma {:induction false} ParamRootsOk(st: Store, vs: seq<Val>)
    requires SizesOk(st) && ValsOk(st, vs)
    ensures AllRootable(st, ParamRoots(vs))
  {
    if vs != [] {
      var last := vs[|vs| - 1];
      ParamRootsOk(st, vs[..|vs| - 1]);
      OneRootable(st, last);
      RootableConcat(st, ParamRoots(vs[..|vs| - 1]), RootOf(last));
    }
  }

  lemma RootsConcat(st: Store, a: seq<(nat, RefKind)>, b: seq<(nat, RefKind)>)
    requires RootsOk(st, a) && RootsOk(st, b)
    ensures RootsOk(st, a + b)
  {
  }

  /** More roots, or fewer above the innermost open call, keep every open call's mark. */
  lemma MarksStayOk(marks: seq<Mark>, roots: seq<(nat, RefKind)>, after: seq<(nat, RefKind)>)
    requires MarksOk(marks, roots)
    requires marks != [] ==> marks[|marks| - 1].base <= |after|
    requires forall i :: 0 <= i < |roots| && i < |after| ==> after[i] == roots[i]
    ensures MarksOk(marks, after)
  {
    forall i | 0 <= i < |marks| ensures MarkOk(marks[i], after) {
      assert MarkOk(marks[i], roots);
      assert i < |marks| - 1 ==> MarkOk(marks[|marks| - 1], roots);
    }
  }

  lemma RootsStayOk(st: Store, after: Store, rs: seq<(nat, RefKind)>)
    requires Follows(st, after) && RootsOk(st, rs)
    ensures RootsOk(after, rs)
  {
    forall i | 0 <= i < |rs| ensures RootOk(after, rs[i]) { assert RootOk(st, rs[i]); }
  }

  lemma {:induction false} AllValsStayOk(st: Store, after: Store, vss: seq<seq<Val>>)
    requires Follows(st, after) && AllValsOk(st, vss)
    ensures AllValsOk(after, vss)
  {
    forall i | 0 <= i < |vss| ensures ValsOk(after, vss[i]) { ValsStayOk(st, after, vss[i]); }
  }

  lemma {:induction false} HeldStaysOk(m: Machine, after: Store)
    requires HeldOk(m) && Follows(m.st, after)
    ensures HeldOk(m.(st := after))
  {
    ValsStayOk(m.st, after, m.stack);
    ValsStayOk(m.st, after, m.globals);
    AllValsStayOk(m.st, after, m.tables);
    AllValsStayOk(m.st, after, m.elems);
    RootsStayOk(m.st, after, m.roots);
  }

  lemma LiveStays(st: Store, after: Store, x: Node)
    requires Follows(st, after) && IsLive(st, x)
    ensures IsLive(after, x)
  {
  }

  lemma {:induction false} HandlesStayOk(st: Store, after: Store, frees: map<Node, nat>, handles: set<HostRef>)
    requires Follows(st, after) && HandlesOk(st, frees, handles)
    ensures HandlesOk(after, frees, handles)
  {
    forall h | h in handles && h.stamped ensures StampOk(after, frees, h) {
      assert StampOk(st, frees, h);
      forall x | x in Named(h) && h.born == FreesAt(frees, x) ensures IsLive(after, x) { LiveStays(st, after, x); }
    }
  }

  /** A step that only adds to the store or overwrites in it keeps what is held. */
  lemma {:induction false} GrownOk(m: Machine, types: Layouts, after: Store)
    requires MachineOk(m, types) && Follows(m.st, after) && ContentsOk(after, types)
    ensures MachineOk(m.(st := after), types)
  {
    HeldStaysOk(m, after);
    HandlesStayOk(m.st, after, m.frees, m.handles);
  }

  lemma StackOk(m: Machine, types: Layouts, stack: seq<Val>)
    requires MachineOk(m, types) && ValsOk(m.st, stack)
    ensures MachineOk(m.(stack := stack), types)
  {
  }

  /** Handles made of live entries are exact. */
  lemma {:induction false} MintedOk(
    st: Store, frees: map<Node, nat>, handles: set<HostRef>, rs: seq<(nat, RefKind)>, stamped: bool)
    requires HandlesOk(st, frees, handles) && AllRootable(st, rs)
    ensures HandlesOk(st, frees, handles + AllMinted(frees, rs, stamped))
  {
    forall h | h in AllMinted(frees, rs, stamped) ensures WellFormed(h) && StampOk(st, frees, h) {
      var r :| r in rs && h == Minted(frees, r, stamped);
      var i :| 0 <= i < |rs| && rs[i] == r;
      assert Rootable(st, rs[i]);
    }
  }

  lemma {:induction false} RootedOk(m: Machine, types: Layouts, more: seq<(nat, RefKind)>)
    requires MachineOk(m, types) && AllRootable(m.st, more)
    ensures MachineOk(Rooted(m, more), types)
  {
    RootableIsOk(m.st, more);
    RootsConcat(m.st, m.roots, more);
    MarksStayOk(m.marks, m.roots, m.roots + more);
    MintedOk(m.st, m.frees, m.handles, more, true);
  }

  lemma {:induction false} PendingRootsOk(st: Store, types: Layouts, pending: Option<nat>)
    requires ContentsOk(st, types) && PendingOk(st, pending)
    ensures RootsOk(st, PendingRoots(pending)) && AllRootable(st, PendingRoots(pending))
    ensures pending.Some? ==> pending.value != NULL_REF
  {
  }

  // --- guest steps ---

  lemma {:induction false} MoveOk(m: Machine, types: Layouts, op: Op, n: Machine)
    requires MachineOk(m, types) && op.Move? && GuestStep(m, types, op, n)
    ensures MachineOk(n, types)
  {
    AllSourcedOk(m, types, op.stack);
    AllSourcedOk(m, types, op.globals);
    AllSourcedInOk(m, types, op.tables);
    AllSourcedInOk(m, types, op.elems);
  }

  lemma {:induction false} SetFieldOk(m: Machine, types: Layouts, op: Op, n: Machine)
    requires MachineOk(m, types) && op.SetField? && GuestStep(m, types, op, n)
    ensures MachineOk(n, types)
  {
    SourcedOk(m, types, op.v);
    FieldWriteOk(m.st, types, op.i, op.k, op.v);
    GrownOk(m, types, n.st);
  }

  lemma FilledObject(st: Store, at: nat, o: GcObject)
    requires Empty(st.objs, at)
    ensures Follows(st, st.(objs := Filled(st.objs, at, o)))
  {
  }

  lemma FilledExn(st: Store, at: nat, x: ExnEntity)
    requires Empty(st.exns, at)
    ensures Follows(st, st.(exns := Filled(st.exns, at, x)))
  {
  }

  /** Placing a built object. */
  lemma {:induction false} BuildsOk(m: Machine, types: Layouts, o: GcObject, slots: seq<Slot>, vals: seq<Val>, at: nat)
    requires MachineOk(m, types) && Builds(m.st, types, o, slots, vals, at)
    requires ValsOk(m.st.(objs := Filled(m.st.objs, at, o)), vals)
    ensures var after := m.st.(objs := Filled(m.st.objs, at, o));
      MachineOk(m.(st := after), types) && IsLive(after, Gc(at)) && SizesOk(after)
  {
    var after := m.st.(objs := Filled(m.st.objs, at, o));
    BuiltObjectOk(after, types, o, slots, vals);
    NewObjectOk(m.st, types, at, o);
    GrownOk(m, types, after);
  }

  lemma PushHandleOk(m: Machine, types: Layouts, at: nat, keep: nat)
    requires MachineOk(m, types) && IsLive(m.st, Gc(at)) && keep <= |m.stack|
    ensures MachineOk(m.(stack := m.stack[..keep] + [AnyRef(Some(at))]), types)
  {
  }

  lemma {:induction false} NewObjectStepOk(m: Machine, types: Layouts, op: Op, n: Machine)
    requires MachineOk(m, types) && op.NewObject? && GuestStep(m, types, op, n)
    ensures MachineOk(n, types)
  {
    AllSourcedOk(m, types, op.vals);
    FilledObject(m.st, op.at, op.o);
    ValsStayOk(m.st, n.st, op.vals);
    BuildsOk(m, types, op.o, op.slots, op.vals, op.at);
    PushHandleOk(m.(st := n.st), types, op.at, op.keep);
  }

  lemma {:induction false} ConvertOk(m: Machine, types: Layouts, op: Op, n: Machine)
    requires MachineOk(m, types) && (op.ExternConvert? || op.AnyConvert?) && GuestStep(m, types, op, n)
    ensures MachineOk(n, types)
  {
    var v := Top(m.stack).value;
    assert ValOk(m.st, v);
    if op.ExternConvert? {
      ExternConversionOk(m.st, types, v, op.at, op.room);
    } else {
      AnyConversionOk(m.st, types, v, op.at, op.room);
    }
    GrownOk(m, types, n.st);
    StackOk(m.(st := n.st), types, n.stack);
  }

  /** A live exception caught or surfacing. */
  lemma {:induction false} RaisedOk(m: Machine, types: Layouts, x: nat, caught: bool, stack: seq<Val>)
    requires MachineOk(m, types) && IsLive(m.st, Exn(x)) && HandlerStack(m, x, stack)
    ensures MachineOk(Raised(m, x, caught, stack), types)
  {
    forall i | 0 <= i < |stack| ensures ValOk(m.st, stack[i]) {
      if ReadsArg(m.st, x, stack[i]) { ArgReadOk(m.st, types, x, stack[i]); }
    }
  }

  lemma {:induction false} ThrowOk(m: Machine, types: Layouts, op: Op, n: Machine)
    requires MachineOk(m, types) && op.Throw? && GuestStep(m, types, op, n)
    ensures MachineOk(n, types)
  {
    var entity := ExnEntity(op.tag, m.stack[op.keep..]);
    FilledExn(m.st, op.at, entity);
    ValsStayOk(m.st, n.st, entity.args);
    NewExnOk(m.st, types, op.at, entity);
    GrownOk(m, types, n.st);
    RaisedOk(m.(st := n.st), types, op.at, op.caught, op.stack);
  }

  lemma {:induction false} GuestStepOk(m: Machine, types: Layouts, op: Op, n: Machine)
    requires MachineOk(m, types) && GuestStep(m, types, op, n)
    ensures MachineOk(n, types)
  {
    match op
    case Move(_, _, _, _) => MoveOk(m, types, op, n);
    case SetField(_, _, _) => SetFieldOk(m, types, op, n);
    case NewObject(_, _, _, _, _) => NewObjectStepOk(m, types, op, n);
    case ExternConvert(_, _) => ConvertOk(m, types, op, n);
    case AnyConvert(_, _) => ConvertOk(m, types, op, n);
    case Throw(_, _, _, _, _) => ThrowOk(m, types, op, n);
    case Rethrow(x, caught, stack) => RaisedOk(m, types, x, caught, stack);
    case Collect => CollectKeepsOk(m, types);
  }

  // --- host steps ---

  lemma {:induction false} EnterOk(m: Machine, types: Layouts, keep: nat)
    requires MachineOk(m, types) && keep <= |m.stack|
    ensures MachineOk(Entered(m, keep), types)
  {
    var n := Entered(m, keep);
    var saved, params := PendingRoots(m.pending), ParamRoots(m.stack[keep..]);
    PendingRootsOk(m.st, types, m.pending);
    ParamRootsOk(m.st, m.stack[keep..]);
    RootableIsOk(m.st, params);
    RootsConcat(m.st, m.roots, saved);
    RootsConcat(m.st, m.roots + saved, params);
    MintedOk(m.st, m.frees, m.handles, params, false);
    MarksStayOk(m.marks, m.roots, n.roots);
    var mark := n.marks[|m.marks|];
    assert m.pending.Some? ==> n.roots[mark.height] == saved[0];
    assert MarkOk(mark, n.roots);
    forall i | 0 <= i < |m.marks| ensures m.marks[i].base <= mark.height { assert MarkOk(m.marks[i], m.roots); }
  }

  /** Closing a call drops its own roots only; the pending exception it saved is still live. */
  lemma {:induction false} ClosedOk(m: Machine, types: Layouts, restore: bool)
    requires MachineOk(m, types) && m.marks != []
    ensures MachineOk(Closed(m, restore), types)
  {
    var k := |m.marks| - 1;
    var mark := m.marks[k];
    assert MarkOk(mark, m.roots);
    if mark.saved.Some? {
      assert RootOk(m.st, m.roots[mark.height]);
      assert Exn(mark.saved.value) in SeedHandle(mark.saved.value, KExn);
    }
    MarksStayOk(m.marks[..k], m.roots, m.roots[..mark.height]);
  }

  lemma {:induction false} HandOutOk(m: Machine, types: Layouts, v: Val)
    requires MachineOk(m, types) && Readable(m, types, v)
    ensures MachineOk(Rooted(m, RootOf(v)), types)
  {
    if Sourced(m, types, v) {
      SourcedOk(m, types, v);
    } else if h, k :| h in m.handles && h.kind == KAny && Passes(m, h) && ReadsField(m.st, types, h.index, k, v) {
      FieldReadOk(m.st, types, h.index, k, v);
    } else {
      var h :| h in m.handles && h.kind == KExn && Passes(m, h) && ReadsArg(m.st, h.index, v);
      ArgReadOk(m.st, types, h.index, v);
    }
    OneRootable(m.st, v);
    RootedOk(m, types, RootOf(v));
  }

  lemma {:induction false} HostStepOk(m: Machine, types: Layouts, op: Op, n: Machine)
    requires MachineOk(m, types) && HostStep(m, types, op, n)
    ensures MachineOk(n, types)
  {
    match op
    case HostEnter(keep) => EnterOk(m, types, keep);
    case HandOut(v) => HandOutOk(m, types, v);
    case HostSetPending(h) => assert Exn(h.index) in Named(h);
    case HostTakePending =>
      PendingRootsOk(m.st, types, m.pending);
      RootedOk(m, types, PendingRoots(m.pending));
    case CloseScope(height) => MarksStayOk(m.marks, m.roots, m.roots[..height]);
    case HostFail(restore, stack) =>
      ClosedOk(m, types, restore);
      StackOk(Closed(m, restore), types, stack);
    case HostThrow(caught, stack) =>
      ClosedOk(m, types, true);
      RaisedOk(Closed(m, true), types, m.pending.value, caught, stack);
  }
}
