/**
 Whole runs of a store: exactly when no reference ever dangles, collections that then never fail, and
 what the `extern`/`any` conversions give back after any interleaving of other steps.
 */
module StoreRuns {
  import opened Options
  import opened Arenas
  import opened Layout
  import opened Codec
  import opened Heap
  import opened Tracing
  import opened Reachability
  import opened Collector
  import opened Managed
  import opened Conversions
  import opened Mutator
  import opened Survival
  import opened MutatorSafety
  import opened Presenting
  import ExecState
  import Execution

  // --- every run ---

  /** A step leaves nothing dangling if and only if what it presents meets its condition. */
  lemma {:induction false} StepOkIff(m: Machine, types: Layouts, op: Op, n: Machine)
    requires MachineOk(m, types) && Step(m, types, op, n)
    ensures MachineOk(n, types) <==> Safe(m, types, op)
  {
    if GuestStep(m, types, op, n) {
      GuestStepOk(m, types, op, n);
    } else if HostStep(m, types, op, n) {
      HostStepOk(m, types, op, n);
    } else if StoreStep(m, types, op, n) {
      StoreStepIff(m, types, op, n);
    } else {
      AllocStepIff(m, types, op, n);
    }
  }

  ghost predicate SafeAt(ms: seq<Machine>, ops: seq<Op>, types: Layouts, i: nat) {
    i < |ms| && i < |ops| && Safe(ms[i], types, ops[i])
  }

  /** The first `k` steps meet their conditions. */
  ghost predicate SafeTo(ms: seq<Machine>, ops: seq<Op>, types: Layouts, k: nat) {
    forall i: nat :: i < k ==> SafeAt(ms, ops, types, i)
  }

  /**
   No dangling reference: in the state after `k` steps each reference held or stored names a live,
   intact entry, as long as every step so far met its condition.
   */
  lemma {:induction false} RunKeepsOk(ms: seq<Machine>, ops: seq<Op>, types: Layouts, k: nat)
    requires IsRun(ms, ops, types) && k < |ms| && SafeTo(ms, ops, types, k)
    ensures MachineOk(ms[k], types)
    decreases k
  {
    if k > 0 {
      RunKeepsOk(ms, ops, types, k - 1);
      assert SafeAt(ms, ops, types, k - 1) && StepAt(ms, ops, types, k - 1);
      StepOkIff(ms[k - 1], types, ops[k - 1], ms[k]);
    }
  }

  /** And only then: no state of a run has a dangling reference if and only if every step met its condition. */
  lemma {:induction false} RunOkIffSafe(ms: seq<Machine>, ops: seq<Op>, types: Layouts)
    requires IsRun(ms, ops, types)
    ensures (forall k :: 0 <= k < |ms| ==> MachineOk(ms[k], types)) <==> SafeTo(ms, ops, types, |ops|)
  {
    if SafeTo(ms, ops, types, |ops|) {
      forall k | 0 <= k < |ms| ensures MachineOk(ms[k], types) { RunKeepsOk(ms, ops, types, k); }
    }
    if forall k :: 0 <= k < |ms| ==> MachineOk(ms[k], types) {
      forall i: nat | i < |ops| ensures SafeAt(ms, ops, types, i) {
        assert StepAt(ms, ops, types, i);
        StepOkIff(ms[i], types, ops[i], ms[i + 1]);
      }
    }
  }

  // --- the caller's half: handles that are still rooted ---

  /** The values a step presents. */
  function Presented(op: Op): seq<Given> {
    match op
    case HostArgs(given) => given
    case HostReturn(given) => given
    case HostGlobal(_, g) => [g]
    case HostElem(_, _, g) => [g]
    case HostField(_, _, g) => [g]
    case HostReroot(g) => [g]
    case HostObject(_, _, given, _, _) => given
    case HostExn(_, given, _, _) => given
    case _ => []
  }

  /** The handle's root is still registered: the scope or the host call it was made in is open. */
  predicate RootStands(m: Machine, g: Given) {
    g.Held? ==> (g.h.index, g.h.kind) in m.roots
  }

  predicate AllRootsStand(m: Machine, op: Op) {
    forall i :: 0 <= i < |Presented(op)| ==> RootStands(m, Presented(op)[i])
  }

  lemma {:induction false} RootSurvives(m: Machine, types: Layouts, r: (nat, RefKind), x: Node)
    requires r in m.roots && x in SeedHandle(r.0, r.1)
    ensures x in Survivors(m, types)
  {
    var i :| 0 <= i < |m.roots| && m.roots[i] == r;
    var seeds := iset y | y in SeedHandles(m.roots);
    SeedHandlesHold(m.roots, seeds, i);
    assert x in Roots(m);
    RootReached(GraphOf(m.st, types), Roots(m), x);
  }

  /** What a rooted handle names is there, and lasts whether or not a reservation collects. */
  lemma {:induction false} RootedLasts(m: Machine, types: Layouts, g: Given, collects: bool, entry: Node)
    requires MachineOk(m, types) && RootStands(m, g)
    ensures Present(m.st, g) && Lasts(m, types, collects, entry, g)
  {
    if g.Held? {
      var i :| 0 <= i < |m.roots| && m.roots[i] == (g.h.index, g.h.kind);
      assert RootOk(m.st, m.roots[i]);
      forall x | x in Named(g.h) ensures x in Survivors(m, types) {
        RootSurvives(m, types, (g.h.index, g.h.kind), x);
      }
    }
  }

  /** A step whose presented handles are all still rooted meets its condition. */
  lemma {:induction false} RootedIsSafe(m: Machine, types: Layouts, op: Op)
    requires MachineOk(m, types) && AllRootsStand(m, op)
    ensures Safe(m, types, op)
  {
    var gs := Presented(op);
    var collects := (op.HostObject? || op.HostExn?) && op.collects;
    var entry := if op.HostObject? then Gc(op.at) else if op.HostExn? then Exn(op.at) else Gc(0);
    forall i | 0 <= i < |gs| ensures Present(m.st, gs[i]) && Lasts(m, types, collects, entry, gs[i]) {
      assert RootStands(m, gs[i]);
      RootedLasts(m, types, gs[i], collects, entry);
    }
    assert op.HostGlobal? || op.HostElem? || op.HostField? || op.HostReroot? ==> gs[0] == op.g;
  }

  predicate RootsStandAt(ms: seq<Machine>, ops: seq<Op>, i: nat) {
    i < |ms| && i < |ops| && AllRootsStand(ms[i], ops[i])
  }

  /**
   A host that presents a handle only while its root scope or host call is open is safe: no state of such a
   run has a dangling reference, and no collection in it fails.
   */
  lemma {:induction false} RootedRunOk(ms: seq<Machine>, ops: seq<Op>, types: Layouts, k: nat)
    requires IsRun(ms, ops, types) && k < |ms| && forall i: nat :: i < k ==> RootsStandAt(ms, ops, i)
    ensures SafeTo(ms, ops, types, k) && MachineOk(ms[k], types) && Traceable(ms[k], types)
    decreases k
  {
    if k > 0 {
      assert RootsStandAt(ms, ops, k - 1);
      RootedRunOk(ms, ops, types, k - 1);
      RootedIsSafe(ms[k - 1], types, ops[k - 1]);
      forall i: nat | i < k ensures SafeAt(ms, ops, types, i) {
        if i < k - 1 { assert SafeTo(ms, ops, types, k - 1) && SafeAt(ms, ops, types, i); }
      }
    }
    RunKeepsOk(ms, ops, types, k);
    forall x | x in Survivors(ms[k], types) ensures x in GraphOf(ms[k].st, types) {
      CollectionNeverFails(ms, ops, types, k, x);
    }
  }

  // --- collections ---

  lemma {:induction false} SeedAllLive(st: Store, vss: seq<seq<Val>>)
    requires AllValsOk(st, vss)
    ensures NodesLive(st, SeedAll(vss))
  {
    if vss != [] {
      SeedAllLive(st, vss[..|vss| - 1]);
      SeedValsLive(st, vss[|vss| - 1]);
    }
  }

  lemma {:induction false} SeedHandlesLive(st: Store, rs: seq<(nat, RefKind)>)
    requires RootsOk(st, rs)
    ensures NodesLive(st, SeedHandles(rs))
  {
    if rs != [] {
      SeedHandlesLive(st, rs[..|rs| - 1]);
      assert RootOk(st, rs[|rs| - 1]);
    }
  }

  lemma {:induction false} RootsAreLive(m: Machine)
    requires HeldOk(m)
    ensures NodesLive(m.st, Roots(m))
  {
    SeedValsLive(m.st, m.stack);
    SeedValsLive(m.st, m.globals);
    SeedAllLive(m.st, m.tables);
    SeedAllLive(m.st, m.elems);
    SeedHandlesLive(m.st, m.roots);
  }

  lemma {:induction false} EdgesAreLive(st: Store, types: Layouts, y: Node, z: Node)
    requires ContentsOk(st, types) && IsLive(st, y) && y in GraphOf(st, types) && z in GraphOf(st, types)[y]
    ensures IsLive(st, z)
  {
    LiveRefsAreLive(st, types, y);
  }

  lemma {:induction false} ReachedIsLive(st: Store, types: Layouts, roots: seq<Node>, x: Node)
    requires ContentsOk(st, types) && NodesLive(st, roots) && Reachable(GraphOf(st, types), roots, x)
    ensures IsLive(st, x)
  {
    var g, seen := GraphOf(st, types), Nodes(st);
    forall y, z | y in seen && y in g && z in g[y] ensures z in seen { EdgesAreLive(st, types, y, z); }
    var n: nat :| ReachedIn(g, roots, x, n);
    ClosedHoldsReached(g, roots, seen, x, n);
  }

  /**
   While every step meets its condition, everything reachable is live and intact: a collection started
   there meets nothing dangling or corrupt, which is when a collection fails.
   */
  lemma {:induction false} CollectionNeverFails(ms: seq<Machine>, ops: seq<Op>, types: Layouts, k: nat, x: Node)
    requires IsRun(ms, ops, types) && k < |ms| && SafeTo(ms, ops, types, k)
    requires Reachable(GraphOf(ms[k].st, types), Roots(ms[k]), x)
    ensures IsLive(ms[k].st, x) && x in GraphOf(ms[k].st, types)
  {
    var m := ms[k];
    RunKeepsOk(ms, ops, types, k);
    RootsAreLive(m);
    ReachedIsLive(m.st, types, Roots(m), x);
    LiveRefsAreLive(m.st, types, x);
  }

  /** What seeds a collection besides the stack. */
  function EntitySeeds(m: Machine): seq<Node> {
    SeedVals(m.globals) + SeedAll(m.tables) + SeedAll(m.elems)
      + (if m.pending.Some? then [Exn(m.pending.value)] else []) + SeedHandles(m.roots)
  }

  /**
   The collector's method refines the machine's step: roots scanned off the untyped stack and its
   shadow, together with the store's own, leave exactly what the step leaves, and the method's error
   is the step that changes nothing.
   */
  lemma {:induction false} CollectIsAStep(
    m: Machine, types: Layouts, scanned: seq<(nat, RefKind)>, failed: bool, after: Store)
    requires var cells := Execution.EncodeAll(m.stack);
      SeedHandles(scanned) == Execution.StackNodes(ExecState.Cells(cells), ExecState.Tags(cells))
    requires var g, roots := GraphOf(m.st, types), SeedHandles(scanned) + EntitySeeds(m);
      && (failed <==> exists x :: x !in g && Reachable(g, roots, x))
      && (failed ==> after == m.st) && (!failed ==> KeptExactly(m.st, ReachableSet(g, roots), after))
    ensures GuestStep(m, types, Op.Collect, Collected(m, types)) && Collected(m, types).st == after
  {
    Execution.ShadowKeepsRoots(m.stack);
    assert SeedHandles(scanned) + EntitySeeds(m) == Roots(m);
    if !failed { KeptIsUnique(m.st, Survivors(m, types), after); }
  }

  /** The generations the arenas keep are those of the machine's free counts. */
  ghost predicate GenerationsMatch(
    frees: map<Node, nat>, objs: Arena<GcObject>, exts: Arena<ExternEntry>, xs: Arena<ExnEntity>)
  {
    && (forall i: nat :: GenerationAt(objs, i) == GenerationOf(frees, Gc(i)))
    && (forall i: nat :: GenerationAt(exts, i) == GenerationOf(frees, Ext(i)))
    && (forall i: nat :: GenerationAt(xs, i) == GenerationOf(frees, Exn(i)))
  }

  lemma FreesAfter(frees: map<Node, nat>, st: Store, live: iset<Node>, x: Node)
    ensures FreesAt(FreedBy(frees, st, live), x) == FreesAt(frees, x) + (if IsLive(st, x) && x !in live then 1 else 0)
  {
  }

  /** One more free is one generation on. */
  lemma OneMoreFree(n: nat, freed: bool, g: nat, g': nat)
    requires g == GenerationAfter(n) && g' == if freed then NextGeneration(g) else g
    ensures g' == GenerationAfter(n + (if freed then 1 else 0))
  {
  }

  lemma {:induction false} GenerationFollows<E>(
    a: Arena<E>, marked: set<nat>, i: nat, st: Store, live: iset<Node>, frees: map<Node, nat>, x: Node)
    requires |a.slots| == |a.generations| && (IsLive(st, x) <==> Occupied(a.slots, i)) && (x in live <==> i in marked)
    requires GenerationAt(a, i) == GenerationOf(frees, x)
    ensures GenerationAt(Swept(a, marked), i) == GenerationOf(FreedBy(frees, st, live), x)
  {
    var freed := Occupied(a.slots, i) && i !in marked;
    SweptGeneration(a, marked, i);
    FreesAfter(frees, st, live, x);
    OneMoreFree(FreesAt(frees, x), freed, GenerationAt(a, i), GenerationAt(Swept(a, marked), i));
  }

  /** Sweeping the arenas moves their generations as the collection step moves the free counts. */
  lemma {:induction false} CollectKeepsGenerations(
    m: Machine, types: Layouts, objs: Arena<GcObject>, exts: Arena<ExternEntry>, xs: Arena<ExnEntity>,
    marked: set<nat>, extSeen: set<nat>, exnSeen: set<nat>)
    requires Traceable(m, types) && m.st == Store(objs.slots, exts.slots, xs.slots)
    requires ArenaOk(objs) && ArenaOk(exts) && ArenaOk(xs) && GenerationsMatch(m.frees, objs, exts, xs)
    requires Visited(marked, extSeen, exnSeen, Survivors(m, types))
    ensures var frees := Collected(m, types).frees;
      GenerationsMatch(frees, Swept(objs, marked), Swept(exts, extSeen), Swept(xs, exnSeen))
  {
    var live, frees := Survivors(m, types), FreedBy(m.frees, m.st, Survivors(m, types));
    forall i: nat ensures GenerationAt(Swept(objs, marked), i) == GenerationOf(frees, Gc(i)) {
      GenerationFollows(objs, marked, i, m.st, live, m.frees, Gc(i));
    }
    forall i: nat ensures GenerationAt(Swept(exts, extSeen), i) == GenerationOf(frees, Ext(i)) {
      GenerationFollows(exts, extSeen, i, m.st, live, m.frees, Ext(i));
    }
    forall i: nat ensures GenerationAt(Swept(xs, exnSeen), i) == GenerationOf(frees, Exn(i)) {
      GenerationFollows(xs, exnSeen, i, m.st, live, m.frees, Exn(i));
    }
  }

  lemma KeptIsUnique(st: Store, live: iset<Node>, after: Store)
    requires KeptExactly(st, live, after)
    ensures after == Kept(st, live)
  {
    var kept := Kept(st, live);
    assert after.objs == kept.objs && after.exts == kept.exts && after.exns == kept.exns;
  }

  // --- one lifetime of a slot ---

  /** `x` is live in every state from `j` to `k`, and its slot is not freed in between. */
  ghost predicate LiveFrom(ms: seq<Machine>, j: nat, k: nat, x: Node) {
    k < |ms| && forall i :: j <= i <= k ==> IsLive(ms[i].st, x) && FreesAt(ms[i].frees, x) == FreesAt(ms[j].frees, x)
  }

  /** From `m` to `n` the entry `x` is not freed. */
  ghost predicate Stays(m: Machine, n: Machine, x: Node) {
    IsLive(m.st, x) && IsLive(n.st, x) && FreesAt(n.frees, x) == FreesAt(m.frees, x)
  }

  /** The step is a collection, or an allocation whose reservation ran one. */
  ghost predicate Collects(op: Op) {
    op.Collect? || ((op.HostObject? || op.HostExn? || op.HostExtern?) && op.collects)
  }

  lemma {:induction false} GuestFrees(m: Machine, types: Layouts, op: Op, n: Machine)
    requires GuestStep(m, types, op, n)
    ensures n.frees == if Collects(op) then Collected(m, types).frees else m.frees
  {
    if !op.Collect? && !op.ExternConvert? { GuestSameExts(m, types, op, n); }
  }

  lemma {:induction false} HostFrees(m: Machine, types: Layouts, op: Op, n: Machine)
    requires HostStep(m, types, op, n)
    ensures n.frees == m.frees && n.st == m.st && !Collects(op)
  {
  }

  lemma {:induction false} StoreFrees(m: Machine, types: Layouts, op: Op, n: Machine)
    requires StoreStep(m, types, op, n)
    ensures n.frees == m.frees && n.st.exts == m.st.exts && !Collects(op)
  {
  }

  lemma {:induction false} AllocFrees(m: Machine, types: Layouts, op: Op, n: Machine)
    requires AllocStep(m, types, op, n)
    ensures n.frees == Reserved(m, types, op.collects).frees && (Collects(op) <==> op.collects)
  {
  }

  /** Steps count frees only by collecting. */
  lemma {:induction false} StepFrees(m: Machine, types: Layouts, op: Op, n: Machine)
    requires Step(m, types, op, n)
    ensures n.frees == if Collects(op) then Collected(m, types).frees else m.frees
  {
    if GuestStep(m, types, op, n) {
      GuestFrees(m, types, op, n);
    } else if HostStep(m, types, op, n) {
      HostFrees(m, types, op, n);
    } else if StoreStep(m, types, op, n) {
      StoreFrees(m, types, op, n);
    } else {
      AllocFrees(m, types, op, n);
    }
  }

  /** An entry not freed by a collecting step survived its collection. */
  lemma {:induction false} NotFreedSurvives(m: Machine, types: Layouts, x: Node)
    requires IsLive(m.st, x) && FreesAt(Collected(m, types).frees, x) == FreesAt(m.frees, x)
    ensures IsLive(Collected(m, types).st, x) && (Traceable(m, types) ==> x in Survivors(m, types))
  {
  }

  predicate RefersTo(st: Store, types: Layouts, x: Node, y: Node) {
    var refs := Refs(st, types, x);
    refs.Some? && y in refs.value
  }

  /** A survivor's references survive, so their slots are not freed either. */
  lemma {:induction false} EdgeStays(m: Machine, types: Layouts, op: Op, n: Machine, x: Node, y: Node)
    requires MachineOk(m, types) && MachineOk(n, types) && Step(m, types, op, n) && Stays(m, n, x)
    requires RefersTo(m.st, types, x, y) && RefersTo(n.st, types, x, y)
    ensures Stays(m, n, y)
  {
    StepFrees(m, types, op, n);
    LiveRefsAreLive(m.st, types, x);
    LiveRefsAreLive(n.st, types, x);
    if Collects(op) {
      NotFreedSurvives(m, types, x);
      ReachableIsCollected(m.st, types, Roots(m));
    }
  }

  lemma {:induction false} CollectedKeeps(m: Machine, types: Layouts, x: Node)
    requires IsLive(Collected(m, types).st, x)
    ensures IsLive(m.st, x)
    ensures x.Ext? ==> Collected(m, types).st.exts[x.i] == m.st.exts[x.i]
    ensures x.Gc? ==> Collected(m, types).st.objs[x.i] == m.st.objs[x.i]
  {
  }

  lemma {:induction false} AllocKeepsEntry(m: Machine, types: Layouts, op: Op, n: Machine, e: nat)
    requires AllocStep(m, types, op, n) && IsLive(Reserved(m, types, op.collects).st, Ext(e))
    ensures IsLive(m.st, Ext(e)) && e < |n.st.exts| && n.st.exts[e] == m.st.exts[e]
  {
    if op.collects { CollectedKeeps(m, types, Ext(e)); }
  }

  lemma {:induction false} ConvertKeepsEntry(m: Machine, types: Layouts, op: Op, n: Machine, e: nat)
    requires op.ExternConvert? && GuestStep(m, types, op, n) && IsLive(m.st, Ext(e))
    ensures IsLive(n.st, Ext(e)) && n.st.exts[e] == m.st.exts[e]
  {
  }

  lemma {:induction false} GuestSameExts(m: Machine, types: Layouts, op: Op, n: Machine)
    requires !op.ExternConvert? && !op.Collect? && GuestStep(m, types, op, n)
    ensures n.st.exts == m.st.exts && n.frees == m.frees
  {
  }

  lemma {:induction false} GuestKeepsEntry(m: Machine, types: Layouts, op: Op, n: Machine, e: nat)
    requires GuestStep(m, types, op, n) && IsLive(m.st, Ext(e)) && IsLive(n.st, Ext(e))
    ensures n.st.exts[e] == m.st.exts[e]
  {
    if op.Collect? {
      CollectedKeeps(m, types, Ext(e));
    } else if op.ExternConvert? {
      ConvertKeepsEntry(m, types, op, n, e);
    } else {
      GuestSameExts(m, types, op, n);
    }
  }

  /** What an allocating step did not free was there when the entry was placed. */
  lemma {:induction false} StaysReserved(m: Machine, types: Layouts, op: Op, n: Machine, x: Node)
    requires AllocStep(m, types, op, n) && Stays(m, n, x)
    ensures IsLive(Reserved(m, types, op.collects).st, x)
  {
    AllocFrees(m, types, op, n);
    if op.collects { NotFreedSurvives(m, types, x); }
  }

  lemma {:induction false} StepKeepsEntry(m: Machine, types: Layouts, op: Op, n: Machine, e: nat)
    requires Step(m, types, op, n) && Stays(m, n, Ext(e))
    ensures n.st.exts[e] == m.st.exts[e]
  {
    if GuestStep(m, types, op, n) {
      GuestKeepsEntry(m, types, op, n, e);
    } else if HostStep(m, types, op, n) {
      HostFrees(m, types, op, n);
    } else if StoreStep(m, types, op, n) {
      StoreFrees(m, types, op, n);
    } else {
      StaysReserved(m, types, op, n, Ext(e));
      AllocKeepsEntry(m, types, op, n, e);
    }
  }

  /** An object keeps its kind, and its body too if it is a wrapper. */
  ghost predicate SameObject(st: Store, after: Store, i: nat) {
    && IsLive(st, Gc(i)) && IsLive(after, Gc(i)) && after.objs[i].value.kind == st.objs[i].value.kind
    && (st.objs[i].value.kind.ObjExtern? ==> after.objs[i] == st.objs[i])
  }

  lemma {:induction false} AllocKeepsObject(m: Machine, types: Layouts, op: Op, n: Machine, i: nat)
    requires AllocStep(m, types, op, n) && IsLive(Reserved(m, types, op.collects).st, Gc(i))
    ensures SameObject(m.st, n.st, i)
  {
    if op.collects { CollectedKeeps(m, types, Gc(i)); }
  }

  predicate ChangesObjects(op: Op) {
    op.SetField? || op.NewObject? || op.AnyConvert? || op.Collect?
  }

  lemma {:induction false} GuestSameObjs(m: Machine, types: Layouts, op: Op, n: Machine)
    requires !ChangesObjects(op) && GuestStep(m, types, op, n)
    ensures n.st.objs == m.st.objs
  {
  }

  lemma {:induction false} PlacedKeepsObject(m: Machine, types: Layouts, op: Op, n: Machine, i: nat)
    requires (op.NewObject? || op.AnyConvert?) && GuestStep(m, types, op, n) && IsLive(m.st, Gc(i))
    ensures SameObject(m.st, n.st, i)
  {
  }

  lemma {:induction false} WrittenKeepsObject(m: Machine, types: Layouts, op: Op, n: Machine, i: nat)
    requires op.SetField? && GuestStep(m, types, op, n) && IsLive(m.st, Gc(i))
    ensures SameObject(m.st, n.st, i)
  {
  }

  lemma {:induction false} GuestKeepsObject(m: Machine, types: Layouts, op: Op, n: Machine, i: nat)
    requires GuestStep(m, types, op, n) && IsLive(m.st, Gc(i)) && IsLive(n.st, Gc(i))
    ensures SameObject(m.st, n.st, i)
  {
    if op.Collect? {
      CollectedKeeps(m, types, Gc(i));
    } else if op.SetField? {
      WrittenKeepsObject(m, types, op, n, i);
    } else if ChangesObjects(op) {
      PlacedKeepsObject(m, types, op, n, i);
    } else {
      GuestSameObjs(m, types, op, n);
    }
  }

  lemma {:induction false} StoreKeepsObject(m: Machine, types: Layouts, op: Op, n: Machine, i: nat)
    requires StoreStep(m, types, op, n) && IsLive(m.st, Gc(i))
    ensures SameObject(m.st, n.st, i)
  {
  }

  lemma {:induction false} StepKeepsObject(m: Machine, types: Layouts, op: Op, n: Machine, i: nat)
    requires Step(m, types, op, n) && Stays(m, n, Gc(i))
    ensures SameObject(m.st, n.st, i)
  {
    if GuestStep(m, types, op, n) {
      GuestKeepsObject(m, types, op, n, i);
    } else if HostStep(m, types, op, n) {
      HostFrees(m, types, op, n);
    } else if StoreStep(m, types, op, n) {
      StoreKeepsObject(m, types, op, n, i);
    } else {
      StaysReserved(m, types, op, n, Gc(i));
      AllocKeepsObject(m, types, op, n, i);
    }
  }

  /** An extern entry is not replaced within one lifetime of its slot. */
  lemma {:induction false} EntryIsStable(ms: seq<Machine>, ops: seq<Op>, types: Layouts, j: nat, k: nat, e: nat)
    requires IsRun(ms, ops, types) && j <= k && LiveFrom(ms, j, k, Ext(e))
    ensures ms[k].st.exts[e] == ms[j].st.exts[e]
    decreases k
  {
    if j < k {
      EntryIsStable(ms, ops, types, j, k - 1, e);
      assert Stays(ms[k - 1], ms[k], Ext(e)) && StepAt(ms, ops, types, k - 1);
      StepKeepsEntry(ms[k - 1], types, ops[k - 1], ms[k], e);
    }
  }

  lemma {:induction false} WrapperIsStable(ms: seq<Machine>, ops: seq<Op>, types: Layouts, j: nat, k: nat, i: nat)
    requires IsRun(ms, ops, types) && j <= k && LiveFrom(ms, j, k, Gc(i)) && ms[j].st.objs[i].value.kind.ObjExtern?
    ensures ms[k].st.objs[i] == ms[j].st.objs[i]
    decreases k
  {
    if j < k {
      WrapperIsStable(ms, ops, types, j, k - 1, i);
      assert Stays(ms[k - 1], ms[k], Gc(i)) && StepAt(ms, ops, types, k - 1);
      StepKeepsObject(ms[k - 1], types, ops[k - 1], ms[k], i);
    }
  }

  // --- round trips ---

  /** The handle of a struct, an array or an `i31`. */
  predicate OwnReference(st: Store, h: nat) {
    DecodeHandle(h).ObjSlot? ==> IsLive(st, Gc(h)) && !st.objs[h].value.kind.ObjExtern?
  }

  /** The converting step itself. */
  lemma {:induction false} InternalizesHere(m: Machine, types: Layouts, op: Op, n: Machine, h: nat, e: nat)
    requires Step(m, types, op, n) && op.ExternConvert?
    requires Top(m.stack) == Some(AnyRef(Some(h))) && OwnReference(m.st, h)
    requires Top(n.stack) == Some(ExternRef(Some(e))) && |n.stack| == |m.stack|
    ensures IsLive(n.st, Ext(e)) && n.st.exts[e] == Some(Internal(h))
  {
  }

  lemma {:induction false} RecoversHere(m: Machine, types: Layouts, op: Op, n: Machine, h: nat, e: nat)
    requires Step(m, types, op, n) && op.AnyConvert? && Top(m.stack) == Some(ExternRef(Some(e)))
    requires IsLive(m.st, Ext(e)) && m.st.exts[e] == Some(Internal(h))
    ensures Top(n.stack) == Some(AnyRef(Some(h))) && n.st == m.st
  {
  }

  /**
   any to extern to any: an `i31`, struct or array reference converted at step `j` comes back as the
   same handle when converted at any later step of the extern entry's lifetime.
   */
  lemma {:induction false} AnyExternAny(ms: seq<Machine>, ops: seq<Op>, types: Layouts, j: nat, k: nat, h: nat, e: nat)
    requires IsRun(ms, ops, types) && j < k < |ops|
    requires Top(ms[j].stack) == Some(AnyRef(Some(h))) && OwnReference(ms[j].st, h)
    requires ops[j].ExternConvert? && Top(ms[j + 1].stack) == Some(ExternRef(Some(e)))
    requires |ms[j + 1].stack| == |ms[j].stack|
    requires LiveFrom(ms, j + 1, k, Ext(e))
    requires ops[k].AnyConvert? && Top(ms[k].stack) == Some(ExternRef(Some(e)))
    ensures Top(ms[k + 1].stack) == Some(AnyRef(Some(h))) && ms[k + 1].st == ms[k].st
  {
    assert StepAt(ms, ops, types, j) && StepAt(ms, ops, types, k);
    InternalizesHere(ms[j], types, ops[j], ms[j + 1], h, e);
    EntryIsStable(ms, ops, types, j + 1, k, e);
    RecoversHere(ms[k], types, ops[k], ms[k + 1], h, e);
  }

  /** One more step of a lifetime. */
  lemma LiveOneMore(ms: seq<Machine>, j: nat, k: nat, x: Node)
    requires j < k < |ms| && LiveFrom(ms, j, k - 1, x) && Stays(ms[k - 1], ms[k], x)
    ensures LiveFrom(ms, j, k, x)
  {
  }

  /** Step `k` of a safe run, seen from an internalized entry. */
  lemma {:induction false} InternalizedStep(ms: seq<Machine>, ops: seq<Op>, types: Layouts, k: nat, h: nat, e: nat)
    requires IsRun(ms, ops, types) && k < |ops| && SafeTo(ms, ops, types, k + 1) && Stays(ms[k], ms[k + 1], Ext(e))
    requires ms[k].st.exts[e] == Some(Internal(h)) == ms[k + 1].st.exts[e] && DecodeHandle(h).ObjSlot?
    ensures Stays(ms[k], ms[k + 1], Gc(h))
  {
    RunKeepsOk(ms, ops, types, k);
    RunKeepsOk(ms, ops, types, k + 1);
    InternalRefs(ms[k].st, types, h, e);
    InternalRefs(ms[k + 1].st, types, h, e);
    assert StepAt(ms, ops, types, k);
    EdgeStays(ms[k], types, ops[k], ms[k + 1], Ext(e), Gc(h));
  }

  /** The same from a wrapper. */
  lemma {:induction false} WrappedStep(ms: seq<Machine>, ops: seq<Op>, types: Layouts, k: nat, h: nat, e: nat)
    requires IsRun(ms, ops, types) && k < |ops| && SafeTo(ms, ops, types, k + 1) && Stays(ms[k], ms[k + 1], Gc(h))
    requires ms[k].st.objs[h] == Some(Wrapper(e)) == ms[k + 1].st.objs[h] && e < NULL_REF
    ensures Stays(ms[k], ms[k + 1], Ext(e))
  {
    RunKeepsOk(ms, ops, types, k);
    RunKeepsOk(ms, ops, types, k + 1);
    WrapperRefs(ms[k].st, types, h, e);
    WrapperRefs(ms[k + 1].st, types, h, e);
    assert StepAt(ms, ops, types, k);
    EdgeStays(ms[k], types, ops[k], ms[k + 1], Gc(h), Ext(e));
  }

  lemma {:induction false} InternalizedLive(ms: seq<Machine>, ops: seq<Op>, types: Layouts, k: nat, h: nat, e: nat)
    requires IsRun(ms, ops, types) && k < |ms| && SafeTo(ms, ops, types, k) && IsLive(ms[k].st, Ext(e))
    requires ms[k].st.exts[e] == Some(Internal(h)) && DecodeHandle(h).ObjSlot?
    ensures IsLive(ms[k].st, Gc(h))
  {
    RunKeepsOk(ms, ops, types, k);
    InternalRefs(ms[k].st, types, h, e);
  }

  lemma {:induction false} WrappedLive(ms: seq<Machine>, ops: seq<Op>, types: Layouts, k: nat, h: nat, e: nat)
    requires IsRun(ms, ops, types) && k < |ms| && SafeTo(ms, ops, types, k) && IsLive(ms[k].st, Gc(h))
    requires ms[k].st.objs[h] == Some(Wrapper(e)) && e < NULL_REF
    ensures IsLive(ms[k].st, Ext(e))
  {
    RunKeepsOk(ms, ops, types, k);
    WrapperRefs(ms[k].st, types, h, e);
  }

  /** And the object it names is still the one converted: its slot is not freed in the entry's lifetime. */
  lemma {:induction false} InternalizedStays(
    ms: seq<Machine>, ops: seq<Op>, types: Layouts, j: nat, k: nat, h: nat, e: nat)
    requires IsRun(ms, ops, types) && j <= k && SafeTo(ms, ops, types, k) && LiveFrom(ms, j, k, Ext(e))
    requires ms[j].st.exts[e] == Some(Internal(h)) && DecodeHandle(h).ObjSlot?
    ensures LiveFrom(ms, j, k, Gc(h))
    decreases k
  {
    if j == k {
      InternalizedLive(ms, ops, types, k, h, e);
    } else {
      InternalizedStays(ms, ops, types, j, k - 1, h, e);
      EntryIsStable(ms, ops, types, j, k - 1, e);
      EntryIsStable(ms, ops, types, j, k, e);
      InternalizedStep(ms, ops, types, k - 1, h, e);
      LiveOneMore(ms, j, k, Gc(h));
    }
  }

  lemma InternalRefs(st: Store, types: Layouts, h: nat, e: nat)
    requires ContentsOk(st, types) && IsLive(st, Ext(e)) && st.exts[e] == Some(Internal(h)) && DecodeHandle(h).ObjSlot?
    ensures RefersTo(st, types, Ext(e), Gc(h)) && IsLive(st, Gc(h))
  {
    assert EntryOk(st, st.exts[e].value);
  }

  lemma WrapperRefs(st: Store, types: Layouts, h: nat, e: nat)
    requires ContentsOk(st, types) && IsLive(st, Gc(h)) && st.objs[h] == Some(Wrapper(e)) && e < NULL_REF
    ensures RefersTo(st, types, Gc(h), Ext(e)) && IsLive(st, Ext(e))
  {
    WrapperReads(e);
    assert ObjectOk(st, st.objs[h].value, types);
  }

  lemma {:induction false} WrapsHere(m: Machine, types: Layouts, op: Op, n: Machine, e: nat, h: nat)
    requires Step(m, types, op, n) && op.AnyConvert? && Top(m.stack) == Some(ExternRef(Some(e)))
    requires IsLive(m.st, Ext(e)) && m.st.exts[e].value.Host?
    requires Top(n.stack) == Some(AnyRef(Some(h))) && |n.stack| == |m.stack|
    ensures h < NULL_REF && h < |n.st.objs| && n.st.objs[h] == Some(Wrapper(e))
    ensures n.st.exts == m.st.exts && n.frees == m.frees
  {
  }

  lemma {:induction false} UnwrapsHere(m: Machine, types: Layouts, op: Op, n: Machine, e: nat, h: nat)
    requires Step(m, types, op, n) && op.ExternConvert? && Top(m.stack) == Some(AnyRef(Some(h)))
    requires h < NULL_REF && h < |m.st.objs| && m.st.objs[h] == Some(Wrapper(e)) && e < NULL_REF
    ensures Top(n.stack) == Some(ExternRef(Some(e))) && n.st == m.st
  {
    WrapperReads(e);
  }

  /** What a wrapper wraps lives as long as the wrapper. */
  lemma {:induction false} WrappedStays(ms: seq<Machine>, ops: seq<Op>, types: Layouts, j: nat, k: nat, h: nat, e: nat)
    requires IsRun(ms, ops, types) && j <= k && SafeTo(ms, ops, types, k) && LiveFrom(ms, j, k, Gc(h))
    requires ms[j].st.objs[h] == Some(Wrapper(e)) && e < NULL_REF
    ensures LiveFrom(ms, j, k, Ext(e))
    decreases k
  {
    if j == k {
      WrappedLive(ms, ops, types, k, h, e);
    } else {
      WrappedStays(ms, ops, types, j, k - 1, h, e);
      WrapperIsStable(ms, ops, types, j, k - 1, h);
      WrapperIsStable(ms, ops, types, j, k, h);
      WrappedStep(ms, ops, types, k - 1, h, e);
      LiveOneMore(ms, j, k, Ext(e));
    }
  }

  /**
   host extern to any to extern: a host externref converted at step `j` comes back as the same entry,
   holding the same payload, at any later step of its wrapper's lifetime.
   */
  lemma {:induction false} ExternAnyExtern(
    ms: seq<Machine>, ops: seq<Op>, types: Layouts, j: nat, k: nat, e: nat, h: nat)
    requires IsRun(ms, ops, types) && j < k < |ops| && SafeTo(ms, ops, types, k)
    requires Top(ms[j].stack) == Some(ExternRef(Some(e))) && IsLive(ms[j].st, Ext(e)) && ms[j].st.exts[e].value.Host?
    requires ops[j].AnyConvert? && Top(ms[j + 1].stack) == Some(AnyRef(Some(h))) && |ms[j + 1].stack| == |ms[j].stack|
    requires LiveFrom(ms, j + 1, k, Gc(h))
    requires ops[k].ExternConvert? && Top(ms[k].stack) == Some(AnyRef(Some(h)))
    ensures Top(ms[k + 1].stack) == Some(ExternRef(Some(e))) && ms[k + 1].st == ms[k].st
    ensures LiveFrom(ms, j + 1, k, Ext(e)) && ms[k].st.exts[e] == ms[j].st.exts[e]
  {
    assert StepAt(ms, ops, types, j) && StepAt(ms, ops, types, k);
    WrapsHere(ms[j], types, ops[j], ms[j + 1], e, h);
    RunKeepsOk(ms, ops, types, j);
    assert e < NULL_REF;
    WrappedStays(ms, ops, types, j + 1, k, h, e);
    WrapperIsStable(ms, ops, types, j + 1, k, h);
    EntryIsStable(ms, ops, types, j + 1, k, e);
    UnwrapsHere(ms[k], types, ops[k], ms[k + 1], e, h);
  }
}
