/**
 Whole runs of a store: guest steps, host calls and collections interleaved. The machine holds
 everything the collector takes as roots, and its steps are the points at which that state changes.
 */
module Mutator {
  import opened Options
  import opened Arenas
  import opened Layout
  import opened Codec
  import opened Heap
  import opened Tracing
  import opened Reachability
  import opened Collector
  import opened Managed
  import opened Conversions

  /**
   An open host call: the height of the host-root list when it began, the pending exception saved
   then (rooted at that height), and the height once its reference parameters were rooted.
   */
  datatype Mark = Mark(height: nat, saved: Option<nat>, base: nat)

  /**
   A `Rooted` in the host's hands, which may outlive what it names. `born` is how often its slot had
   been freed when the handle was made; a stamped handle carries the generation of that moment, an
   unstamped one (a host call's parameter) none.
   */
  datatype HostRef = HostRef(kind: RefKind, index: nat, stamped: bool, born: nat)

  /**
   `stack` is the whole shared operand stack: the running call's part and every parked one. `frees`
   counts the frees of every slot freed so far, and `handles` are all handles the host was ever given.
   */
  datatype Machine = Machine(
    st: Store, stack: seq<Val>, globals: seq<Val>, tables: seq<seq<Val>>, elems: seq<seq<Val>>,
    pending: Option<nat>, roots: seq<(nat, RefKind)>, marks: seq<Mark>,
    frees: map<Node, nat>, handles: set<HostRef>)

  const NOTHING := Store([], [], [])
  const START := Machine(NOTHING, [], [], [], [], None, [], [], map[], {})

  // --- roots ---

  function PendingRoots(pending: Option<nat>): seq<(nat, RefKind)> {
    if pending.Some? then [(pending.value, KExn)] else []
  }

  /** What a collection is seeded with: the operand roots, then the store's own. */
  function Roots(m: Machine): seq<Node> {
    SeedVals(m.stack) + (SeedVals(m.globals) + SeedAll(m.tables) + SeedAll(m.elems)
      + (if m.pending.Some? then [Exn(m.pending.value)] else []) + SeedHandles(m.roots))
  }

  /** The root a reference is given; an `i31` gets one that names nothing. */
  function RootOf(v: Val): seq<(nat, RefKind)> {
    match v
    case AnyRef(Some(h)) => [(h, KAny)]
    case ExternRef(Some(e)) => [(e, KExtern)]
    case ExnRef(Some(x)) => [(x, KExn)]
    case _ => []
  }

  /** `root_ref_params`: the roots a host call's reference parameters are given. */
  function ParamRoots(vs: seq<Val>): seq<(nat, RefKind)> {
    if vs == [] then [] else ParamRoots(vs[..|vs| - 1]) + RootOf(vs[|vs| - 1])
  }

  // --- generations and host handles ---

  function FreesAt(frees: map<Node, nat>, x: Node): nat {
    if x in frees then frees[x] else 0
  }

  /** The generation the code keeps for a slot: one step on per free. */
  function GenerationOf(frees: map<Node, nat>, x: Node): nat {
    GenerationAfter(FreesAt(frees, x))
  }

  /** What a handle names: nothing for an `i31`. */
  function Named(h: HostRef): seq<Node> {
    SeedHandle(h.index, h.kind)
  }

  /** The handle the host is given for a rooted reference. */
  function Minted(frees: map<Node, nat>, r: (nat, RefKind), stamped: bool): HostRef {
    var xs := SeedHandle(r.0, r.1);
    HostRef(r.1, r.0, stamped, if xs == [] then 0 else FreesAt(frees, xs[0]))
  }

  function AllMinted(frees: map<Node, nat>, rs: seq<(nat, RefKind)>, stamped: bool): set<HostRef> {
    set r | r in rs :: Minted(frees, r, stamped)
  }

  /** Whether the arena behind a handle answers at all: externrefs are looked up by generation alone. */
  predicate Answers(st: Store, x: Node) {
    if x.Ext? then x.i < |st.exts| else IsLive(st, x)
  }

  /**
   `validate_live_reference`, as the code tests it: objects and exceptions must be there, an externref
   slot need only exist, and the generation is compared only for a stamped handle.
   */
  predicate Passes(m: Machine, h: HostRef) {
    forall x :: x in Named(h) ==>
      Answers(m.st, x) && (h.stamped ==> GenerationOf(m.frees, x) == GenerationAfter(h.born))
  }

  /** A value the host presents: one that names nothing, or a handle. */
  datatype Given = Bare(v: Val) | Held(h: HostRef)

  function GivenVal(g: Given): Val {
    match g
    case Bare(v) => v
    case Held(h) => RefVal(h.kind, h.index)
  }

  function GivenVals(gs: seq<Given>): (vs: seq<Val>)
    ensures |vs| == |gs| && forall i :: 0 <= i < |gs| ==> vs[i] == GivenVal(gs[i])
  {
    seq(|gs|, i requires 0 <= i < |gs| => GivenVal(gs[i]))
  }

  /** The code takes the value: a handle it was given passes the test. */
  ghost predicate Accepted(m: Machine, g: Given) {
    match g
    case Bare(v) => Rootless(v)
    case Held(h) => h in m.handles && Passes(m, h)
  }

  ghost predicate AllAccepted(m: Machine, gs: seq<Given>) {
    forall i :: 0 <= i < |gs| ==> Accepted(m, gs[i])
  }

  // --- where a step's values come from ---

  /** A scalar, a null, a function or an `i31`: nothing a collection could free. */
  ghost predicate Rootless(v: Val) {
    ValOk(NOTHING, v)
  }

  predicate InAny(vss: seq<seq<Val>>, v: Val) {
    exists i :: 0 <= i < |vss| && v in vss[i]
  }

  /** `v` is read from field `k` of the object `i`. */
  ghost predicate ReadsField(st: Store, types: Layouts, i: nat, k: nat, v: Val) {
    && IsLive(st, Gc(i)) && BodyOk(st.objs[i].value, types) && !st.objs[i].value.kind.ObjExtern?
    && var slots := SlotsIn(st.objs[i].value, types).value;
      k < |slots| && slots[k].End() <= |st.objs[i].value.data| && v == ReadSlot(slots[k], st.objs[i].value.data)
  }

  ghost predicate ReadsArg(st: Store, x: nat, v: Val) {
    IsLive(st, Exn(x)) && v in st.exns[x].value.args
  }

  /**
   A value a guest instruction can obtain: rootless, on the stack, in a global, a table or an element
   instance, in a field of an object on the stack, or an argument of an exception on the stack.
   */
  ghost predicate Sourced(m: Machine, types: Layouts, v: Val) {
    || Rootless(v) || v in m.stack || v in m.globals || InAny(m.tables, v) || InAny(m.elems, v)
    || (exists i, k :: AnyRef(Some(i)) in m.stack && ReadsField(m.st, types, i, k, v))
    || (exists x :: ExnRef(Some(x)) in m.stack && ReadsArg(m.st, x, v))
  }

  ghost predicate AllSourced(m: Machine, types: Layouts, vs: seq<Val>) {
    forall i :: 0 <= i < |vs| ==> Sourced(m, types, vs[i])
  }

  ghost predicate AllSourcedIn(m: Machine, types: Layouts, vss: seq<seq<Val>>) {
    forall i :: 0 <= i < |vss| ==> AllSourced(m, types, vss[i])
  }

  // --- steps ---

  datatype Op =
    /**
     Any instruction that only moves values: locals, globals, tables, elements, fields read,
     branches, calls, returns.
     */
    | Move(stack: seq<Val>, globals: seq<Val>, tables: seq<seq<Val>>, elems: seq<seq<Val>>)
    /** `struct.set`, or one element of an array write: slot `k` of object `i`, which is on the stack. */
    | SetField(i: nat, k: nat, v: Val)
    /** `struct.new*` and `array.new*`: the operands above `keep` are popped and the object is pushed. */
    | NewObject(o: GcObject, slots: seq<Slot>, vals: seq<Val>, at: nat, keep: nat)
    | ExternConvert(at: nat, room: bool)
    | AnyConvert(at: nat, room: bool)
    /** `throw`: the operands above `keep` become the arguments, and the exception is raised. */
    | Throw(tag: nat, keep: nat, at: nat, caught: bool, stack: seq<Val>)
    /** `throw_ref`. */
    | Rethrow(x: nat, caught: bool, stack: seq<Val>)
    /** The collector runs; every safe point of the source is one at which this may happen. */
    | Collect
    /** A host function, limiter or epoch callback is entered with the operands above `keep`. */
    | HostEnter(keep: nat)
    /** Host allocations: the fields are tested, the reservation may collect, the entry is placed and rooted. */
    | HostObject(o: GcObject, slots: seq<Slot>, given: seq<Given>, at: nat, collects: bool)
    | HostExn(tag: nat, given: seq<Given>, at: nat, collects: bool)
    | HostExtern(payload: nat, at: nat, collects: bool)
    /** A value of the store's own is handed to the host, stamped and rooted. */
    | HandOut(v: Val)
    /** The host presents values: call arguments, a global, a table element, a field, a direct call's result. */
    | HostArgs(given: seq<Given>)
    /** An externref argument for an `anyref` parameter: tested, then converted, maybe into an object at `at`. */
    | HostCoerce(h: HostRef, at: nat, room: bool)
    | HostGlobal(i: nat, g: Given)
    | HostElem(t: nat, i: nat, g: Given)
    | HostField(h: HostRef, k: nat, g: Given)
    | HostReroot(g: Given)
    | HostSetPending(h: HostRef)
    | HostTakePending
    /** A root scope inside the innermost host call is dropped. */
    | CloseScope(height: nat)
    /** The call returns results the code accepts. */
    | HostReturn(given: seq<Given>)
    /** The call fails: its roots go, and the pending exception is put back if the failure is not the host's own. */
    | HostFail(restore: bool, stack: seq<Val>)
    /** The call throws: its pending exception is taken, the saved one is put back, and the former is raised. */
    | HostThrow(caught: bool, stack: seq<Val>)

  /** What a handler may push: the operands below it, the exception, its arguments. */
  ghost predicate HandlerStack(m: Machine, x: nat, stack: seq<Val>) {
    forall i :: 0 <= i < |stack| ==> stack[i] in m.stack || stack[i] == ExnRef(Some(x)) || ReadsArg(m.st, x, stack[i])
  }

  /** The state once exception `x` has been caught, or has surfaced as the pending one. */
  function Raised(m: Machine, x: nat, caught: bool, stack: seq<Val>): Machine {
    m.(stack := stack, pending := if caught then m.pending else Some(x))
  }

  function CallBase(m: Machine): nat {
    if m.marks == [] then 0 else m.marks[|m.marks| - 1].base
  }

  /** The innermost host call closed: its roots dropped, and its saved pending exception restored on request. */
  function Closed(m: Machine, restore: bool): Machine
    requires m.marks != []
  {
    var mark := m.marks[|m.marks| - 1];
    m.(roots := if mark.height <= |m.roots| then m.roots[..mark.height] else m.roots,
       pending := if restore then mark.saved else m.pending,
       marks := m.marks[..|m.marks| - 1])
  }

  function Entered(m: Machine, keep: nat): Machine
    requires keep <= |m.stack|
  {
    var params := ParamRoots(m.stack[keep..]);
    var roots := m.roots + PendingRoots(m.pending) + params;
    m.(stack := m.stack[..keep], roots := roots, marks := m.marks + [Mark(|m.roots|, m.pending, |roots|)],
       handles := m.handles + AllMinted(m.frees, params, false))
  }

  ghost function Kept(st: Store, live: iset<Node>): (after: Store)
    ensures KeptExactly(st, live, after)
  {
    Store(
      seq(|st.objs|, i requires 0 <= i < |st.objs| => if Gc(i) in live then st.objs[i] else None),
      seq(|st.exts|, i requires 0 <= i < |st.exts| => if Ext(i) in live then st.exts[i] else None),
      seq(|st.exns|, i requires 0 <= i < |st.exns| => if Exn(i) in live then st.exns[i] else None))
  }

  /** Every entry that a collection keeping `live` frees counts one more free. */
  ghost function FreedBy(frees: map<Node, nat>, st: Store, live: iset<Node>): map<Node, nat> {
    map x | x in frees.Keys + Nodes(st) :: FreesAt(frees, x) + (if IsLive(st, x) && x !in live then 1 else 0)
  }

  ghost function Survivors(m: Machine, types: Layouts): iset<Node> {
    ReachableSet(GraphOf(m.st, types), Roots(m))
  }

  /** Nothing reachable is dangling or corrupt: the collector's trace succeeds. */
  ghost predicate Traceable(m: Machine, types: Layouts) {
    forall x :: x in Survivors(m, types) ==> x in GraphOf(m.st, types)
  }

  /** A collection; one whose trace fails changes nothing. */
  ghost function Collected(m: Machine, types: Layouts): Machine {
    if Traceable(m, types) then
      m.(st := Kept(m.st, Survivors(m, types)), frees := FreedBy(m.frees, m.st, Survivors(m, types)))
    else m
  }

  /** The machine once a host allocation has its reservation. */
  ghost function Reserved(m: Machine, types: Layouts, collects: bool): Machine {
    if collects then Collected(m, types) else m
  }

  /** A new root and the stamped handle that goes with it. */
  function Rooted(m: Machine, rs: seq<(nat, RefKind)>): Machine {
    m.(roots := m.roots + rs, handles := m.handles + AllMinted(m.frees, rs, true))
  }

  /** A new struct or array whose body is built from `vals`. */
  ghost predicate Builds(st: Store, types: Layouts, o: GcObject, slots: seq<Slot>, vals: seq<Val>, at: nat) {
    && Empty(st.objs, at) && !o.kind.ObjExtern? && SlotsIn(o, types) == Some(slots) && Tile(slots, |o.data|)
    && Suits(slots, |o.data|, vals) && o.data == BodyOf(slots, |o.data|, vals, |slots|)
  }

  ghost predicate Writes(st: Store, types: Layouts, i: nat, k: nat, v: Val) {
    && IsLive(st, Gc(i)) && !st.objs[i].value.kind.ObjExtern? && BodyOk(st.objs[i].value, types)
    && var slots := SlotsIn(st.objs[i].value, types).value;
      k < |slots| && slots[k].End() <= |st.objs[i].value.data| && Accepts(slots[k].kind, v)
  }

  function Top(stack: seq<Val>): Option<Val> {
    if stack == [] then None else Some(stack[|stack| - 1])
  }

  function WithTop(stack: seq<Val>, r: Result<Val>): seq<Val>
    requires stack != []
  {
    stack[..|stack| - 1] + (if r.Ok? then [r.value] else [])
  }

  /** What each guest step demands and leaves. */
  ghost predicate GuestStep(m: Machine, types: Layouts, op: Op, n: Machine) {
    match op
    case Move(stack, globals, tables, elems) =>
      && AllSourced(m, types, stack) && AllSourced(m, types, globals)
      && AllSourcedIn(m, types, tables) && AllSourcedIn(m, types, elems)
      && n == m.(stack := stack, globals := globals, tables := tables, elems := elems)
    case SetField(i, k, v) =>
      && AnyRef(Some(i)) in m.stack && Sourced(m, types, v) && Writes(m.st, types, i, k, v)
      && n == m.(st := FieldWritten(m.st, types, i, k, v))
    case NewObject(o, slots, vals, at, keep) =>
      && Builds(m.st, types, o, slots, vals, at) && AllSourced(m, types, vals) && keep <= |m.stack|
      && n == m.(st := m.st.(objs := Filled(m.st.objs, at, o)), stack := m.stack[..keep] + [AnyRef(Some(at))])
    case ExternConvert(at, room) =>
      && Top(m.stack).Some? && IsReference(Top(m.stack).value) && Empty(m.st.exts, at)
      && var (st, r) := ExternConvertAny(m.st, Top(m.stack).value, at, room);
        n == m.(st := st, stack := WithTop(m.stack, r))
    case AnyConvert(at, room) =>
      && Top(m.stack).Some? && IsReference(Top(m.stack).value) && Empty(m.st.objs, at)
      && var (st, r) := AnyConvertExtern(m.st, Top(m.stack).value, at, room);
        n == m.(st := st, stack := WithTop(m.stack, r))
    case Throw(tag, keep, at, caught, stack) =>
      && keep <= |m.stack| && Empty(m.st.exns, at)
      && var thrown := m.(st := m.st.(exns := Filled(m.st.exns, at, ExnEntity(tag, m.stack[keep..]))));
        HandlerStack(thrown, at, stack) && n == Raised(thrown, at, caught, stack)
    case Rethrow(x, caught, stack) =>
      ExnRef(Some(x)) in m.stack && HandlerStack(m, x, stack) && n == Raised(m, x, caught, stack)
    case Collect => n == Collected(m, types)
    case _ => false
  }

  /** What the host can read out of the store: as a guest can, or through a handle that passes. */
  ghost predicate Readable(m: Machine, types: Layouts, v: Val) {
    || Sourced(m, types, v)
    || (exists h, k :: h in m.handles && h.kind == KAny && Passes(m, h) && ReadsField(m.st, types, h.index, k, v))
    || (exists h :: h in m.handles && h.kind == KExn && Passes(m, h) && ReadsArg(m.st, h.index, v))
  }

  /** `s` with `x` at place `i`, or appended. */
  function SetAt<T>(s: seq<T>, i: nat, x: T): seq<T>
    requires i <= |s|
  {
    if i < |s| then s[i := x] else s + [x]
  }

  /** Host steps in which the reservation may collect between the test of the fields and the placement. */
  ghost predicate AllocStep(m: Machine, types: Layouts, op: Op, n: Machine) {
    match op
    case HostObject(o, slots, given, at, collects) =>
      && AllAccepted(m, given) && (collects ==> Traceable(m, types))
      && var mid := Reserved(m, types, collects);
        && Builds(mid.st, types, o, slots, GivenVals(given), at)
        && n == Rooted(mid.(st := mid.st.(objs := Filled(mid.st.objs, at, o))), [(at, KAny)])
    case HostExn(tag, given, at, collects) =>
      && AllAccepted(m, given) && (collects ==> Traceable(m, types))
      && var mid := Reserved(m, types, collects);
        && Empty(mid.st.exns, at)
        && n ==
          Rooted(mid.(st := mid.st.(exns := Filled(mid.st.exns, at, ExnEntity(tag, GivenVals(given))))), [(at, KExn)])
    case HostExtern(payload, at, collects) =>
      && (collects ==> Traceable(m, types))
      && var mid := Reserved(m, types, collects);
        && Empty(mid.st.exts, at)
        && n == Rooted(mid.(st := mid.st.(exts := Filled(mid.st.exts, at, Host(payload)))), [(at, KExtern)])
    case _ => false
  }

  /** Host steps that store a presented value, or what it converts to, at once. */
  ghost predicate StoreStep(m: Machine, types: Layouts, op: Op, n: Machine) {
    match op
    case HostArgs(given) => AllAccepted(m, given) && n == m.(stack := m.stack + GivenVals(given))
    case HostCoerce(h, at, room) =>
      && Accepted(m, Held(h)) && h.kind == KExtern && Empty(m.st.objs, at)
      && var (st, r) := AnyConvertExtern(m.st, ExternRef(Some(h.index)), at, room);
        n == m.(st := st, stack := m.stack + (if r.Ok? then [r.value] else []))
    case HostGlobal(i, g) => Accepted(m, g) && i <= |m.globals| && n == m.(globals := SetAt(m.globals, i, GivenVal(g)))
    case HostElem(t, i, g) =>
      && Accepted(m, g) && t < |m.tables| && i <= |m.tables[t]|
      && n == m.(tables := m.tables[t := SetAt(m.tables[t], i, GivenVal(g))])
    case HostField(h, k, g) =>
      && h in m.handles && h.kind == KAny && Passes(m, h) && Accepted(m, g)
      && Writes(m.st, types, h.index, k, GivenVal(g))
      && n == m.(st := FieldWritten(m.st, types, h.index, k, GivenVal(g)))
    case HostReroot(g) => Accepted(m, g) && n == Rooted(m, RootOf(GivenVal(g)))
    case HostReturn(given) =>
      m.marks != [] && AllAccepted(m, given) && n == Closed(m, false).(stack := m.stack + GivenVals(given))
    case _ => false
  }

  /** The remaining host steps. */
  ghost predicate HostStep(m: Machine, types: Layouts, op: Op, n: Machine) {
    match op
    case HostEnter(keep) => keep <= |m.stack| && n == Entered(m, keep)
    case HandOut(v) => Readable(m, types, v) && n == Rooted(m, RootOf(v))
    case HostSetPending(h) => h in m.handles && h.kind == KExn && Passes(m, h) && n == m.(pending := Some(h.index))
    case HostTakePending => n == Rooted(m, PendingRoots(m.pending)).(pending := None)
    case CloseScope(height) =>
      CallBase(m) <= height <= |m.roots| && n == m.(roots := m.roots[..height])
    case HostFail(restore, stack) =>
      m.marks != [] && (forall i :: 0 <= i < |stack| ==> stack[i] in m.stack) &&
      n == Closed(m, restore).(stack := stack)
    case HostThrow(caught, stack) =>
      && m.marks != [] && m.pending.Some? && HandlerStack(m, m.pending.value, stack)
      && n == Raised(Closed(m, true), m.pending.value, caught, stack)
    case _ => false
  }

  ghost predicate Step(m: Machine, types: Layouts, op: Op, n: Machine) {
    || GuestStep(m, types, op, n) || HostStep(m, types, op, n)
    || StoreStep(m, types, op, n) || AllocStep(m, types, op, n)
  }

  ghost predicate StepAt(ms: seq<Machine>, ops: seq<Op>, types: Layouts, k: nat) {
    k < |ops| && k + 1 < |ms| && Step(ms[k], types, ops[k], ms[k + 1])
  }

  /** A run: from an empty store, one machine after each operation. */
  ghost predicate IsRun(ms: seq<Machine>, ops: seq<Op>, types: Layouts) {
    |ms| == |ops| + 1 && ms[0] == START && forall k: nat :: k < |ops| ==> StepAt(ms, ops, types, k)
  }

  // --- the invariant ---

  ghost predicate AllValsOk(st: Store, vss: seq<seq<Val>>) {
    forall i :: 0 <= i < |vss| ==> ValsOk(st, vss[i])
  }

  /** A host root names a live entry. */
  ghost predicate RootOk(st: Store, r: (nat, RefKind)) {
    NodesLive(st, SeedHandle(r.0, r.1))
  }

  ghost predicate RootsOk(st: Store, rs: seq<(nat, RefKind)>) {
    forall i :: 0 <= i < |rs| ==> RootOk(st, rs[i])
  }

  ghost predicate PendingOk(st: Store, pending: Option<nat>) {
    pending.Some? ==> IsLive(st, Exn(pending.value))
  }

  /** Open calls nest, and each one's saved pending exception is rooted where it began. */
  ghost predicate MarkOk(mark: Mark, roots: seq<(nat, RefKind)>) {
    && mark.height <= mark.base <= |roots|
    && (mark.saved.Some? ==>
          && mark.height < mark.base && roots[mark.height] == (mark.saved.value, KExn)
          && mark.saved.value != NULL_REF)
  }

  ghost predicate MarksOk(marks: seq<Mark>, roots: seq<(nat, RefKind)>) {
    && (forall i :: 0 <= i < |marks| ==> MarkOk(marks[i], roots))
    && (forall i, j :: 0 <= i < j < |marks| ==> marks[i].base <= marks[j].height)
  }

  /** Every reference the machine holds names a live entry. */
  ghost predicate HeldOk(m: Machine) {
    && ValsOk(m.st, m.stack) && ValsOk(m.st, m.globals) && AllValsOk(m.st, m.tables) && AllValsOk(m.st, m.elems)
    && PendingOk(m.st, m.pending) && RootsOk(m.st, m.roots)
  }

  /** A handle to a managed entry or an `i31`, in range. */
  predicate WellFormed(h: HostRef) {
    && !h.kind.KFunc? && h.index < U32 && h.index != NULL_REF && (!h.kind.KAny? ==> h.index < NULL_REF)
  }

  /** A stamped handle was made of a live entry: while its slot has not been freed since, the entry is there. */
  ghost predicate StampOk(st: Store, frees: map<Node, nat>, h: HostRef) {
    forall x :: x in Named(h) ==> h.born <= FreesAt(frees, x) && (h.born == FreesAt(frees, x) ==> IsLive(st, x))
  }

  ghost predicate HandlesOk(st: Store, frees: map<Node, nat>, handles: set<HostRef>) {
    forall h :: h in handles ==> WellFormed(h) && (h.stamped ==> StampOk(st, frees, h))
  }

  ghost predicate MachineOk(m: Machine, types: Layouts) {
    ContentsOk(m.st, types) && HeldOk(m) && MarksOk(m.marks, m.roots) && HandlesOk(m.st, m.frees, m.handles)
  }

  // --- when presented handles are safe ---

  /** Every handle among the presented values names an entry that is there. */
  ghost predicate Present(st: Store, g: Given) {
    g.Held? ==> NodesLive(st, Named(g.h))
  }

  ghost predicate AllPresent(st: Store, gs: seq<Given>) {
    forall i :: 0 <= i < |gs| ==> Present(st, gs[i])
  }

  /**
   What a handle names lasts until the new entry `entry` is placed: it is there, and reachable from
   the roots if the reservation collects; or the handle names the very slot the new entry takes.
   */
  ghost predicate Lasts(m: Machine, types: Layouts, collects: bool, entry: Node, g: Given) {
    g.Held? ==> forall x :: x in Named(g.h) ==>
      x == entry || (IsLive(m.st, x) && (collects ==> x in Survivors(m, types)))
  }

  ghost predicate AllLast(m: Machine, types: Layouts, collects: bool, entry: Node, gs: seq<Given>) {
    forall i :: 0 <= i < |gs| ==> Lasts(m, types, collects, entry, gs[i])
  }

  /** The condition under which a step leaves nothing dangling; only steps that present handles have one. */
  ghost predicate Safe(m: Machine, types: Layouts, op: Op) {
    match op
    case HostArgs(given) => AllPresent(m.st, given)
    case HostReturn(given) => AllPresent(m.st, given)
    case HostGlobal(_, g) => Present(m.st, g)
    case HostElem(_, _, g) => Present(m.st, g)
    case HostField(_, _, g) => Present(m.st, g)
    case HostReroot(g) => Present(m.st, g)
    case HostObject(_, _, given, at, collects) => AllLast(m, types, collects, Gc(at), given)
    case HostExn(_, given, at, collects) => AllLast(m, types, collects, Exn(at), given)
    case _ => true
  }
}
