/**
 Async calls nested in each other, in synchronous calls and in directly called host functions, and
 futures dropped while suspended (`src/exec/host_async.rs`, `src/store/inner.rs`, `src/exec/guard.rs`).
 */
module AsyncRuns {
  import opened Options
  import opened Layout
  import opened ExecState
  import opened CallRuns
  import opened AsyncCleanup

  /** A record, the number of calls open when it was begun, and the store's state at that moment. */
  datatype Scope = Scope(record: Cleanup, depth: nat, birth: Parked)

  datatype Async = Async(
    s: Session, roots: seq<(nat, RefKind)>, pending: Option<nat>, generation: nat, scopes: seq<Scope>)

  const QUIET := Async(IDLE, [], None, 0, [])

  function ParkedOf(a: Async): Parked {
    Parked(a.s.exec, a.roots, a.pending, a.generation, false)
  }

  function Records(scopes: seq<Scope>): (r: seq<Cleanup>)
    ensures |r| == |scopes|
  {
    seq(|scopes|, i requires 0 <= i < |scopes| => scopes[i].record)
  }

  /** The records once the futures from `n` inward have been dropped. */
  function Dropped(scopes: seq<Scope>, n: nat): (r: seq<Cleanup>)
    ensures |r| == |scopes|
  {
    seq(|scopes|, i requires 0 <= i < |scopes| => scopes[i].record.(cancelled := i >= n))
  }

  function Last(a: Async): Scope
    requires a.scopes != []
  {
    a.scopes[|a.scopes| - 1]
  }

  /** The innermost call belongs to the innermost record. */
  predicate OwnsInnermost(a: Async) {
    a.scopes != [] && a.s.calls != [] && Last(a).record.boundary.Some? && Last(a).depth == |a.s.calls| - 1
  }

  /**
   The futures from `n` inward can be dropped together: every call opened since belongs to one of
   them. A synchronous call in between would still be on the native stack.
   */
  predicate Droppable(a: Async, n: nat) {
    n < |a.scopes| && forall j :: a.scopes[n].depth <= j < |a.s.calls| ==> OwnedFrom(a.scopes, n, j)
  }

  predicate OwnedFrom(scopes: seq<Scope>, n: nat, j: nat) {
    exists i :: n <= i < |scopes| && scopes[i].record.boundary.Some? && scopes[i].depth == j
  }

  // --- steps ---

  datatype AOp =
    /** A step of the stack machine that is not the end of an async call; a synchronous call is entered or ended. */
    | Guest(op: CallRuns.Op)
    /** `execute_async` begins: the call is entered, the pending exception rooted, the record pushed. */
    | Begin(tags: seq<nat>, code: Code, args: seq<(Cell, Tag)>, token: nat)
    /** A host function called directly and asynchronously: a record without a boundary. */
    | BeginDirect(token: nat)
    /** `execute_async` completes, with the way its call ends. */
    | Complete(op: CallRuns.Op)
    | CompleteDirect
    /** Host code roots values, closes scopes opened since the innermost record, sets or takes the pending exception. */
    | HostChange(roots: seq<(nat, RefKind)>, pending: Option<nat>, generation: nat)
    /** The futures from `n` inward are dropped, and the next access to the store recovers. */
    | Drop(n: nat)
    /** A host function called by the innermost async call panics; its own roots go back to `mark`. */
    | AsyncPanic(mark: nat, pending: Option<nat>, generation: nat)

  predicate Ends(op: CallRuns.Op) {
    op.Finish? || op.Discard? || op.Panic?
  }

  function PendingRoot(pending: Option<nat>): seq<(nat, RefKind)> {
    if pending.Some? then [(pending.value, KExn)] else []
  }

  predicate SameBelow<T(==)>(s: seq<T>, t: seq<T>, n: nat) {
    n <= |s| && n <= |t| && s[..n] == t[..n]
  }

  /** What a record's call found rooted, and the root of the pending exception the record saves. */
  function Kept(sc: Scope): seq<(nat, RefKind)> {
    sc.birth.roots + PendingRoot(sc.birth.pending)
  }

  function Begun(a: Async, boundary: Option<(nat, nat)>, s: Session, token: nat): Async {
    var record := Cleanup(token, false, Some(|a.roots|), a.pending, a.generation, boundary);
    var scope := Scope(record, |a.s.calls|, ParkedOf(a));
    Async(s, a.roots + PendingRoot(a.pending), a.pending, a.generation, a.scopes + [scope])
  }

  /** The innermost record is gone, its roots with it. */
  function Completed(a: Async, s: Session): Async
    requires a.scopes != []
  {
    a.(s := s, roots := Truncated(a.roots, |Last(a).birth.roots|), scopes := a.scopes[..|a.scopes| - 1])
  }

  function Afterwards(a: Async, p: Parked, calls: seq<Call>, scopes: seq<Scope>): Async {
    Async(Session(p.exec, calls, calls != []), p.roots, p.pending, p.generation, scopes)
  }

  ghost predicate AStep(a: Async, l: Limits, op: AOp, b: Async) {
    match op
    case Guest(g) =>
      && Step(a.s, l, g, b.s) && b == a.(s := b.s)
      && (RunStep(a.s, l, g, b.s) ==> a.scopes == [] || Last(a).depth < |a.s.calls|)
      && (Ends(g) ==> !OwnsInnermost(a) && (a.scopes == [] || Last(a).depth < |a.s.calls|))
    case Begin(tags, code, args, token) =>
      && (a.s.calls == [] || a.s.running) && CanEnter(a.s.exec, code, args)
      && b == Begun(a, Some((|a.s.exec.values|, |a.s.exec.frames|)), OpenCall(a.s, tags, code, args), token)
    case BeginDirect(token) => b == Begun(a, None, a.s, token)
    case Complete(g) => OwnsInnermost(a) && Ends(g) && CallStep(a.s, l, g, b.s) && b == Completed(a, b.s)
    case CompleteDirect => a.scopes != [] && Last(a).depth == |a.s.calls| && b == Completed(a, a.s)
    case HostChange(roots, pending, generation) =>
      && (a.scopes != [] ==> SameBelow(a.roots, roots, |Kept(Last(a))|))
      && b == a.(roots := roots, pending := pending, generation := generation)
    case Drop(n) =>
      && Droppable(a, n) && a.scopes[n].depth <= |a.s.calls|
      && b ==
        Afterwards(a, Recovered(ParkedOf(a), Dropped(a.scopes, n)).0, a.s.calls[..a.scopes[n].depth], a.scopes[..n])
    case AsyncPanic(mark, pending, generation) =>
      && OwnsInnermost(a) && |Last(a).birth.roots| <= mark <= |a.roots| && CallStep(a.s, l, CallRuns.Panic, b.s)
      && var c := Innermost(a.s);
        var i := Owner(Records(a.scopes), (c.valueBase, c.stopDepth));
        b == Async(b.s, a.roots[..mark], pending, generation, if i.Some? then a.scopes[..i.value] else a.scopes)
  }

  ghost predicate IsAsyncRun(states: seq<Async>, ops: seq<AOp>, l: Limits) {
    && |states| == |ops| + 1 && states[0] == QUIET
    && forall k :: 0 <= k < |ops| ==> AStep(states[k], l, ops[k], states[k + 1])
  }

  // --- the invariant ---

  /** The execution as it was when only `depth` calls were open. */
  function OuterAt(s: Session, depth: nat): Exec {
    if depth < |s.calls| then s.calls[depth].outer else s.exec
  }

  /** A record restores exactly the state it was begun in, and the exception it saves stays rooted. */
  predicate ScopeOk(a: Async, sc: Scope) {
    var r := sc.record;
    && sc.depth <= |a.s.calls| && !r.cancelled && !sc.birth.latched
    && r.rootsMark == Some(|sc.birth.roots|) && r.pending == sc.birth.pending && r.generation == sc.birth.generation
    && |Kept(sc)| <= |a.roots| && a.roots[..|Kept(sc)|] == Kept(sc)
    && sc.birth.exec == OuterAt(a.s, sc.depth)
    && (r.boundary.Some? ==>
          sc.depth < |a.s.calls| && r.boundary.value == (a.s.calls[sc.depth].valueBase, a.s.calls[sc.depth].stopDepth))
  }

  /** The roots a record found are still there, and so is that of the exception it saves. */
  lemma KeptRoots(a: Async, sc: Scope)
    requires ScopeOk(a, sc)
    ensures |sc.birth.roots| <= |a.roots| && a.roots[..|sc.birth.roots|] == sc.birth.roots
    ensures sc.record.pending.Some? ==> (sc.record.pending.value, KExn) in a.roots
  {
    var n := |sc.birth.roots|;
    assert a.roots[..|Kept(sc)|][..n] == a.roots[..n] && Kept(sc)[..n] == sc.birth.roots;
    if sc.record.pending.Some? { assert a.roots[n] == Kept(sc)[n]; }
  }

  /** Records nest as the calls do. */
  predicate Ordered(scopes: seq<Scope>) {
    forall i, j :: 0 <= i < j < |scopes| ==>
      && scopes[i].depth <= scopes[j].depth && |Kept(scopes[i])| <= |scopes[j].birth.roots|
      && (scopes[i].record.boundary.Some? ==> scopes[i].depth < scopes[j].depth)
  }

  predicate ScopesOk(a: Async) {
    (forall i :: 0 <= i < |a.scopes| ==> ScopeOk(a, a.scopes[i])) && Ordered(a.scopes)
  }

  ghost predicate AsyncOk(a: Async) {
    Nested(a.s.exec, a.s.calls) && ScopesOk(a)
  }

  // --- recovery ---

  /** The state without its innermost record, if nothing but that record's own call is inside it. */
  function WithoutLast(a: Async): Async
    requires a.scopes != []
  {
    var sc := Last(a);
    Async(Session(sc.birth.exec, Truncated(a.s.calls, sc.depth), sc.depth > 0), sc.birth.roots,
          sc.birth.pending, sc.birth.generation, a.scopes[..|a.scopes| - 1])
  }

  /** In a droppable suffix the innermost record is the innermost thing open. */
  lemma {:induction false} LastIsInnermost(a: Async, n: nat)
    requires AsyncOk(a) && Droppable(a, n)
    ensures if Last(a).record.boundary.Some? then OwnsInnermost(a) else Last(a).depth == |a.s.calls|
  {
    var last := |a.scopes| - 1;
    assert ScopeOk(a, a.scopes[last]) && a.scopes[n].depth <= a.scopes[last].depth;
    if Last(a).depth < |a.s.calls| {
      assert OwnedFrom(a.scopes, n, |a.s.calls| - 1);
    }
  }

  /** Discarding the innermost record's own call gives back the execution it was begun on. */
  lemma {:induction false} OwnCallUndone(a: Async, n: nat)
    requires AsyncOk(a) && Droppable(a, n) && Last(a).record.boundary.Some?
    ensures var boundary := Last(a).record.boundary.value;
      WithoutCall(a.s.exec, boundary) == Last(a).birth.exec && CanDiscard(a.s.exec, boundary.0, boundary.1)
  {
    var sc := Last(a);
    LastIsInnermost(a, n);
    assert ScopeOk(a, sc);
    CutIsOuter(a.s.exec, a.s.calls);
    var c := Innermost(a.s);
    assert Nested(c.outer, a.s.calls[..sc.depth]);
    TopIsEmpty(c.outer, a.s.calls[..sc.depth]);
  }

  lemma {:induction false} UndoneIsBirth(a: Async, n: nat)
    requires AsyncOk(a) && Droppable(a, n)
    ensures Undone(ParkedOf(a), Last(a).record) == Last(a).birth
  {
    LastIsInnermost(a, n);
    KeptRoots(a, Last(a));
    if Last(a).record.boundary.Some? { OwnCallUndone(a, n); }
  }

  /** An execution without frames has no calls open and nothing on its stacks. */
  lemma TopIsEmpty(e: Exec, calls: seq<Call>)
    requires Nested(e, calls)
    ensures e.frames == [] ==> e == EMPTY_EXEC
  {
  }

  lemma {:induction false} ScopeStaysOk(a: Async, n: nat, i: nat)
    requires AsyncOk(a) && Droppable(a, n) && i < |a.scopes| - 1
    ensures ScopeOk(WithoutLast(a), a.scopes[i])
  {
    LastIsInnermost(a, n);
    var last := |a.scopes| - 1;
    var sc, out := a.scopes[i], a.scopes[last];
    assert ScopeOk(a, sc) && ScopeOk(a, out) && sc.depth <= out.depth && |Kept(sc)| <= |out.birth.roots|;
    KeptRoots(a, out);
    assert a.roots[..|out.birth.roots|][..|Kept(sc)|] == a.roots[..|Kept(sc)|];
  }

  lemma {:induction false} WithoutLastNested(a: Async, n: nat)
    requires AsyncOk(a) && Droppable(a, n)
    ensures Nested(WithoutLast(a).s.exec, WithoutLast(a).s.calls) && ParkedOf(WithoutLast(a)) == Last(a).birth
  {
    LastIsInnermost(a, n);
    assert ScopeOk(a, Last(a));
    assert a.s.calls[..|a.s.calls|] == a.s.calls;
  }

  lemma {:induction false} WithoutLastOk(a: Async, n: nat)
    requires AsyncOk(a) && Droppable(a, n)
    ensures AsyncOk(WithoutLast(a))
  {
    var b := WithoutLast(a);
    WithoutLastNested(a, n);
    forall i | 0 <= i < |b.scopes| ensures ScopeOk(b, b.scopes[i]) { ScopeStaysOk(a, n, i); }
  }

  lemma {:induction false} WithoutLastDroppable(a: Async, n: nat)
    requires AsyncOk(a) && Droppable(a, n) && n < |a.scopes| - 1
    ensures Droppable(WithoutLast(a), n)
  {
    var b := WithoutLast(a);
    assert ScopeOk(a, Last(a)) && a.scopes[n].depth <= Last(a).depth;
    forall j | a.scopes[n].depth <= j < |b.s.calls| ensures OwnedFrom(b.scopes, n, j) {
      assert OwnedFrom(a.scopes, n, j);
      var i :| n <= i < |a.scopes| && a.scopes[i].record.boundary.Some? && a.scopes[i].depth == j;
      assert b.scopes[i] == a.scopes[i];
    }
  }

  lemma {:induction false} OneUndone(a: Async, n: nat)
    requires AsyncOk(a) && Droppable(a, n)
    ensures Recovered(ParkedOf(a), Dropped(a.scopes, n)) ==
      Recovered(Last(a).birth, Dropped(a.scopes, n)[..|a.scopes| - 1])
  {
    UndoneIsBirth(a, n);
    assert Undone(ParkedOf(a), Dropped(a.scopes, n)[|a.scopes| - 1]) == Undone(ParkedOf(a), Last(a).record);
  }

  /** Records that were not dropped stop the recovery. */
  lemma {:induction false} SurvivorsStay(a: Async, n: nat, p: Parked)
    requires ScopesOk(a) && n <= |a.scopes|
    ensures Dropped(a.scopes, n)[..n] == Records(a.scopes[..n])
    ensures Recovered(p, Records(a.scopes[..n])) == (p, Records(a.scopes[..n]))
  {
    forall i | 0 <= i < n ensures a.scopes[i].record.(cancelled := i >= n) == a.scopes[i].record
    {
      assert ScopeOk(a, a.scopes[i]);
    }
    if n > 0 { assert ScopeOk(a, a.scopes[n - 1]); }
  }

  lemma DroppedPrefix(scopes: seq<Scope>, n: nat)
    requires scopes != []
    ensures Dropped(scopes, n)[..|scopes| - 1] == Dropped(scopes[..|scopes| - 1], n)
  {
  }

  lemma {:induction false} NextReady(a: Async, n: nat)
    requires AsyncOk(a) && Droppable(a, n) && n < |a.scopes| - 1
    ensures AsyncOk(WithoutLast(a)) && Droppable(WithoutLast(a), n)
  {
    WithoutLastOk(a, n);
    WithoutLastDroppable(a, n);
  }

  lemma {:induction false} NextUndone(a: Async, n: nat)
    requires AsyncOk(a) && Droppable(a, n)
    ensures Recovered(ParkedOf(a), Dropped(a.scopes, n)) ==
      Recovered(ParkedOf(WithoutLast(a)), Dropped(WithoutLast(a).scopes, n))
  {
    OneUndone(a, n);
    WithoutLastNested(a, n);
    DroppedPrefix(a.scopes, n);
    SameRecovery(
      Last(a).birth, Dropped(a.scopes, n)[..|a.scopes| - 1], ParkedOf(WithoutLast(a)),
      Dropped(WithoutLast(a).scopes, n));
  }

  lemma SameRecovery(p: Parked, records: seq<Cleanup>, p': Parked, records': seq<Cleanup>)
    requires p == p' && records == records'
    ensures Recovered(p, records) == Recovered(p', records')
  {
  }

  /**
   Recovery after any inner suffix of the async calls is dropped mid-await: the parked execution with
   its re-entry count, the host roots, and the pending exception with its generation are those of the
   moment the outermost dropped call began; the surviving records are the outer ones, in order; and
   no internal error is latched.
   */
  lemma {:induction false} RecoveryRestores(a: Async, n: nat)
    requires AsyncOk(a) && Droppable(a, n)
    ensures Recovered(ParkedOf(a), Dropped(a.scopes, n)) == (a.scopes[n].birth, Records(a.scopes[..n]))
    decreases |a.scopes|
  {
    if n < |a.scopes| - 1 {
      NextReady(a, n);
      RecoveryRestores(WithoutLast(a), n);
      RecoveryGoesOn(a, n);
    } else {
      RecoveryEnds(a);
    }
  }

  lemma {:induction false} RecoveryGoesOn(a: Async, n: nat)
    requires AsyncOk(a) && Droppable(a, n) && n < |a.scopes| - 1
    ensures Recovered(ParkedOf(a), Dropped(a.scopes, n)) ==
      Recovered(ParkedOf(WithoutLast(a)), Dropped(WithoutLast(a).scopes, n))
    ensures WithoutLast(a).scopes[..n] == a.scopes[..n] && WithoutLast(a).scopes[n] == a.scopes[n]
  {
    NextUndone(a, n);
  }

  lemma {:induction false} RecoveryEnds(a: Async)
    requires a.scopes != [] && AsyncOk(a) && Droppable(a, |a.scopes| - 1)
    ensures Recovered(ParkedOf(a), Dropped(a.scopes, |a.scopes| - 1)) ==
      (Last(a).birth, Records(a.scopes[..|a.scopes| - 1]))
  {
    OneUndone(a, |a.scopes| - 1);
    SurvivorsStay(a, |a.scopes| - 1, Last(a).birth);
  }

  // --- every step keeps the records exact ---

  /** A step that leaves the calls, the scopes and the outer executions alone, and the roots below every mark. */
  lemma {:induction false} UnchangedOk(a: Async, b: Async)
    requires ScopesOk(a) && b.scopes == a.scopes && b.s.calls == a.s.calls
    requires a.scopes != [] && Last(a).depth == |a.s.calls| ==> b.s.exec == a.s.exec
    requires a.scopes != [] ==> SameBelow(a.roots, b.roots, |Kept(Last(a))|)
    ensures ScopesOk(b)
  {
    forall i | 0 <= i < |a.scopes| ensures ScopeOk(b, b.scopes[i]) {
      var sc, n := a.scopes[i], |Kept(a.scopes[i])|;
      assert ScopeOk(a, sc) && ScopeOk(a, Last(a));
      if i < |a.scopes| - 1 { assert sc.depth <= Last(a).depth && n <= |Last(a).birth.roots|; }
      assert a.roots[..|Kept(Last(a))|][..n] == a.roots[..n];
      assert b.roots[..|Kept(Last(a))|][..n] == b.roots[..n];
    }
  }

  /** A call entered on the current execution leaves every record's own outer execution where it was. */
  lemma {:induction false} OpenedOk(a: Async, s: Session)
    requires ScopesOk(a) && s.calls == a.s.calls + [Call(|a.s.exec.values|, |a.s.exec.frames|, a.s.exec)]
    ensures ScopesOk(a.(s := s))
  {
    forall i | 0 <= i < |a.scopes| ensures ScopeOk(a.(s := s), a.scopes[i]) { assert ScopeOk(a, a.scopes[i]); }
  }

  /** The innermost call ended, and no record from `n` down is its owner. */
  lemma {:induction false} EndedOk(a: Async, b: Async, n: nat)
    requires ScopesOk(a) && n <= |a.scopes| && b.scopes == a.scopes[..n]
    requires a.s.calls != [] && b.s.calls == a.s.calls[..|a.s.calls| - 1] && b.s.exec == Innermost(a.s).outer
    requires forall i :: 0 <= i < n ==>
      a.scopes[i].depth < |a.s.calls| && (a.scopes[i].record.boundary.Some? ==> a.scopes[i].depth < |a.s.calls| - 1)
    requires n > 0 ==> SameBelow(a.roots, b.roots, |Kept(a.scopes[n - 1])|)
    ensures ScopesOk(b)
  {
    forall i | 0 <= i < n ensures ScopeOk(b, b.scopes[i]) {
      var sc, k := a.scopes[i], |Kept(a.scopes[i])|;
      assert ScopeOk(a, sc);
      var top := |Kept(a.scopes[n - 1])|;
      if i < n - 1 { assert k <= top; }
      assert a.roots[..top][..k] == a.roots[..k] && b.roots[..top][..k] == b.roots[..k];
    }
  }

  /** A new record on top. */
  lemma {:induction false} RecordedOk(a: Async, b: Async, sc: Scope)
    requires ScopesOk(a.(s := b.s)) && b.scopes == a.scopes + [sc]
    requires |sc.birth.roots| == |a.roots| && SameBelow(a.roots, b.roots, |a.roots|)
    requires ScopeOk(b, sc) && sc.depth == |a.s.calls|
    requires forall i :: 0 <= i < |a.scopes| ==>
      a.scopes[i].depth <= |a.s.calls| && (a.scopes[i].record.boundary.Some? ==> a.scopes[i].depth < |a.s.calls|)
    ensures ScopesOk(b)
  {
    forall i | 0 <= i < |a.scopes| ensures ScopeOk(b, a.scopes[i]) && |Kept(a.scopes[i])| <= |a.roots| {
      var k := |Kept(a.scopes[i])|;
      assert ScopeOk(a.(s := b.s), a.scopes[i]);
      assert b.roots[..|a.roots|][..k] == b.roots[..k] && a.roots[..|a.roots|] == a.roots;
    }
  }

  lemma {:induction false} PrefixOk(a: Async, n: nat)
    requires ScopesOk(a) && n <= |a.scopes|
    ensures ScopesOk(a.(scopes := a.scopes[..n]))
  {
    forall i | 0 <= i < n ensures ScopeOk(a.(scopes := a.scopes[..n]), a.scopes[i]) { assert ScopeOk(a, a.scopes[i]); }
  }

  /** Whose call the innermost one is not. */
  lemma {:induction false} NotOwners(a: Async, n: nat)
    requires ScopesOk(a) && n <= |a.scopes| && a.s.calls != []
    requires if n == |a.scopes| then !OwnsInnermost(a) && (n > 0 ==> Last(a).depth < |a.s.calls|)
             else n == |a.scopes| - 1 && OwnsInnermost(a)
    ensures forall i :: 0 <= i < n ==>
      a.scopes[i].depth < |a.s.calls| && (a.scopes[i].record.boundary.Some? ==> a.scopes[i].depth < |a.s.calls| - 1)
  {
    forall i | 0 <= i < n
      ensures a.scopes[i].depth < |a.s.calls|
      ensures (a.scopes[i].record.boundary.Some? ==> a.scopes[i].depth < |a.s.calls| - 1)
    {
      assert ScopeOk(a, a.scopes[i]) && ScopeOk(a, Last(a));
      if i < |a.scopes| - 1 { assert a.scopes[i].depth <= Last(a).depth; }
    }
  }

  lemma {:induction false} SyncEndOk(a: Async, l: Limits, g: CallRuns.Op, b: Async)
    requires AsyncOk(a) && Ends(g) && CallStep(a.s, l, g, b.s) && b == a.(s := b.s)
    requires !OwnsInnermost(a) && (a.scopes == [] || Last(a).depth < |a.s.calls|)
    ensures AsyncOk(b)
  {
    EndRestores(a.s, l, g, b.s);
    NotOwners(a, |a.scopes|);
    EndedOk(a, b, |a.scopes|);
  }

  lemma {:induction false} GuestOk(a: Async, l: Limits, g: CallRuns.Op, b: Async)
    requires AsyncOk(a) && AStep(a, l, Guest(g), b)
    ensures AsyncOk(b)
  {
    StepNested(a.s, l, g, b.s);
    if RunStep(a.s, l, g, b.s) {
      RunStepNested(a.s, l, g, b.s);
      UnchangedOk(a, b);
    } else if Ends(g) {
      SyncEndOk(a, l, g, b);
    } else if g.Enter? && CanEnter(a.s.exec, g.code, g.args) {
      OpenedOk(a, b.s);
    } else {
      UnchangedOk(a, b);
    }
  }

  lemma {:induction false} BeginOk(a: Async, l: Limits, op: AOp, b: Async)
    requires AsyncOk(a) && (op.Begin? || op.BeginDirect?) && AStep(a, l, op, b)
    ensures AsyncOk(b)
  {
    if op.Begin? {
      EnterNested(a.s, op.tags, op.code, op.args);
      OpenedOk(a, b.s);
    }
    var sc := b.scopes[|a.scopes|];
    assert b.roots[..|a.roots|] == a.roots;
    assert ScopeOk(b, sc);
    forall i | 0 <= i < |a.scopes|
      ensures a.scopes[i].depth <= |a.s.calls|
      ensures (a.scopes[i].record.boundary.Some? ==> a.scopes[i].depth < |a.s.calls|)
    {
      assert ScopeOk(a, a.scopes[i]);
    }
    RecordedOk(a, b, sc);
  }

  /** Roots cut at or above the innermost record's mark still hold every outer record's. */
  lemma {:induction false} OuterRootsStay(a: Async, roots: seq<(nat, RefKind)>, mark: nat)
    requires ScopesOk(a) && a.scopes != [] && |Last(a).birth.roots| <= mark <= |a.roots| && roots == a.roots[..mark]
    ensures |a.scopes| > 1 ==> SameBelow(a.roots, roots, |Kept(a.scopes[|a.scopes| - 2])|)
  {
    if |a.scopes| > 1 {
      var k := |Kept(a.scopes[|a.scopes| - 2])|;
      assert k <= |Last(a).birth.roots|;
      assert a.roots[..mark][..k] == a.roots[..k];
    }
  }

  lemma {:induction false} CompleteOk(a: Async, l: Limits, op: AOp, b: Async)
    requires AsyncOk(a) && (op.Complete? || op.CompleteDirect?) && AStep(a, l, op, b)
    ensures AsyncOk(b)
  {
    var last := |a.scopes| - 1;
    assert ScopeOk(a, Last(a));
    OuterRootsStay(a, b.roots, |Last(a).birth.roots|);
    if op.Complete? {
      EndRestores(a.s, l, op.op, b.s);
      NotOwners(a, last);
      EndedOk(a, b, last);
    } else {
      PrefixOk(a, last);
      UnchangedOk(a.(scopes := a.scopes[..last]), b);
    }
  }

  /** A panicking call finds its own record, and only that one goes. */
  lemma {:induction false} OwnerIsLast(a: Async)
    requires ScopesOk(a) && OwnsInnermost(a)
    ensures Owner(Records(a.scopes), (Innermost(a.s).valueBase, Innermost(a.s).stopDepth)) == Some(|a.scopes| - 1)
  {
    assert ScopeOk(a, Last(a));
    assert Records(a.scopes)[|a.scopes| - 1].boundary == Some((Innermost(a.s).valueBase, Innermost(a.s).stopDepth));
  }

  lemma {:induction false} AsyncPanicOk(a: Async, l: Limits, op: AOp, b: Async)
    requires AsyncOk(a) && op.AsyncPanic? && AStep(a, l, op, b)
    ensures AsyncOk(b)
  {
    OwnerIsLast(a);
    PanickedOk(a, l, op.mark, b);
  }

  lemma {:induction false} PanickedOk(a: Async, l: Limits, mark: nat, b: Async)
    requires AsyncOk(a) && OwnsInnermost(a) && CallStep(a.s, l, CallRuns.Panic, b.s)
    requires |Last(a).birth.roots| <= mark <= |a.roots| && b.roots == a.roots[..mark]
    requires b.scopes == a.scopes[..|a.scopes| - 1]
    ensures AsyncOk(b)
  {
    OuterRootsStay(a, b.roots, mark);
    EndRestores(a.s, l, CallRuns.Panic, b.s);
    NotOwners(a, |a.scopes| - 1);
    EndedOk(a, b, |a.scopes| - 1);
  }

  function AfterDrop(a: Async, n: nat): Async
    requires n < |a.scopes| && a.scopes[n].depth <= |a.s.calls|
  {
    Afterwards(a, a.scopes[n].birth, a.s.calls[..a.scopes[n].depth], a.scopes[..n])
  }

  lemma {:induction false} AfterDropIs(a: Async, n: nat)
    requires ScopesOk(a) && n < |a.scopes| && a.scopes[n].depth <= |a.s.calls|
    ensures n == |a.scopes| - 1 ==> AfterDrop(a, n) == WithoutLast(a)
    ensures n < |a.scopes| - 1 ==>
      a.scopes[n].depth <= |WithoutLast(a).s.calls| && AfterDrop(a, n) == AfterDrop(WithoutLast(a), n)
  {
    assert ScopeOk(a, Last(a));
    if n < |a.scopes| - 1 {
      assert a.scopes[n].depth <= Last(a).depth;
      assert a.s.calls[..Last(a).depth][..a.scopes[n].depth] == a.s.calls[..a.scopes[n].depth];
      assert a.scopes[..|a.scopes| - 1][..n] == a.scopes[..n];
    }
  }

  lemma {:induction false} AfterDropOk(a: Async, n: nat)
    requires AsyncOk(a) && Droppable(a, n)
    ensures a.scopes[n].depth <= |a.s.calls| && AsyncOk(AfterDrop(a, n))
    decreases |a.scopes|
  {
    assert ScopeOk(a, a.scopes[n]);
    AfterDropIs(a, n);
    if n < |a.scopes| - 1 {
      NextReady(a, n);
      AfterDropOk(WithoutLast(a), n);
    } else {
      WithoutLastOk(a, n);
    }
  }

  lemma {:induction false} AsyncStepOk(a: Async, l: Limits, op: AOp, b: Async)
    requires AsyncOk(a) && AStep(a, l, op, b)
    ensures AsyncOk(b)
  {
    match op
    case Guest(g) => GuestOk(a, l, g, b);
    case Begin(_, _, _, _) => BeginOk(a, l, op, b);
    case BeginDirect(_) => BeginOk(a, l, op, b);
    case Complete(_) => CompleteOk(a, l, op, b);
    case CompleteDirect => CompleteOk(a, l, op, b);
    case HostChange(_, _, _) => UnchangedOk(a, b);
    case Drop(n) =>
      RecoveryRestores(a, n);
      AfterDropOk(a, n);
    case AsyncPanic(_, _, _) => AsyncPanicOk(a, l, op, b);
  }

  lemma {:induction false} AsyncRunOk(states: seq<Async>, ops: seq<AOp>, l: Limits, k: nat)
    requires IsAsyncRun(states, ops, l) && k < |states|
    ensures AsyncOk(states[k])
    decreases k
  {
    if k > 0 {
      AsyncRunOk(states, ops, l, k - 1);
      AsyncStepOk(states[k - 1], l, ops[k - 1], states[k]);
    }
  }

  /** In every run the exception an open record would put back is rooted, so no collection frees it meanwhile. */
  lemma {:induction false} SavedStaysRooted(states: seq<Async>, ops: seq<AOp>, l: Limits, k: nat, i: nat)
    requires IsAsyncRun(states, ops, l) && k < |states| && i < |states[k].scopes|
    ensures var record := states[k].scopes[i].record;
      record.pending.Some? ==> (record.pending.value, KExn) in states[k].roots
  {
    AsyncRunOk(states, ops, l, k);
    KeptRoots(states[k], states[k].scopes[i]);
  }

  /** Records come and go at the end of the list only. */
  lemma {:induction false} RecordsAreAStack(a: Async, l: Limits, op: AOp, b: Async, n: nat)
    requires AsyncOk(a) && AStep(a, l, op, b) && n <= |a.scopes| && n <= |b.scopes|
    ensures b.scopes[..n] == a.scopes[..n]
  {
    if op.AsyncPanic? { OwnerIsLast(a); }
  }

  lemma {:induction false} RecordStays(states: seq<Async>, ops: seq<AOp>, l: Limits, i: nat, k: nat, n: nat)
    requires IsAsyncRun(states, ops, l) && i <= k < |states| && forall m :: i <= m <= k ==> |states[m].scopes| >= n
    ensures states[k].scopes[..n] == states[i].scopes[..n]
    decreases k
  {
    if i < k {
      RecordStays(states, ops, l, i, k - 1, n);
      AsyncRunOk(states, ops, l, k - 1);
      RecordsAreAStack(states[k - 1], l, ops[k - 1], states[k], n);
    }
  }

  /**
   Over whole runs: when the call begun at step `i` is dropped mid-await at step `k`, with everything
   begun inside it, recovery puts the execution, the roots, the pending exception and its generation
   back to what they were at step `i`, and leaves exactly the records of step `i`.
   */
  lemma {:induction false} DropUndoesBegin(states: seq<Async>, ops: seq<AOp>, l: Limits, i: nat, k: nat)
    requires IsAsyncRun(states, ops, l) && i < k < |ops| && (ops[i].Begin? || ops[i].BeginDirect?)
    requires ops[k] == Drop(|states[i].scopes|)
    requires forall m :: i < m <= k ==> |states[m].scopes| > |states[i].scopes|
    ensures ParkedOf(states[k + 1]) == ParkedOf(states[i]) && states[k + 1].scopes == states[i].scopes
  {
    var n := |states[i].scopes|;
    assert AStep(states[i], l, ops[i], states[i + 1]) && AStep(states[k], l, ops[k], states[k + 1]);
    RecordStays(states, ops, l, i + 1, k, n + 1);
    assert states[k].scopes[n] == states[k].scopes[..n + 1][n];
    assert states[i + 1].scopes[n] == states[i + 1].scopes[..n + 1][n];
    assert states[k].scopes[..n] == states[k].scopes[..n + 1][..n];
    assert states[i + 1].scopes[..n] == states[i + 1].scopes[..n + 1][..n];
    AsyncRunOk(states, ops, l, k);
    RecoveryRestores(states[k], n);
  }
}
