/**
 Two runs in which the code accepts a handle the host has kept too long, each step as the code takes
 it, and the next collection fails. They show that the condition on presented handles is needed.
 */
module KeptTooLong {
  import opened Options
  import opened Layout
  import opened Codec
  import opened Heap
  import opened Tracing
  import opened Reachability
  import opened Collector
  import opened Managed
  import opened Mutator

  lemma {:induction false} NothingReached(g: map<Node, seq<Node>>, x: Node, n: nat)
    ensures !ReachedIn(g, [], x, n)
    decreases n
  {
    if n > 0 {
      var p: nat := n - 1;
      forall y ensures !ReachedIn(g, [], y, p) { NothingReached(g, y, p); }
    }
  }

  lemma {:induction false} NoSurvivors(m: Machine, types: Layouts)
    requires Roots(m) == []
    ensures Survivors(m, types) == iset{} && Traceable(m, types)
  {
    forall x: Node ensures x !in Survivors(m, types) {
      forall n: nat ensures !ReachedIn(GraphOf(m.st, types), [], x, n) { NothingReached(GraphOf(m.st, types), x, n); }
    }
  }

  const STAMPED := HostRef(KExtern, 0, true, 0)
  const UNSTAMPED := HostRef(KExtern, 0, false, 0)
  const ONE := Store([], [Some(Host(7))], [])
  const GONE := Store([], [None], [])

  /** A machine that holds nothing but what is listed. */
  function Holding(
    st: Store, stack: seq<Val>, roots: seq<(nat, RefKind)>, marks: seq<Mark>, frees: map<Node, nat>,
    handles: set<HostRef>): Machine {
    Machine(st, stack, [], [], [], None, roots, marks, frees, handles)
  }

  // --- building runs ---

  lemma {:induction false} RunExtends(ms: seq<Machine>, ops: seq<Op>, types: Layouts, op: Op, n: Machine)
    requires IsRun(ms, ops, types) && Step(ms[|ops|], types, op, n)
    ensures IsRun(ms + [n], ops + [op], types)
  {
    forall k: nat | k < |ops| + 1 ensures StepAt(ms + [n], ops + [op], types, k) {
      if k < |ops| { assert StepAt(ms, ops, types, k); }
    }
  }

  lemma {:induction false} Begins(types: Layouts) returns (ms: seq<Machine>, ops: seq<Op>)
    ensures IsRun(ms, ops, types) && |ops| == 1
    ensures ms[1] == Holding(ONE, [], [(0, KExtern)], [], map[], {STAMPED})
  {
    var n := Holding(ONE, [], [(0, KExtern)], [], map[], {STAMPED});
    assert IsRun([START], [], types);
    assert Filled(START.st.exts, 0, Host(7)) == [Some(Host(7))];
    OneMinted(map[], true);
    assert AllocStep(START, types, HostExtern(7, 0, false), n);
    RunExtends([START], [], types, HostExtern(7, 0, false), n);
    ms, ops := [START] + [n], [] + [HostExtern(7, 0, false)];
  }

  lemma OneMinted(frees: map<Node, nat>, stamped: bool)
    requires FreesAt(frees, Ext(0)) == 0
    ensures AllMinted(frees, [(0, KExtern)], stamped) == {HostRef(KExtern, 0, stamped, 0)}
  {
    assert Minted(frees, (0, KExtern), stamped) == HostRef(KExtern, 0, stamped, 0);
    assert (0, KExtern) in [(0, KExtern)];
  }

  /** Dropping the scope the externref was rooted in. */
  lemma {:induction false} Closes(m: Machine, types: Layouts, handles: set<HostRef>)
    requires m == Holding(ONE, [], [(0, KExtern)], [], map[], handles)
    ensures Step(m, types, CloseScope(0), Holding(ONE, [], [], [], map[], handles))
  {
    assert HostStep(m, types, CloseScope(0), m.(roots := m.roots[..0]));
  }

  /** Collecting a store whose only entry is an unrooted externref frees it. */
  lemma {:induction false} OneFreed(m: Machine, types: Layouts, handles: set<HostRef>) returns (frees: map<Node, nat>)
    requires m == Holding(ONE, [], [], [], map[], handles)
    ensures Collected(m, types) == Holding(GONE, [], [], [], frees, handles)
    ensures Traceable(m, types) && Survivors(m, types) == iset{}
  {
    NoSurvivors(m, types);
    var kept := Kept(m.st, iset{});
    assert kept.objs == [] && kept.exts == [None] && kept.exns == [];
    frees := FreedBy(m.frees, m.st, iset{});
  }

  lemma {:induction false} StampedPassesHere(m: Machine)
    requires m.st == ONE && m.frees == map[] && STAMPED in m.handles
    ensures Passes(m, STAMPED) && Present(m.st, Held(STAMPED)) && AllAccepted(m, [Held(STAMPED)])
    ensures Named(STAMPED) == [Ext(0)] && GivenVals([Held(STAMPED)]) == [ExternRef(Some(0))]
  {
  }

  // --- a field freed by the reservation ---

  const MISPLACES := HostExn(0, [Held(STAMPED)], 0, true)
  const BROKEN := GONE.(exns := [Some(ExnEntity(0, [ExternRef(Some(0))]))])

  lemma {:induction false} Misplaces(m: Machine, types: Layouts) returns (n: Machine)
    requires m == Holding(ONE, [], [], [], map[], {STAMPED})
    ensures Step(m, types, MISPLACES, n) && n.st == BROKEN && n.roots == [(0, KExn)] && !Safe(m, types, MISPLACES)
  {
    var frees := OneFreed(m, types, {STAMPED});
    StampedPassesHere(m);
    var mid := Holding(GONE, [], [], [], frees, {STAMPED});
    assert Filled(mid.st.exns, 0, ExnEntity(0, [ExternRef(Some(0))])) == BROKEN.exns;
    n := Rooted(mid.(st := BROKEN), [(0, KExn)]);
    assert AllocStep(m, types, MISPLACES, n);
    assert Ext(0) in Named(STAMPED);
    assert !Lasts(m, types, true, Exn(0), [Held(STAMPED)][0]);
  }

  lemma {:induction false} BrokenIsNotOk(st: Store, types: Layouts)
    requires st == BROKEN
    ensures !ContentsOk(st, types)
  {
    assert !ValOk(st, st.exns[0].value.args[0]);
    assert !ValsOk(st, st.exns[0].value.args);
  }

  lemma BrokenRefs(st: Store, types: Layouts)
    requires st == BROKEN
    ensures Refs(st, types, Exn(0)) == Some([Ext(0)]) && Refs(st, types, Ext(0)).None?
  {
    assert SeedVals([ExternRef(Some(0))]) == [Ext(0)];
  }

  lemma {:induction false} BrokenDangles(m: Machine, types: Layouts)
    requires m.st == BROKEN && m.roots == [(0, KExn)]
    ensures !MachineOk(m, types) && !Traceable(m, types)
  {
    var g, roots := GraphOf(m.st, types), Roots(m);
    BrokenIsNotOk(m.st, types);
    BrokenRefs(m.st, types);
    assert SeedHandles(m.roots) == [Exn(0)] by { assert m.roots[..0] == []; }
    assert Exn(0) in roots;
    RootReached(g, roots, Exn(0));
    EdgeReached(g, roots, Exn(0), Ext(0));
    assert Ext(0) in Survivors(m, types);
  }

  /**
   Test, collect, then place: an externref whose scope has closed passes the test of its generation, the
   reservation's own collection frees it, and the exception is stored with a dangling argument. The next
   collection fails on it.
   */
  lemma {:induction false} FieldFreedByReservation(types: Layouts) returns (ms: seq<Machine>, ops: seq<Op>)
    ensures IsRun(ms, ops, types) && |ops| == 3 && ops[2] == MISPLACES
    ensures Passes(ms[2], STAMPED) && Present(ms[2].st, Held(STAMPED)) && !Safe(ms[2], types, ops[2])
    ensures !MachineOk(ms[3], types) && !Traceable(ms[3], types)
  {
    var runs, steps := Begins(types);
    var scoped := Holding(ONE, [], [], [], map[], {STAMPED});
    Closes(runs[1], types, {STAMPED});
    RunExtends(runs, steps, types, CloseScope(0), scoped);
    var n := Misplaces(scoped, types);
    RunExtends(runs + [scoped], steps + [CloseScope(0)], types, MISPLACES, n);
    StampedPassesHere(scoped);
    BrokenDangles(n, types);
    ms, ops := runs + [scoped] + [n], steps + [CloseScope(0)] + [MISPLACES];
  }

  // --- a parameter kept past its call ---

  /** The externref goes to a guest, and from there to a host function, which keeps its parameter. */
  lemma {:induction false} PassesOn(m: Machine, types: Layouts)
    requires m == Holding(ONE, [], [(0, KExtern)], [], map[], {STAMPED})
    ensures Step(m, types, HostArgs([Held(STAMPED)]), m.(stack := [ExternRef(Some(0))]))
  {
    StampedPassesHere(m);
    assert m.stack + [ExternRef(Some(0))] == [ExternRef(Some(0))];
    assert StoreStep(m, types, HostArgs([Held(STAMPED)]), m.(stack := [ExternRef(Some(0))]));
  }

  lemma {:induction false} Calls(m: Machine, types: Layouts)
    requires m == Holding(ONE, [ExternRef(Some(0))], [(0, KExtern)], [], map[], {STAMPED})
    ensures var n := Holding(ONE, [], [(0, KExtern), (0, KExtern)], [Mark(1, None, 2)], map[], {STAMPED, UNSTAMPED});
      Step(m, types, HostEnter(0), n)
  {
    var params := m.stack[0..];
    assert params == [ExternRef(Some(0))] && params[..0] == [];
    assert ParamRoots(params) == [(0, KExtern)];
    OneMinted(m.frees, false);
    assert {STAMPED} + {UNSTAMPED} == {STAMPED, UNSTAMPED};
    assert m.roots + PendingRoots(None) + ParamRoots(params) == [(0, KExtern), (0, KExtern)];
    assert HostStep(m, types, HostEnter(0), Entered(m, 0));
  }

  lemma {:induction false} Returns(m: Machine, types: Layouts)
    requires m == Holding(ONE, [], [(0, KExtern), (0, KExtern)], [Mark(1, None, 2)], map[], {STAMPED, UNSTAMPED})
    ensures Step(m, types, HostReturn([]), Holding(ONE, [], [(0, KExtern)], [], map[], {STAMPED, UNSTAMPED}))
  {
    assert m.roots[..1] == [(0, KExtern)] && m.marks[..0] == [] && m.stack + GivenVals([]) == [];
    assert StoreStep(m, types, HostReturn([]), Closed(m, false).(stack := []));
  }

  lemma {:induction false} CallsAgain(m: Machine, types: Layouts, frees: map<Node, nat>)
    requires m == Holding(GONE, [], [], [], frees, {STAMPED, UNSTAMPED})
    ensures Step(m, types, HostEnter(0), m.(marks := [Mark(0, None, 0)]))
  {
    var params := m.stack[0..];
    assert params == [] && AllMinted(frees, [], false) == {};
    assert m.roots + PendingRoots(None) + ParamRoots(params) == [];
    assert Entered(m, 0) == m.(marks := [Mark(0, None, 0)]);
    assert HostStep(m, types, HostEnter(0), Entered(m, 0));
  }

  /** The unstamped handle passes although its entry is gone. */
  lemma {:induction false} ReturnsIt(m: Machine, types: Layouts, frees: map<Node, nat>)
    requires m == Holding(GONE, [], [], [Mark(0, None, 0)], frees, {STAMPED, UNSTAMPED})
    ensures Step(m, types, HostReturn([Held(UNSTAMPED)]), m.(stack := [ExternRef(Some(0))], marks := []))
    ensures Accepted(m, Held(UNSTAMPED)) && !Safe(m, types, HostReturn([Held(UNSTAMPED)]))
  {
    var given := [Held(UNSTAMPED)];
    assert Named(UNSTAMPED) == [Ext(0)] && Ext(0) in Named(UNSTAMPED);
    assert GivenVals(given) == [ExternRef(Some(0))] && m.stack + GivenVals(given) == [ExternRef(Some(0))];
    assert AllAccepted(m, given) && !Present(m.st, given[0]);
    assert StoreStep(m, types, HostReturn(given), m.(stack := [ExternRef(Some(0))], marks := []));
  }

  lemma {:induction false} StackDangles(m: Machine, types: Layouts)
    requires m.st == GONE && m.stack == [ExternRef(Some(0))]
    ensures !MachineOk(m, types) && !Traceable(m, types)
  {
    assert SeedVals(m.stack) == [Ext(0)] by { assert m.stack[..0] == []; }
    assert Ext(0) in Roots(m);
    RootReached(GraphOf(m.st, types), Roots(m), Ext(0));
    assert Ext(0) in Survivors(m, types) && Ext(0) !in GraphOf(m.st, types);
    assert !ValOk(m.st, m.stack[0]);
  }

  /** The run up to the point where the host function has returned and kept its parameter. */
  lemma {:induction false} KeepsParameter(types: Layouts) returns (ms: seq<Machine>, ops: seq<Op>)
    ensures IsRun(ms, ops, types) && |ops| == 4
    ensures ms[4] == Holding(ONE, [], [(0, KExtern)], [], map[], {STAMPED, UNSTAMPED})
  {
    ms, ops := Begins(types);
    PassesOn(ms[1], types);
    var passed := ms[1].(stack := [ExternRef(Some(0))]);
    RunExtends(ms, ops, types, HostArgs([Held(STAMPED)]), passed);
    ms, ops := ms + [passed], ops + [HostArgs([Held(STAMPED)])];
    Calls(passed, types);
    var called := Holding(ONE, [], [(0, KExtern), (0, KExtern)], [Mark(1, None, 2)], map[], {STAMPED, UNSTAMPED});
    RunExtends(ms, ops, types, HostEnter(0), called);
    ms, ops := ms + [called], ops + [HostEnter(0)];
    Returns(called, types);
    var returned := Holding(ONE, [], [(0, KExtern)], [], map[], {STAMPED, UNSTAMPED});
    RunExtends(ms, ops, types, HostReturn([]), returned);
    ms, ops := ms + [returned], ops + [HostReturn([])];
  }

  /** Its scope closed and a collection run, the handle's entry is gone. */
  lemma {:induction false} LosesEntry(types: Layouts) returns (ms: seq<Machine>, ops: seq<Op>, frees: map<Node, nat>)
    ensures IsRun(ms, ops, types) && |ops| == 6
    ensures ms[6] == Holding(GONE, [], [], [], frees, {STAMPED, UNSTAMPED})
  {
    ms, ops := KeepsParameter(types);
    var kept := Holding(ONE, [], [], [], map[], {STAMPED, UNSTAMPED});
    Closes(ms[4], types, {STAMPED, UNSTAMPED});
    RunExtends(ms, ops, types, CloseScope(0), kept);
    ms, ops := ms + [kept], ops + [CloseScope(0)];
    frees := OneFreed(kept, types, {STAMPED, UNSTAMPED});
    var freed := Holding(GONE, [], [], [], frees, {STAMPED, UNSTAMPED});
    assert GuestStep(kept, types, Op.Collect, freed);
    RunExtends(ms, ops, types, Op.Collect, freed);
    ms, ops := ms + [freed], ops + [Op.Collect];
  }

  /**
   A host call's parameter carries no generation: kept past its call and returned from a later one, after
   a collection freed its entry, it is accepted, and a dangling externref is on the stack. The next
   collection fails on it.
   */
  lemma {:induction false} ParameterKeptPastItsCall(types: Layouts) returns (ms: seq<Machine>, ops: seq<Op>)
    ensures IsRun(ms, ops, types) && |ops| == 8 && ops[7] == HostReturn([Held(UNSTAMPED)])
    ensures Accepted(ms[7], Held(UNSTAMPED)) && !Safe(ms[7], types, ops[7])
    ensures !MachineOk(ms[8], types) && !Traceable(ms[8], types)
  {
    var frees;
    ms, ops, frees := LosesEntry(types);
    var called := ms[6].(marks := [Mark(0, None, 0)]);
    CallsAgain(ms[6], types, frees);
    RunExtends(ms, ops, types, HostEnter(0), called);
    ms, ops := ms + [called], ops + [HostEnter(0)];
    var n := called.(stack := [ExternRef(Some(0))], marks := []);
    ReturnsIt(called, types, frees);
    RunExtends(ms, ops, types, HostReturn([Held(UNSTAMPED)]), n);
    ms, ops := ms + [n], ops + [HostReturn([Held(UNSTAMPED)])];
    StackDangles(n, types);
  }
}
