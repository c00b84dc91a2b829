/**
 What a host call and a root scope guarantee over whole runs (`src/exec/host.rs`,
 `src/store/managed.rs`): parameters and handed-out values stay rooted while they are open, and
 everything rooted inside goes when they end.
 */
module HostScopes {
  import opened Options
  import opened Arenas
  import opened Layout
  import opened Codec
  import opened Tracing
  import opened Collector
  import opened Managed
  import opened Mutator
  import opened Survival
  import opened MutatorSafety
  import opened StoreRuns

  // --- host calls nest over the root list ---

  /** Open calls hold ascending stretches of the root list. */
  ghost predicate Nests(m: Machine) {
    && (forall i :: 0 <= i < |m.marks| ==> m.marks[i].height <= m.marks[i].base <= |m.roots|)
    && (forall i, j :: 0 <= i < j < |m.marks| ==> m.marks[i].base <= m.marks[j].height)
  }

  /** The ways a step changes the root list and the open calls. */
  predicate Grows(m: Machine, n: Machine) {
    n.marks == m.marks && m.roots <= n.roots
  }

  predicate ClosesScope(m: Machine, n: Machine) {
    n.marks == m.marks && CallBase(m) <= |n.roots| && n.roots <= m.roots
  }

  predicate Opens(m: Machine, n: Machine) {
    && |n.marks| == |m.marks| + 1 && n.marks[..|m.marks|] == m.marks && m.roots <= n.roots
    && n.marks[|m.marks|].height == |m.roots| && n.marks[|m.marks|].base == |n.roots|
  }

  predicate Ends(m: Machine, n: Machine) {
    && m.marks != [] && n.marks == m.marks[..|m.marks| - 1]
    && var height := m.marks[|m.marks| - 1].height;
      n.roots == if height <= |m.roots| then m.roots[..height] else m.roots
  }

  predicate ScopeStep(m: Machine, n: Machine) {
    Grows(m, n) || ClosesScope(m, n) || Opens(m, n) || Ends(m, n)
  }

  predicate EntersCall(m: Machine, op: Op, n: Machine) {
    op.HostEnter? && op.keep <= |m.stack| && n == Entered(m, op.keep)
  }

  lemma {:induction false} HostScopeStep(m: Machine, types: Layouts, op: Op, n: Machine)
    requires HostStep(m, types, op, n)
    ensures ScopeStep(m, n) && (Opens(m, n) ==> EntersCall(m, op, n))
  {
    if op.HostEnter? {
      assert Opens(m, n);
    } else if op.HostFail? || op.HostThrow? {
      assert Ends(m, n);
    } else if op.CloseScope? {
      assert ClosesScope(m, n);
    } else {
      assert Grows(m, n);
    }
  }

  lemma {:induction false} StoreScopeStep(m: Machine, types: Layouts, op: Op, n: Machine)
    requires StoreStep(m, types, op, n)
    ensures ScopeStep(m, n) && !Opens(m, n)
  {
    if op.HostReturn? { assert Ends(m, n); } else { assert Grows(m, n); }
  }

  lemma {:induction false} StepScopes(m: Machine, types: Layouts, op: Op, n: Machine)
    requires Step(m, types, op, n)
    ensures ScopeStep(m, n) && (Opens(m, n) ==> EntersCall(m, op, n))
  {
    if HostStep(m, types, op, n) {
      HostScopeStep(m, types, op, n);
    } else if StoreStep(m, types, op, n) {
      StoreScopeStep(m, types, op, n);
    } else {
      OtherScopeStep(m, types, op, n);
    }
  }

  lemma {:induction false} OtherScopeStep(m: Machine, types: Layouts, op: Op, n: Machine)
    requires GuestStep(m, types, op, n) || AllocStep(m, types, op, n)
    ensures Grows(m, n)
  {
    if AllocStep(m, types, op, n) {
      AllocGrows(m, types, op, n);
    } else {
      GuestGrows(m, types, op, n);
    }
  }

  lemma {:induction false} GuestGrows(m: Machine, types: Layouts, op: Op, n: Machine)
    requires GuestStep(m, types, op, n)
    ensures Grows(m, n)
  {
  }

  lemma {:induction false} AllocGrows(m: Machine, types: Layouts, op: Op, n: Machine)
    requires AllocStep(m, types, op, n)
    ensures Grows(m, n)
  {
  }

  lemma {:induction false} NestsStep(m: Machine, n: Machine)
    requires Nests(m) && ScopeStep(m, n)
    ensures Nests(n)
  {
  }

  lemma {:induction false} RunNests(ms: seq<Machine>, ops: seq<Op>, types: Layouts, k: nat)
    requires IsRun(ms, ops, types) && k < |ms|
    ensures Nests(ms[k])
    decreases k
  {
    if k > 0 {
      RunNests(ms, ops, types, k - 1);
      assert StepAt(ms, ops, types, k - 1);
      StepScopes(ms[k - 1], types, ops[k - 1], ms[k]);
      NestsStep(ms[k - 1], ms[k]);
    }
  }

  /** The call at depth `d` is open on both sides, over the same roots. */
  predicate GoesOn(m: Machine, n: Machine, d: nat) {
    && d < |m.marks| && d < |n.marks| && n.marks[d] == m.marks[d]
    && var base := m.marks[d].base;
      base <= |m.roots| && base <= |n.roots| && n.roots[..base] == m.roots[..base]
  }

  lemma {:induction false} StepGoesOn(m: Machine, n: Machine, d: nat)
    requires Nests(m) && ScopeStep(m, n) && d < |m.marks| && d < |n.marks|
    ensures GoesOn(m, n, d)
  {
    if Opens(m, n) { assert n.marks[d] == n.marks[..|m.marks|][d]; }
  }

  lemma GoesOnTwice(m: Machine, mid: Machine, n: Machine, d: nat)
    requires GoesOn(m, mid, d) && GoesOn(mid, n, d)
    ensures GoesOn(m, n, d)
  {
  }

  /** After step `i` more calls are open than before it, up to state `k`. */
  ghost predicate DeeperFrom(ms: seq<Machine>, i: nat, k: nat) {
    i < k < |ms| && forall j :: i < j <= k ==> |ms[j].marks| > |ms[i].marks|
  }

  /** While a host call is open, the roots it was entered with stay where they are. */
  lemma {:induction false} CallKeepsRoots(ms: seq<Machine>, ops: seq<Op>, types: Layouts, i: nat, k: nat)
    requires IsRun(ms, ops, types) && DeeperFrom(ms, i, k)
    ensures GoesOn(ms[i + 1], ms[k], |ms[i].marks|)
    decreases k
  {
    if i + 1 == k {
      RunNests(ms, ops, types, k);
    } else {
      CallKeepsRoots(ms, ops, types, i, k - 1);
      NextGoesOn(ms, ops, types, k - 1, |ms[i].marks|);
      GoesOnTwice(ms[i + 1], ms[k - 1], ms[k], |ms[i].marks|);
    }
  }

  lemma {:induction false} NextGoesOn(ms: seq<Machine>, ops: seq<Op>, types: Layouts, k: nat, d: nat)
    requires IsRun(ms, ops, types) && k < |ops| && d < |ms[k].marks| && d < |ms[k + 1].marks|
    ensures GoesOn(ms[k], ms[k + 1], d)
  {
    RunNests(ms, ops, types, k);
    assert StepAt(ms, ops, types, k);
    StepScopes(ms[k], types, ops[k], ms[k + 1]);
    StepGoesOn(ms[k], ms[k + 1], d);
  }

  /** The step that entered the call. */
  lemma {:induction false} EntersAt(ms: seq<Machine>, ops: seq<Op>, types: Layouts, i: nat)
    requires IsRun(ms, ops, types) && i < |ops| && |ms[i + 1].marks| > |ms[i].marks|
    ensures Opens(ms[i], ms[i + 1]) && ops[i].HostEnter? && ops[i].keep <= |ms[i].stack|
    ensures ms[i + 1] == Entered(ms[i], ops[i].keep)
  {
    assert StepAt(ms, ops, types, i);
    StepScopes(ms[i], types, ops[i], ms[i + 1]);
  }

  /**
   A host call gives the root list back exactly as it was: whatever it and the calls inside it rooted is
   gone when it returns, fails or throws, and what was rooted before is still there. A failure that is not
   the host's own also puts the pending exception back.
   */
  lemma {:induction false} CallRestoresRoots(ms: seq<Machine>, ops: seq<Op>, types: Layouts, i: nat, k: nat)
    requires IsRun(ms, ops, types) && DeeperFrom(ms, i, k) && k < |ops| && |ms[k + 1].marks| == |ms[i].marks|
    ensures ms[k + 1].roots == ms[i].roots && ms[k + 1].marks == ms[i].marks
    ensures ops[k].HostFail? && ops[k].restore ==> ms[k + 1].pending == ms[i].pending
  {
    EntersAt(ms, ops, types, i);
    CallKeepsRoots(ms, ops, types, i, k);
    MarksPrefix(ms, ops, types, i, k);
    RunNests(ms, ops, types, k);
    assert StepAt(ms, ops, types, k);
    StepScopes(ms[k], types, ops[k], ms[k + 1]);
    EndGivesBack(ms[i], ms[i + 1], ms[k], ms[k + 1]);
  }

  /** The calls open before are open throughout. */
  lemma {:induction false} MarksPrefix(ms: seq<Machine>, ops: seq<Op>, types: Layouts, i: nat, k: nat)
    requires IsRun(ms, ops, types) && DeeperFrom(ms, i, k)
    ensures ms[k].marks[..|ms[i].marks|] == ms[i].marks
    decreases k
  {
    if i + 1 == k {
      EntersAt(ms, ops, types, i);
    } else {
      MarksPrefix(ms, ops, types, i, k - 1);
      NextPrefix(ms, ops, types, k - 1, |ms[i].marks|);
    }
  }

  lemma {:induction false} NextPrefix(ms: seq<Machine>, ops: seq<Op>, types: Layouts, k: nat, d: nat)
    requires IsRun(ms, ops, types) && k < |ops| && d < |ms[k].marks| && d < |ms[k + 1].marks|
    ensures ms[k + 1].marks[..d] == ms[k].marks[..d]
  {
    assert StepAt(ms, ops, types, k);
    StepScopes(ms[k], types, ops[k], ms[k + 1]);
    PrefixStays(ms[k], ms[k + 1], d);
  }

  lemma PrefixStays(m: Machine, n: Machine, d: nat)
    requires ScopeStep(m, n) && d < |m.marks| && d < |n.marks|
    ensures n.marks[..d] == m.marks[..d]
  {
    if Opens(m, n) { assert n.marks[..d] == n.marks[..|m.marks|][..d]; }
  }

  lemma {:induction false} EndGivesBack(before: Machine, start: Machine, last: Machine, after: Machine)
    requires Opens(before, start) && GoesOn(start, last, |before.marks|) && Nests(last)
    requires last.marks[..|before.marks|] == before.marks
    requires ScopeStep(last, after) && |after.marks| == |before.marks|
    ensures |last.marks| == |before.marks| + 1 && Ends(last, after)
    ensures after.roots == before.roots && after.marks == before.marks
  {
    var d, height := |before.marks|, |before.roots|;
    assert last.marks[d] == start.marks[d];
    var base := start.marks[d].base;
    assert last.roots[..height] == last.roots[..base][..height];
    assert start.roots[..height] == start.roots[..base][..height] == before.roots;
  }

  // --- parameters ---

  lemma {:induction false} ParamIsRooted(vs: seq<Val>, i: nat, r: (nat, RefKind))
    requires i < |vs| && r in RootOf(vs[i])
    ensures r in ParamRoots(vs)
    decreases |vs|
  {
    if i < |vs| - 1 { ParamIsRooted(vs[..|vs| - 1], i, r); }
  }

  /** Every reference a host call is passed is rooted when it is entered, and handed over unstamped. */
  lemma {:induction false} EnteredRoots(m: Machine, keep: nat, i: nat, r: (nat, RefKind))
    requires keep <= i < |m.stack| && r in RootOf(m.stack[i])
    ensures var n := Entered(m, keep);
      && r in n.roots && r in n.roots[..n.marks[|m.marks|].base]
      && exists h :: h in n.handles && h.index == r.0 && h.kind == r.1 && !h.stamped
  {
    var n := Entered(m, keep);
    ParamIsRooted(m.stack[keep..], i - keep, r);
    assert n.roots[..n.marks[|m.marks|].base] == n.roots;
    assert Minted(m.frees, r, false) in AllMinted(m.frees, ParamRoots(m.stack[keep..]), false);
  }

  /**
   For as long as a host call is open, every reference it was passed is rooted, so no collection in
   between frees what it names.
   */
  lemma {:induction false} ParamsStayRooted(
    ms: seq<Machine>, ops: seq<Op>, types: Layouts, i: nat, k: nat, p: nat, r: (nat, RefKind))
    requires IsRun(ms, ops, types) && DeeperFrom(ms, i, k) && ops[i].HostEnter?
    requires ops[i].keep <= p < |ms[i].stack| && r in RootOf(ms[i].stack[p])
    ensures r in ms[k].roots
    ensures forall x :: x in SeedHandle(r.0, r.1) ==> x in Survivors(ms[k], types)
  {
    EntersAt(ms, ops, types, i);
    EnteredRoots(ms[i], ops[i].keep, p, r);
    CallKeepsRoots(ms, ops, types, i, k);
    forall x | x in SeedHandle(r.0, r.1) ensures x in Survivors(ms[k], types) { RootSurvives(ms[k], types, r, x); }
  }

  // --- handles that are still rooted pass ---

  lemma {:induction false} RootedKeepsFrees(m: Machine, types: Layouts, op: Op, n: Machine, r: (nat, RefKind), x: Node)
    requires Step(m, types, op, n) && r in m.roots && x in SeedHandle(r.0, r.1)
    ensures FreesAt(n.frees, x) == FreesAt(m.frees, x)
  {
    StepFrees(m, types, op, n);
    RootSurvives(m, types, r, x);
    FreesAfter(m.frees, m.st, Survivors(m, types), x);
  }

  lemma {:induction false} HandlesStay(m: Machine, types: Layouts, op: Op, n: Machine)
    requires Step(m, types, op, n)
    ensures m.handles <= n.handles
  {
    if GuestStep(m, types, op, n) {
      GuestHandles(m, types, op, n);
    } else if AllocStep(m, types, op, n) {
      AllocHandles(m, types, op, n);
    } else {
      HostHandles(m, types, op, n);
    }
  }

  lemma {:induction false} GuestHandles(m: Machine, types: Layouts, op: Op, n: Machine)
    requires GuestStep(m, types, op, n)
    ensures n.handles == m.handles
  {
  }

  lemma {:induction false} AllocHandles(m: Machine, types: Layouts, op: Op, n: Machine)
    requires AllocStep(m, types, op, n)
    ensures m.handles <= n.handles
  {
  }

  lemma {:induction false} HostHandles(m: Machine, types: Layouts, op: Op, n: Machine)
    requires HostStep(m, types, op, n) || StoreStep(m, types, op, n)
    ensures m.handles <= n.handles
  {
  }

  /** The root `r` stands in every state from `j` to `k`. */
  ghost predicate StandsFrom(ms: seq<Machine>, j: nat, k: nat, r: (nat, RefKind)) {
    j <= k < |ms| && forall i :: j <= i <= k ==> r in ms[i].roots
  }

  lemma {:induction false} StandingKeepsFrees(
    ms: seq<Machine>, ops: seq<Op>, types: Layouts, j: nat, k: nat, r: (nat, RefKind), x: Node)
    requires IsRun(ms, ops, types) && StandsFrom(ms, j, k, r) && x in SeedHandle(r.0, r.1)
    ensures FreesAt(ms[k].frees, x) == FreesAt(ms[j].frees, x) && ms[j].handles <= ms[k].handles
    decreases k
  {
    if j < k {
      StandingKeepsFrees(ms, ops, types, j, k - 1, r, x);
      NextKeepsFrees(ms, ops, types, k - 1, r, x);
    }
  }

  lemma {:induction false} NextKeepsFrees(
    ms: seq<Machine>, ops: seq<Op>, types: Layouts, k: nat, r: (nat, RefKind), x: Node)
    requires IsRun(ms, ops, types) && k < |ops| && r in ms[k].roots && x in SeedHandle(r.0, r.1)
    ensures FreesAt(ms[k + 1].frees, x) == FreesAt(ms[k].frees, x) && ms[k].handles <= ms[k + 1].handles
  {
    assert StepAt(ms, ops, types, k);
    RootedKeepsFrees(ms[k], types, ops[k], ms[k + 1], r, x);
    HandlesStay(ms[k], types, ops[k], ms[k + 1]);
  }

  /**
   A value handed to the host is accepted back for as long as its root stands, whatever is collected and
   however often its slot had been freed before.
   */
  lemma {:induction false} HandedOutPasses(
    ms: seq<Machine>, ops: seq<Op>, types: Layouts, i: nat, k: nat, v: Val, r: (nat, RefKind), x: Node)
    requires IsRun(ms, ops, types) && SafeTo(ms, ops, types, k) && i < k && i < |ops| && ops[i] == HandOut(v)
    requires RootOf(v) == [r] && SeedHandle(r.0, r.1) == [x] && StandsFrom(ms, i + 1, k, r)
    ensures exists h :: h in ms[k].handles && h.index == r.0 && h.kind == r.1 && h.stamped && Accepted(ms[k], Held(h))
  {
    var h := Minted(ms[i].frees, r, true);
    assert StepAt(ms, ops, types, i);
    assert ms[i + 1] == Rooted(ms[i], RootOf(v));
    assert h in AllMinted(ms[i].frees, [r], true);
    StandingKeepsFrees(ms, ops, types, i + 1, k, r, x);
    RunKeepsOk(ms, ops, types, k);
    var q :| 0 <= q < |ms[k].roots| && ms[k].roots[q] == r;
    assert RootOk(ms[k].st, ms[k].roots[q]);
    assert Named(h) == [x];
    assert Accepted(ms[k], Held(h));
  }
}
