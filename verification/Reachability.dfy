/** Reachability in a finite graph, the reference definition a tracing worklist is measured against. */
module Reachability {
  /** `x` is reached from a root by following `n` edges. */
  ghost predicate ReachedIn<T(!new)>(g: map<T, seq<T>>, roots: seq<T>, x: T, n: nat)
    decreases n
  {
    if n == 0 then x in roots
    else exists y :: ReachedIn(g, roots, y, n - 1) && y in g && x in g[y]
  }

  ghost predicate Reachable<T(!new)>(g: map<T, seq<T>>, roots: seq<T>, x: T) {
    exists n: nat :: ReachedIn(g, roots, x, n)
  }

  ghost function ReachableSet<T(!new)>(g: map<T, seq<T>>, roots: seq<T>): iset<T> {
    iset x: T | Reachable(g, roots, x)
  }

  lemma RootReached<T(!new)>(g: map<T, seq<T>>, roots: seq<T>, x: T)
    requires x in roots
    ensures Reachable(g, roots, x)
  {
    assert ReachedIn(g, roots, x, 0);
  }

  lemma EdgeReached<T(!new)>(g: map<T, seq<T>>, roots: seq<T>, y: T, x: T)
    requires Reachable(g, roots, y) && y in g && x in g[y]
    ensures Reachable(g, roots, x)
  {
    var n: nat :| ReachedIn(g, roots, y, n);
    assert ReachedIn(g, roots, x, n + 1);
  }

  /** A set that holds the roots and is closed under edges holds everything reachable. */
  lemma {:induction false} ClosedHoldsReached<T(!new)>(g: map<T, seq<T>>, roots: seq<T>, seen: set<T>, x: T, n: nat)
    requires forall r :: r in roots ==> r in seen
    requires forall y, z :: y in seen && y in g && z in g[y] ==> z in seen
    requires ReachedIn(g, roots, x, n)
    ensures x in seen
    decreases n
  {
    if n > 0 {
      var y :| ReachedIn(g, roots, y, n - 1) && y in g && x in g[y];
      ClosedHoldsReached(g, roots, seen, y, n - 1);
    }
  }

  /** A graph that agrees on everything reachable reaches it too. */
  lemma {:induction false} ReachedInBoth<T(!new)>(g: map<T, seq<T>>, g': map<T, seq<T>>, roots: seq<T>, x: T, n: nat)
    requires forall y :: Reachable(g, roots, y) && y in g ==> y in g' && g'[y] == g[y]
    requires ReachedIn(g, roots, x, n)
    ensures ReachedIn(g', roots, x, n)
    decreases n
  {
    if n > 0 {
      var p: nat := n - 1;
      var y :| ReachedIn(g, roots, y, p) && y in g && x in g[y];
      assert Reachable(g, roots, y);
      ReachedInBoth(g, g', roots, y, p);
    }
  }

  // --- the state of a tracing worklist ---

  /**
   Everything seen or waiting is reachable; roots are seen or waiting; and what a seen node
   refers to is seen or waiting.
   */
  ghost predicate InTrace<T(!new)>(g: map<T, seq<T>>, roots: seq<T>, seen: set<T>, work: seq<T>) {
    && (forall x :: x in seen ==> x in g && Reachable(g, roots, x))
    && (forall x :: x in work ==> Reachable(g, roots, x))
    && (forall x :: x in roots ==> x in seen || x in work)
    && (forall y, x :: y in seen && x in g[y] ==> x in seen || x in work)
  }

  lemma TraceStart<T(!new)>(g: map<T, seq<T>>, roots: seq<T>)
    ensures InTrace(g, roots, {}, roots)
  {
    forall x | x in roots ensures Reachable(g, roots, x) { RootReached(g, roots, x); }
  }

  /** Popping a node already seen. */
  lemma TraceSkip<T(!new)>(g: map<T, seq<T>>, roots: seq<T>, seen: set<T>, work: seq<T>)
    requires InTrace(g, roots, seen, work) && work != [] && work[|work| - 1] in seen
    ensures InTrace(g, roots, seen, work[..|work| - 1])
  {
    var x := work[|work| - 1];
    assert work == work[..|work| - 1] + [x];
  }

  /** Popping a node seen for the first time and pushing what it refers to. */
  lemma TraceVisit<T(!new)>(g: map<T, seq<T>>, roots: seq<T>, seen: set<T>, work: seq<T>)
    requires InTrace(g, roots, seen, work) && work != [] && work[|work| - 1] in g
    ensures InTrace(g, roots, seen + {work[|work| - 1]}, work[..|work| - 1] + g[work[|work| - 1]])
  {
    var x := work[|work| - 1];
    assert work == work[..|work| - 1] + [x];
    assert x in work;
    forall z | z in g[x] ensures Reachable(g, roots, z) { EdgeReached(g, roots, x, z); }
  }

  /** When nothing is waiting, exactly the reachable nodes have been seen, and all of them are intact. */
  lemma {:induction false} TraceDone<T(!new)>(g: map<T, seq<T>>, roots: seq<T>, seen: set<T>, x: T)
    requires InTrace(g, roots, seen, [])
    ensures x in seen <==> Reachable(g, roots, x)
  {
    if Reachable(g, roots, x) {
      var n: nat :| ReachedIn(g, roots, x, n);
      ClosedHoldsReached(g, roots, seen, x, n);
    }
  }
}
