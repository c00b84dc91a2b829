/**
 Slot arenas with recycling and generations: the reclaimable arena of `src/store/reclaim.rs`, whose
 slot table the object heap of `src/store/gc.rs` repeats.
 */
module Arenas {
  import opened Options
  import opened FreeLists

  const U32_MAX: nat := 0xFFFF_FFFF

  /** A slot's generation after a free: one more, skipping the reserved maximum. */
  function NextGeneration(g: nat): nat {
    var next := (g + 1) % (U32_MAX + 1);
    if next == U32_MAX then 0 else next
  }

  datatype Arena<E> = Arena(slots: seq<Option<E>>, generations: seq<nat>, free: seq<nat>)

  /** Parallel tables and an exact free list: every empty slot once, and nothing else. */
  ghost predicate ArenaOk<E>(a: Arena<E>) {
    |a.slots| == |a.generations| && FreeOk(a.slots, a.free)
  }

  predicate Occupied<E>(slots: seq<Option<E>>, i: nat) {
    i < |slots| && slots[i].Some?
  }

  /** The slot the next allocation takes. */
  function NextIndex<E>(a: Arena<E>): nat {
    if a.free != [] then a.free[|a.free| - 1] else |a.slots|
  }

  function Placed<E>(a: Arena<E>, e: E): Arena<E> {
    if a.free != [] && NextIndex(a) < |a.slots| then
      Arena(a.slots[NextIndex(a) := Some(e)], a.generations, a.free[..|a.free| - 1])
    else
      Arena(a.slots + [Some(e)], a.generations + [0], a.free)
  }

  /** Occupied slots below `n` outside `live`, in index order. */
  function Dead<E>(slots: seq<Option<E>>, live: set<nat>, n: nat): (d: seq<nat>)
    requires n <= |slots|
    ensures forall i :: i in d <==> 0 <= i < n && slots[i].Some? && i !in live
  {
    if n == 0 then []
    else Dead(slots, live, n - 1) + (if slots[n - 1].Some? && n - 1 !in live then [n - 1] else [])
  }

  lemma {:induction false} DeadNoDup<E>(slots: seq<Option<E>>, live: set<nat>, n: nat)
    requires n <= |slots|
    ensures NoDup(Dead(slots, live, n))
  {
    if n > 0 {
      DeadNoDup(slots, live, n - 1);
      if slots[n - 1].Some? && n - 1 !in live { NoDupConcat(Dead(slots, live, n - 1), [n - 1]); }
    }
  }

  function Bumped(generations: seq<nat>, ids: seq<nat>): (r: seq<nat>)
    ensures |r| == |generations|
  {
    seq(|generations|, i requires 0 <= i < |generations| =>
      if i in ids then NextGeneration(generations[i]) else generations[i])
  }

  /** The arena after every occupied slot outside `live` is freed. */
  function Swept<E>(a: Arena<E>, live: set<nat>): Arena<E> {
    var dead := Dead(a.slots, live, |a.slots|);
    Arena(Cleared(a.slots, dead), Bumped(a.generations, dead), a.free + dead)
  }

  /** The arena once a sweep, slot by slot in index order, has passed the slots below `n`. */
  ghost function SweepTo<E>(a: Arena<E>, live: set<nat>, n: nat): (b: Arena<E>)
    requires n <= |a.slots| == |a.generations|
    ensures |b.slots| == |b.generations| == |a.slots|
  {
    if n == 0 then a else SweepOne(SweepTo(a, live, n - 1), live, n - 1)
  }

  /** What the sweep does at slot `i`. */
  function SweepOne<E>(a: Arena<E>, live: set<nat>, i: nat): (b: Arena<E>)
    requires i < |a.slots| == |a.generations|
    ensures |b.slots| == |b.generations| == |a.slots|
  {
    if a.slots[i].Some? && i !in live then
      Arena(a.slots[i := None], a.generations[i := NextGeneration(a.generations[i])], a.free + [i])
    else a
  }

  lemma SweepOneTotal<E>(a: Arena<E>, live: set<nat>, i: nat, size: E -> nat)
    requires i < |a.slots| == |a.generations|
    ensures Total(SweepOne(a, live, i).slots, size) + (if i in live then 0 else SizeAt(a.slots[i], size)) ==
      Total(a.slots, size)
  {
    TotalUpdate(a.slots, i, None, size);
  }

  lemma OneMoreDead<E>(slots: seq<Option<E>>, generations: seq<nat>, dead: seq<nat>, i: nat)
    requires i < |slots| == |generations| && i !in dead
    ensures Cleared(slots, dead)[i := None] == Cleared(slots, dead + [i])
    ensures Bumped(generations, dead)[i] == generations[i]
    ensures Bumped(generations, dead)[i := NextGeneration(generations[i])] == Bumped(generations, dead + [i])
  {
  }

  /** The arena with the slots `d` freed, in that order. */
  function Freed<E>(a: Arena<E>, d: seq<nat>): Arena<E> {
    Arena(Cleared(a.slots, d), Bumped(a.generations, d), a.free + d)
  }

  lemma {:induction false} FreedOneMore<E>(a: Arena<E>, live: set<nat>, d: seq<nat>, i: nat)
    requires i < |a.slots| == |a.generations| && i !in d
    ensures |Freed(a, d).slots| == |Freed(a, d).generations| == |a.slots|
    ensures SweepOne(Freed(a, d), live, i) == Freed(a, d + (if a.slots[i].Some? && i !in live then [i] else []))
  {
    if a.slots[i].Some? && i !in live {
      OneMoreDead(a.slots, a.generations, d, i);
      assert (a.free + d) + [i] == a.free + (d + [i]);
    } else {
      assert d + [] == d;
    }
  }

  lemma DeadNext<E>(slots: seq<Option<E>>, live: set<nat>, n: nat)
    requires n < |slots|
    ensures n !in Dead(slots, live, n)
    ensures Dead(slots, live, n + 1) == Dead(slots, live, n) + (if slots[n].Some? && n !in live then [n] else [])
  {
  }

  /** Sweeping slot by slot frees exactly the dead slots, each once. */
  lemma {:induction false} SweepToDead<E>(a: Arena<E>, live: set<nat>, n: nat, d: seq<nat>)
    requires n <= |a.slots| == |a.generations| && d == Dead(a.slots, live, n)
    ensures SweepTo(a, live, n) == Freed(a, d)
  {
    if n == 0 {
      NoneDead(a.slots, a.generations);
      assert a.free + [] == a.free;
    } else {
      var before := Dead(a.slots, live, n - 1);
      DeadNext(a.slots, live, n - 1);
      SweepToDead(a, live, n - 1, before);
      FreedOneMore(a, live, before, n - 1);
    }
  }

  /** A finished sweep, slot by slot, is the sweep. */
  lemma SweepToEnd<E>(a: Arena<E>, live: set<nat>)
    requires |a.slots| == |a.generations|
    ensures SweepTo(a, live, |a.slots|) == Swept(a, live)
  {
    SweepToDead(a, live, |a.slots|, Dead(a.slots, live, |a.slots|));
  }

  lemma NoneDead<E>(slots: seq<Option<E>>, generations: seq<nat>)
    ensures Cleared(slots, []) == slots && Bumped(generations, []) == generations
  {
  }

  /** The arena with the entry of an occupied slot replaced. */
  function Rewritten<E>(a: Arena<E>, i: nat, e: E): Arena<E> {
    if Occupied(a.slots, i) then a.(slots := a.slots[i := Some(e)]) else a
  }

  lemma {:induction false} PlacedOk<E>(a: Arena<E>, e: E)
    requires ArenaOk(a)
    ensures a.free != [] ==> NextIndex(a) < |a.slots|
    ensures !Occupied(a.slots, NextIndex(a)) && ArenaOk(Placed(a, e))
  {
    if a.free != [] {
      TakeFree(a.slots, a.free, []);
      assert a.free[|a.free| - 1] in a.free;
      var taken := [] + [NextIndex(a)];
      FillTaken(a.slots, a.free[..|a.free| - 1], taken, e);
      assert taken[1..] == [];
    }
  }

  lemma {:induction false} SweptOk<E>(a: Arena<E>, live: set<nat>)
    requires ArenaOk(a)
    ensures ArenaOk(Swept(a, live))
  {
    DeadNoDup(a.slots, live, |a.slots|);
    FreeMany(a.slots, a.free, Dead(a.slots, live, |a.slots|));
  }

  // --- every run of an arena ---

  /** What has been done to an arena since it was made. */
  datatype Ops<E> =
    | Made
    | Alloc(before: Ops<E>, e: E)
    | Write(before: Ops<E>, i: nat, e: E)
    | Sweep(before: Ops<E>, live: set<nat>)

  ghost function ArenaOf<E>(h: Ops<E>): Arena<E> {
    match h
    case Made => Arena([], [], [])
    case Alloc(b, e) => Placed(ArenaOf(b), e)
    case Write(b, i, e) => Rewritten(ArenaOf(b), i, e)
    case Sweep(b, live) => Swept(ArenaOf(b), live)
  }

  /** How often slot `i` has been freed. */
  ghost function Frees<E>(h: Ops<E>, i: nat): nat {
    match h
    case Made => 0
    case Alloc(b, _) => Frees(b, i)
    case Write(b, _, _) => Frees(b, i)
    case Sweep(b, live) => Frees(b, i) + (if Occupied(ArenaOf(b).slots, i) && i !in live then 1 else 0)
  }

  /** In every reachable state the free list is duplicate-free and is exactly the set of empty slots. */
  lemma {:induction false} ArenaStaysOk<E>(h: Ops<E>)
    ensures ArenaOk(ArenaOf(h))
  {
    match h
    case Made =>
    case Alloc(b, e) => ArenaStaysOk(b); PlacedOk(ArenaOf(b), e);
    case Write(b, i, e) => ArenaStaysOk(b);
    case Sweep(b, live) => ArenaStaysOk(b); SweptOk(ArenaOf(b), live);
  }

  lemma TablesParallel<E>(h: Ops<E>)
    ensures |ArenaOf(h).slots| == |ArenaOf(h).generations|
  {
    ArenaStaysOk(h);
  }

  /** The generation a slot has after `n` frees. */
  function GenerationAfter(n: nat): nat {
    if n == 0 then 0 else NextGeneration(GenerationAfter(n - 1))
  }

  lemma {:induction false} GenerationIsModular(n: nat)
    ensures GenerationAfter(n) == n % U32_MAX
  {
    if n > 0 {
      GenerationIsModular(n - 1);
      NextIsOneMoreFree(n - 1);
    }
  }

  lemma NextIsOneMoreFree(n: nat)
    ensures NextGeneration(n % U32_MAX) == (n + 1) % U32_MAX
  {
  }

  ghost function GenerationAt<E>(a: Arena<E>, i: nat): nat {
    if i < |a.generations| then a.generations[i] else 0
  }

  /** A generation `g` that stands for `n` frees. */
  ghost predicate Counts(g: nat, n: nat) {
    g == n % U32_MAX
  }

  /** In every reachable state a slot's generation is the number of times it was freed modulo 2^32-1. */
  lemma {:induction false} GenerationCountsFrees<E>(h: Ops<E>, i: nat)
    ensures Counts(GenerationAt(ArenaOf(h), i), Frees(h, i))
  {
    GenerationIsHistory(h, i);
    HistoryCountsFrees(h, i);
    GenerationIsModular(Frees(h, i));
  }

  /** A slot's generation read off the history: one step on for every sweep that frees the slot. */
  ghost function GenerationIn<E>(h: Ops<E>, i: nat): nat {
    match h
    case Made => 0
    case Alloc(b, e) => GenerationIn(b, i)
    case Write(b, k, e) => GenerationIn(b, i)
    case Sweep(b, live) =>
      if SweepFrees(ArenaOf(b), live, i) then NextGeneration(GenerationIn(b, i)) else GenerationIn(b, i)
  }

  predicate SweepFrees<E>(a: Arena<E>, live: set<nat>, i: nat) {
    Occupied(a.slots, i) && i !in live
  }

  lemma {:induction false} GenerationIsHistory<E>(h: Ops<E>, i: nat)
    ensures GenerationAt(ArenaOf(h), i) == GenerationIn(h, i)
  {
    match h
    case Made =>
    case Alloc(b, e) =>
      GenerationIsHistory(b, i);
      PlacedGeneration(ArenaOf(b), e, i);
    case Write(b, k, e) => GenerationIsHistory(b, i);
    case Sweep(b, live) =>
      GenerationIsHistory(b, i);
      TablesParallel(b);
      SweptGeneration(ArenaOf(b), live, i);
  }

  lemma {:induction false} HistoryCountsFrees<E>(h: Ops<E>, i: nat)
    ensures GenerationIn(h, i) == GenerationAfter(Frees(h, i))
  {
    match h
    case Made =>
    case Alloc(b, e) => HistoryCountsFrees(b, i);
    case Write(b, k, e) => HistoryCountsFrees(b, i);
    case Sweep(b, live) => HistoryCountsFrees(b, i);
  }

  lemma PlacedGeneration<E>(a: Arena<E>, e: E, i: nat)
    ensures GenerationAt(Placed(a, e), i) == GenerationAt(a, i) && |Placed(a, e).generations| >= |a.generations|
  {
  }

  lemma SweptGeneration<E>(a: Arena<E>, live: set<nat>, i: nat)
    requires |a.slots| == |a.generations|
    ensures |Swept(a, live).generations| == |a.generations|
    ensures GenerationAt(Swept(a, live), i) ==
      if Occupied(a.slots, i) && i !in live then NextGeneration(GenerationAt(a, i)) else GenerationAt(a, i)
  {
  }

  lemma SameGeneration(earlier: nat, later: nat)
    requires earlier <= later
    ensures earlier % U32_MAX == later % U32_MAX <==> (later - earlier) % U32_MAX == 0
  {
  }

  ghost predicate Apart(n: nat, later: nat) {
    n <= later && (later - n) % U32_MAX == 0
  }

  lemma CountsCollide(g: nat, n: nat, g': nat, n': nat)
    requires Counts(g, n) && Counts(g', n') && n <= n'
    ensures (g == g' <==> Apart(n, n')) && g != U32_MAX
  {
    SameGeneration(n, n');
  }

  /** Two lifetimes of a slot share a generation exactly when a multiple of 2^32-1 frees lies between them. */
  lemma {:induction false} GenerationsCollide<E>(h: Ops<E>, later: Ops<E>, i: nat)
    requires Frees(h, i) <= Frees(later, i)
    ensures GenerationAt(ArenaOf(h), i) == GenerationAt(ArenaOf(later), i) <==> Apart(Frees(h, i), Frees(later, i))
    ensures GenerationAt(ArenaOf(h), i) != U32_MAX
  {
    GenerationCountsFrees(h, i);
    GenerationCountsFrees(later, i);
    CountsCollide(GenerationAt(ArenaOf(h), i), Frees(h, i), GenerationAt(ArenaOf(later), i), Frees(later, i));
  }

  // --- byte totals ---

  function Total<E>(slots: seq<Option<E>>, size: E -> nat): nat {
    if slots == [] then 0
    else Total(slots[..|slots| - 1], size) + (if slots[|slots| - 1].Some? then size(slots[|slots| - 1].value) else 0)
  }

  function SizeAt<E>(s: Option<E>, size: E -> nat): nat {
    if s.Some? then size(s.value) else 0
  }

  lemma {:induction false} TotalUpdate<E>(slots: seq<Option<E>>, i: nat, x: Option<E>, size: E -> nat)
    requires i < |slots|
    ensures Total(slots[i := x], size) + SizeAt(slots[i], size) == Total(slots, size) + SizeAt(x, size)
  {
    var n := |slots| - 1;
    if i == n {
      assert slots[i := x][..n] == slots[..n];
    } else {
      TotalUpdate(slots[..n], i, x, size);
      assert slots[i := x][..n] == slots[..n][i := x];
    }
  }

  lemma TotalPush<E>(slots: seq<Option<E>>, x: Option<E>, size: E -> nat)
    ensures Total(slots + [x], size) == Total(slots, size) + SizeAt(x, size)
  {
    assert (slots + [x])[..|slots|] == slots;
  }

  /** Placing an entry adds its size. */
  lemma PlacedTotal<E>(a: Arena<E>, e: E, size: E -> nat)
    requires ArenaOk(a)
    ensures Total(Placed(a, e).slots, size) == Total(a.slots, size) + size(e)
  {
    PlacedOk(a, e);
    if a.free != [] {
      assert a.free[|a.free| - 1] in a.free;
      TotalUpdate(a.slots, NextIndex(a), Some(e), size);
    } else {
      TotalPush(a.slots, Some(e), size);
    }
  }

  /** The bytes a slot-by-slot sweep has freed below `n`. */
  ghost function FreedBytes<E>(a: Arena<E>, live: set<nat>, n: nat, size: E -> nat): nat
    requires n <= |a.slots| == |a.generations|
  {
    if n == 0 then 0
    else
      var last := if n - 1 in live then 0 else SizeAt(SweepTo(a, live, n - 1).slots[n - 1], size);
      FreedBytes(a, live, n - 1, size) + last
  }

  /** What a sweep frees and what it leaves add up to what there was. */
  lemma {:induction false} FreedAndLeft<E>(a: Arena<E>, live: set<nat>, n: nat, size: E -> nat)
    requires n <= |a.slots| == |a.generations|
    ensures FreedBytes(a, live, n, size) + Total(SweepTo(a, live, n).slots, size) == Total(a.slots, size)
  {
    if n > 0 {
      var before := SweepTo(a, live, n - 1);
      FreedAndLeft(a, live, n - 1, size);
      SweepOneTotal(before, live, n - 1, size);
      assert SweepTo(a, live, n) == SweepOne(before, live, n - 1);
    }
  }

  /** A finished slot-by-slot sweep: the arena it leaves and the bytes it accounts for. */
  lemma SweepFacts<E>(a: Arena<E>, live: set<nat>, size: E -> nat)
    requires |a.slots| == |a.generations|
    ensures SweepTo(a, live, |a.slots|) == Swept(a, live)
    ensures FreedBytes(a, live, |a.slots|, size) + Total(Swept(a, live).slots, size) == Total(a.slots, size)
  {
    SweepToEnd(a, live);
    FreedAndLeft(a, live, |a.slots|, size);
  }
}
