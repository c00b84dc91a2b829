/** Slot tables with a free list, the shape shared by the type registry and the three managed arenas. */
module FreeLists {
  import opened Options

  ghost predicate NoDup<T(!new)>(s: seq<T>) {
    forall i, j :: 0 <= i < j < |s| ==> s[i] != s[j]
  }

  /** The free list holds every empty slot exactly once, except those in `taken`, popped but not yet filled. */
  ghost predicate FreeExcept<T>(slots: seq<Option<T>>, free: seq<nat>, taken: seq<nat>) {
    && NoDup(free)
    && NoDup(taken)
    && (forall i :: i in free ==> i !in taken)
    && (forall i: nat :: i in free || i in taken <==> i < |slots| && slots[i].None?)
  }

  ghost predicate FreeOk<T>(slots: seq<Option<T>>, free: seq<nat>) {
    FreeExcept(slots, free, [])
  }

  /** `slots` with every index in `ids` emptied. */
  function Cleared<T>(slots: seq<Option<T>>, ids: seq<nat>): (r: seq<Option<T>>)
    ensures |r| == |slots|
    ensures forall i :: 0 <= i < |r| ==> r[i] == if i in ids then None else slots[i]
  {
    seq(|slots|, i requires 0 <= i < |slots| => if i in ids then None else slots[i])
  }

  lemma NoDupConcat<T(!new)>(s: seq<T>, t: seq<T>)
    requires NoDup(s) && NoDup(t) && forall x :: x in s ==> x !in t
    ensures NoDup(s + t)
  {
    var u := s + t;
    forall i, j | 0 <= i < j < |u| ensures u[i] != u[j] {
      if i < |s| <= j { assert s[i] in s && t[j - |s|] in t; }
    }
  }

  /** Freeing distinct occupied slots, each pushed as it is emptied, keeps the free list exact. */
  lemma FreeMany<T>(slots: seq<Option<T>>, free: seq<nat>, ids: seq<nat>)
    requires FreeOk(slots, free) && NoDup(ids)
    requires forall i :: i in ids ==> i < |slots| && slots[i].Some?
    ensures FreeOk(Cleared(slots, ids), free + ids)
  {
    NoDupConcat(free, ids);
  }

  lemma TakeFree<T>(slots: seq<Option<T>>, free: seq<nat>, taken: seq<nat>)
    requires FreeExcept(slots, free, taken) && free != []
    ensures FreeExcept(slots, free[..|free| - 1], taken + [free[|free| - 1]])
  {
    var x := free[|free| - 1];
    assert free == free[..|free| - 1] + [x];
    assert x in free;
    NoDupConcat(taken, [x]);
  }

  lemma TakeFresh<T>(slots: seq<Option<T>>, free: seq<nat>, taken: seq<nat>)
    requires FreeExcept(slots, free, taken) && free == []
    ensures FreeExcept(slots + [None], free, taken + [|slots|])
  {
    assert |slots| !in taken;
    NoDupConcat(taken, [|slots|]);
  }

  lemma FillTaken<T>(slots: seq<Option<T>>, free: seq<nat>, taken: seq<nat>, x: T)
    requires FreeExcept(slots, free, taken) && taken != []
    ensures taken[0] < |slots|
    ensures FreeExcept(slots[taken[0] := Some(x)], free, taken[1..])
  {
    assert taken[0] in taken;
    assert taken == [taken[0]] + taken[1..];
  }
}
