/** The multiset union of a table of lists, and how it reacts to changing one entry. */
module Gathering {
  ghost function Gather(outs: seq<seq<nat>>): multiset<nat> {
    if outs == [] then multiset{} else Gather(outs[..|outs| - 1]) + multiset(outs[|outs| - 1])
  }

  lemma {:induction false} GatherUpdate(outs: seq<seq<nat>>, i: nat, x: seq<nat>)
    requires i < |outs|
    ensures Gather(outs[i := x]) + multiset(outs[i]) == Gather(outs) + multiset(x)
  {
    var n := |outs| - 1;
    var updated := outs[i := x];
    if i == n {
      assert updated[..n] == outs[..n];
    } else {
      GatherUpdate(outs[..n], i, x);
      assert updated[..n] == outs[..n][i := x];
      var was, now, last := Gather(outs[..n]), Gather(updated[..n]), multiset(outs[n]);
      assert Gather(updated) == now + last;
      assert (now + last) + multiset(outs[i]) == (now + multiset(outs[i])) + last;
      assert (was + last) + multiset(x) == (was + multiset(x)) + last;
    }
  }

  lemma {:induction false} GatherHas(outs: seq<seq<nat>>, i: nat, g: nat)
    requires i < |outs| && g in outs[i]
    ensures g in Gather(outs)
  {
    if i < |outs| - 1 {
      assert outs[..|outs| - 1][i] == outs[i];
      GatherHas(outs[..|outs| - 1], i, g);
    } else {
      assert g in multiset(outs[|outs| - 1]);
    }
  }

  lemma {:induction false} GatherFrom(outs: seq<seq<nat>>, g: nat) returns (i: nat)
    requires g in Gather(outs)
    ensures i < |outs| && g in outs[i]
  {
    var n := |outs| - 1;
    if g in outs[n] {
      i := n;
    } else {
      assert g !in multiset(outs[n]);
      i := GatherFrom(outs[..n], g);
    }
  }

  /** Appending an entry adds its elements. */
  lemma GatherPush(outs: seq<seq<nat>>, x: seq<nat>)
    ensures Gather(outs + [x]) == Gather(outs) + multiset(x)
  {
    assert (outs + [x])[..|outs|] == outs;
  }

  lemma {:induction false} GatherEmpty(outs: seq<seq<nat>>)
    requires forall i :: 0 <= i < |outs| ==> outs[i] == []
    ensures Gather(outs) == multiset{}
  {
    if outs != [] { GatherEmpty(outs[..|outs| - 1]); }
  }
}
