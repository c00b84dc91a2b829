/**
 `is_subtype` (`src/canon/registry.rs`): a walk up the declared-supertype chain. Validated modules
 declare supertypes before their subtypes; a host-built group may declare them in any order, also in
 a cycle, and then the walk need not end. When it does end is characterised exactly.
 */
module Subtyping {
  import opened Options
  import opened FreeLists
  import opened TypeForms
  import opened RegistryState
  import opened RegistrySteps
  import opened RegistryRuns

  /** `sup` is reached from `sub` by following declared supertypes zero or more times. */
  ghost predicate IsDeclaredSubtype(r: Reg, sub: TypeId, sup: TypeId) {
    exists n: nat :: Above(r, sub, n) == Some(sup)
  }

  /** The chain above `t` comes to an end. */
  ghost predicate Ends(r: Reg, t: TypeId) {
    exists n: nat :: Above(r, t, n) == None
  }

  /** The walk of `is_subtype(sub, sup)` stops. */
  ghost predicate WalkStops(r: Reg, sub: TypeId, sup: TypeId) {
    Ends(r, sub) || IsDeclaredSubtype(r, sub, sup)
  }

  // --- positions inside one key ---

  /** The sibling a position's supertype names, if it names one. */
  function SiblingSuper(key: CGroup, p: nat): Option<nat> {
    if p < |key| && key[p].supertype.Some? && key[p].supertype.value.Rel?
    then Some(key[p].supertype.value.pos) else None
  }

  function SiblingAbove(key: CGroup, p: nat, n: nat): Option<nat> {
    if n == 0 then Some(p)
    else
      var q := SiblingAbove(key, p, n - 1);
      if q.Some? then SiblingSuper(key, q.value) else None
  }

  /** No member is its own indirect supertype: following siblings leaves the group within its length. */
  predicate NoSuperCycle(key: CGroup) {
    forall p :: 0 <= p < |key| ==> SiblingAbove(key, p, |key|).None?
  }

  lemma {:induction false} SiblingAboveFront(key: CGroup, p: nat, n: nat)
    requires n > 0
    ensures SiblingAbove(key, p, n) ==
      if SiblingSuper(key, p).Some? then SiblingAbove(key, SiblingSuper(key, p).value, n - 1) else None
  {
    if n > 1 { SiblingAboveFront(key, p, n - 1); }
  }

  lemma {:induction false} SiblingAboveAdds(key: CGroup, p: nat, m: nat, n: nat)
    ensures SiblingAbove(key, p, m + n) ==
      if SiblingAbove(key, p, m).Some? then SiblingAbove(key, SiblingAbove(key, p, m).value, n) else None
    decreases n
  {
    if n > 0 { SiblingAboveAdds(key, p, m, n - 1); }
  }

  lemma {:induction false} AboveFront(r: Reg, t: TypeId, n: nat)
    requires n > 0
    ensures Above(r, t, n) == if SuperOf(r, t).Some? then Above(r, SuperOf(r, t).value, n - 1) else None
  {
    if n > 1 { AboveFront(r, t, n - 1); }
  }

  // --- a walk of distinct positions is short ---

  /** Distinct numbers below `n` are at most `n` many. */
  lemma {:induction false} Pigeonhole(s: seq<nat>, n: nat)
    requires NoDup(s) && forall i :: 0 <= i < |s| ==> s[i] < n
    ensures |s| <= n
  {
    assert |s| == 0 || s[0] < n;
    if n == 0 {
    } else if k :| 0 <= k < |s| && s[k] == n - 1 {
      var t := s[..k] + s[k + 1..];
      Pigeonhole(t, n - 1);
    } else {
      Pigeonhole(s, n - 1);
    }
  }

  /** The first `n` positions of a walk that is still inside the group. */
  function Walked(key: CGroup, p: nat, n: nat): (s: seq<nat>)
    requires forall i :: 0 <= i < n ==> SiblingAbove(key, p, i).Some?
    ensures |s| == n && forall i :: 0 <= i < n ==> s[i] == SiblingAbove(key, p, i).value
  {
    seq(n, i requires 0 <= i < n => SiblingAbove(key, p, i).value)
  }

  lemma {:induction false} StaysInside(key: CGroup, p: nat, i: nat, n: nat)
    requires i <= n && SiblingAbove(key, p, n).Some?
    ensures SiblingAbove(key, p, i).Some?
  {
    SiblingAboveAdds(key, p, i, n - i);
  }

  /** A walk that leaves the group, leaves it within as many steps as the group has members. */
  lemma {:induction false} LeavesSoonOrNever(key: CGroup, p: nat, n: nat)
    requires p < |key| && SiblingAbove(key, p, n).None?
    requires forall q :: 0 <= q < |key| && SiblingSuper(key, q).Some? ==> SiblingSuper(key, q).value < |key|
    ensures SiblingAbove(key, p, |key|).None?
  {
    if SiblingAbove(key, p, |key|).Some? {
      var m := FirstOutside(key, p, n);
      if m <= |key| { StaysInside(key, p, m, |key|); }
      forall i | 0 <= i < m ensures SiblingAbove(key, p, i).Some? { StaysInside(key, p, i, m - 1); }
      var s := Walked(key, p, m);
      forall i | 0 <= i < m ensures s[i] < |key| { SiblingInRange(key, p, i); }
      forall i, j | 0 <= i < j < m ensures s[i] != s[j] {
        if s[i] == s[j] {
          SiblingAboveAdds(key, p, j, m - j);
          SiblingAboveAdds(key, p, i, m - j);
          StaysInside(key, p, i + (m - j), m - 1);
        }
      }
      Pigeonhole(s, |key|);
    }
  }

  lemma {:induction false} FirstOutside(key: CGroup, p: nat, n: nat) returns (m: nat)
    requires SiblingAbove(key, p, n).None?
    ensures 0 < m <= n && SiblingAbove(key, p, m).None? && SiblingAbove(key, p, m - 1).Some?
  {
    if SiblingAbove(key, p, n - 1).Some? { m := n; } else { m := FirstOutside(key, p, n - 1); }
  }

  lemma {:induction false} SiblingInRange(key: CGroup, p: nat, n: nat)
    requires p < |key| && SiblingAbove(key, p, n).Some?
    requires forall q :: 0 <= q < |key| && SiblingSuper(key, q).Some? ==> SiblingSuper(key, q).value < |key|
    ensures SiblingAbove(key, p, n).value < |key|
  {
    if n > 0 { SiblingInRange(key, p, n - 1); }
  }

  // --- when the walk ends ---

  /** A member's stored supertype is what its key says, sibling positions resolved. */
  lemma {:induction false} SuperFromKey(r: Reg, g: GroupId, p: nat)
    requires Live(r.groups, g) && GroupOk(r, g) && p < |r.groups[g].value.key|
    ensures var rec := r.groups[g].value;
      && |rec.members| == |rec.key|
      && (rec.key[p].supertype.None? ==> SuperOf(r, rec.members[p]) == None)
      && (SiblingSuper(rec.key, p).Some? ==>
            SiblingSuper(rec.key, p).value < |rec.members| &&
            SuperOf(r, rec.members[p]) == Some(rec.members[SiblingSuper(rec.key, p).value]))
      && (rec.key[p].supertype.Some? && rec.key[p].supertype.value.Canon? ==>
            SuperOf(r, rec.members[p]) == Some(rec.key[p].supertype.value.id) &&
            HasEdge(r.groups, g, rec.key[p].supertype.value.id))
  {
    var rec := r.groups[g].value;
    if rec.key[p].supertype.Some? {
      var sup := rec.key[p].supertype.value;
      assert sup in TypeRefs(rec.key[p]);
      if sup.Canon? { EdgeIdsHas(rec.key, p, sup.id); }
    }
  }

  /** A place in the registry: position `p` of the live group `g`. */
  ghost predicate Place(s: Sys, g: GroupId, p: nat) {
    && Live(s.reg.groups, g) && g in s.birth
    && p < |s.reg.groups[g].value.key| == |s.reg.groups[g].value.members|
  }

  /** The place of a member's declared supertype: the sibling it names, or a place in an older group. */
  lemma {:induction false} SuperPlace(h: History, g: GroupId, p: nat) returns (g': GroupId, p': nat)
    requires Run(h) && Place(Now(h), g, p)
    requires Now(h).reg.groups[g].value.key[p].supertype.Some?
    ensures Place(Now(h), g', p')
    ensures var groups := Now(h).reg.groups;
      && SuperOf(Now(h).reg, groups[g].value.members[p]) == Some(groups[g'].value.members[p'])
      && (SiblingSuper(groups[g].value.key, p).Some? ==> g' == g && p' == SiblingSuper(groups[g].value.key, p).value)
      && (SiblingSuper(groups[g].value.key, p).None? ==> Now(h).birth[g'] < Now(h).birth[g])
  {
    RunKeepsInvariant(h);
    var s := Now(h);
    assert GroupOk(s.reg, g);
    SuperFromKey(s.reg, g, p);
    var key := s.reg.groups[g].value.key;
    if SiblingSuper(key, p).Some? {
      g', p' := g, SiblingSuper(key, p).value;
    } else {
      var u := key[p].supertype.value.id;
      var k, q := KeyOf(s.reg, s.meaning, u);
      g', p' := s.reg.owner[u].value, q;
    }
  }

  /** From a member whose sibling walk leaves the group in `n` steps, the whole chain ends. */
  lemma {:induction false} ChainEnds(h: History, g: GroupId, p: nat, n: nat)
    requires Run(h) && Place(Now(h), g, p)
    requires SiblingAbove(Now(h).reg.groups[g].value.key, p, n).None?
    requires forall g: nat :: Live(Now(h).reg.groups, g) ==> NoSuperCycle(Now(h).reg.groups[g].value.key)
    ensures Ends(Now(h).reg, Now(h).reg.groups[g].value.members[p])
    decreases Now(h).birth[g], n
  {
    var r := Now(h).reg;
    var rec := r.groups[g].value;
    var t := rec.members[p];
    SiblingAboveFront(rec.key, p, n);
    if rec.key[p].supertype.None? {
      NoSuperEnds(h, g, p);
    } else {
      var g', p' := SuperPlace(h, g, p);
      if SiblingSuper(rec.key, p).Some? {
        ChainEnds(h, g', p', n - 1);
      } else {
        assert NoSuperCycle(r.groups[g'].value.key);
        ChainEnds(h, g', p', |r.groups[g'].value.key|);
      }
      var m: nat :| Above(r, SuperOf(r, t).value, m) == None;
      AboveFront(r, t, m + 1);
    }
  }

  lemma {:induction false} NoSuperEnds(h: History, g: GroupId, p: nat)
    requires Run(h) && Place(Now(h), g, p) && Now(h).reg.groups[g].value.key[p].supertype.None?
    ensures Ends(Now(h).reg, Now(h).reg.groups[g].value.members[p])
  {
    RunKeepsInvariant(h);
    assert GroupOk(Now(h).reg, g);
    SuperFromKey(Now(h).reg, g, p);
    assert Above(Now(h).reg, Now(h).reg.groups[g].value.members[p], 1) == None;
  }

  /** Members whose declared supertypes are siblings have those siblings' ids as supertypes. */
  ghost predicate SiblingsStored(r: Reg, key: CGroup, members: seq<TypeId>) {
    && |members| == |key|
    && (forall q {:trigger SiblingSuper(key, q)} :: 0 <= q < |key| && SiblingSuper(key, q).Some? ==>
          SiblingSuper(key, q).value < |key| && SuperOf(r, members[q]) == Some(members[SiblingSuper(key, q).value]))
  }

  lemma {:induction false} StoredSiblings(r: Reg, g: GroupId)
    requires Live(r.groups, g) && GroupOk(r, g)
    ensures SiblingsStored(r, r.groups[g].value.key, r.groups[g].value.members)
  {
    var key, members := r.groups[g].value.key, r.groups[g].value.members;
    forall q {:trigger SiblingSuper(key, q)} | 0 <= q < |key| && SiblingSuper(key, q).Some?
      ensures SiblingSuper(key, q).value < |key| && SuperOf(r, members[q]) == Some(members[SiblingSuper(key, q).value])
    {
      SuperFromKey(r, g, q);
    }
  }

  /** Inside a supertype cycle the chain only ever meets siblings. */
  lemma {:induction false} WalkStaysInside(r: Reg, key: CGroup, members: seq<TypeId>, p: nat, n: nat)
    requires SiblingsStored(r, key, members) && p < |key| && SiblingAbove(key, p, n).Some?
    ensures SiblingAbove(key, p, n).value < |key|
    ensures Above(r, members[p], n) == Some(members[SiblingAbove(key, p, n).value])
  {
    if n > 0 {
      WalkStaysInside(r, key, members, p, n - 1);
    }
  }

  lemma {:induction false} ChainStaysInside(r: Reg, g: GroupId, p: nat, n: nat)
    requires Live(r.groups, g) && GroupOk(r, g) && p < |r.groups[g].value.key|
    requires SiblingAbove(r.groups[g].value.key, p, n).Some?
    ensures var rec := r.groups[g].value;
      var q := SiblingAbove(rec.key, p, n).value;
      q < |rec.members| == |rec.key| && Above(r, rec.members[p], n) == Some(rec.members[q])
  {
    StoredSiblings(r, g);
    WalkStaysInside(r, r.groups[g].value.key, r.groups[g].value.members, p, n);
  }

  lemma {:induction false} SiblingsInRange(r: Reg, g: GroupId, q: nat)
    requires Live(r.groups, g) && GroupOk(r, g) && q < |r.groups[g].value.key|
    requires SiblingSuper(r.groups[g].value.key, q).Some?
    ensures SiblingSuper(r.groups[g].value.key, q).value < |r.groups[g].value.key|
  {
    SuperFromKey(r, g, q);
  }

  /** A cycle among a group's declared supertypes makes the chain above its members endless. */
  lemma {:induction false} CycleNeverEnds(r: Reg, g: GroupId, p: nat, n: nat)
    requires Live(r.groups, g) && GroupOk(r, g) && p < |r.groups[g].value.key|
    requires SiblingAbove(r.groups[g].value.key, p, |r.groups[g].value.key|).Some?
    ensures Above(r, r.groups[g].value.members[p], n).Some?
  {
    var key := r.groups[g].value.key;
    forall q | 0 <= q < |key| && SiblingSuper(key, q).Some? ensures SiblingSuper(key, q).value < |key| {
      SiblingsInRange(r, g, q);
    }
    if SiblingAbove(key, p, n).None? { LeavesSoonOrNever(key, p, n); }
    ChainStaysInside(r, g, p, n);
  }

  /**
   In every reachable state, the supertype chain of every live type ends if and only if no live
   group declares a cycle of sibling supertypes.
   */
  lemma {:induction false} ChainsEndIffNoCycle(h: History)
    requires Run(h)
    ensures var r := Now(h).reg;
      (forall t: nat :: Owned(r.owner, t) ==> Ends(r, t))
      <==> (forall g: nat :: Live(r.groups, g) ==> NoSuperCycle(r.groups[g].value.key))
  {
    RunKeepsInvariant(h);
    var s := Now(h);
    var r := s.reg;
    if forall g: nat :: Live(r.groups, g) ==> NoSuperCycle(r.groups[g].value.key) {
      forall t: nat | Owned(r.owner, t) ensures Ends(r, t) {
        var key, p := KeyOf(r, s.meaning, t);
        ChainEnds(h, r.owner[t].value, p, |key|);
      }
    }
    if forall t: nat :: Owned(r.owner, t) ==> Ends(r, t) {
      forall g: nat | Live(r.groups, g) ensures NoSuperCycle(r.groups[g].value.key) {
        assert GroupOk(r, g);
        var rec := r.groups[g].value;
        forall p | 0 <= p < |rec.key| ensures SiblingAbove(rec.key, p, |rec.key|).None? {
          assert Owned(r.owner, rec.members[p]);
          var n: nat :| Above(r, rec.members[p], n) == None;
          if SiblingAbove(rec.key, p, |rec.key|).Some? { CycleNeverEnds(r, g, p, n); }
        }
      }
    }
  }

  /** Validated modules declare every supertype before its subtypes, so their groups have no cycle. */
  lemma {:induction false} EarlierSupertypesNoCycle(key: CGroup)
    requires forall p :: 0 <= p < |key| && SiblingSuper(key, p).Some? ==> SiblingSuper(key, p).value < p
    ensures NoSuperCycle(key)
  {
    forall p | 0 <= p < |key| ensures SiblingAbove(key, p, |key|).None? {
      if SiblingAbove(key, p, |key|).Some? { Descends(key, p, |key|); }
    }
  }

  lemma {:induction false} Descends(key: CGroup, p: nat, n: nat)
    requires p < |key| && SiblingAbove(key, p, n).Some?
    requires forall q :: 0 <= q < |key| && SiblingSuper(key, q).Some? ==> SiblingSuper(key, q).value < q
    ensures SiblingAbove(key, p, n).value + n <= p
  {
    if n > 0 { Descends(key, p, n - 1); }
  }

  /** A walk stops for every target exactly when the chain ends: an endless chain misses some target. */
  lemma {:induction false} StopsForAllIffEnds(r: Reg, sub: TypeId)
    requires SupersLive(r) && Owned(r.owner, sub)
    ensures (forall sup: nat :: WalkStops(r, sub, sup)) <==> Ends(r, sub)
  {
    if forall sup: nat :: WalkStops(r, sub, sup) {
      var sup := |r.owner|;
      assert WalkStops(r, sub, sup);
      if n: nat :| Above(r, sub, n) == Some(sup) {
        AboveIsLive(r, sub, n);
      }
    }
  }

  /**
   A host-built group whose only member, a non-final empty struct, declares itself as supertype is
   interned, and asking whether that type is a subtype of any other type never stops.
   */
  lemma {:induction false} SelfSupertypeNeverStops() returns (h: History, t: TypeId)
    ensures Run(h) && Owned(Now(h).reg.owner, t)
    ensures forall sup: nat :: sup != t ==> !WalkStops(Now(h).reg, t, sup)
  {
    h, t := Then(Start, LoopSystem()), 0;
    LoopIsAdded();
    LoopTypes();
    LoopNeverStops(LoopSystem().reg);
  }

  function LoopKey(): CGroup {
    [CType(NonFinal, Some(Rel(0)), Struct([]))]
  }

  lemma {:induction false} LoopKeyFacts()
    ensures RefsInRange(LoopKey()[0], 1) && EdgeIds(LoopKey()) == []
  {
    var refs := TypeRefs(LoopKey()[0]);
    assert refs == [Rel(0)] && refs[1..] == [] && LoopKey()[1..] == [];
    assert CanonIds(refs) == [];
  }

  /** The registry after the self-supertype group is interned into an empty one. */
  ghost function LoopSystem(): Sys {
    LoopKeyFacts();
    var key := LoopKey();
    var reg := Reg([Some(StoredType(key[0], [0]))], [Some(0)], [], [Some(GroupRecord(key, [0], 1))], [], map[key := 0]);
    Sys(reg, EMPTY.held + multiset{0}, [], Extended(EMPTY.meaning, key, [0]), EMPTY.birth[0 := 0], 1)
  }

  lemma {:induction false} LoopGroups()
    ensures AddedGroups(EMPTY.reg, LoopKey(), 0, [0], LoopSystem().reg) && KeyOk(EMPTY.reg, LoopKey())
  {
    LoopKeyFacts();
    assert |LoopKey()| == 1;
  }

  lemma {:induction false} OneTypeFilled(t: CType<CanonRef>)
    requires RefsInRange(t, 1)
    ensures TypesFilled([], [], [t], 0, [0], [Some(StoredType(t, [0]))], [Some(0)])
  {
  }

  lemma LoopSuper(t: CType<CanonRef>)
    requires RefsInRange(t, 1) && t.supertype == Some(Rel(0))
    ensures StoredType(t, [0]).supertype == Some(0)
  {
  }

  lemma {:induction false} LoopTypes()
    ensures AddedTypes(EMPTY.reg, LoopKey(), 0, [0], LoopSystem().reg) && FreeListsOk(LoopSystem().reg)
    ensures SuperOf(LoopSystem().reg, 0) == Some(0)
  {
    LoopKeyFacts();
    OneTypeFilled(LoopKey()[0]);
    LoopSuper(LoopKey()[0]);
    assert LoopKey() == [LoopKey()[0]];
  }

  lemma {:induction false} LoopIsAdded()
    ensures Step(EMPTY, LoopSystem())
  {
    LoopGroups();
    LoopTypes();
    assert Adds(EMPTY, LoopKey(), 0, [0], LoopSystem());
  }

  lemma {:induction false} LoopNeverStops(r: Reg)
    requires SuperOf(r, 0) == Some(0)
    ensures forall sup: nat :: sup != 0 ==> !WalkStops(r, 0, sup)
  {
    forall n: nat ensures Above(r, 0, n) == Some(0) { LoopsAtZero(r, n); }
  }

  lemma {:induction false} LoopsAtZero(r: Reg, n: nat)
    requires SuperOf(r, 0) == Some(0)
    ensures Above(r, 0, n) == Some(0)
  {
    if n > 0 { LoopsAtZero(r, n - 1); }
  }
}
