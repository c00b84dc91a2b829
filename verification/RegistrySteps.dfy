/**
 The elementary state changes of the registry, as functions on its state, each shown to keep the
 invariant: moving one reference count, reclaiming one group, and adding one group.
 */
module RegistrySteps {
  import opened Options
  import opened FreeLists
  import opened Gathering
  import opened TypeForms
  import opened RegistryState

  // --- moving a reference count ---

  function Recounted(r: Reg, g: GroupId, n: nat): Reg
    requires Live(r.groups, g)
  {
    r.(groups := r.groups[g := Some(r.groups[g].value.(refcount := n))])
  }

  lemma RecountedSlots(r: Reg, g: GroupId, n: nat)
    requires Live(r.groups, g) && SlotsOk(r)
    ensures SlotsOk(Recounted(r, g, n))
  {
    var s := Recounted(r, g, n);
    forall h: nat | Live(s.groups, h) ensures GroupOk(s, h) {
      assert GroupOk(r, h);
    }
  }

  lemma RecountedRest(r: Reg, g: GroupId, n: nat, meaning: map<TypeId, XRef>, birth: map<GroupId, nat>, clock: nat)
    requires Live(r.groups, g)
    requires FreeListsOk(r) && InternedOk(r.groups, r.interned)
    requires EdgesOk(r.groups, r.owner, birth, clock) && MeaningOk(r, meaning)
    ensures var s := Recounted(r, g, n);
      && FreeListsOk(s) && InternedOk(s.groups, s.interned)
      && EdgesOk(s.groups, s.owner, birth, clock) && MeaningOk(s, meaning)
  {
    var s := Recounted(r, g, n);
    forall h: nat, id: nat | HasEdge(s.groups, h, id) ensures HasEdge(r.groups, h, id) {}
  }

  lemma RecountedIncoming(r: Reg, g: GroupId, n: nat)
    requires Live(r.groups, g)
    ensures Incoming(Recounted(r, g, n).groups, r.owner) == Incoming(r.groups, r.owner)
  {
    var s := Recounted(r, g, n);
    assert Outs(s.groups, r.owner) == Outs(r.groups, r.owner);
  }

  // --- reclaiming a group ---

  /** The state after the group `g` is reclaimed: its slots emptied and recycled, its key forgotten. */
  function Reclaimed(r: Reg, g: GroupId): Reg
    requires Live(r.groups, g)
  {
    var rec := r.groups[g].value;
    Reg(Cleared(r.types, rec.members), Cleared(r.owner, rec.members), r.freeTypes + rec.members,
        r.groups[g := None], r.freeGroups + [g], r.interned - {rec.key})
  }

  lemma ReclaimedSlots(r: Reg, g: GroupId)
    requires Live(r.groups, g) && SlotsOk(r)
    ensures SlotsOk(Reclaimed(r, g))
  {
    var s := Reclaimed(r, g);
    var members := r.groups[g].value.members;
    assert GroupOk(r, g);
    forall h: nat | Live(s.groups, h) ensures GroupOk(s, h) {
      assert GroupOk(r, h);
      var rec := r.groups[h].value;
      forall p | 0 <= p < |rec.members| ensures rec.members[p] !in members {
        assert r.owner[rec.members[p]].value == h;
      }
    }
    forall t: nat | Owned(s.owner, t) ensures r.owner[t].value != g {
      assert t !in members;
    }
  }

  lemma ReclaimedFree(r: Reg, g: GroupId)
    requires Live(r.groups, g) && SlotsOk(r) && FreeListsOk(r)
    ensures FreeListsOk(Reclaimed(r, g))
  {
    assert GroupOk(r, g);
    FreeMany(r.types, r.freeTypes, r.groups[g].value.members);
    FreeMany(r.groups, r.freeGroups, [g]);
    assert Cleared(r.groups, [g]) == r.groups[g := None];
  }

  lemma ReclaimedInterned(r: Reg, g: GroupId)
    requires Live(r.groups, g) && InternedOk(r.groups, r.interned)
    ensures InternedOk(Reclaimed(r, g).groups, Reclaimed(r, g).interned)
    ensures |Reclaimed(r, g).interned| < |r.interned|
  {
    var key := r.groups[g].value.key;
    assert (r.interned - {key}).Keys == r.interned.Keys - {key};
  }

  /** No live key mentions one of `members`. */
  ghost predicate Unreferenced(groups: seq<Option<GroupRecord>>, owner: seq<Option<GroupId>>, members: seq<TypeId>) {
    forall h: nat, id: nat :: HasEdge(groups, h, id) ==> Owned(owner, id) && id !in members
  }

  lemma NoIncomingUnreferenced(r: Reg, g: GroupId, birth: map<GroupId, nat>, clock: nat)
    requires Live(r.groups, g) && GroupOk(r, g) && EdgesOk(r.groups, r.owner, birth, clock)
    requires Incoming(r.groups, r.owner)[g] == 0
    ensures Unreferenced(r.groups, r.owner, r.groups[g].value.members)
  {
    var members := r.groups[g].value.members;
    forall h: nat, id: nat | HasEdge(r.groups, h, id)
      ensures Owned(r.owner, id) && id !in members
    {
      if id in members {
        TargetsHas(EdgeIds(r.groups[h].value.key), r.owner, id);
        var outs := Outs(r.groups, r.owner);
        assert g in outs[h];
        GatherHas(outs, h, g);
      }
    }
  }

  lemma ReclaimedEdges(r: Reg, g: GroupId, birth: map<GroupId, nat>, clock: nat)
    requires Live(r.groups, g) && EdgesOk(r.groups, r.owner, birth, clock)
    requires Unreferenced(r.groups, r.owner, r.groups[g].value.members)
    ensures EdgesOk(Reclaimed(r, g).groups, Reclaimed(r, g).owner, birth, clock)
  {
    var s := Reclaimed(r, g);
    forall h: nat, id: nat | HasEdge(s.groups, h, id)
      ensures Owned(s.owner, id) && s.owner[id].value in birth && birth[s.owner[id].value] < birth[h]
    {
      assert HasEdge(r.groups, h, id);
    }
  }

  lemma ReclaimedIncoming(r: Reg, g: GroupId)
    requires Live(r.groups, g) && Unreferenced(r.groups, r.owner, r.groups[g].value.members)
    ensures Incoming(Reclaimed(r, g).groups, Reclaimed(r, g).owner) + multiset(Out(r.groups[g], r.owner))
         == Incoming(r.groups, r.owner)
  {
    var s := Reclaimed(r, g);
    forall h: nat | h < |r.groups| ensures Outs(s.groups, s.owner)[h] == Outs(r.groups, r.owner)[g := []][h] {
      if h != g && r.groups[h].Some? {
        var ids := EdgeIds(r.groups[h].value.key);
        assert forall id :: id in ids ==> HasEdge(r.groups, h, id);
        TargetsAgree(ids, s.owner, r.owner);
      }
    }
    assert Outs(s.groups, s.owner) == Outs(r.groups, r.owner)[g := []];
    var none: seq<nat> := [];
    GatherUpdate(Outs(r.groups, r.owner), g, none);
  }

  /** The decrements a reclaimed group owes its targets move onto the worklist, so counts still balance. */
  lemma ReclaimedCount(r: Reg, g: GroupId, held: multiset<GroupId>, pending: multiset<GroupId>)
    requires Live(r.groups, g) && Unreferenced(r.groups, r.owner, r.groups[g].value.members)
    requires CountOk(r.groups, r.owner, held, pending + multiset{g}) && r.groups[g].value.refcount == 1
    requires forall h :: h in Out(r.groups[g], r.owner) ==> h != g && Live(r.groups, h)
    ensures CountOk(Reclaimed(r, g).groups, Reclaimed(r, g).owner, held, pending + multiset(Out(r.groups[g], r.owner)))
  {
    var s := Reclaimed(r, g);
    var out := Out(r.groups[g], r.owner);
    var owed: multiset<GroupId> := multiset(out);
    var was := Incoming(r.groups, r.owner);
    ReclaimedIncoming(r, g);
    var now := Incoming(s.groups, s.owner);
    assert now + owed == was;
    assert (pending + multiset{g})[g] == pending[g] + 1;
    forall h: nat
      ensures if Live(s.groups, h) then 1 <= s.groups[h].value.refcount == held[h] + (pending + owed)[h] + now[h]
              else held[h] == 0 && (pending + owed)[h] == 0
    {
      assert (now + owed)[h] == was[h];
      if h != g { assert (pending + multiset{g})[h] == pending[h]; }
      if h !in out { assert owed[h] == 0; }
    }
  }

  /** The structures of the ids that stay live. */
  ghost function Restricted(meaning: map<TypeId, XRef>, members: seq<TypeId>): map<TypeId, XRef> {
    map t | t in meaning && t !in members :: meaning[t]
  }

  lemma ReclaimedMeaning(r: Reg, g: GroupId, meaning: map<TypeId, XRef>)
    requires Live(r.groups, g) && SlotsOk(r) && MeaningOk(r, meaning)
    requires Unreferenced(r.groups, r.owner, r.groups[g].value.members)
    ensures MeaningOk(Reclaimed(r, g), Restricted(meaning, r.groups[g].value.members))
  {
    var s := Reclaimed(r, g);
    var members := r.groups[g].value.members;
    var m := Restricted(meaning, members);
    assert GroupOk(r, g);
    forall h: nat | Live(s.groups, h) ensures MeaningAt(s.groups[h].value, m) {
      assert GroupOk(r, h);
      var rec := r.groups[h].value;
      forall p | 0 <= p < |rec.members| ensures rec.members[p] !in members {
        assert r.owner[rec.members[p]].value == h;
      }
      assert forall id :: id in EdgeIds(rec.key) ==> HasEdge(r.groups, h, id);
      assert MeaningAt(rec, meaning);
      ExpandAgree(rec.key, meaning, m);
    }
  }

  /** One round of the reclaim worklist that empties a group keeps the whole invariant. */
  lemma ReclaimedKeeps(
    r: Reg, g: GroupId, held: multiset<GroupId>, pending: multiset<GroupId>,
    meaning: map<TypeId, XRef>, birth: map<GroupId, nat>, clock: nat)
    requires Live(r.groups, g) && r.groups[g].value.refcount == 1
    requires Inv(r, held, pending + multiset{g}, meaning, birth, clock)
    ensures Inv(Reclaimed(r, g), held, pending + multiset(Out(r.groups[g], r.owner)),
                Restricted(meaning, r.groups[g].value.members), birth, clock)
    ensures |Reclaimed(r, g).interned| < |r.interned|
  {
    assert (pending + multiset{g})[g] >= 1;
    assert GroupOk(r, g);
    NoIncomingUnreferenced(r, g, birth, clock);
    forall h | h in Out(r.groups[g], r.owner) ensures h != g && Live(r.groups, h) {
      EdgeOlder(r, birth, clock, g, h);
    }
    ReclaimedSlots(r, g);
    ReclaimedFree(r, g);
    ReclaimedInterned(r, g);
    ReclaimedEdges(r, g, birth, clock);
    ReclaimedCount(r, g, held, pending);
    ReclaimedMeaning(r, g, meaning);
  }

  /** One round that only lowers a count keeps the whole invariant. */
  lemma LoweredKeeps(
    r: Reg, g: GroupId, held: multiset<GroupId>, pending: multiset<GroupId>,
    meaning: map<TypeId, XRef>, birth: map<GroupId, nat>, clock: nat)
    requires Live(r.groups, g) && r.groups[g].value.refcount > 1
    requires Inv(r, held, pending + multiset{g}, meaning, birth, clock)
    ensures Inv(Recounted(r, g, r.groups[g].value.refcount - 1), held, pending, meaning, birth, clock)
  {
    var n := r.groups[g].value.refcount - 1;
    RecountedSlots(r, g, n);
    RecountedRest(r, g, n, meaning, birth, clock);
    RecountedCount(r, g, held, pending + multiset{g}, held, pending, n);
  }

  /** Taking a registration on a live group keeps the whole invariant. */
  lemma RaisedKeeps(
    r: Reg, g: GroupId, held: multiset<GroupId>, meaning: map<TypeId, XRef>, birth: map<GroupId, nat>, clock: nat)
    requires Live(r.groups, g) && Inv(r, held, multiset{}, meaning, birth, clock)
    ensures Inv(Recounted(r, g, r.groups[g].value.refcount + 1), held + multiset{g}, multiset{}, meaning, birth, clock)
  {
    var n := r.groups[g].value.refcount + 1;
    RecountedSlots(r, g, n);
    RecountedRest(r, g, n, meaning, birth, clock);
    RecountedCount(r, g, held, multiset{}, held + multiset{g}, multiset{}, n);
  }

  lemma RecountedCount(
    r: Reg, g: GroupId, held: multiset<GroupId>, pending: multiset<GroupId>,
    held': multiset<GroupId>, pending': multiset<GroupId>, n: nat)
    requires Live(r.groups, g) && CountOk(r.groups, r.owner, held, pending) && n >= 1
    requires n + held[g] + pending[g] == r.groups[g].value.refcount + held'[g] + pending'[g]
    requires forall h: nat :: h != g ==> held'[h] == held[h] && pending'[h] == pending[h]
    ensures CountOk(Recounted(r, g, n).groups, r.owner, held', pending')
  {
    RecountedIncoming(r, g, n);
  }

  // --- adding a group ---

  /** The references a new group takes on the groups its key points at. */
  function Owed(r: Reg, key: CGroup): seq<GroupId> {
    Targets(EdgeIds(key), r.owner)
  }

  /** Type slots: the new members are filled, every other slot is as before. */
  ghost predicate TypesFilled(
    types: seq<Option<CanonType>>, owner: seq<Option<GroupId>>, key: CGroup, g: GroupId, members: seq<TypeId>,
    types': seq<Option<CanonType>>, owner': seq<Option<GroupId>>)
  {
    && |types'| == |owner'| >= |types| == |owner|
    && |members| == |key| && NoDup(members)
    && (forall p :: 0 <= p < |key| ==> RefsInRange(key[p], |members|))
    && (forall t :: t in members ==> t < |types'| && !Owned(owner, t))
    && (forall t :: 0 <= t < |types'| && t !in members ==>
          t < |types| && types'[t] == types[t] && owner'[t] == owner[t])
    && (forall p :: 0 <= p < |members| ==>
          members[p] < |types'| && types'[members[p]] == Some(StoredType(key[p], members)) &&
          owner'[members[p]] == Some(g))
  }

  ghost predicate AddedTypes(r: Reg, key: CGroup, g: GroupId, members: seq<TypeId>, s: Reg) {
    TypesFilled(r.types, r.owner, key, g, members, s.types, s.owner)
  }

  /** Group slots: `g` holds the new record, every other group keeps its record and gains the owed references. */
  ghost predicate GroupFilled(
    groups: seq<Option<GroupRecord>>, owed: multiset<GroupId>, g: GroupId, rec: GroupRecord,
    groups': seq<Option<GroupRecord>>)
  {
    && g <= |groups| && |groups'| == (if g < |groups| then |groups| else g + 1) && !Live(groups, g)
    && groups'[g] == Some(rec)
    && (forall h: nat :: h < |groups'| && h != g ==> h < |groups| && groups'[h] == Gained(groups[h], owed[h]))
  }

  ghost predicate AddedGroups(r: Reg, key: CGroup, g: GroupId, members: seq<TypeId>, s: Reg) {
    GroupFilled(r.groups, multiset(Owed(r, key)), g, GroupRecord(key, members, 1), s.groups)
  }

  function Gained(rec: Option<GroupRecord>, n: nat): Option<GroupRecord> {
    if rec.Some? then Some(rec.value.(refcount := rec.value.refcount + n)) else None
  }

  ghost predicate Added(r: Reg, key: CGroup, g: GroupId, members: seq<TypeId>, s: Reg) {
    && AddedTypes(r, key, g, members, s)
    && AddedGroups(r, key, g, members, s)
    && FreeListsOk(s)
    && key !in r.interned && s.interned == r.interned[key := g]
  }

  lemma AddedSlots(r: Reg, key: CGroup, g: GroupId, members: seq<TypeId>, s: Reg)
    requires SlotsOk(r) && AddedTypes(r, key, g, members, s) && AddedGroups(r, key, g, members, s)
    ensures SlotsOk(s)
  {
    forall h: nat | Live(s.groups, h) ensures GroupOk(s, h) {
      if h != g {
        assert GroupOk(r, h);
        var rec := r.groups[h].value;
        forall p | 0 <= p < |rec.members| ensures rec.members[p] !in members {
          assert Owned(r.owner, rec.members[p]);
        }
      }
    }
    forall t: nat | Owned(s.owner, t)
      ensures Live(s.groups, s.owner[t].value) && t in s.groups[s.owner[t].value].value.members
    {
      if t !in members { assert Owned(r.owner, t); }
    }
  }

  lemma AddedInterned(r: Reg, key: CGroup, g: GroupId, members: seq<TypeId>, s: Reg)
    requires InternedOk(r.groups, r.interned) && AddedGroups(r, key, g, members, s)
    requires key !in r.interned && s.interned == r.interned[key := g]
    ensures InternedOk(s.groups, s.interned)
  {
    forall h: nat | Live(s.groups, h) && h != g
      ensures Live(r.groups, h) && s.groups[h].value.key == r.groups[h].value.key
    {
    }
    forall k | k in r.interned ensures r.interned[k] != g {}
  }

  lemma AddedEdges(r: Reg, key: CGroup, g: GroupId, members: seq<TypeId>, s: Reg, birth: map<GroupId, nat>, clock: nat)
    requires SlotsOk(r) && EdgesOk(r.groups, r.owner, birth, clock) && KeyOk(r, key)
    requires AddedTypes(r, key, g, members, s) && AddedGroups(r, key, g, members, s)
    ensures EdgesOk(s.groups, s.owner, birth[g := clock], clock + 1)
  {
    var b := birth[g := clock];
    forall h: nat | Live(s.groups, h) ensures h in b && b[h] < clock + 1 {
      if h != g { assert Live(r.groups, h); }
    }
    forall h: nat, id: nat | HasEdge(s.groups, h, id)
      ensures Owned(s.owner, id) && s.owner[id].value in b && b[s.owner[id].value] < b[h]
    {
      if h != g { assert HasEdge(r.groups, h, id); }
      assert Owned(r.owner, id) && s.owner[id] == r.owner[id];
      assert Live(r.groups, r.owner[id].value);
    }
  }

  /** An owner table that agrees with `owner` on every id `owner` knows. */
  ghost predicate Keeps(owner: seq<Option<GroupId>>, wider: seq<Option<GroupId>>) {
    forall id: nat :: Owned(owner, id) ==> Owned(wider, id) && wider[id] == owner[id]
  }

  lemma OldOut(r: Reg, wider: seq<Option<GroupId>>, h: GroupId, birth: map<GroupId, nat>, clock: nat)
    requires EdgesOk(r.groups, r.owner, birth, clock) && Keeps(r.owner, wider) && h < |r.groups|
    ensures Out(r.groups[h], wider) == Out(r.groups[h], r.owner)
  {
    if Live(r.groups, h) {
      var ids := EdgeIds(r.groups[h].value.key);
      assert forall id :: id in ids ==> HasEdge(r.groups, h, id);
      TargetsAgree(ids, wider, r.owner);
    }
  }

  lemma AddedIncoming(
    r: Reg, key: CGroup, g: GroupId, members: seq<TypeId>, s: Reg, birth: map<GroupId, nat>, clock: nat)
    requires EdgesOk(r.groups, r.owner, birth, clock) && KeyOk(r, key)
    requires Keeps(r.owner, s.owner) && AddedGroups(r, key, g, members, s)
    ensures Incoming(s.groups, s.owner) == Incoming(r.groups, r.owner) + multiset(Owed(r, key))
  {
    var was, now := Outs(r.groups, r.owner), Outs(s.groups, s.owner);
    TargetsAgree(EdgeIds(key), s.owner, r.owner);
    forall h: nat | h < |now| && h != g ensures now[h] == was[h] {
      OldOut(r, s.owner, h, birth, clock);
      assert Out(s.groups[h], s.owner) == Out(r.groups[h], s.owner);
    }
    GatherOne(was, now, g, Owed(r, key));
  }

  /** Filling the empty or fresh entry `g` adds its elements. */
  lemma GatherOne(was: seq<seq<nat>>, now: seq<seq<nat>>, g: nat, x: seq<nat>)
    requires g <= |was| && |now| == (if g < |was| then |was| else g + 1)
    requires g < |was| ==> was[g] == []
    requires now[g] == x && forall h :: 0 <= h < |was| && h != g ==> now[h] == was[h]
    ensures Gather(now) == Gather(was) + multiset(x)
  {
    if g < |was| {
      assert now == was[g := x];
      GatherUpdate(was, g, x);
    } else {
      assert now == was + [x];
      GatherPush(was, x);
    }
  }

  lemma AddedCount(r: Reg, key: CGroup, g: GroupId, members: seq<TypeId>, s: Reg, held: multiset<GroupId>)
    requires CountOk(r.groups, r.owner, held, multiset{}) && AddedGroups(r, key, g, members, s)
    requires Incoming(s.groups, s.owner) == Incoming(r.groups, r.owner) + multiset(Owed(r, key))
    requires Incoming(r.groups, r.owner)[g] == 0 && g !in Owed(r, key)
    ensures CountOk(s.groups, s.owner, held + multiset{g}, multiset{})
  {
    var owed: multiset<GroupId> := multiset(Owed(r, key));
    var was, now := Incoming(r.groups, r.owner), Incoming(s.groups, s.owner);
    assert owed[g] == 0;
    forall h: nat
      ensures if Live(s.groups, h) then 1 <= s.groups[h].value.refcount == (held + multiset{g})[h] + now[h]
              else (held + multiset{g})[h] == 0
    {
      assert (was + owed)[h] == was[h] + owed[h];
      if h != g { assert (held + multiset{g})[h] == held[h]; }
    }
  }

  /** The structures of the live ids after the group `key` is added as `members`. */
  ghost function Extended(meaning: map<TypeId, XRef>, key: CGroup, members: seq<TypeId>): (m: map<TypeId, XRef>)
    requires |members| == |key| && NoDup(members)
    ensures m.Keys == meaning.Keys + (set t | t in members)
    ensures forall t :: t in meaning && t !in members ==> m[t] == meaning[t]
    ensures forall p :: 0 <= p < |members| ==> m[members[p]] == XTo(Expand(key, meaning), p)
  {
    map t | t in meaning.Keys + (set x | x in members) ::
      if t in members then XTo(Expand(key, meaning), IndexOf(members, t)) else meaning[t]
  }

  ghost function IndexOf(s: seq<nat>, x: nat): (p: nat)
    requires x in s
    ensures p < |s| && s[p] == x
  {
    if s[0] == x then 0 else IndexOf(s[1..], x) + 1
  }

  /** The extended meaning is defined on exactly the owned types, and unchanged on those owned before. */
  lemma {:induction false} ExtendedDomain(
    r: Reg, key: CGroup, g: GroupId, members: seq<TypeId>, s: Reg, meaning: map<TypeId, XRef>)
    requires AddedTypes(r, key, g, members, s) && forall t: nat :: t in meaning <==> Owned(r.owner, t)
    ensures var m := Extended(meaning, key, members);
      && (forall t: nat :: t in m <==> Owned(s.owner, t))
      && (forall t: nat :: Owned(r.owner, t) ==> t !in members && t in meaning && t in m && m[t] == meaning[t])
  {
    var m := Extended(meaning, key, members);
    forall t: nat ensures t in m <==> Owned(s.owner, t) {
      if t in members {
        var p := IndexOf(members, t);
        assert s.owner[members[p]].Some?;
      }
    }
  }

  lemma {:induction false} NewMeaningAt(
    r: Reg, key: CGroup, members: seq<TypeId>, meaning: map<TypeId, XRef>, m: map<TypeId, XRef>)
    requires |members| == |key| && NoDup(members) && m == Extended(meaning, key, members) && KeyOk(r, key)
    requires forall t: nat :: Owned(r.owner, t) ==> t in meaning && t in m && m[t] == meaning[t]
    ensures MeaningAt(GroupRecord(key, members, 1), m)
  {
    assert forall id :: id in EdgeIds(key) ==> Owned(r.owner, id);
    ExpandAgree(key, meaning, m);
  }

  lemma {:induction false} AddedMeaning(
    r: Reg, key: CGroup, g: GroupId, members: seq<TypeId>, s: Reg, meaning: map<TypeId, XRef>,
    birth: map<GroupId, nat>, clock: nat)
    requires SlotsOk(r) && MeaningOk(r, meaning) && EdgesOk(r.groups, r.owner, birth, clock) && KeyOk(r, key)
    requires AddedTypes(r, key, g, members, s) && AddedGroups(r, key, g, members, s)
    ensures MeaningOk(s, Extended(meaning, key, members))
  {
    var m := Extended(meaning, key, members);
    ExtendedDomain(r, key, g, members, s, meaning);
    NewMeaningAt(r, key, members, meaning, m);
    forall h: nat | Live(s.groups, h) ensures MeaningAt(s.groups[h].value, m) {
      if h != g {
        OldMeaningAt(r, h, meaning, m, birth, clock);
        SameMeaningAt(r.groups[h].value, s.groups[h].value, m);
      }
    }
  }

  lemma SameMeaningAt(rec: GroupRecord, gained: GroupRecord, m: map<TypeId, XRef>)
    requires MeaningAt(rec, m) && gained.key == rec.key && gained.members == rec.members
    ensures MeaningAt(gained, m)
  {
  }

  lemma {:induction false} OldMeaningAt(
    r: Reg, h: GroupId, meaning: map<TypeId, XRef>, m: map<TypeId, XRef>, birth: map<GroupId, nat>, clock: nat)
    requires Live(r.groups, h) && GroupOk(r, h) && MeaningAt(r.groups[h].value, meaning)
    requires EdgesOk(r.groups, r.owner, birth, clock)
    requires forall t: nat :: Owned(r.owner, t) ==> t in meaning && t in m && m[t] == meaning[t]
    ensures MeaningAt(r.groups[h].value, m)
  {
    var rec := r.groups[h].value;
    assert forall id :: id in EdgeIds(rec.key) ==> HasEdge(r.groups, h, id);
    ExpandAgree(rec.key, meaning, m);
  }

  /** Interning a key no live group has keeps the whole invariant. */
  lemma AddedKeeps(
    r: Reg, key: CGroup, g: GroupId, members: seq<TypeId>, s: Reg,
    held: multiset<GroupId>, meaning: map<TypeId, XRef>, birth: map<GroupId, nat>, clock: nat)
    requires Inv(r, held, multiset{}, meaning, birth, clock) && KeyOk(r, key) && Added(r, key, g, members, s)
    ensures Inv(s, held + multiset{g}, multiset{}, Extended(meaning, key, members), birth[g := clock], clock + 1)
  {
    AddedSlots(r, key, g, members, s);
    AddedInterned(r, key, g, members, s);
    AddedEdges(r, key, g, members, s, birth, clock);
    AddedKeepsOwner(r, key, g, members, s);
    AddedIncoming(r, key, g, members, s, birth, clock);
    DeadUntargeted(r, key, g, birth, clock);
    AddedCount(r, key, g, members, s, held);
    AddedMeaning(r, key, g, members, s, meaning, birth, clock);
  }

  lemma AddedKeepsOwner(r: Reg, key: CGroup, g: GroupId, members: seq<TypeId>, s: Reg)
    requires AddedTypes(r, key, g, members, s)
    ensures Keeps(r.owner, s.owner)
  {
  }

  /** A dead group is the target of no edge, old or new. */
  lemma DeadUntargeted(r: Reg, key: CGroup, g: GroupId, birth: map<GroupId, nat>, clock: nat)
    requires SlotsOk(r) && EdgesOk(r.groups, r.owner, birth, clock) && !Live(r.groups, g)
    ensures Incoming(r.groups, r.owner)[g] == 0 && g !in Owed(r, key)
  {
    if g in Owed(r, key) {
      var id := TargetsFrom(EdgeIds(key), r.owner, g);
    }
    if g in Incoming(r.groups, r.owner) {
      var h := GatherFrom(Outs(r.groups, r.owner), g);
      EdgeOlder(r, birth, clock, h, g);
    }
  }
}
