/** The engine-owned canonical type registry, `TypeRegistry` of `src/canon/registry.rs`. */
module Registry {
  import opened Options
  import opened FreeLists
  import opened TypeForms
  import opened RegistryState
  import opened RegistrySteps
  import opened RegistryRuns
  import opened Subtyping

  /** Every structure recorded in `m` is recorded, unchanged, in `wider`. */
  ghost predicate SubMeaning(m: map<TypeId, XRef>, wider: map<TypeId, XRef>) {
    forall t :: t in m ==> t in wider && wider[t] == m[t]
  }

  /** Every type owned by a group of `held` is still owned by that group. */
  ghost predicate KeepsHeld(owner: seq<Option<GroupId>>, owner': seq<Option<GroupId>>, held: multiset<GroupId>) {
    forall t: nat :: Owned(owner, t) && owner[t].value in held ==> Owned(owner', t) && owner'[t] == owner[t]
  }

  /** The ids `ids` all belong to the live group `g`. */
  ghost predicate OwnedBy(ids: seq<TypeId>, g: GroupId, owner: seq<Option<GroupId>>) {
    forall p :: 0 <= p < |ids| ==> Owned(owner, ids[p]) && owner[ids[p]].value == g
  }

  class TypeRegistry {
    var types: seq<Option<CanonType>>
    var typeToGroup: seq<Option<GroupId>>
    var freeTypes: seq<TypeId>
    var groups: seq<Option<GroupRecord>>
    var freeGroups: seq<GroupId>
    var interned: map<CGroup, GroupId>

    /** The run that led to the current state. */
    ghost var history: History

    ghost function State(): Reg
      reads this
    {
      Reg(types, typeToGroup, freeTypes, groups, freeGroups, interned)
    }

    /** Outstanding registrations, with multiplicity. */
    ghost function Held(): multiset<GroupId>
      reads this
    {
      Now(history).held
    }

    /** The expanded structure of every live canonical id. */
    ghost function Meaning(): map<TypeId, XRef>
      reads this
    {
      Now(history).meaning
    }

    ghost predicate Valid()
      reads this
    {
      At([])
    }

    /** The fields hold a reachable state with the worklist `stack`. */
    ghost predicate At(stack: seq<GroupId>)
      reads this
    {
      Run(history) && Now(history).reg == State() && Now(history).stack == stack
    }

    constructor ()
      ensures Valid() && Held() == multiset{} && Meaning() == map[] && State() == EMPTY.reg
    {
      types, typeToGroup, freeTypes := [], [], [];
      groups, freeGroups, interned := [], [], map[];
      history := Start;
    }

    // --- reference counts ---

    method IncrefGroup(g: GroupId)
      requires Valid() && Live(groups, g)
      modifies this
      ensures Valid() && Held() == old(Held()) + multiset{g} && Meaning() == old(Meaning())
      ensures types == old(types) && typeToGroup == old(typeToGroup)
      ensures Live(groups, g) && groups[g].value.members == old(groups)[g].value.members
    {
      ghost var s := Now(history);
      var rec := groups[g].value;
      groups := groups[g := Some(rec.(refcount := rec.refcount + 1))];
      ghost var t := s.(reg := Recounted(s.reg, g, rec.refcount + 1), held := s.held + multiset{g});
      assert Registers(s, g, t);
      history := Then(history, t);
    }

    /** A new registration on the group owning `id` (a type handle was cloned or materialized). */
    method IncrefType(id: TypeId)
      requires Valid() && Owned(typeToGroup, id)
      modifies this
      ensures Valid() && Held() == old(Held()) + multiset{old(typeToGroup)[id].value} && Meaning() == old(Meaning())
      ensures types == old(types) && typeToGroup == old(typeToGroup)
    {
      OwnerIsLive(history, id);
      IncrefGroup(typeToGroup[id].value);
    }

    /** Appends the owners of `ids` to the worklist `stack`. */
    method PushTargets(stack: seq<GroupId>, ids: seq<TypeId>) returns (s: seq<GroupId>)
      ensures s == stack + Targets(ids, typeToGroup)
    {
      s := stack;
      for i := 0 to |ids|
        invariant s + Targets(ids[i..], typeToGroup) == stack + Targets(ids, typeToGroup)
      {
        assert ids[i..][0] == ids[i] && ids[i..][1..] == ids[i + 1..];
        if Owned(typeToGroup, ids[i]) {
          s := s + [typeToGroup[ids[i]].value];
        }
      }
    }

    /** Empties the type slots `members` and recycles their ids. */
    method FreeMembers(members: seq<TypeId>)
      requires |types| == |typeToGroup| && forall m :: m in members ==> m < |types|
      modifies this`types, this`typeToGroup, this`freeTypes
      ensures types == Cleared(old(types), members)
      ensures typeToGroup == Cleared(old(typeToGroup), members)
      ensures freeTypes == old(freeTypes) + members
    {
      for i := 0 to |members|
        invariant types == Cleared(old(types), members[..i])
        invariant typeToGroup == Cleared(old(typeToGroup), members[..i])
        invariant freeTypes == old(freeTypes) + members[..i]
      {
        var m := members[i];
        assert m in members;
        assert members[..i + 1] == members[..i] + [m];
        types := types[m := None];
        typeToGroup := typeToGroup[m := None];
        freeTypes := freeTypes + [m];
      }
      assert members[..|members|] == members;
    }

    /** One round of the reclaim worklist: pop a group, drop one reference to it, reclaim it at zero. */
    method ReclaimRound(stack: seq<GroupId>) returns (rest: seq<GroupId>)
      requires At(stack) && stack != []
      modifies this
      ensures At(rest) && Held() == old(Held()) && SubMeaning(Meaning(), old(Meaning()))
      ensures KeepsHeld(old(typeToGroup), typeToGroup, Held())
      ensures |interned| < |old(interned)| || (interned == old(interned) && |rest| < |stack|)
    {
      ghost var t := ReclaimTerminates(history);
      RoundKeepsHeld(history, t);
      var top := stack[|stack| - 1];
      rest := stack[..|stack| - 1];
      SlotsInRange(history, top);
      var rec := groups[top].value;
      if rec.refcount - 1 > 0 {
        groups := groups[top := Some(rec.(refcount := rec.refcount - 1))];
      } else {
        groups := groups[top := None];
        interned := interned - {rec.key};
        rest := PushTargets(rest, EdgeIds(rec.key));
        FreeMembers(rec.members);
        freeGroups := freeGroups + [top];
      }
      history := Then(history, t);
    }

    /** Gives up one registration on `g`; groups left without a reference are reclaimed, transitively. */
    method DecrefGroup(g: GroupId)
      requires Valid() && g in Held()
      modifies this
      ensures Valid() && Held() == old(Held()) - multiset{g} && SubMeaning(Meaning(), old(Meaning()))
      ensures KeepsHeld(old(typeToGroup), typeToGroup, Held())
    {
      ghost var given := Now(history).(held := Held() - multiset{g}, stack := [g]);
      assert Releases(Now(history), g, given);
      history := Then(history, given);
      var stack := [g];
      while stack != []
        invariant At(stack) && Held() == old(Held()) - multiset{g} && SubMeaning(Meaning(), old(Meaning()))
        invariant KeepsHeld(old(typeToGroup), typeToGroup, Held())
        decreases |interned|, |stack|
      {
        stack := ReclaimRound(stack);
      }
    }

    /** Removes a registration from the group owning `id` (a type handle was dropped). */
    method DecrefType(id: TypeId)
      requires Valid() && Owned(typeToGroup, id) && typeToGroup[id].value in Held()
      modifies this
      ensures Valid() && Held() == old(Held()) - multiset{old(typeToGroup)[id].value}
      ensures SubMeaning(Meaning(), old(Meaning())) && KeepsHeld(old(typeToGroup), typeToGroup, Held())
    {
      DecrefGroup(typeToGroup[id].value);
    }

    /** Gives up one registration per entry of `ids`. */
    method Release(ids: seq<GroupId>)
      requires Valid() && multiset(ids) <= Held()
      modifies this
      ensures Valid() && Held() == old(Held()) - multiset(ids) && SubMeaning(Meaning(), old(Meaning()))
      ensures KeepsHeld(old(typeToGroup), typeToGroup, Held())
    {
      ghost var owner, meaning := typeToGroup, Meaning();
      for i := 0 to |ids|
        invariant Valid() && Survives(owner, meaning)
        invariant multiset(ids[i..]) <= Held() && Held() + multiset(ids[..i]) == old(Held())
      {
        OneLess(ids, i, Held(), old(Held()));
        ReleaseOne(ids[i], owner, meaning);
      }
      assert ids[..|ids|] == ids;
    }

    /** Since a state with these owners and meanings, nothing still registered was lost or changed. */
    ghost predicate Survives(owner: seq<Option<GroupId>>, meaning: map<TypeId, XRef>)
      reads this
    {
      SubMeaning(Meaning(), meaning) && KeepsHeld(owner, typeToGroup, Held())
    }

    method ReleaseOne(g: GroupId, ghost owner: seq<Option<GroupId>>, ghost meaning: map<TypeId, XRef>)
      requires Valid() && g in Held() && Survives(owner, meaning)
      modifies this
      ensures Valid() && Held() == old(Held()) - multiset{g} && Survives(owner, meaning)
    {
      ghost var was, held := typeToGroup, Held();
      DecrefGroup(g);
      StillHeld(owner, was, held, typeToGroup, Held());
    }

    // --- interning ---

    /** A free group slot, recycled or fresh; it stays empty until the record is stored. */
    method TakeGroupSlot() returns (g: GroupId)
      requires FreeOk(groups, freeGroups)
      modifies this`groups, this`freeGroups
      ensures FreeExcept(groups, freeGroups, [g])
      ensures g <= |old(groups)| && groups == (if g < |old(groups)| then old(groups) else old(groups) + [None])
    {
      if freeGroups != [] {
        TakeFree(groups, freeGroups, []);
        g := freeGroups[|freeGroups| - 1];
        assert g in freeGroups;
        freeGroups := freeGroups[..|freeGroups| - 1];
        assert [] + [g] == [g];
      } else {
        TakeFresh(groups, freeGroups, []);
        groups := groups + [None];
        g := |groups| - 1;
        assert [] + [g] == [g];
      }
    }

    /** `len` free type slots, recycled or fresh. */
    method TakeTypeSlots(len: nat) returns (members: seq<TypeId>)
      requires |types| == |typeToGroup| && FreeOk(types, freeTypes)
      modifies this`types, this`typeToGroup, this`freeTypes
      ensures |members| == len && FreeExcept(types, freeTypes, members)
      ensures |types| == |typeToGroup| >= |old(types)|
      ensures forall t :: 0 <= t < |old(types)| ==> types[t] == old(types)[t] && typeToGroup[t] == old(typeToGroup)[t]
      ensures forall t :: |old(types)| <= t < |types| ==> t in members
    {
      members := [];
      for i := 0 to len
        invariant |members| == i && FreeExcept(types, freeTypes, members)
        invariant |types| == |typeToGroup| >= |old(types)|
        invariant forall t :: 0 <= t < |old(types)| ==>
          types[t] == old(types)[t] && typeToGroup[t] == old(typeToGroup)[t]
        invariant forall t :: |old(types)| <= t < |types| ==> t in members
      {
        if freeTypes != [] {
          TakeFree(types, freeTypes, members);
          members := members + [freeTypes[|freeTypes| - 1]];
          freeTypes := freeTypes[..|freeTypes| - 1];
        } else {
          TakeFresh(types, freeTypes, members);
          types, typeToGroup := types + [None], typeToGroup + [None];
          members := members + [|types| - 1];
        }
      }
    }

    /** Stores each member of `key`, resolved, in the slot set aside for it. */
    method StoreMembers(key: CGroup, members: seq<TypeId>, g: GroupId)
      requires |types| == |typeToGroup| && |members| == |key| && FreeExcept(types, freeTypes, members)
      requires forall p :: 0 <= p < |key| ==> RefsInRange(key[p], |members|)
      modifies this`types, this`typeToGroup
      ensures |types| == |typeToGroup| == |old(types)| && FreeOk(types, freeTypes)
      ensures forall t :: 0 <= t < |types| && t !in members ==>
        types[t] == old(types)[t] && typeToGroup[t] == old(typeToGroup)[t]
      ensures forall p :: 0 <= p < |members| ==>
        members[p] < |types| && types[members[p]] == Some(StoredType(key[p], members)) &&
        typeToGroup[members[p]] == Some(g)
    {
      for i := 0 to |key|
        invariant |types| == |typeToGroup| == |old(types)| && FreeExcept(types, freeTypes, members[i..])
        invariant forall t :: 0 <= t < |types| && t !in members ==>
          types[t] == old(types)[t] && typeToGroup[t] == old(typeToGroup)[t]
        invariant forall p :: 0 <= p < i ==>
          members[p] < |types| && types[members[p]] == Some(StoredType(key[p], members)) &&
          typeToGroup[members[p]] == Some(g)
      {
        var m := members[i];
        assert members[i..][0] == m && members[i..][1..] == members[i + 1..];
        FillTaken(types, freeTypes, members[i..], StoredType(key[i], members));
        assert m in members;
        types := types[m := Some(StoredType(key[i], members))];
        typeToGroup := typeToGroup[m := Some(g)];
      }
      assert members[|key|..] == [];
    }

    /** Takes one reference per entry of `targets`: the groups a new group points at must outlive it. */
    method PinGroups(targets: seq<GroupId>)
      requires forall g :: g in targets ==> Live(groups, g)
      modifies this`groups
      ensures AllGained(old(groups), groups, multiset(targets))
    {
      for i := 0 to |targets|
        invariant AllGained(old(groups), groups, multiset(targets[..i]))
      {
        var g := targets[i];
        assert targets[..i + 1] == targets[..i] + [g];
        GainOne(old(groups), groups, multiset(targets[..i]), g);
        var rec := groups[g].value;
        groups := groups[g := Some(rec.(refcount := rec.refcount + 1))];
      }
      assert targets[..|targets|] == targets;
    }

    /** Interns a canonicalized group: the live group with this key gains a registration, or a new one is made. */
    method InternGroup(key: CGroup) returns (g: GroupId)
      requires Valid() && KeyOk(State(), key)
      modifies this
      ensures Valid() && Held() == old(Held()) + multiset{g} && SubMeaning(old(Meaning()), Meaning())
      ensures Live(groups, g) && Denotes(groups[g].value.members, Expand(key, old(Meaning())), Meaning())
      ensures AllMean(State(), Meaning())
      ensures Keeps(old(typeToGroup), typeToGroup) && OwnedBy(groups[g].value.members, g, typeToGroup)
    {
      if key in interned {
        g := interned[key];
        InternedDenotes(history, key);
        IncrefGroup(g);
        AllTypesMean(history);
      } else {
        g := AddGroup(key);
      }
    }

    method AddGroup(key: CGroup) returns (g: GroupId)
      requires Valid() && KeyOk(State(), key) && key !in interned
      modifies this
      ensures Valid() && Held() == old(Held()) + multiset{g} && SubMeaning(old(Meaning()), Meaning())
      ensures Live(groups, g) && Denotes(groups[g].value.members, Expand(key, old(Meaning())), Meaning())
      ensures AllMean(State(), Meaning())
      ensures Keeps(old(typeToGroup), typeToGroup) && OwnedBy(groups[g].value.members, g, typeToGroup)
    {
      ghost var before := State();
      AddFacts(history, key);
      var members;
      g, members := PlaceGroup(key);
      AddedOwners(before, key, g, members, State());
      history := Grown(history, key, g, members, State());
      AllTypesMean(history);
    }

    /** Takes slots for the group and its members, pins the groups it points at, and stores everything. */
    method PlaceGroup(key: CGroup) returns (g: GroupId, members: seq<TypeId>)
      requires Addable(State(), key) && KeyOk(State(), key) && key !in interned
      modifies this`types, this`typeToGroup, this`freeTypes, this`groups, this`freeGroups, this`interned
      ensures Added(old(State()), key, g, members, State())
    {
      ghost var before := State();
      g := TakeGroupSlot();
      members := FillTypes(key, g);
      OwedUnchanged(before, key, g, members, typeToGroup, types);
      var targets := PushTargets([], EdgeIds(key));
      FillGroup(g, GroupRecord(key, members, 1), targets, before.groups);
      interned := interned[key := g];
    }

    /** Sets aside a type slot per member of `key` and stores the resolved members there. */
    method FillTypes(key: CGroup, g: GroupId) returns (members: seq<TypeId>)
      requires |types| == |typeToGroup| && FreeOk(types, freeTypes)
      requires forall t :: 0 <= t < |types| ==> (types[t].Some? <==> typeToGroup[t].Some?)
      requires forall p :: 0 <= p < |key| ==> RefsInRange(key[p], |key|)
      modifies this`types, this`typeToGroup, this`freeTypes
      ensures FreeOk(types, freeTypes)
      ensures TypesFilled(old(types), old(typeToGroup), key, g, members, types, typeToGroup)
    {
      members := TakeTypeSlots(|key|);
      StoreMembers(key, members, g);
    }

    /** Pins the groups the new group points at, then stores its record. */
    method FillGroup(g: GroupId, rec: GroupRecord, targets: seq<GroupId>, ghost before: seq<Option<GroupRecord>>)
      requires g <= |before| && groups == (if g < |before| then before else before + [None])
      requires FreeExcept(groups, freeGroups, [g])
      requires forall h :: h in targets ==> Live(groups, h)
      modifies this`groups
      ensures FreeOk(groups, freeGroups)
      ensures GroupFilled(before, multiset(targets), g, rec, groups)
    {
      assert g in [g];
      PinGroups(targets);
      StillFree(old(groups), groups, freeGroups, multiset(targets), g);
      FillTaken(groups, freeGroups, [g], rec);
      assert [g][1..] == [];
      groups := groups[g := Some(rec)];
    }

    // --- queries ---

    /**
     Is `sub` a declared subtype of `sup`? Walks up the supertype chain; a call whose walk does not
     stop, which a cycle of host-declared supertypes makes possible, never answers.
     */
    method IsSubtype(sub: TypeId, sup: TypeId) returns (b: bool)
      requires WalkStops(State(), sub, sup)
      ensures b <==> IsDeclaredSubtype(State(), sub, sup)
    {
      ghost var bound: nat :| Above(State(), sub, bound) == None || Above(State(), sub, bound) == Some(sup);
      var cur := Some(sub);
      ghost var n: nat := 0;
      while cur.Some? && cur.value != sup
        invariant cur == Above(State(), sub, n) && n <= bound
        invariant forall k: nat :: k < n ==> Above(State(), sub, k).Some? && Above(State(), sub, k) != Some(sup)
        decreases bound - n
      {
        var id := cur.value;
        cur := if id < |types| && types[id].Some? then types[id].value.supertype else None;
        n := n + 1;
      }
      b := cur.Some?;
      if !b {
        forall k: nat ensures Above(State(), sub, k) != Some(sup) {
          if k >= n { AboveStaysNone(State(), sub, n, k); }
        }
      }
    }
  }

  lemma OwnerIsLive(h: History, id: TypeId)
    requires Run(h) && Owned(Now(h).reg.owner, id)
    ensures Live(Now(h).reg.groups, Now(h).reg.owner[id].value)
    ensures id in Now(h).meaning
  {
    RunKeepsInvariant(h);
  }

  lemma SlotsInRange(h: History, g: GroupId)
    requires Run(h) && Live(Now(h).reg.groups, g)
    ensures |Now(h).reg.types| == |Now(h).reg.owner|
    ensures forall m :: m in Now(h).reg.groups[g].value.members ==> m < |Now(h).reg.types|
  {
    RunKeepsInvariant(h);
    assert GroupOk(Now(h).reg, g);
  }

  /** `after` is `before` with every live group's count raised by its multiplicity in `owed`. */
  ghost predicate AllGained(
    before: seq<Option<GroupRecord>>, after: seq<Option<GroupRecord>>, owed: multiset<GroupId>) {
    |before| == |after| && forall h: nat :: h < |after| ==> after[h] == Gained(before[h], owed[h])
  }

  lemma GainOne(before: seq<Option<GroupRecord>>, after: seq<Option<GroupRecord>>, owed: multiset<GroupId>, g: GroupId)
    requires AllGained(before, after, owed) && Live(before, g)
    ensures Live(after, g)
    ensures var rec := after[g].value;
      AllGained(before, after[g := Some(rec.(refcount := rec.refcount + 1))], owed + multiset{g})
  {
    assert after[g] == Gained(before[g], owed[g]);
  }

  /** The ids `members` stand for the members of the expanded group `tree`, in order. */
  ghost predicate Denotes(members: seq<TypeId>, tree: XGroup, meaning: map<TypeId, XRef>) {
    && |members| == |tree|
    && forall p :: 0 <= p < |members| ==> members[p] in meaning && meaning[members[p]] == XTo(tree, p)
  }

  lemma InternedDenotes(h: History, key: CGroup)
    requires Run(h) && key in Now(h).reg.interned
    ensures var s := Now(h); var g := s.reg.interned[key];
      && Live(s.reg.groups, g) && Denotes(s.reg.groups[g].value.members, Expand(key, s.meaning), s.meaning)
      && OwnedBy(s.reg.groups[g].value.members, g, s.reg.owner)
  {
    RunKeepsInvariant(h);
    var s := Now(h);
    assert GroupOk(s.reg, s.reg.interned[key]);
  }

  /** What placing a group relies on: exact free lists, parallel type tables, and live groups to pin. */
  ghost predicate Addable(r: Reg, key: CGroup) {
    && FreeListsOk(r) && |r.types| == |r.owner|
    && (forall t :: 0 <= t < |r.types| ==> (r.types[t].Some? <==> r.owner[t].Some?))
    && (forall g :: g in Owed(r, key) ==> Live(r.groups, g))
  }

  /** No type changes owner, and the new members belong to the new group. */
  lemma AddedOwners(r: Reg, key: CGroup, g: GroupId, members: seq<TypeId>, s: Reg)
    requires Added(r, key, g, members, s)
    ensures Keeps(r.owner, s.owner) && Live(s.groups, g)
    ensures s.groups[g].value.members == members && OwnedBy(members, g, s.owner)
  {
  }

  /** What the invariant offers the making of a new group. */
  lemma AddFacts(h: History, key: CGroup)
    requires Run(h) && KeyOk(Now(h).reg, key)
    ensures Addable(Now(h).reg, key)
    ensures forall t: nat :: t in Now(h).meaning ==> Owned(Now(h).reg.owner, t)
  {
    RunKeepsInvariant(h);
    var r := Now(h).reg;
    forall g | g in Owed(r, key) ensures Live(r.groups, g) {
      var id := TargetsFrom(EdgeIds(key), r.owner, g);
    }
  }

  /** Filling slots no live type owns does not change where the new key's edges lead. */
  lemma OwedUnchanged(
    r: Reg, key: CGroup, g: GroupId, members: seq<TypeId>, owner: seq<Option<GroupId>>, types: seq<Option<CanonType>>)
    requires KeyOk(r, key) && TypesFilled(r.types, r.owner, key, g, members, types, owner)
    ensures Targets(EdgeIds(key), owner) == Owed(r, key)
  {
    TargetsAgree(EdgeIds(key), owner, r.owner);
  }

  /** Raising counts leaves the same slots empty. */
  lemma StillFree(
    before: seq<Option<GroupRecord>>, after: seq<Option<GroupRecord>>, free: seq<nat>, owed: multiset<GroupId>,
    g: GroupId)
    requires FreeExcept(before, free, [g]) && AllGained(before, after, owed)
    ensures FreeExcept(after, free, [g])
  {
  }

  /** The history extended by the making of a group. */
  lemma Grown(h: History, key: CGroup, g: GroupId, members: seq<TypeId>, r: Reg) returns (later: History)
    requires Run(h) && Now(h).stack == [] && KeyOk(Now(h).reg, key) && Added(Now(h).reg, key, g, members, r)
    ensures Run(later) && Now(later).reg == r && Now(later).stack == []
    ensures Now(later).held == Now(h).held + multiset{g}
    ensures SubMeaning(Now(h).meaning, Now(later).meaning)
    ensures Denotes(members, Expand(key, Now(h).meaning), Now(later).meaning)
  {
    var s := Now(h);
    AddFacts(h, key);
    var t := Sys(r, s.held + multiset{g}, [], Extended(s.meaning, key, members), s.birth[g := s.clock], s.clock + 1);
    assert Adds(s, key, g, members, t);
    later := Then(h, t);
    forall id | id in s.meaning ensures id !in members { assert Owned(s.reg.owner, id); }
  }

  /** A round of the worklist never takes a type away from a group that is still registered. */
  lemma RoundKeepsHeld(h: History, t: Sys)
    requires Run(h) && Rounds(Now(h), t) && Run(Then(h, t))
    ensures t.held == Now(h).held && KeepsHeld(Now(h).reg.owner, t.reg.owner, t.held)
  {
    RunKeepsInvariant(h);
    forall id: nat | Owned(Now(h).reg.owner, id) && Now(h).reg.owner[id].value in t.held
      ensures Owned(t.reg.owner, id) && t.reg.owner[id] == Now(h).reg.owner[id]
    {
      CountsBalance(Then(h, t), Now(h).reg.owner[id].value);
      HeldStepOwns(Now(h), t, Now(h).reg.owner[id].value, id);
    }
  }

  /** Giving up a list of held registrations one at a time. */
  lemma StillHeld(
    first: seq<Option<GroupId>>, owner: seq<Option<GroupId>>, held: multiset<GroupId>, owner': seq<Option<GroupId>>,
    held': multiset<GroupId>)
    requires KeepsHeld(first, owner, held) && KeepsHeld(owner, owner', held') && held' <= held
    ensures KeepsHeld(first, owner', held')
  {
  }

  lemma OneLess(ids: seq<GroupId>, i: nat, left: multiset<GroupId>, all: multiset<GroupId>)
    requires i < |ids| && multiset(ids[i..]) <= left && left + multiset(ids[..i]) == all
    ensures ids[i] in left && multiset(ids[i + 1..]) <= left - multiset{ids[i]}
    ensures (left - multiset{ids[i]}) + multiset(ids[..i + 1]) == all
  {
    assert ids[i..] == [ids[i]] + ids[i + 1..];
    assert ids[..i + 1] == ids[..i] + [ids[i]];
  }

  lemma {:induction false} AboveStaysNone(r: Reg, t: TypeId, n: nat, k: nat)
    requires n <= k && Above(r, t, n) == None
    ensures Above(r, t, k) == None
    decreases k
  {
    if n < k { AboveStaysNone(r, t, n, k - 1); }
  }
}
