/**
 Interning whole modules and host-built groups, and what the resulting ids mean: the expansion of a
 module's own type section, computed from the module alone.
 */
module Interning {
  import opened Options
  import opened Gathering
  import opened TypeForms
  import opened RegistryState
  import opened RegistrySteps
  import opened RegistryRuns
  import opened Registry
  import opened Structure

  // --- the module's rec groups: maximal runs of equal `group` ---

  function GroupStart(types: seq<ModuleType>, m: nat): (b: nat)
    requires m < |types|
    ensures b <= m && types[b].group == types[m].group
    ensures b == 0 || types[b - 1].group != types[b].group
    ensures forall k :: b <= k <= m ==> types[k].group == types[m].group
  {
    if m == 0 || types[m - 1].group != types[m].group then m else GroupStart(types, m - 1)
  }

  function GroupEnd(types: seq<ModuleType>, m: nat): (e: nat)
    requires m < |types|
    ensures m < e <= |types|
    ensures forall k :: m <= k < e ==> types[k].group == types[m].group
    ensures e == |types| || types[e].group != types[m].group
    decreases |types| - m
  {
    if m + 1 == |types| || types[m + 1].group != types[m].group then m + 1 else GroupEnd(types, m + 1)
  }

  /** The module-relative indices a type mentions. */
  function ModuleRefs(t: ModuleType): seq<nat> {
    TypeRefs(TypeKey(t, (n: nat) => n))
  }

  /** What validation guarantees: a type mentions types of its own or an earlier group only. */
  ghost predicate ModuleOk(types: seq<ModuleType>) {
    forall m, r :: 0 <= m < |types| && r in ModuleRefs(types[m]) ==> r < GroupEnd(types, m)
  }

  /** The expansion of the module's group starting at `base`: siblings relative, earlier groups unfolded. */
  ghost function ModuleTree(types: seq<ModuleType>, base: nat): (x: XGroup)
    requires base < |types|
    ensures |x| == GroupEnd(types, base) - base
    decreases base, 0
  {
    seq(GroupEnd(types, base) - base, i requires 0 <= i < GroupEnd(types, base) - base =>
      TypeKey(types[base + i], (n: nat) => if n < base then ModuleMeaning(types, n) else XRel(n - base)))
  }

  /** The fully expanded structure of the module's type `m`. */
  ghost function ModuleMeaning(types: seq<ModuleType>, m: nat): XRef
    requires m < |types|
    decreases m, 1
  {
    var base := GroupStart(types, m);
    XTo(ModuleTree(types, base), m - base)
  }

  /** What a module-relative index in the group starting at `base` stands for. */
  ghost function ModuleLeaf(types: seq<ModuleType>, base: nat): nat -> XRef
    requires base < |types|
  {
    (n: nat) => if n < base then ModuleMeaning(types, n) else XRel(n - base)
  }

  // --- structural identity, said of the modules alone ---

  /**
   Iso-recursive equality: the two types sit at the same place of groups that agree member by member.
   A reference to a sibling agrees with a reference to the sibling at the same place, and a reference
   to an earlier group with a reference to an equal type of an earlier group.
   */
  ghost predicate SameStructure(a: seq<ModuleType>, m: nat, b: seq<ModuleType>, n: nat)
    requires m < |a| && n < |b|
    decreases m, 2
  {
    m - GroupStart(a, m) == n - GroupStart(b, n) && SameGroup(a, GroupStart(a, m), b, GroupStart(b, n))
  }

  /** The groups starting at `s` and at `t` agree member by member. */
  ghost predicate SameGroup(a: seq<ModuleType>, s: nat, b: seq<ModuleType>, t: nat)
    requires s < |a| && t < |b|
    decreases s, 1
  {
    && GroupEnd(a, s) - s == GroupEnd(b, t) - t
    && forall i: nat :: i < GroupEnd(a, s) - s ==> SameMember(a, s, b, t, i)
  }

  ghost predicate SameMember(a: seq<ModuleType>, s: nat, b: seq<ModuleType>, t: nat, i: nat)
    requires s + i < |a| && t + i < |b|
    decreases s, 0
  {
    AlikeType(a[s + i], b[t + i], (x: nat, y: nat) =>
      if x < s && y < t then SameStructure(a, x, b, y) else x >= s && y >= t && x - s == y - t)
  }

  /** The expanded structures of two module types are equal exactly when the types are the same. */
  lemma {:induction false} MeaningsEqual(a: seq<ModuleType>, m: nat, b: seq<ModuleType>, n: nat)
    requires m < |a| && n < |b|
    ensures ModuleMeaning(a, m) == ModuleMeaning(b, n) <==> SameStructure(a, m, b, n)
    decreases m, 1
  {
    TreesEqual(a, GroupStart(a, m), b, GroupStart(b, n));
  }

  lemma {:induction false} TreesEqual(a: seq<ModuleType>, s: nat, b: seq<ModuleType>, t: nat)
    requires s < |a| && t < |b|
    ensures ModuleTree(a, s) == ModuleTree(b, t) <==> SameGroup(a, s, b, t)
    decreases s, 0
  {
    var f, g := ModuleLeaf(a, s), ModuleLeaf(b, t);
    var same := (x: nat, y: nat) =>
      if x < s && y < t then SameStructure(a, x, b, y) else x >= s && y >= t && x - s == y - t;
    forall x: nat, y: nat ensures same(x, y) <==> f(x) == g(y) {
      if x < s && y < t { MeaningsEqual(a, x, b, y); }
    }
    var p, q := ModuleTree(a, s), ModuleTree(b, t);
    forall i: nat | i < |p| && i < |q| ensures p[i] == q[i] <==> SameMember(a, s, b, t, i) {
      TypeKeysEqual(a[s + i], f, b[t + i], g, same);
    }
  }

  // --- references of a key ---

  lemma {:induction false} EdgeIdsFrom(key: CGroup, id: TypeId) returns (p: nat)
    requires id in EdgeIds(key)
    ensures p < |key| && Canon(id) in TypeRefs(key[p])
  {
    if id in CanonIds(TypeRefs(key[0])) {
      p := 0;
      CanonIdsFrom(TypeRefs(key[0]), id);
    } else {
      var q := EdgeIdsFrom(key[1..], id);
      p := q + 1;
    }
  }

  lemma {:induction false} CanonIdsFrom(refs: seq<CanonRef>, id: TypeId)
    requires id in CanonIds(refs)
    ensures Canon(id) in refs
  {
    if refs[0] != Canon(id) { CanonIdsFrom(refs[1..], id); }
  }

  // --- keys of a list of types under a translation of their indices ---

  function KeysOf(types: seq<ModuleType>, cref: nat -> CanonRef): (key: CGroup)
    ensures |key| == |types|
  {
    seq(|types|, i requires 0 <= i < |types| => TypeKey(types[i], cref))
  }

  lemma {:induction false} KeyRefFrom(t: ModuleType, cref: nat -> CanonRef, x: CanonRef) returns (n: nat)
    requires x in TypeRefs(TypeKey(t, cref))
    ensures n in ModuleRefs(t) && cref(n) == x
  {
    var id := (n: nat) => n;
    MapOfKey(t, id, cref, cref);
    n := TypeRefsFrom(TypeKey(t, id), cref, x);
  }

  /** What an index must translate to: a sibling of a group of `size` members, or a live id. */
  ghost predicate RefOk(x: CanonRef, size: nat, r: Reg) {
    if x.Rel? then x.pos < size else Owned(r.owner, x.id)
  }

  /** A key is fit to be interned when the translation of every mentioned index is. */
  lemma {:induction false} KeysOfOk(types: seq<ModuleType>, cref: nat -> CanonRef, r: Reg)
    requires forall i: nat, n :: i < |types| && n in ModuleRefs(types[i]) ==> RefOk(cref(n), |types|, r)
    ensures KeyOk(r, KeysOf(types, cref))
  {
    var key := KeysOf(types, cref);
    forall p: nat | p < |key| ensures RefsInRange(key[p], |key|) {
      forall x: CanonRef | x in TypeRefs(key[p]) && x.Rel? ensures x.pos < |key| {
        var n := KeyRefFrom(types[p], cref, x);
      }
    }
    forall id | id in EdgeIds(key) ensures Owned(r.owner, id) {
      var p := EdgeIdsFrom(key, id);
      var n := KeyRefFrom(types[p], cref, Canon(id));
    }
  }

  /** The expansion of such a key is the types themselves under the composed translation. */
  lemma {:induction false} KeysOfExpand(
    types: seq<ModuleType>, cref: nat -> CanonRef, meaning: map<TypeId, XRef>, h: nat -> XRef)
    requires forall n: nat :: h(n) == RefTree(meaning, cref(n))
    ensures Expand(KeysOf(types, cref), meaning) == seq(|types|, i requires 0 <= i < |types| => TypeKey(types[i], h))
  {
    var key := KeysOf(types, cref);
    var f := (r: CanonRef) => RefTree(meaning, r);
    forall i | 0 <= i < |types| ensures MapType(key[i], f) == TypeKey(types[i], h) {
      MapOfKey(types[i], cref, f, h);
    }
  }

  // --- interning a module ---

  /** `build_key`'s translation: a sibling becomes relative, an earlier type its canonical id. */
  function ModuleRef(base: nat, ids: seq<TypeId>, n: nat): CanonRef {
    if n < base && n < |ids| then Canon(ids[n]) else Rel(if n < base then 0 else n - base)
  }

  /** The module's types below `base` have been given ids that mean what the module says. */
  ghost predicate InternedUpTo(types: seq<ModuleType>, ids: seq<TypeId>, meaning: map<TypeId, XRef>) {
    |ids| <= |types| && forall m :: 0 <= m < |ids| ==> ids[m] in meaning && meaning[ids[m]] == ModuleMeaning(types, m)
  }

  /** Every id of `ids` belongs to one of the groups `gs`. */
  ghost predicate OwnedByOneOf(ids: seq<TypeId>, gs: seq<GroupId>, owner: seq<Option<GroupId>>) {
    forall m :: 0 <= m < |ids| ==> Owned(owner, ids[m]) && owner[ids[m]].value in gs
  }

  /** The key of the module's group at `base` can be interned. */
  lemma {:induction false} ModuleKeyOk(h: History, types: seq<ModuleType>, base: nat, ids: seq<TypeId>)
    requires Run(h) && ModuleOk(types) && base < |types| && |ids| == base
    requires InternedUpTo(types, ids, Now(h).meaning)
    ensures KeyOk(Now(h).reg, BuildKey(types, base, GroupEnd(types, base), ids))
  {
    var end := GroupEnd(types, base);
    var members := types[base..end];
    var cref := (n: nat) => ModuleRef(base, ids, n);
    forall i: nat, n | i < |members| && n in ModuleRefs(members[i]) ensures RefOk(cref(n), |members|, Now(h).reg) {
      SameEnd(types, base, base + i);
      assert members[i] == types[base + i];
      if n < base { MeaningIsOwned(h, ids[n]); }
    }
    KeysOfOk(members, cref, Now(h).reg);
  }

  /** That key expands to the group's tree. */
  lemma {:induction false} ModuleKeyExpands(
    types: seq<ModuleType>, base: nat, ids: seq<TypeId>, meaning: map<TypeId, XRef>)
    requires base < |types| && |ids| == base && InternedUpTo(types, ids, meaning)
    ensures Expand(BuildKey(types, base, GroupEnd(types, base), ids), meaning) == ModuleTree(types, base)
  {
    var members := types[base..GroupEnd(types, base)];
    var cref := (n: nat) => ModuleRef(base, ids, n);
    var tree := ModuleLeaf(types, base);
    KeysOfExpand(members, cref, meaning, tree);
    var x, y := Expand(KeysOf(members, cref), meaning), ModuleTree(types, base);
    forall i | 0 <= i < |members| ensures x[i] == y[i] {
      assert x[i] == TypeKey(members[i], tree);
      assert y[i] == TypeKey(types[base + i], tree);
    }
    assert x == y;
  }

  lemma MeaningIsOwned(h: History, id: TypeId)
    requires Run(h) && id in Now(h).meaning
    ensures Owned(Now(h).reg.owner, id)
  {
    RunKeepsInvariant(h);
  }

  lemma ExternalsOwned(h: History, externals: seq<TypeId>)
    requires Run(h) && forall e :: e in externals ==> e in Now(h).meaning
    ensures forall e :: e in externals ==> Owned(Now(h).reg.owner, e)
  {
    RunKeepsInvariant(h);
  }

  lemma {:induction false} SameEnd(types: seq<ModuleType>, base: nat, m: nat)
    requires base <= m < |types| && m < GroupEnd(types, base)
    ensures GroupEnd(types, m) == GroupEnd(types, base)
    decreases m - base
  {
    if base < m { SameEnd(types, base + 1, m); }
  }

  lemma {:induction false} SameStart(types: seq<ModuleType>, base: nat, m: nat)
    requires base <= m < |types| && m < GroupEnd(types, base) && GroupStart(types, base) == base
    ensures GroupStart(types, m) == base
  {
    if base < m {
      assert types[m - 1].group == types[base].group == types[m].group;
      SameStart(types, base, m - 1);
    }
  }

  // --- what is stored for a module's types ---

  /** Every live id stands for a group member, and no two ids for the same. */
  ghost predicate Exact(meaning: map<TypeId, XRef>) {
    forall x, y :: x in meaning && y in meaning ==> meaning[x].XTo? && (meaning[x] == meaning[y] <==> x == y)
  }

  lemma {:induction false} RunIsExact(h: History)
    requires Run(h)
    ensures Exact(Now(h).meaning)
  {
    var s := Now(h);
    forall x, y | x in s.meaning && y in s.meaning
      ensures s.meaning[x].XTo? && (s.meaning[x] == s.meaning[y] <==> x == y)
    {
      RunKeepsInvariant(h);
      var key, p := KeyOf(s.reg, s.meaning, x);
      IdsAreExact(h, x, y);
    }
  }

  function IdOf(ids: seq<TypeId>, n: nat): CanonRef {
    Canon(if n < |ids| then ids[n] else 0)
  }

  /** `c` is the module's type `t` with every module-relative index replaced by that type's id. */
  ghost predicate StoredAs(c: CanonType, t: ModuleType, ids: seq<TypeId>) {
    && KindFits(c.kind, c.body) && c.finality == t.finality
    && (c.supertype.Some? <==> t.supertype.Some?)
    && (c.supertype.Some? && t.supertype.Some? ==> Canon(c.supertype.value) == IdOf(ids, t.supertype.value))
    && c.body == BodyKey(t.body, (n: nat) => IdOf(ids, n))
  }

  /** A module's index unrolled one level stands for the module's type of that index. */
  lemma {:induction false} LeafUnrolled(types: seq<ModuleType>, base: nat, n: nat)
    requires base < |types| && GroupStart(types, base) == base && n < GroupEnd(types, base)
    ensures Unrolled(ModuleTree(types, base), ModuleLeaf(types, base)(n)) == ModuleMeaning(types, n)
  {
    if n >= base { SameStart(types, base, n); }
  }

  lemma StartsItself(types: seq<ModuleType>, m: nat)
    requires m < |types|
    ensures GroupStart(types, GroupStart(types, m)) == GroupStart(types, m)
    ensures m < GroupEnd(types, GroupStart(types, m)) == GroupEnd(types, m)
  {
    GroupReaches(types, GroupStart(types, m), m);
    SameEnd(types, GroupStart(types, m), m);
  }

  lemma {:induction false} GroupReaches(types: seq<ModuleType>, base: nat, m: nat)
    requires base <= m < |types| && forall k :: base <= k <= m ==> types[k].group == types[m].group
    ensures m < GroupEnd(types, base)
    decreases m - base
  {
    if base < m { GroupReaches(types, base + 1, m); }
  }

  /** The ids of the module's types, put in place of indices, stand for those types. */
  lemma {:induction false} IdsDenote(
    types: seq<ModuleType>, ids: seq<TypeId>, meaning: map<TypeId, XRef>, m: nat, n: nat)
    requires ModuleOk(types) && |ids| == |types| && InternedUpTo(types, ids, meaning)
    requires m < |types| && n in ModuleRefs(types[m])
    ensures n < |ids| && Denoted(meaning, IdOf(ids, n)) == ModuleMeaning(types, n)
    ensures Denoted(meaning, IdOf(ids, n)) ==
      Unrolled(ModuleTree(types, GroupStart(types, m)), ModuleLeaf(types, GroupStart(types, m))(n))
  {
    StartsItself(types, m);
    LeafUnrolled(types, GroupStart(types, m), n);
  }

  lemma {:induction false} BodyRefFrom<R>(t: ModuleType, cref: nat -> R, x: R) returns (n: nat)
    requires x in BodyRefs(BodyKey(t.body, cref))
    ensures n in ModuleRefs(t) && cref(n) == x
  {
    var id := (n: nat) => n;
    MapOfKey(t, id, cref, cref);
    n := BodyRefsFrom(TypeKey(t, id).body, cref, x);
  }

  /** Keying a body with ids and looking up their meanings is unrolling the module's expanded body. */
  lemma {:induction false} KeyedBodyMeans(
    types: seq<ModuleType>, ids: seq<TypeId>, meaning: map<TypeId, XRef>, m: nat)
    requires ModuleOk(types) && |ids| == |types| && InternedUpTo(types, ids, meaning) && m < |types|
    ensures var base := GroupStart(types, m);
      MapBody(BodyKey(types[m].body, (n: nat) => IdOf(ids, n)), (r: CanonRef) => Denoted(meaning, r)) ==
        MapBody(BodyKey(types[m].body, ModuleLeaf(types, base)), (y: XRef) => Unrolled(ModuleTree(types, base), y))
  {
    var t, base := types[m], GroupStart(types, m);
    var tree, leaf := ModuleTree(types, base), ModuleLeaf(types, base);
    var id, byId := (n: nat) => n, (n: nat) => IdOf(ids, n);
    var f, g := (r: CanonRef) => Denoted(meaning, r), (y: XRef) => Unrolled(tree, y);
    var fs, gs := (n: nat) => Denoted(meaning, IdOf(ids, n)), (n: nat) => Unrolled(tree, leaf(n));
    MapOfKey(t, id, byId, byId);
    MapOfKey(t, id, leaf, leaf);
    var plain := BodyKey(t.body, id);
    forall n | n in BodyRefs(plain) ensures fs(n) == gs(n) {
      assert n in ModuleRefs(t);
      IdsDenote(types, ids, meaning, m, n);
    }
    MapBodyAgree(plain, fs, gs);
    MapBodyTwice(plain, byId, f, fs);
    MapBodyTwice(plain, leaf, g, gs);
  }

  /**
   In every reachable state the registry stores, for each type of an interned module, the type as
   declared with ids in place of indices: kind, finality, supertype and body.
   */
  lemma {:induction false} StoredAsDeclared(h: History, types: seq<ModuleType>, ids: seq<TypeId>, m: nat)
    requires Run(h) && ModuleOk(types) && |ids| == |types| && m < |types|
    requires InternedUpTo(types, ids, Now(h).meaning)
    ensures ids[m] < |Now(h).reg.types| && Now(h).reg.types[ids[m]].Some?
    ensures StoredAs(Now(h).reg.types[ids[m]].value, types[m], ids)
  {
    StoredTypesMean(h, ids[m]);
    RunIsExact(h);
    StoredIsKey(types, ids, Now(h).meaning, m, Now(h).reg.types[ids[m]].value);
  }

  /** Every type of the module is stored, as declared, under its id. */
  ghost predicate AllStored(types: seq<ModuleType>, ids: seq<TypeId>, stored: seq<Option<CanonType>>) {
    |ids| == |types| && forall m :: 0 <= m < |ids| ==>
      ids[m] < |stored| && stored[ids[m]].Some? && StoredAs(stored[ids[m]].value, types[m], ids)
  }

  lemma ModuleIsStored(h: History, types: seq<ModuleType>, ids: seq<TypeId>)
    requires Run(h) && ModuleOk(types) && |ids| == |types| && InternedUpTo(types, ids, Now(h).meaning)
    ensures AllStored(types, ids, Now(h).reg.types)
  {
    forall m: nat | m < |ids|
      ensures ids[m] < |Now(h).reg.types| && Now(h).reg.types[ids[m]].Some?
      ensures StoredAs(Now(h).reg.types[ids[m]].value, types[m], ids)
    {
      StoredAsDeclared(h, types, ids, m);
    }
  }

  lemma {:induction false} StoredIsKey(
    types: seq<ModuleType>, ids: seq<TypeId>, meaning: map<TypeId, XRef>, m: nat, c: CanonType)
    requires ModuleOk(types) && |ids| == |types| && m < |types| && InternedUpTo(types, ids, meaning) && Exact(meaning)
    requires var base := GroupStart(types, m);
      m - base < |ModuleTree(types, base)| &&
      Presents(c, ModuleTree(types, base)[m - base], ModuleTree(types, base), meaning)
    ensures StoredAs(c, types[m], ids)
  {
    var base := GroupStart(types, m);
    var byId := (n: nat) => IdOf(ids, n);
    var f := (r: CanonRef) => Denoted(meaning, r);
    StartsItself(types, m);
    assert ModuleTree(types, base)[m - base] == TypeKey(types[base + (m - base)], ModuleLeaf(types, base));
    var key := BodyKey(types[m].body, byId);
    KeyedBodyMeans(types, ids, meaning, m);
    forall r, s | r in BodyRefs(c.body) && s in BodyRefs(key) && f(r) == f(s) ensures r == s {
      var n := BodyRefFrom(types[m], byId, s);
      IdsDenote(types, ids, meaning, m, n);
    }
    MapBodyInjective(c.body, key, f);
    if c.supertype.Some? {
      var n := types[m].supertype.value;
      assert n in ModuleRefs(types[m]);
      IdsDenote(types, ids, meaning, m, n);
    }
  }

  /**
   Interns a module's types group by group, in order. Returns a canonical id per type and the
   registrations taken; each id means exactly what the module says about that type, and the type
   stored under it is the declared one with ids in place of indices.
   */
  method InternModule(reg: TypeRegistry, types: seq<ModuleType>) returns (ids: seq<TypeId>, registered: seq<GroupId>)
    requires reg.Valid() && ModuleOk(types)
    modifies reg
    ensures reg.Valid() && reg.Held() == old(reg.Held()) + multiset(registered)
    ensures SubMeaning(old(reg.Meaning()), reg.Meaning())
    ensures |ids| == |types| && InternedUpTo(types, ids, reg.Meaning()) && AllStored(types, ids, reg.types)
    ensures Keeps(old(reg.typeToGroup), reg.typeToGroup) && OwnedByOneOf(ids, registered, reg.typeToGroup)
  {
    ids, registered := [], [];
    var i := 0;
    while i < |types|
      invariant 0 <= i <= |types| && |ids| == i
      invariant i < |types| ==> GroupStart(types, i) == i
      invariant reg.Valid() && reg.Held() == old(reg.Held()) + multiset(registered)
      invariant SubMeaning(old(reg.Meaning()), reg.Meaning())
      invariant InternedUpTo(types, ids, reg.Meaning())
      invariant Keeps(old(reg.typeToGroup), reg.typeToGroup) && OwnedByOneOf(ids, registered, reg.typeToGroup)
    {
      var base := i;
      i := FindGroupEnd(types, base);
      var g, members := InternRun(reg, types, base, i, ids);
      ids := ids + members;
      registered := registered + [g];
    }
    ModuleIsStored(reg.history, types, ids);
  }

  /** Interns the module's group `types[base..end]`, the types before it having the ids `ids`. */
  method InternRun(reg: TypeRegistry, types: seq<ModuleType>, base: nat, end: nat, ids: seq<TypeId>)
    returns (g: GroupId, members: seq<TypeId>)
    requires reg.Valid() && ModuleOk(types) && |ids| == base < |types| && GroupStart(types, base) == base
    requires end == GroupEnd(types, base) && InternedUpTo(types, ids, reg.Meaning())
    modifies reg
    ensures reg.Valid() && reg.Held() == old(reg.Held()) + multiset{g}
    ensures SubMeaning(old(reg.Meaning()), reg.Meaning())
    ensures |ids + members| == end && InternedUpTo(types, ids + members, reg.Meaning())
    ensures Keeps(old(reg.typeToGroup), reg.typeToGroup) && OwnedBy(members, g, reg.typeToGroup)
  {
    ModuleKeyOk(reg.history, types, base, ids);
    ModuleKeyExpands(types, base, ids, reg.Meaning());
    var key := BuildKey(types, base, end, ids);
    g := reg.InternGroup(key);
    members := reg.groups[g].value.members;
    GroupInterned(types, base, ids, members, reg.Meaning());
  }

  method FindGroupEnd(types: seq<ModuleType>, base: nat) returns (i: nat)
    requires base < |types| && GroupStart(types, base) == base
    ensures i == GroupEnd(types, base)
    ensures i < |types| ==> GroupStart(types, i) == i
  {
    i := base;
    while i < |types| && types[i].group == types[base].group
      invariant base <= i <= |types|
      invariant (i < |types| && types[i].group == types[base].group ==> GroupEnd(types, i) == GroupEnd(types, base))
      invariant i > base ==> types[i - 1].group == types[base].group
      invariant i > base && (i == |types| || types[i].group != types[base].group) ==> i == GroupEnd(types, base)
    {
      i := i + 1;
    }
  }

  function BuildKey(types: seq<ModuleType>, base: nat, end: nat, ids: seq<TypeId>): CGroup
    requires base <= end <= |types|
  {
    KeysOf(types[base..end], (n: nat) => ModuleRef(base, ids, n))
  }

  lemma {:induction false} GroupInterned(
    types: seq<ModuleType>, base: nat, ids: seq<TypeId>, members: seq<TypeId>, meaning: map<TypeId, XRef>)
    requires base < |types| && |ids| == base && GroupStart(types, base) == base
    requires InternedUpTo(types, ids, meaning) && Denotes(members, ModuleTree(types, base), meaning)
    ensures InternedUpTo(types, ids + members, meaning) && |ids + members| == GroupEnd(types, base)
  {
    var all := ids + members;
    forall m | 0 <= m < |all| ensures all[m] in meaning && meaning[all[m]] == ModuleMeaning(types, m) {
      if m >= base { SameStart(types, base, m); }
    }
  }

  // --- interning a host-built group ---

  /** `intern_host_group`'s translation: an index below `n` is a sibling, the rest count through `externals`. */
  function HostRef(n: nat, externals: seq<TypeId>, i: nat): CanonRef {
    if i < n || i - n >= |externals| then Rel(i) else Canon(externals[i - n])
  }

  /** What an index in a host-built group of `size` members stands for. */
  ghost function HostLeaf(size: nat, externals: seq<XRef>): nat -> XRef {
    (n: nat) => if n < size || n - size >= |externals| then XRel(n) else externals[n - size]
  }

  /** The expansion of a host-built group whose externals have the given structures. */
  ghost function HostTree(members: seq<ModuleType>, externals: seq<XRef>): (x: XGroup)
    ensures |x| == |members|
  {
    seq(|members|, i requires 0 <= i < |members| => TypeKey(members[i], HostLeaf(|members|, externals)))
  }

  method InternHostGroup(reg: TypeRegistry, members: seq<ModuleType>, externals: seq<TypeId>)
    returns (ids: seq<TypeId>, g: GroupId)
    requires reg.Valid()
    requires forall i, r :: 0 <= i < |members| && r in ModuleRefs(members[i]) ==> r < |members| + |externals|
    requires forall e :: e in externals ==> e in reg.Meaning()
    modifies reg
    ensures reg.Valid() && reg.Held() == old(reg.Held()) + multiset{g}
    ensures SubMeaning(old(reg.Meaning()), reg.Meaning()) && Keeps(old(reg.typeToGroup), reg.typeToGroup)
    ensures OwnedBy(ids, g, reg.typeToGroup)
    ensures Denotes(ids, HostTree(members, Meanings(externals, old(reg.Meaning()))), reg.Meaning())
  {
    ghost var meaning := reg.Meaning();
    ExternalsOwned(reg.history, externals);
    HostKeyOk(reg.State(), members, externals);
    HostKeyExpands(members, externals, meaning);
    var n := |members|;
    var key := KeysOf(members, (i: nat) => HostRef(n, externals, i));
    g := reg.InternGroup(key);
    ids := reg.groups[g].value.members;
  }

  ghost function Meanings(ids: seq<TypeId>, meaning: map<TypeId, XRef>): (x: seq<XRef>)
    requires forall e :: e in ids ==> e in meaning
    ensures |x| == |ids| && forall i :: 0 <= i < |ids| ==> x[i] == meaning[ids[i]]
  {
    seq(|ids|, i requires 0 <= i < |ids| => meaning[ids[i]])
  }

  lemma {:induction false} HostKeyOk(r: Reg, members: seq<ModuleType>, externals: seq<TypeId>)
    requires forall i, x :: 0 <= i < |members| && x in ModuleRefs(members[i]) ==> x < |members| + |externals|
    requires forall e :: e in externals ==> Owned(r.owner, e)
    ensures var n := |members|; KeyOk(r, KeysOf(members, (i: nat) => HostRef(n, externals, i)))
  {
    var n := |members|;
    KeysOfOk(members, (i: nat) => HostRef(n, externals, i), r);
  }

  lemma {:induction false} HostKeyExpands(members: seq<ModuleType>, externals: seq<TypeId>, meaning: map<TypeId, XRef>)
    requires forall e :: e in externals ==> e in meaning
    ensures var n := |members|;
      Expand(KeysOf(members, (i: nat) => HostRef(n, externals, i)), meaning) ==
        HostTree(members, Meanings(externals, meaning))
  {
    var n := |members|;
    var cref := (i: nat) => HostRef(n, externals, i);
    var xs := Meanings(externals, meaning);
    var tree := HostLeaf(n, xs);
    KeysOfExpand(members, cref, meaning, tree);
    var x, y := Expand(KeysOf(members, cref), meaning), HostTree(members, xs);
    forall i | 0 <= i < n ensures x[i] == y[i] {
      assert x[i] == TypeKey(members[i], tree);
      assert y[i] == TypeKey(members[i], tree);
    }
    assert x == y;
  }

  /** Host-built groups expand alike exactly when they agree member by member, externals by structure. */
  lemma {:induction false} HostTreesEqual(
    members: seq<ModuleType>, xs: seq<XRef>, others: seq<ModuleType>, ys: seq<XRef>, same: (nat, nat) -> bool)
    requires Meets(same, HostLeaf(|members|, xs), HostLeaf(|others|, ys))
    ensures HostTree(members, xs) == HostTree(others, ys) <==>
      |members| == |others| && forall i :: 0 <= i < |members| ==> AlikeType(members[i], others[i], same)
  {
    var p, q := HostTree(members, xs), HostTree(others, ys);
    var f, g := HostLeaf(|members|, xs), HostLeaf(|others|, ys);
    forall i | 0 <= i < |p| && i < |q| ensures p[i] == q[i] <==> AlikeType(members[i], others[i], same) {
      TypeKeysEqual(members[i], f, others[i], g, same);
    }
  }

  /** Whether an index in a group of `size` host-built members names one of the externals. */
  predicate IsExternal(size: nat, externals: seq<TypeId>, x: nat) {
    size <= x < size + |externals|
  }

  /** References of two host-built groups agree: externals by id, siblings by place. */
  function HostSame(size: nat, externals: seq<TypeId>, size': nat, externals': seq<TypeId>): (nat, nat) -> bool {
    (x: nat, y: nat) =>
      if IsExternal(size, externals, x) && IsExternal(size', externals', y)
      then externals[x - size] == externals'[y - size']
      else !IsExternal(size, externals, x) && !IsExternal(size', externals', y) && x == y
  }

  /** A reference of a host-built group agrees with one of the module group that starts at `base`. */
  function HostModuleSame(size: nat, externals: seq<TypeId>, base: nat, ids: seq<TypeId>): (nat, nat) -> bool {
    (x: nat, y: nat) =>
      if IsExternal(size, externals, x) && y < base && y < |ids| then externals[x - size] == ids[y]
      else !IsExternal(size, externals, x) && y >= base && x == y - base
  }

  /** Indices of two host-built groups agree exactly when they stand for the same. */
  lemma {:induction false} HostLeavesEqual(
    meaning: map<TypeId, XRef>, size: nat, externals: seq<TypeId>, size': nat, externals': seq<TypeId>)
    requires Exact(meaning) && forall e :: e in externals || e in externals' ==> e in meaning
    ensures Meets(HostSame(size, externals, size', externals'),
                  HostLeaf(size, Meanings(externals, meaning)), HostLeaf(size', Meanings(externals', meaning)))
  {
    var same := HostSame(size, externals, size', externals');
    var xs, ys := Meanings(externals, meaning), Meanings(externals', meaning);
    var f, g := HostLeaf(size, xs), HostLeaf(size', ys);
    forall x: nat, y: nat ensures same(x, y) <==> f(x) == g(y) {
      assert IsExternal(size, externals, x) ==> f(x) == meaning[externals[x - size]];
      assert IsExternal(size', externals', y) ==> g(y) == meaning[externals'[y - size']];
    }
  }

  /** Two host-built types have the same id exactly for alike groups, whose externals have the same ids. */
  lemma {:induction false} HostIdsExact(
    h: History, members: seq<ModuleType>, externals: seq<TypeId>, ids: seq<TypeId>, p: nat,
    members': seq<ModuleType>, externals': seq<TypeId>, ids': seq<TypeId>, q: nat)
    requires Run(h) && p < |ids| && q < |ids'|
    requires forall e :: e in externals || e in externals' ==> e in Now(h).meaning
    requires Denotes(ids, HostTree(members, Meanings(externals, Now(h).meaning)), Now(h).meaning)
    requires Denotes(ids', HostTree(members', Meanings(externals', Now(h).meaning)), Now(h).meaning)
    ensures ids[p] == ids'[q] <==>
      p == q && |members| == |members'| &&
      forall i :: 0 <= i < |members| ==>
        AlikeType(members[i], members'[i], HostSame(|members|, externals, |members'|, externals'))
  {
    var xs, ys := Meanings(externals, Now(h).meaning), Meanings(externals', Now(h).meaning);
    RunIsExact(h);
    HostLeavesEqual(Now(h).meaning, |members|, externals, |members'|, externals');
    HostTreesEqual(members, xs, members', ys, HostSame(|members|, externals, |members'|, externals'));
  }

  lemma {:induction false} HostModuleLeavesEqual(
    meaning: map<TypeId, XRef>, size: nat, externals: seq<TypeId>, types: seq<ModuleType>, base: nat, ids: seq<TypeId>)
    requires base < |types| && base <= |ids|
    requires Exact(meaning) && forall e :: e in externals ==> e in meaning
    requires InternedUpTo(types, ids, meaning)
    ensures Meets(HostModuleSame(size, externals, base, ids), HostLeaf(size, Meanings(externals, meaning)),
                  ModuleLeaf(types, base))
  {
    var same := HostModuleSame(size, externals, base, ids);
    var f, g := HostLeaf(size, Meanings(externals, meaning)), ModuleLeaf(types, base);
    forall x: nat, y: nat ensures same(x, y) <==> f(x) == g(y) {
      assert IsExternal(size, externals, x) ==> f(x) == meaning[externals[x - size]];
      assert y < base ==> g(y) == meaning[ids[y]];
    }
  }

  /** A host-built group and a module's group expand alike exactly when they agree member by member. */
  lemma {:induction false} HostModuleTreesEqual(
    members: seq<ModuleType>, xs: seq<XRef>, types: seq<ModuleType>, base: nat, same: (nat, nat) -> bool)
    requires base < |types| && Meets(same, HostLeaf(|members|, xs), ModuleLeaf(types, base))
    ensures HostTree(members, xs) == ModuleTree(types, base) <==>
      |members| == GroupEnd(types, base) - base &&
      forall i: nat :: i < |members| ==> AlikeType(members[i], types[base + i], same)
  {
    var t, u := HostTree(members, xs), ModuleTree(types, base);
    forall i: nat | i < |t| && i < |u| ensures t[i] == u[i] <==> AlikeType(members[i], types[base + i], same) {
      TypeKeysEqual(members[i], HostLeaf(|members|, xs), types[base + i], ModuleLeaf(types, base), same);
    }
  }

  /** The host-built group and the module's group that starts at `base` agree member by member. */
  ghost predicate HostAlike(
    members: seq<ModuleType>, externals: seq<TypeId>, types: seq<ModuleType>, ids: seq<TypeId>, base: nat)
    requires base < |types|
  {
    && |members| == GroupEnd(types, base) - base
    && forall i: nat :: i < |members| ==>
        AlikeType(members[i], types[base + i], HostModuleSame(|members|, externals, base, ids))
  }

  lemma {:induction false} HostAlikeMeans(
    meaning: map<TypeId, XRef>, members: seq<ModuleType>, externals: seq<TypeId>,
    types: seq<ModuleType>, ids: seq<TypeId>, base: nat)
    requires Exact(meaning) && base < |types| && base <= |ids| && InternedUpTo(types, ids, meaning)
    requires forall e :: e in externals ==> e in meaning
    ensures HostTree(members, Meanings(externals, meaning)) == ModuleTree(types, base) <==>
      HostAlike(members, externals, types, ids, base)
  {
    HostModuleLeavesEqual(meaning, |members|, externals, types, base, ids);
    HostModuleTreesEqual(
      members, Meanings(externals, meaning), types, base, HostModuleSame(|members|, externals, base, ids));
  }

  /**
   A host-built type has the id of a loaded module's type exactly when the two sit at the same place of
   groups that are alike.
   */
  lemma {:induction false} HostMatchesModule(
    h: History, members: seq<ModuleType>, externals: seq<TypeId>, ids: seq<TypeId>, p: nat,
    types: seq<ModuleType>, ids': seq<TypeId>, m: nat)
    requires Run(h) && p < |ids| && m < |ids'| <= |types|
    requires forall e :: e in externals ==> e in Now(h).meaning
    requires Denotes(ids, HostTree(members, Meanings(externals, Now(h).meaning)), Now(h).meaning)
    requires InternedUpTo(types, ids', Now(h).meaning)
    ensures var base := GroupStart(types, m);
      ids[p] == ids'[m] <==> p == m - base && HostAlike(members, externals, types, ids', base)
  {
    RunIsExact(h);
    HostAlikeMeans(Now(h).meaning, members, externals, types, ids', GroupStart(types, m));
  }

  // --- any sequence of module loads and drops ---

  datatype Command = Load(types: seq<ModuleType>) | Unload(k: nat)

  /** A loaded module's ids mean what the module says, and belong to the groups it registered. */
  ghost predicate ClientOk(
    types: seq<ModuleType>, ids: seq<TypeId>, regs: seq<GroupId>, meaning: map<TypeId, XRef>,
    owner: seq<Option<GroupId>>)
  {
    InternedUpTo(types, ids, meaning) && OwnedByOneOf(ids, regs, owner)
  }

  ghost predicate ClientsOk(
    modules: seq<seq<ModuleType>>, ids: seq<seq<TypeId>>, regs: seq<seq<GroupId>>,
    meaning: map<TypeId, XRef>, owner: seq<Option<GroupId>>)
  {
    |modules| == |ids| == |regs| &&
    forall k :: 0 <= k < |modules| ==> ClientOk(modules[k], ids[k], regs[k], meaning, owner)
  }

  /** Two types of loaded modules share an id exactly when they have the same structure. */
  ghost predicate SharedExactly(modules: seq<seq<ModuleType>>, ids: seq<seq<TypeId>>) {
    && |modules| == |ids|
    && (forall k :: 0 <= k < |ids| ==> |ids[k]| <= |modules[k]|)
    && (forall j, k, m, n :: 0 <= j < |ids| && 0 <= k < |ids| && 0 <= m < |ids[j]| && 0 <= n < |ids[k]| ==>
          (ids[j][m] == ids[k][n] <==> SameStructure(modules[j], m, modules[k], n)))
  }

  /**
   Runs any sequence of module loads and unloads on a fresh registry; an unloaded module's ids and
   registrations are emptied. At the end two types of loaded modules have the same canonical id
   exactly when they have the same structure, and with no module left the registry is empty.
   */
  method Replay(script: seq<Command>)
    returns (reg: TypeRegistry, modules: seq<seq<ModuleType>>, ids: seq<seq<TypeId>>, regs: seq<seq<GroupId>>)
    requires forall c :: c in script && c.Load? ==> ModuleOk(c.types)
    ensures fresh(reg) && reg.Valid() && reg.Held() == Gather(regs)
    ensures SharedExactly(modules, ids)
    ensures (forall k :: 0 <= k < |regs| ==> regs[k] == []) ==> reg.interned == map[]
  {
    reg := new TypeRegistry();
    modules, ids, regs := [], [], [];
    for i := 0 to |script|
      invariant reg.Valid() && fresh(reg) && reg.Held() == Gather(regs)
      invariant ClientsOk(modules, ids, regs, reg.Meaning(), reg.typeToGroup)
    {
      match script[i]
      case Load(types) =>
        assert script[i] in script;
        modules, ids, regs := LoadOne(reg, types, modules, ids, regs);
      case Unload(k) =>
        if k < |regs| {
          ids, regs := UnloadOne(reg, modules, ids, regs, k);
        }
    }
    LoadedIdsExact(reg.history, modules, ids, regs);
  }

  lemma {:induction false} LoadedIdsExact(
    h: History, modules: seq<seq<ModuleType>>, ids: seq<seq<TypeId>>, regs: seq<seq<GroupId>>)
    requires Run(h) && Now(h).stack == [] && Now(h).held == Gather(regs)
    requires ClientsOk(modules, ids, regs, Now(h).meaning, Now(h).reg.owner)
    ensures SharedExactly(modules, ids)
    ensures (forall k :: 0 <= k < |regs| ==> regs[k] == []) ==> Now(h).reg.interned == map[]
  {
    forall j, k, m, n | 0 <= j < |ids| && 0 <= k < |ids| && 0 <= m < |ids[j]| && 0 <= n < |ids[k]|
      ensures ids[j][m] == ids[k][n] <==> SameStructure(modules[j], m, modules[k], n)
    {
      assert ClientOk(modules[j], ids[j], regs[j], Now(h).meaning, Now(h).reg.owner);
      assert ClientOk(modules[k], ids[k], regs[k], Now(h).meaning, Now(h).reg.owner);
      IdsAreExact(h, ids[j][m], ids[k][n]);
      MeaningsEqual(modules[j], m, modules[k], n);
    }
    if forall k :: 0 <= k < |regs| ==> regs[k] == [] {
      GatherEmpty(regs);
      LiveExactlyReached(h, 0);
    }
  }

  method LoadOne(
    reg: TypeRegistry, types: seq<ModuleType>, modules: seq<seq<ModuleType>>, ids: seq<seq<TypeId>>,
    regs: seq<seq<GroupId>>)
    returns (modules': seq<seq<ModuleType>>, ids': seq<seq<TypeId>>, regs': seq<seq<GroupId>>)
    requires reg.Valid() && ModuleOk(types) && reg.Held() == Gather(regs)
    requires ClientsOk(modules, ids, regs, reg.Meaning(), reg.typeToGroup)
    modifies reg
    ensures reg.Valid() && reg.Held() == Gather(regs') && modules' == modules + [types]
    ensures ClientsOk(modules', ids', regs', reg.Meaning(), reg.typeToGroup)
  {
    var newIds, registered := InternModule(reg, types);
    GatherPush(regs, registered);
    modules', ids', regs' := modules + [types], ids + [newIds], regs + [registered];
    forall k | 0 <= k < |modules|
      ensures ClientOk(modules[k], ids[k], regs[k], reg.Meaning(), reg.typeToGroup)
    {
      assert ClientOk(modules[k], ids[k], regs[k], old(reg.Meaning()), old(reg.typeToGroup));
    }
  }

  /** Releases everything module `k` registered; the other loaded modules keep all their ids. */
  method UnloadOne(
    reg: TypeRegistry, modules: seq<seq<ModuleType>>, ids: seq<seq<TypeId>>, regs: seq<seq<GroupId>>, k: nat)
    returns (ids': seq<seq<TypeId>>, regs': seq<seq<GroupId>>)
    requires reg.Valid() && reg.Held() == Gather(regs) && k < |regs|
    requires ClientsOk(modules, ids, regs, reg.Meaning(), reg.typeToGroup)
    modifies reg
    ensures reg.Valid() && reg.Held() == Gather(regs') && ids' == ids[k := []] && regs' == regs[k := []]
    ensures ClientsOk(modules, ids', regs', reg.Meaning(), reg.typeToGroup)
  {
    ids', regs' := ids[k := []], regs[k := []];
    OneDropped(regs, k);
    reg.Release(regs[k]);
    ClientsKept(reg.history, modules, ids, regs, k, old(reg.Meaning()), old(reg.typeToGroup));
  }

  lemma OneDropped(regs: seq<seq<GroupId>>, k: nat)
    requires k < |regs|
    ensures multiset(regs[k]) <= Gather(regs) && Gather(regs[k := []]) == Gather(regs) - multiset(regs[k])
  {
    var none: seq<GroupId> := [];
    GatherUpdate(regs, k, none);
    var now, gone := Gather(regs[k := none]), multiset(regs[k]);
    assert now + gone == Gather(regs) + multiset(none) == Gather(regs);
    assert (now + gone) - gone == now;
  }

  lemma {:induction false} ClientsKept(
    h: History, modules: seq<seq<ModuleType>>, ids: seq<seq<TypeId>>, regs: seq<seq<GroupId>>, k: nat,
    meaning: map<TypeId, XRef>, owner: seq<Option<GroupId>>)
    requires Run(h) && k < |regs| && Now(h).held == Gather(regs[k := []])
    requires ClientsOk(modules, ids, regs, meaning, owner)
    requires SubMeaning(Now(h).meaning, meaning) && KeepsHeld(owner, Now(h).reg.owner, Now(h).held)
    ensures ClientsOk(modules, ids[k := []], regs[k := []], Now(h).meaning, Now(h).reg.owner)
  {
    forall j | 0 <= j < |modules|
      ensures ClientOk(modules[j], ids[k := []][j], regs[k := []][j], Now(h).meaning, Now(h).reg.owner)
    {
      if j != k {
        assert ClientOk(modules[j], ids[j], regs[j], meaning, owner);
        ClientKept(h, modules[j], ids[j], regs[k := []], j, meaning, owner);
      }
    }
  }

  lemma {:induction false} ClientKept(
    h: History, types: seq<ModuleType>, ids: seq<TypeId>, regs: seq<seq<GroupId>>, j: nat,
    meaning: map<TypeId, XRef>, owner: seq<Option<GroupId>>)
    requires Run(h) && j < |regs| && Now(h).held == Gather(regs)
    requires ClientOk(types, ids, regs[j], meaning, owner)
    requires SubMeaning(Now(h).meaning, meaning) && KeepsHeld(owner, Now(h).reg.owner, Now(h).held)
    ensures ClientOk(types, ids, regs[j], Now(h).meaning, Now(h).reg.owner)
  {
    forall m | 0 <= m < |ids|
      ensures Owned(Now(h).reg.owner, ids[m]) && Now(h).reg.owner[ids[m]] == owner[ids[m]] && ids[m] in Now(h).meaning
    {
      GatherHas(regs, j, owner[ids[m]].value);
      OwnerIsLive(h, ids[m]);
    }
  }
}
