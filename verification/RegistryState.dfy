/**
 The state of the canonical type registry (`src/canon/registry.rs`) and the invariant every
 operation keeps. Alongside the stored fields three specification-only values are followed: the
 outstanding registrations `held`, the expanded structure `meaning` of every live type id, and a
 birth stamp per live group.
 */
module RegistryState {
  import opened Options
  import opened FreeLists
  import opened Gathering
  import opened TypeForms

  datatype CanonType =
    CanonType(kind: AggKind, finality: Finality, supertype: Option<TypeId>, body: CBody<CanonRef>)
  datatype GroupRecord = GroupRecord(key: CGroup, members: seq<TypeId>, refcount: nat)

  datatype Reg = Reg(
    types: seq<Option<CanonType>>,
    owner: seq<Option<GroupId>>,
    freeTypes: seq<TypeId>,
    groups: seq<Option<GroupRecord>>,
    freeGroups: seq<GroupId>,
    interned: map<CGroup, GroupId>)

  predicate Live(groups: seq<Option<GroupRecord>>, g: nat) {
    g < |groups| && groups[g].Some?
  }

  predicate Owned(owner: seq<Option<GroupId>>, id: nat) {
    id < |owner| && owner[id].Some?
  }

  // --- resolution of a key against its members ---

  /** `resolve`: a sibling position becomes that member's canonical id. */
  function Resolve(r: CanonRef, members: seq<TypeId>): TypeId
    requires r.Rel? ==> r.pos < |members|
  {
    match r
    case Rel(p) => members[p]
    case Canon(c) => c
  }

  /** `resolve` as stored in a body; a position out of range, which no valid key has, is left alone. */
  function ResolveRef(r: CanonRef, members: seq<TypeId>): CanonRef {
    if r.Rel? && r.pos >= |members| then r else Canon(Resolve(r, members))
  }

  function BodyKind<R>(b: CBody<R>): AggKind {
    match b case Func(_, _) => AggFunc case Struct(_) => AggStruct case Array(_) => AggArray
  }

  predicate RefsInRange(t: CType<CanonRef>, n: nat) {
    forall r :: r in TypeRefs(t) && r.Rel? ==> r.pos < n
  }

  /** The registered form of one group member: every reference resolved to an absolute id. */
  function StoredType(t: CType<CanonRef>, members: seq<TypeId>): CanonType
    requires RefsInRange(t, |members|)
  {
    var supertype := if t.supertype.Some? then
        assert t.supertype.value in TypeRefs(t); Some(Resolve(t.supertype.value, members))
      else None;
    CanonType(BodyKind(t.body), t.finality, supertype, MapBody(t.body, (r: CanonRef) => ResolveRef(r, members)))
  }

  // --- cross-group edges ---

  function CanonIds(refs: seq<CanonRef>): seq<TypeId> {
    if refs == [] then [] else (if refs[0].Canon? then [refs[0].id] else []) + CanonIds(refs[1..])
  }

  /** `edge_canon_ids`: the absolute ids a key mentions, one entry per occurrence. */
  function EdgeIds(key: CGroup): seq<TypeId> {
    if key == [] then [] else CanonIds(TypeRefs(key[0])) + EdgeIds(key[1..])
  }

  lemma {:induction false} CanonIdsHas(refs: seq<CanonRef>, id: TypeId)
    requires Canon(id) in refs
    ensures id in CanonIds(refs)
  {
    if refs[0] != Canon(id) { CanonIdsHas(refs[1..], id); }
  }

  lemma {:induction false} EdgeIdsHas(key: CGroup, p: nat, id: TypeId)
    requires p < |key| && Canon(id) in TypeRefs(key[p])
    ensures id in EdgeIds(key)
  {
    var head, rest := TypeRefs(key[0]), key[1..];
    assert EdgeIds(key) == CanonIds(head) + EdgeIds(rest);
    if p == 0 {
      CanonIdsHas(head, id);
    } else {
      assert rest[p - 1] == key[p];
      EdgeIdsHas(rest, p - 1, id);
    }
  }

  /** The owning groups of a list of type ids, skipping ids that no live group owns. */
  function Targets(ids: seq<TypeId>, owner: seq<Option<GroupId>>): seq<GroupId> {
    if ids == [] then []
    else (if Owned(owner, ids[0]) then [owner[ids[0]].value] else []) + Targets(ids[1..], owner)
  }

  /** The groups a record's key points at, one entry per edge occurrence. */
  function Out(rec: Option<GroupRecord>, owner: seq<Option<GroupId>>): seq<GroupId> {
    if rec.Some? then Targets(EdgeIds(rec.value.key), owner) else []
  }

  function Outs(groups: seq<Option<GroupRecord>>, owner: seq<Option<GroupId>>): (o: seq<seq<GroupId>>)
    ensures |o| == |groups| && forall i :: 0 <= i < |o| ==> o[i] == Out(groups[i], owner)
  {
    seq(|groups|, i requires 0 <= i < |groups| => Out(groups[i], owner))
  }

  /** Every edge occurrence from a live group, as the multiset of the groups pointed at. */
  ghost function Incoming(groups: seq<Option<GroupRecord>>, owner: seq<Option<GroupId>>): multiset<GroupId> {
    Gather(Outs(groups, owner))
  }

  lemma TargetsHas(ids: seq<TypeId>, owner: seq<Option<GroupId>>, id: TypeId)
    requires id in ids && Owned(owner, id)
    ensures owner[id].value in Targets(ids, owner)
  {
    if ids[0] != id { TargetsHas(ids[1..], owner, id); }
  }

  lemma TargetsFrom(ids: seq<TypeId>, owner: seq<Option<GroupId>>, g: GroupId) returns (id: TypeId)
    requires g in Targets(ids, owner)
    ensures id in ids && Owned(owner, id) && owner[id].value == g
  {
    if Owned(owner, ids[0]) && owner[ids[0]].value == g {
      id := ids[0];
    } else {
      id := TargetsFrom(ids[1..], owner, g);
    }
  }

  lemma TargetsAgree(ids: seq<TypeId>, o1: seq<Option<GroupId>>, o2: seq<Option<GroupId>>)
    requires forall id :: id in ids ==> Owned(o1, id) && Owned(o2, id) && o1[id] == o2[id]
    ensures Targets(ids, o1) == Targets(ids, o2)
  {
    if ids != [] { TargetsAgree(ids[1..], o1, o2); }
  }

  // --- expanded structure ---

  /** What a key's reference stands for, given the structure of the live type ids. */
  ghost function RefTree(meaning: map<TypeId, XRef>, r: CanonRef): XRef {
    match r
    case Rel(p) => XRel(p)
    case Canon(id) => if id in meaning then meaning[id] else XRel(0)
  }

  ghost function Expand(key: CGroup, meaning: map<TypeId, XRef>): (x: XGroup)
    ensures |x| == |key|
  {
    seq(|key|, p requires 0 <= p < |key| => MapType(key[p], (r: CanonRef) => RefTree(meaning, r)))
  }

  lemma ExpandAgree(key: CGroup, m1: map<TypeId, XRef>, m2: map<TypeId, XRef>)
    requires forall id :: id in EdgeIds(key) ==> id in m1 && id in m2 && m1[id] == m2[id]
    ensures Expand(key, m1) == Expand(key, m2)
  {
    var f1 := (r: CanonRef) => RefTree(m1, r);
    var f2 := (r: CanonRef) => RefTree(m2, r);
    forall p | 0 <= p < |key| ensures MapType(key[p], f1) == MapType(key[p], f2) {
      forall r | r in TypeRefs(key[p]) ensures f1(r) == f2(r) {
        if r.Canon? { EdgeIdsHas(key, p, r.id); }
      }
      MapTypeAgree(key[p], f1, f2);
    }
  }

  // --- the invariant ---

  /** Live groups and the type slots they own describe each other. */
  ghost predicate SlotsOk(r: Reg) {
    && |r.types| == |r.owner|
    && (forall t :: 0 <= t < |r.types| ==> (r.types[t].Some? <==> r.owner[t].Some?))
    && (forall t: nat :: Owned(r.owner, t) ==>
          Live(r.groups, r.owner[t].value) && t in r.groups[r.owner[t].value].value.members)
    && (forall g: nat :: Live(r.groups, g) ==> GroupOk(r, g))
  }

  ghost predicate GroupOk(r: Reg, g: GroupId)
    requires Live(r.groups, g)
  {
    var rec := r.groups[g].value;
    && |rec.members| == |rec.key|
    && NoDup(rec.members)
    && (forall p :: 0 <= p < |rec.key| ==>
          && Owned(r.owner, rec.members[p]) && r.owner[rec.members[p]].value == g
          && RefsInRange(rec.key[p], |rec.members|)
          && rec.members[p] < |r.types| && r.types[rec.members[p]] == Some(StoredType(rec.key[p], rec.members)))
  }

  /** The hash-cons table is exactly the inverse of "key of a live group". */
  ghost predicate InternedOk(groups: seq<Option<GroupRecord>>, interned: map<CGroup, GroupId>) {
    && (forall k :: k in interned ==> Live(groups, interned[k]) && groups[interned[k]].value.key == k)
    && (forall g: nat :: Live(groups, g) ==> groups[g].value.key in interned && interned[groups[g].value.key] == g)
  }

  /** The live group `g` mentions the type `id` of another group. */
  ghost predicate HasEdge(groups: seq<Option<GroupRecord>>, g: GroupId, id: TypeId) {
    Live(groups, g) && id in EdgeIds(groups[g].value.key)
  }

  /** Cross-group edges lead to live types of strictly older groups. */
  ghost predicate EdgesOk(
    groups: seq<Option<GroupRecord>>, owner: seq<Option<GroupId>>, birth: map<GroupId, nat>, clock: nat) {
    && (forall g: nat :: Live(groups, g) ==> g in birth && birth[g] < clock)
    && (forall g: nat, id: nat :: HasEdge(groups, g, id) ==>
          Owned(owner, id) && owner[id].value in birth && birth[owner[id].value] < birth[g])
  }

  /**
   Conservation: a live group's count is its registrations, plus the decrements still on the
   reclaim worklist, plus the edge occurrences from live groups; a dead group has none of these.
   */
  ghost predicate CountOk(
    groups: seq<Option<GroupRecord>>, owner: seq<Option<GroupId>>, held: multiset<GroupId>, pending: multiset<GroupId>)
  {
    var incoming := Incoming(groups, owner);
    forall g: nat ::
      if Live(groups, g) then 1 <= groups[g].value.refcount == held[g] + pending[g] + incoming[g]
      else held[g] == 0 && pending[g] == 0
  }

  /** `meaning` is defined on exactly the live type ids, and unfolds each through its group's key. */
  ghost predicate MeaningOk(r: Reg, meaning: map<TypeId, XRef>) {
    && (forall t: nat :: t in meaning <==> Owned(r.owner, t))
    && (forall g: nat :: Live(r.groups, g) ==> MeaningAt(r.groups[g].value, meaning))
  }

  ghost predicate MeaningAt(rec: GroupRecord, meaning: map<TypeId, XRef>) {
    var tree := Expand(rec.key, meaning);
    forall p :: 0 <= p < |rec.members| ==>
      rec.members[p] in meaning && meaning[rec.members[p]] == XTo(tree, p)
  }

  ghost predicate FreeListsOk(r: Reg) {
    && FreeOk(r.types, r.freeTypes)
    && FreeOk(r.groups, r.freeGroups)
  }

  ghost predicate Inv(
    r: Reg, held: multiset<GroupId>, pending: multiset<GroupId>, meaning: map<TypeId, XRef>, birth: map<GroupId, nat>,
    clock: nat)
  {
    && SlotsOk(r)
    && FreeListsOk(r)
    && InternedOk(r.groups, r.interned)
    && EdgesOk(r.groups, r.owner, birth, clock)
    && CountOk(r.groups, r.owner, held, pending)
    && MeaningOk(r, meaning)
  }

  /** What a caller must present to intern a key: sibling positions in range, absolute ids live. */
  ghost predicate KeyOk(r: Reg, key: CGroup) {
    && (forall p :: 0 <= p < |key| ==> RefsInRange(key[p], |key|))
    && (forall id :: id in EdgeIds(key) ==> Owned(r.owner, id))
  }

  // --- identity ---

  /** Equal expansions come from equal keys, when `meaning` is injective across the ids of the two keys. */
  lemma {:induction false} SameExpansionSameKey(ka: CGroup, kb: CGroup, meaning: map<TypeId, XRef>)
    requires Expand(ka, meaning) == Expand(kb, meaning)
    requires forall x :: x in EdgeIds(ka) + EdgeIds(kb) ==> x in meaning && meaning[x].XTo?
    requires forall x, y :: x in EdgeIds(ka) && y in EdgeIds(kb) && meaning[x] == meaning[y] ==> x == y
    ensures ka == kb
  {
    var f := (x: CanonRef) => RefTree(meaning, x);
    var ea, eb := Expand(ka, meaning), Expand(kb, meaning);
    forall i | 0 <= i < |ka| ensures ka[i] == kb[i] {
      assert ea[i] == eb[i];
      forall x, y | x in TypeRefs(ka[i]) && y in TypeRefs(kb[i]) && f(x) == f(y) ensures x == y {
        if x.Canon? { EdgeIdsHas(ka, i, x.id); assert meaning[x.id].XTo?; }
        if y.Canon? { EdgeIdsHas(kb, i, y.id); assert meaning[y.id].XTo?; }
      }
      MapTypeInjective(ka[i], kb[i], f);
    }
  }

  /**
   Hash-consing is exact: two live canonical ids are equal if and only if the groups they belong
   to, fully expanded, are equal at the same position.
   */
  lemma {:induction false} SameIdIffSameStructure(
    r: Reg, meaning: map<TypeId, XRef>, birth: map<GroupId, nat>, clock: nat, a: TypeId, b: TypeId)
    requires SlotsOk(r) && InternedOk(r.groups, r.interned)
    requires EdgesOk(r.groups, r.owner, birth, clock) && MeaningOk(r, meaning)
    requires a in meaning && b in meaning
    ensures meaning[a] == meaning[b] <==> a == b
    decreases birth[r.owner[a].value]
  {
    if meaning[a] == meaning[b] {
      var ka, p := KeyOf(r, meaning, a);
      var kb, q := KeyOf(r, meaning, b);
      forall x | x in EdgeIds(ka) + EdgeIds(kb) ensures x in meaning && meaning[x].XTo? {
        assert HasEdge(r.groups, r.owner[a].value, x) || HasEdge(r.groups, r.owner[b].value, x);
        var k, i := KeyOf(r, meaning, x);
      }
      forall x, y | x in EdgeIds(ka) && y in EdgeIds(kb) && meaning[x] == meaning[y] ensures x == y {
        assert HasEdge(r.groups, r.owner[a].value, x) && HasEdge(r.groups, r.owner[b].value, y);
        SameIdIffSameStructure(r, meaning, birth, clock, x, y);
      }
      SameExpansionSameKey(ka, kb, meaning);
    }
  }

  /** The key and position a live id comes from. */
  lemma KeyOf(r: Reg, meaning: map<TypeId, XRef>, t: TypeId) returns (key: CGroup, p: nat)
    requires SlotsOk(r) && MeaningOk(r, meaning) && Owned(r.owner, t)
    ensures Live(r.groups, r.owner[t].value) && r.groups[r.owner[t].value].value.key == key
    ensures p < |key| == |r.groups[r.owner[t].value].value.members| && r.groups[r.owner[t].value].value.members[p] == t
    ensures t in meaning && meaning[t] == XTo(Expand(key, meaning), p)
  {
    var rec := r.groups[r.owner[t].value].value;
    key := rec.key;
    p :| 0 <= p < |rec.members| && rec.members[p] == t;
  }

  // --- liveness ---

  /** `g` is reachable from a registration along cross-group edges, in at most `n` steps. */
  ghost predicate ReachedIn(
    groups: seq<Option<GroupRecord>>, owner: seq<Option<GroupId>>, held: multiset<GroupId>, g: GroupId, n: nat)
    decreases n
  {
    Live(groups, g) &&
    (g in held ||
     (n > 0 && exists h: GroupId :: ReachedIn(groups, owner, held, h, n - 1) && g in Outs(groups, owner)[h]))
  }

  ghost predicate Reached(
    groups: seq<Option<GroupRecord>>, owner: seq<Option<GroupId>>, held: multiset<GroupId>, g: GroupId) {
    exists n: nat :: ReachedIn(groups, owner, held, g, n)
  }

  /** An edge from a live group leads to a live, strictly older group. */
  lemma EdgeOlder(r: Reg, birth: map<GroupId, nat>, clock: nat, h: GroupId, g: GroupId)
    requires SlotsOk(r) && EdgesOk(r.groups, r.owner, birth, clock)
    requires Live(r.groups, h) && g in Out(r.groups[h], r.owner)
    ensures Live(r.groups, g) && birth[g] < birth[h]
  {
    var id := TargetsFrom(EdgeIds(r.groups[h].value.key), r.owner, g);
    assert HasEdge(r.groups, h, id);
  }

  lemma {:induction false} LiveIsReached(
    r: Reg, held: multiset<GroupId>, birth: map<GroupId, nat>, clock: nat, g: GroupId) returns (n: nat)
    requires SlotsOk(r) && EdgesOk(r.groups, r.owner, birth, clock)
    requires CountOk(r.groups, r.owner, held, multiset{}) && Live(r.groups, g)
    ensures ReachedIn(r.groups, r.owner, held, g, n) && held != multiset{}
    decreases clock - birth[g]
  {
    if g in held {
      n := 0;
    } else {
      var outs := Outs(r.groups, r.owner);
      assert Incoming(r.groups, r.owner)[g] >= 1;
      var h := GatherFrom(outs, g);
      EdgeOlder(r, birth, clock, h, g);
      var m := LiveIsReached(r, held, birth, clock, h);
      n := m + 1;
    }
  }

  /**
   Nothing leaks and nothing is reclaimed early: whenever no reclaim is under way, the live groups
   are exactly those reachable from an outstanding registration along cross-group edges.
   */
  lemma {:induction false} LiveIffReached(
    r: Reg, held: multiset<GroupId>, birth: map<GroupId, nat>, clock: nat, g: GroupId)
    requires SlotsOk(r) && EdgesOk(r.groups, r.owner, birth, clock)
    requires CountOk(r.groups, r.owner, held, multiset{})
    ensures Live(r.groups, g) <==> Reached(r.groups, r.owner, held, g)
  {
    if Live(r.groups, g) {
      var n := LiveIsReached(r, held, birth, clock, g);
    }
  }

  /** With every registration released the registry is empty. */
  lemma NothingHeldNothingLive(r: Reg, birth: map<GroupId, nat>, clock: nat, meaning: map<TypeId, XRef>)
    requires Inv(r, multiset{}, multiset{}, meaning, birth, clock)
    ensures r.interned == map[] && meaning == map[]
    ensures forall g: nat :: !Live(r.groups, g)
  {
    forall g: nat ensures !Live(r.groups, g) {
      if Live(r.groups, g) {
        var n := LiveIsReached(r, multiset{}, birth, clock, g);
      }
    }
    forall k ensures k !in r.interned { }
    forall t: nat ensures t !in meaning { }
  }
}
