/**
 Every run of the registry: a transition system whose steps are the atomic state changes the
 registry's operations are made of, one step per round of the reclaim worklist. A run is recorded
 as its history, and what holds in every reachable state is proved by induction over it.
 */
module RegistryRuns {
  import opened Options
  import opened TypeForms
  import opened RegistryState
  import opened RegistrySteps

  /** The registry together with its outstanding registrations and the reclaim worklist. */
  datatype Sys = Sys(
    reg: Reg, held: multiset<GroupId>, stack: seq<GroupId>,
    meaning: map<TypeId, XRef>, birth: map<GroupId, nat>, clock: nat)

  const EMPTY := Sys(Reg([], [], [], [], [], map[]), multiset{}, [], map[], map[], 0)

  /** A live group gains a registration. */
  ghost predicate Registers(s: Sys, g: GroupId, t: Sys) {
    && s.stack == [] && Live(s.reg.groups, g)
    && t == s.(reg := Recounted(s.reg, g, s.reg.groups[g].value.refcount + 1), held := s.held + multiset{g})
  }

  /** A new group is interned. */
  ghost predicate Adds(s: Sys, key: CGroup, g: GroupId, members: seq<TypeId>, t: Sys) {
    && s.stack == [] && KeyOk(s.reg, key) && Added(s.reg, key, g, members, t.reg)
    && t == Sys(t.reg, s.held + multiset{g}, [], Extended(s.meaning, key, members), s.birth[g := s.clock], s.clock + 1)
  }

  /** A registration is given up: its decrement goes onto the worklist. */
  ghost predicate Releases(s: Sys, g: GroupId, t: Sys) {
    s.stack == [] && g in s.held && t == s.(held := s.held - multiset{g}, stack := [g])
  }

  /** One worklist round: the popped group loses a reference, and is reclaimed if that was the last. */
  ghost predicate Rounds(s: Sys, t: Sys) {
    s.stack != [] &&
    var g, rest := s.stack[|s.stack| - 1], s.stack[..|s.stack| - 1];
    Live(s.reg.groups, g) && s.reg.groups[g].value.refcount >= 1 &&
    var rec := s.reg.groups[g].value;
    t == if rec.refcount > 1 then s.(reg := Recounted(s.reg, g, rec.refcount - 1), stack := rest)
         else s.(reg := Reclaimed(s.reg, g), stack := rest + Out(s.reg.groups[g], s.reg.owner),
                 meaning := Restricted(s.meaning, rec.members))
  }

  ghost predicate Step(s: Sys, t: Sys) {
    || (exists g :: Registers(s, g, t))
    || (exists key, g, members :: Adds(s, key, g, members, t))
    || (exists g :: Releases(s, g, t))
    || Rounds(s, t)
  }

  datatype History = Start | Then(before: History, now: Sys)

  ghost function Now(h: History): Sys {
    if h.Start? then EMPTY else h.now
  }

  ghost predicate Run(h: History) {
    h.Then? ==> Run(h.before) && Step(Now(h.before), h.now)
  }

  ghost predicate SysInv(s: Sys) {
    Inv(s.reg, s.held, multiset(s.stack), s.meaning, s.birth, s.clock)
  }

  lemma {:induction false} RegistersKeeps(s: Sys, g: GroupId, t: Sys)
    requires SysInv(s) && Registers(s, g, t)
    ensures SysInv(t)
  {
    RaisedKeeps(s.reg, g, s.held, s.meaning, s.birth, s.clock);
  }

  lemma {:induction false} AddsKeeps(s: Sys, key: CGroup, g: GroupId, members: seq<TypeId>, t: Sys)
    requires SysInv(s) && Adds(s, key, g, members, t)
    ensures SysInv(t)
  {
    AddedKeeps(s.reg, key, g, members, t.reg, s.held, s.meaning, s.birth, s.clock);
  }

  lemma {:induction false} ReleasesKeeps(s: Sys, g: GroupId, t: Sys)
    requires SysInv(s) && Releases(s, g, t)
    ensures SysInv(t)
  {
    forall h: nat ensures s.held[h] == t.held[h] + multiset(t.stack)[h] {}
  }

  lemma PoppedStack(stack: seq<GroupId>)
    requires stack != []
    ensures multiset(stack) == multiset(stack[..|stack| - 1]) + multiset{stack[|stack| - 1]}
  {
    assert stack == stack[..|stack| - 1] + [stack[|stack| - 1]];
  }

  lemma {:induction false} LoweringRound(s: Sys, t: Sys)
    requires SysInv(s) && Rounds(s, t) && s.reg.groups[s.stack[|s.stack| - 1]].value.refcount > 1
    ensures SysInv(t) && t.reg.interned == s.reg.interned && |t.stack| < |s.stack|
  {
    var g, rest := s.stack[|s.stack| - 1], s.stack[..|s.stack| - 1];
    PoppedStack(s.stack);
    LoweredKeeps(s.reg, g, s.held, multiset(rest), s.meaning, s.birth, s.clock);
  }

  lemma {:induction false} ReclaimingRound(s: Sys, t: Sys)
    requires SysInv(s) && Rounds(s, t) && s.reg.groups[s.stack[|s.stack| - 1]].value.refcount == 1
    ensures SysInv(t) && |t.reg.interned| < |s.reg.interned|
  {
    var g, rest := s.stack[|s.stack| - 1], s.stack[..|s.stack| - 1];
    PoppedStack(s.stack);
    ReclaimedKeeps(s.reg, g, s.held, multiset(rest), s.meaning, s.birth, s.clock);
    var out := Out(s.reg.groups[g], s.reg.owner);
    assert multiset(rest + out) == multiset(rest) + multiset(out);
  }

  /** A worklist round keeps the invariant, and either shrinks the worklist or reclaims a group. */
  lemma {:induction false} RoundsKeeps(s: Sys, t: Sys)
    requires SysInv(s) && Rounds(s, t)
    ensures SysInv(t)
    ensures |t.reg.interned| < |s.reg.interned| || (t.reg.interned == s.reg.interned && |t.stack| < |s.stack|)
  {
    if s.reg.groups[s.stack[|s.stack| - 1]].value.refcount > 1 { LoweringRound(s, t); } else { ReclaimingRound(s, t); }
  }

  /** The invariant holds in every reachable state, in particular between any two worklist rounds. */
  lemma {:induction false} RunKeepsInvariant(h: History)
    requires Run(h)
    ensures SysInv(Now(h))
  {
    if h.Then? {
      RunKeepsInvariant(h.before);
      var s, t := Now(h.before), h.now;
      if g :| Registers(s, g, t) {
        RegistersKeeps(s, g, t);
      } else if key, g, members :| Adds(s, key, g, members, t) {
        AddsKeeps(s, key, g, members, t);
      } else if g :| Releases(s, g, t) {
        ReleasesKeeps(s, g, t);
      } else {
        RoundsKeeps(s, t);
      }
    }
  }

  // --- what holds in every reachable state ---

  /**
   Conservation of references: in every reachable state, also between two rounds of a reclaim, a
   live group's count is its registrations plus its worklist entries plus the edges into it, and
   the group on top of the worklist is live with a positive count, so no decrement underflows.
   */
  lemma {:induction false} CountsBalance(h: History, g: GroupId)
    requires Run(h)
    ensures var s := Now(h);
      && (Live(s.reg.groups, g) ==>
            s.reg.groups[g].value.refcount == s.held[g] + multiset(s.stack)[g] + Incoming(s.reg.groups, s.reg.owner)[g])
      && (g in s.held || g in s.stack ==> Live(s.reg.groups, g) && s.reg.groups[g].value.refcount >= 1)
  {
    RunKeepsInvariant(h);
    var s := Now(h);
    if g in s.stack { assert multiset(s.stack)[g] >= 1; }
  }

  /** A reclaim under way can always take its next round, and each round comes closer to the end. */
  lemma {:induction false} ReclaimTerminates(h: History) returns (t: Sys)
    requires Run(h) && Now(h).stack != []
    ensures Rounds(Now(h), t) && Run(Then(h, t))
    ensures |t.reg.interned| < |Now(h).reg.interned| ||
            (t.reg.interned == Now(h).reg.interned && |t.stack| < |Now(h).stack|)
  {
    var s := Now(h);
    var g, rest := s.stack[|s.stack| - 1], s.stack[..|s.stack| - 1];
    CountsBalance(h, g);
    var rec := s.reg.groups[g].value;
    t := if rec.refcount > 1 then s.(reg := Recounted(s.reg, g, rec.refcount - 1), stack := rest)
         else s.(reg := Reclaimed(s.reg, g), stack := rest + Out(s.reg.groups[g], s.reg.owner),
                 meaning := Restricted(s.meaning, rec.members));
    RunKeepsInvariant(h);
    RoundsKeeps(s, t);
  }

  /** No leak and no early reclaim, in every state no reclaim is running in. */
  lemma {:induction false} LiveExactlyReached(h: History, g: GroupId)
    requires Run(h) && Now(h).stack == []
    ensures var s := Now(h); Live(s.reg.groups, g) <==> Reached(s.reg.groups, s.reg.owner, s.held, g)
    ensures Now(h).held == multiset{} ==> Now(h).reg.interned == map[]
  {
    RunKeepsInvariant(h);
    var s := Now(h);
    LiveIffReached(s.reg, s.held, s.birth, s.clock, g);
    if s.held == multiset{} { NothingHeldNothingLive(s.reg, s.birth, s.clock, s.meaning); }
  }

  /** Canonical ids are exact in every reachable state. */
  lemma {:induction false} IdsAreExact(h: History, a: TypeId, b: TypeId)
    requires Run(h) && a in Now(h).meaning && b in Now(h).meaning
    ensures Now(h).meaning[a] == Now(h).meaning[b] <==> a == b
  {
    RunKeepsInvariant(h);
    var s := Now(h);
    SameIdIffSameStructure(s.reg, s.meaning, s.birth, s.clock, a, b);
  }

  // --- what the registry stores of a type ---

  /** A reference found inside the expanded group `tree`, as seen from outside the group. */
  ghost function Unrolled(tree: XGroup, x: XRef): XRef {
    match x
    case XRel(q) => XTo(tree, q)
    case XTo(_, _) => x
  }

  /** What a stored reference stands for; every stored reference is absolute. */
  ghost function Denoted(meaning: map<TypeId, XRef>, r: CanonRef): XRef {
    if r.Canon? && r.id in meaning then meaning[r.id] else XRel(0)
  }

  predicate KindFits<R>(k: AggKind, b: CBody<R>) {
    (k.AggFunc? <==> b.Func?) && (k.AggStruct? <==> b.Struct?) && (k.AggArray? <==> b.Array?)
  }

  /** `c` is the group member `x` with every reference replaced by the live id that stands for it. */
  ghost predicate Presents(c: CanonType, x: CType<XRef>, tree: XGroup, meaning: map<TypeId, XRef>) {
    && KindFits(c.kind, x.body) && c.finality == x.finality
    && (c.supertype.Some? <==> x.supertype.Some?)
    && (c.supertype.Some? && x.supertype.Some? ==>
          c.supertype.value in meaning && meaning[c.supertype.value] == Unrolled(tree, x.supertype.value))
    && (forall r :: r in BodyRefs(c.body) ==> r.Canon? && r.id in meaning)
    && MapBody(c.body, (r: CanonRef) => Denoted(meaning, r)) == MapBody(x.body, (y: XRef) => Unrolled(tree, y))
  }

  /** The type stored under the live id `t` is the one its meaning describes, unrolled once. */
  ghost predicate StoredMeans(r: Reg, meaning: map<TypeId, XRef>, t: TypeId) {
    && t in meaning && meaning[t].XTo? && meaning[t].pos < |meaning[t].tree|
    && t < |r.types| && r.types[t].Some?
    && Presents(r.types[t].value, meaning[t].tree[meaning[t].pos], meaning[t].tree, meaning)
  }

  /** Resolving a key's reference and then looking up its meaning is expanding it and then unrolling it. */
  lemma {:induction false} ResolvedMeans(rec: GroupRecord, meaning: map<TypeId, XRef>, r: CanonRef)
    requires |rec.members| == |rec.key| && MeaningAt(rec, meaning)
    requires r.Rel? ==> r.pos < |rec.members|
    requires r.Canon? ==> r.id in meaning && meaning[r.id].XTo?
    ensures ResolveRef(r, rec.members).Canon? && Resolve(r, rec.members) in meaning
    ensures Denoted(meaning, ResolveRef(r, rec.members)) == meaning[Resolve(r, rec.members)]
    ensures Denoted(meaning, ResolveRef(r, rec.members)) == Unrolled(Expand(rec.key, meaning), RefTree(meaning, r))
  {
  }

  /** The references of a live key's member are siblings in range and live ids. */
  ghost predicate RefsLive(t: CType<CanonRef>, n: nat, meaning: map<TypeId, XRef>) {
    forall r :: r in TypeRefs(t) ==> if r.Rel? then r.pos < n else r.id in meaning && meaning[r.id].XTo?
  }

  lemma {:induction false} RefsAreLive(
    r: Reg, meaning: map<TypeId, XRef>, birth: map<GroupId, nat>, clock: nat, g: GroupId, p: nat)
    requires SlotsOk(r) && EdgesOk(r.groups, r.owner, birth, clock) && MeaningOk(r, meaning)
    requires Live(r.groups, g) && p < |r.groups[g].value.key|
    ensures RefsLive(r.groups[g].value.key[p], |r.groups[g].value.members|, meaning)
  {
    assert GroupOk(r, g);
    var rec := r.groups[g].value;
    forall x: CanonRef | x in TypeRefs(rec.key[p]) && x.Canon? ensures x.id in meaning && meaning[x.id].XTo? {
      EdgeIdsHas(rec.key, p, x.id);
      assert HasEdge(r.groups, g, x.id);
      var key, q := KeyOf(r, meaning, x.id);
    }
  }

  lemma {:induction false} BodyPresents(rec: GroupRecord, meaning: map<TypeId, XRef>, b: CBody<CanonRef>)
    requires |rec.members| == |rec.key| && MeaningAt(rec, meaning)
    requires RefsLive(CType(Final, None, b), |rec.members|, meaning)
    ensures var c := MapBody(b, (r: CanonRef) => ResolveRef(r, rec.members));
      && (forall r :: r in BodyRefs(c) ==> r.Canon? && r.id in meaning)
      && MapBody(c, (r: CanonRef) => Denoted(meaning, r)) ==
        MapBody(MapBody(b, (r: CanonRef) => RefTree(meaning, r)), (y: XRef) => Unrolled(Expand(rec.key, meaning), y))
  {
    var resolve := (r: CanonRef) => ResolveRef(r, rec.members);
    var tree := Expand(rec.key, meaning);
    var c := MapBody(b, resolve);
    forall r | r in BodyRefs(b) ensures r in TypeRefs(CType(Final, None, b)) {}
    forall r | r in BodyRefs(c) ensures r.Canon? && r.id in meaning {
      var s := BodyRefsFrom(b, resolve, r);
      ResolvedMeans(rec, meaning, s);
    }
    var stored := (r: CanonRef) => Denoted(meaning, ResolveRef(r, rec.members));
    var unrolled := (r: CanonRef) => Unrolled(tree, RefTree(meaning, r));
    forall r | r in BodyRefs(b) ensures stored(r) == unrolled(r) { ResolvedMeans(rec, meaning, r); }
    MapBodyAgree(b, stored, unrolled);
    MapBodyTwice(b, resolve, (r: CanonRef) => Denoted(meaning, r), stored);
    MapBodyTwice(b, (r: CanonRef) => RefTree(meaning, r), (y: XRef) => Unrolled(tree, y), unrolled);
  }

  /** What is stored for a member presents that member of the expanded group. */
  lemma {:induction false} MemberPresents(rec: GroupRecord, meaning: map<TypeId, XRef>, p: nat)
    requires |rec.members| == |rec.key| && MeaningAt(rec, meaning) && p < |rec.key|
    requires RefsInRange(rec.key[p], |rec.members|) && RefsLive(rec.key[p], |rec.members|, meaning)
    ensures var tree := Expand(rec.key, meaning);
      Presents(StoredType(rec.key[p], rec.members), tree[p], tree, meaning)
  {
    var t := rec.key[p];
    forall r | r in BodyRefs(t.body) ensures r in TypeRefs(t) {}
    BodyPresents(rec, meaning, t.body);
    if t.supertype.Some? {
      assert t.supertype.value in TypeRefs(t);
      ResolvedMeans(rec, meaning, t.supertype.value);
    }
  }

  /**
   In every reachable state the registry stores, under each live id, the type the id stands for: of the
   same kind and finality, its supertype and every reference in its body the id of a live type, and
   each of these standing for what the expanded group has in its place.
   */
  lemma {:induction false} StoredTypesMean(h: History, t: TypeId)
    requires Run(h) && t in Now(h).meaning
    ensures StoredMeans(Now(h).reg, Now(h).meaning, t)
  {
    RunKeepsInvariant(h);
    var s := Now(h);
    var g := s.reg.owner[t].value;
    var key, p := KeyOf(s.reg, s.meaning, t);
    assert GroupOk(s.reg, g);
    var rec := s.reg.groups[g].value;
    RefsAreLive(s.reg, s.meaning, s.birth, s.clock, g, p);
    MemberPresents(rec, s.meaning, p);
  }

  /** Every live id's stored type is the one the id stands for. */
  ghost predicate AllMean(r: Reg, meaning: map<TypeId, XRef>) {
    forall t :: t in meaning ==> StoredMeans(r, meaning, t)
  }

  lemma AllTypesMean(h: History)
    requires Run(h)
    ensures AllMean(Now(h).reg, Now(h).meaning)
  {
    forall t | t in Now(h).meaning ensures StoredMeans(Now(h).reg, Now(h).meaning, t) { StoredTypesMean(h, t); }
  }

  // --- stability of ids while they stay registered ---

  /** `later` continues the run `h`, and `t` names a live type in every state from `h` on. */
  ghost predicate OwnedThroughout(h: History, later: History, t: TypeId)
    decreases later
  {
    Owned(Now(later).reg.owner, t) && (later == h || (later.Then? && OwnedThroughout(h, later.before, t)))
  }

  /** `later` continues the run `h`, and some registration of `g` is outstanding in every state from `h` on. */
  ghost predicate HeldThroughout(h: History, later: History, g: GroupId)
    decreases later
  {
    g in Now(later).held && (later == h || (later.Then? && HeldThroughout(h, later.before, g)))
  }

  ghost predicate SameType(s: Sys, t: Sys, id: TypeId) {
    && Owned(s.reg.owner, id) && Owned(t.reg.owner, id)
    && s.reg.owner[id] == t.reg.owner[id]
    && id < |s.reg.types| && id < |t.reg.types| && s.reg.types[id] == t.reg.types[id]
    && id in s.meaning && id in t.meaning && s.meaning[id] == t.meaning[id]
  }

  /** No single step retargets an id that is live on both sides of it. */
  lemma {:induction false} StepKeepsType(s: Sys, t: Sys, id: TypeId)
    requires Step(s, t) && |s.reg.types| == |s.reg.owner| && |t.reg.types| == |t.reg.owner|
    requires Owned(s.reg.owner, id) && Owned(t.reg.owner, id) && id in s.meaning && id in t.meaning
    ensures SameType(s, t, id)
  {
    if key, g, members :| Adds(s, key, g, members, t) {
      assert id !in members;
    }
  }

  lemma {:induction false} OwnedKeepsType(h: History, later: History, t: TypeId)
    requires Run(later) && OwnedThroughout(h, later, t)
    ensures Run(h) && SameType(Now(h), Now(later), t)
    decreases later
  {
    RunKeepsInvariant(later);
    if later != h {
      OwnedKeepsType(h, later.before, t);
      RunKeepsInvariant(later.before);
      StepKeepsType(Now(later.before), Now(later), t);
    }
  }

  // --- the supertype chain ---

  /** The declared supertype of `t`, as `is_subtype` reads it: nothing for a slot that is not live. */
  function SuperOf(r: Reg, t: TypeId): Option<TypeId> {
    if t < |r.types| && r.types[t].Some? then r.types[t].value.supertype else None
  }

  /** The id `n` declared-supertype steps above `t`. */
  function Above(r: Reg, t: TypeId, n: nat): Option<TypeId> {
    if n == 0 then Some(t)
    else
      var u := Above(r, t, n - 1);
      if u.Some? then SuperOf(r, u.value) else None
  }

  /** Where a live type's declared supertype sits: a sibling, or a member of an older live group. */
  lemma {:induction false} SuperIsLive(s: Sys, t: TypeId)
    requires SysInv(s) && Owned(s.reg.owner, t) && SuperOf(s.reg, t).Some?
    ensures Owned(s.reg.owner, SuperOf(s.reg, t).value)
  {
    var g := s.reg.owner[t].value;
    var key, p := KeyOf(s.reg, s.meaning, t);
    assert GroupOk(s.reg, g);
    var sup := key[p].supertype.value;
    assert sup in TypeRefs(key[p]);
    if sup.Canon? {
      EdgeIdsHas(key, p, sup.id);
      assert HasEdge(s.reg.groups, g, sup.id);
    }
  }

  ghost predicate SupersLive(r: Reg) {
    forall u: nat :: Owned(r.owner, u) && SuperOf(r, u).Some? ==> Owned(r.owner, SuperOf(r, u).value)
  }

  /** The walk from a live type meets live types only: it is never cut short by a reclaimed slot. */
  lemma {:induction false} AboveIsLive(r: Reg, t: TypeId, n: nat)
    requires SupersLive(r) && Owned(r.owner, t) && Above(r, t, n).Some?
    ensures Owned(r.owner, Above(r, t, n).value)
  {
    if n > 0 { AboveIsLive(r, t, n - 1); }
  }

  /** A type's supertype stays live for as long as the type does. */
  lemma {:induction false} SuperOwnedThroughout(h: History, later: History, t: TypeId)
    requires Run(later) && OwnedThroughout(h, later, t) && SuperOf(Now(h).reg, t).Some?
    ensures SuperOf(Now(later).reg, t) == SuperOf(Now(h).reg, t)
    ensures OwnedThroughout(h, later, SuperOf(Now(h).reg, t).value)
    decreases later
  {
    OwnedKeepsType(h, later, t);
    RunKeepsInvariant(later);
    SuperIsLive(Now(later), t);
    if later != h { SuperOwnedThroughout(h, later.before, t); }
  }

  /** While a type stays registered its whole chain of supertypes reads the same. */
  lemma {:induction false} ChainIsStable(h: History, later: History, t: TypeId, n: nat)
    requires Run(later) && OwnedThroughout(h, later, t)
    ensures Above(Now(later).reg, t, n) == Above(Now(h).reg, t, n)
    ensures Above(Now(h).reg, t, n).Some? ==> OwnedThroughout(h, later, Above(Now(h).reg, t, n).value)
  {
    if n > 0 {
      ChainIsStable(h, later, t, n - 1);
      var u := Above(Now(h).reg, t, n - 1);
      if u.Some? {
        OwnedKeepsType(h, later, u.value);
        if SuperOf(Now(h).reg, u.value).Some? { SuperOwnedThroughout(h, later, u.value); }
      }
    }
  }

  /** A held registration keeps the type ids of its group live. */
  lemma {:induction false} HeldIsOwned(h: History, later: History, g: GroupId, t: TypeId)
    requires Run(later) && HeldThroughout(h, later, g) && Owned(Now(h).reg.owner, t) && Now(h).reg.owner[t].value == g
    ensures OwnedThroughout(h, later, t) && Now(later).reg.owner[t].value == g
    decreases later
  {
    if later != h {
      HeldIsOwned(h, later.before, g, t);
      RunKeepsInvariant(later.before);
      RunKeepsInvariant(later);
      HeldStepOwns(Now(later.before), Now(later), g, t);
    }
  }

  lemma {:induction false} HeldStepOwns(s: Sys, t: Sys, g: GroupId, id: TypeId)
    requires SlotsOk(s.reg) && Step(s, t) && Live(t.reg.groups, g)
    requires Owned(s.reg.owner, id) && s.reg.owner[id].value == g
    ensures Owned(t.reg.owner, id) && t.reg.owner[id].value == g
  {
    if Rounds(s, t) {
      var top := s.stack[|s.stack| - 1];
      if s.reg.groups[top].value.refcount == 1 {
        assert GroupOk(s.reg, top);
        assert top != g;
        assert id !in s.reg.groups[top].value.members;
      }
    } else if key, h, members :| Adds(s, key, h, members, t) {
      assert id !in members;
    }
  }

  /**
   While a registration is held, every canonical id of its group keeps its stored body, its full
   structure and its whole chain of supertypes, whatever else is interned or released.
   */
  lemma {:induction false} RegisteredIdsAreStable(h: History, later: History, g: GroupId, t: TypeId, n: nat)
    requires Run(later) && HeldThroughout(h, later, g) && Owned(Now(h).reg.owner, t) && Now(h).reg.owner[t].value == g
    ensures SameType(Now(h), Now(later), t)
    ensures Above(Now(later).reg, t, n) == Above(Now(h).reg, t, n)
  {
    HeldIsOwned(h, later, g, t);
    OwnedKeepsType(h, later, t);
    ChainIsStable(h, later, t, n);
  }
}
