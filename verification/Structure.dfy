/**
 When two types of module IR are alike, said of the types themselves: the same constructors with the
 same finality, mutability, nullability, number, packed and abstract heap types, and with references
 that `same` relates. The keys of `src/canon/keys.rs` are equal exactly for types that are alike.
 */
module Structure {
  import opened Options
  import opened TypeForms

  predicate AlikeHeap(a: IrHeap, b: IrHeap, same: (nat, nat) -> bool) {
    match a
    case IrAbs(h) => b.IrAbs? && b.abs == h
    case IrConcrete(i, k) => b.IrConcrete? && b.kind == k && same(i, b.index)
  }

  predicate AlikeVal(v: IrVal, w: IrVal, same: (nat, nat) -> bool) {
    if v.IrRef? then w.IrRef? && w.nullable == v.nullable && AlikeHeap(v.heap, w.heap, same) else w == v
  }

  predicate AlikeVals(vs: seq<IrVal>, ws: seq<IrVal>, same: (nat, nat) -> bool) {
    |vs| == |ws| && forall i :: 0 <= i < |vs| ==> AlikeVal(vs[i], ws[i], same)
  }

  predicate AlikeField(x: IrField, y: IrField, same: (nat, nat) -> bool) {
    && x.mutable == y.mutable
    && (if x.storage.IrStored? then y.storage.IrStored? && AlikeVal(x.storage.v, y.storage.v, same)
        else y.storage == x.storage)
  }

  predicate AlikeBody(b: CompositeBody, c: CompositeBody, same: (nat, nat) -> bool) {
    match b
    case IrFunc(ps, rs) => c.IrFunc? && AlikeVals(ps, c.params, same) && AlikeVals(rs, c.results, same)
    case IrStruct(fs) =>
      c.IrStruct? && |fs| == |c.fields| && forall i :: 0 <= i < |fs| ==> AlikeField(fs[i], c.fields[i], same)
    case IrArray(x) => c.IrArray? && AlikeField(x, c.field, same)
  }

  predicate AlikeType(t: ModuleType, u: ModuleType, same: (nat, nat) -> bool) {
    && t.finality == u.finality
    && (t.supertype.Some? <==> u.supertype.Some?)
    && (t.supertype.Some? && u.supertype.Some? ==> same(t.supertype.value, u.supertype.value))
    && AlikeBody(t.body, u.body, same)
  }

  /** `same` relates the references that `f` and `g` send to the same place. */
  ghost predicate Meets<R>(same: (nat, nat) -> bool, f: nat -> R, g: nat -> R) {
    forall i, j :: same(i, j) <==> f(i) == g(j)
  }

  // --- keys are equal exactly for types that are alike ---

  lemma HeapKeysEqual<R>(a: IrHeap, f: nat -> R, b: IrHeap, g: nat -> R, same: (nat, nat) -> bool)
    requires Meets(same, f, g)
    ensures HeapKey(a, f) == HeapKey(b, g) <==> AlikeHeap(a, b, same)
  {
  }

  lemma ValKeysEqual<R>(v: IrVal, f: nat -> R, w: IrVal, g: nat -> R, same: (nat, nat) -> bool)
    requires Meets(same, f, g)
    ensures ValKey(v, f) == ValKey(w, g) <==> AlikeVal(v, w, same)
  {
    if v.IrRef? && w.IrRef? { HeapKeysEqual(v.heap, f, w.heap, g, same); }
  }

  lemma FieldKeysEqual<R>(x: IrField, f: nat -> R, y: IrField, g: nat -> R, same: (nat, nat) -> bool)
    requires Meets(same, f, g)
    ensures FieldKey(x, f) == FieldKey(y, g) <==> AlikeField(x, y, same)
  {
    if x.storage.IrStored? && y.storage.IrStored? { ValKeysEqual(x.storage.v, f, y.storage.v, g, same); }
  }

  function ValKeys<R>(vs: seq<IrVal>, f: nat -> R): (k: seq<CVal<R>>)
    ensures |k| == |vs| && forall i :: 0 <= i < |vs| ==> k[i] == ValKey(vs[i], f)
  {
    seq(|vs|, i requires 0 <= i < |vs| => ValKey(vs[i], f))
  }

  lemma ValListsEqual<R>(vs: seq<IrVal>, f: nat -> R, ws: seq<IrVal>, g: nat -> R, same: (nat, nat) -> bool)
    requires Meets(same, f, g)
    ensures ValKeys(vs, f) == ValKeys(ws, g) <==> AlikeVals(vs, ws, same)
  {
    var k, l := ValKeys(vs, f), ValKeys(ws, g);
    forall i | 0 <= i < |vs| && i < |ws| ensures k[i] == l[i] <==> AlikeVal(vs[i], ws[i], same) {
      ValKeysEqual(vs[i], f, ws[i], g, same);
    }
  }

  lemma FieldListsEqual<R>(fs: seq<IrField>, f: nat -> R, gs: seq<IrField>, g: nat -> R, same: (nat, nat) -> bool)
    requires Meets(same, f, g)
    ensures BodyKey(IrStruct(fs), f) == BodyKey(IrStruct(gs), g) <==> AlikeBody(IrStruct(fs), IrStruct(gs), same)
  {
    var k, l := BodyKey(IrStruct(fs), f).fields, BodyKey(IrStruct(gs), g).fields;
    forall i | 0 <= i < |fs| && i < |gs| ensures k[i] == l[i] <==> AlikeField(fs[i], gs[i], same) {
      FieldKeysEqual(fs[i], f, gs[i], g, same);
    }
    assert |k| == |fs| && |l| == |gs|;
  }

  lemma BodyKeysEqual<R>(b: CompositeBody, f: nat -> R, c: CompositeBody, g: nat -> R, same: (nat, nat) -> bool)
    requires Meets(same, f, g)
    ensures BodyKey(b, f) == BodyKey(c, g) <==> AlikeBody(b, c, same)
  {
    match b
    case IrFunc(ps, rs) =>
      if c.IrFunc? {
        ValListsEqual(ps, f, c.params, g, same);
        ValListsEqual(rs, f, c.results, g, same);
        assert BodyKey(b, f) == Func(ValKeys(ps, f), ValKeys(rs, f));
        assert BodyKey(c, g) == Func(ValKeys(c.params, g), ValKeys(c.results, g));
      }
    case IrStruct(fs) =>
      if c.IrStruct? { FieldListsEqual(fs, f, c.fields, g, same); }
    case IrArray(x) =>
      if c.IrArray? { FieldKeysEqual(x, f, c.field, g, same); }
  }

  /**
   Two types have the same key if and only if they are alike: the same finality, a supertype in both or
   in neither, the same parameters and results or fields, down to mutability, storage, nullability,
   abstract heap type and concrete kind, and references sent to the same place throughout.
   */
  lemma TypeKeysEqual<R>(t: ModuleType, f: nat -> R, u: ModuleType, g: nat -> R, same: (nat, nat) -> bool)
    requires Meets(same, f, g)
    ensures TypeKey(t, f) == TypeKey(u, g) <==> AlikeType(t, u, same)
  {
    BodyKeysEqual(t.body, f, u.body, g, same);
  }
}
