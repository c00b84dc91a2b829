/**
 The two type forms of `src/canon`: the module-relative IR a compiled module carries, and the
 canonical form the registry hash-conses. The canonical form is generic in what a concrete
 reference is: `CanonRef` in a key, an expanded tree in the specification.
 */
module TypeForms {
  import opened Options

  type TypeId = nat
  type GroupId = nat

  datatype AggKind = AggFunc | AggStruct | AggArray
  datatype Finality = Final | NonFinal

  /** The twelve abstract heap types. */
  datatype AbsHeap =
    | HFunc | HNoFunc | HExtern | HNoExtern | HAny | HEq | HI31 | HStruct | HArray | HExn | HNoExn | HNone

  // --- module IR: concrete references are module-relative type indices ---

  datatype IrHeap = IrAbs(abs: AbsHeap) | IrConcrete(index: nat, kind: AggKind)
  datatype IrVal = IrI32 | IrI64 | IrF32 | IrF64 | IrV128 | IrRef(nullable: bool, heap: IrHeap)
  datatype IrStorage = IrI8 | IrI16 | IrStored(v: IrVal)
  datatype IrField = IrField(mutable: bool, storage: IrStorage)
  datatype CompositeBody =
    | IrFunc(params: seq<IrVal>, results: seq<IrVal>)
    | IrStruct(fields: seq<IrField>)
    | IrArray(field: IrField)
  datatype ModuleType =
    ModuleType(group: nat, finality: Finality, supertype: Option<nat>, body: CompositeBody)

  // --- canonical form, generic in the reference ---

  datatype CHeap<R> = Abs(code: nat) | Concrete(kind: AggKind, ref: R)
  datatype CVal<R> = Num(code: nat) | Ref(nullable: bool, heap: CHeap<R>)
  datatype CStore<R> = Packed(code: nat) | Stored(v: CVal<R>)
  datatype CField<R> = CField(mutable: bool, storage: CStore<R>)
  datatype CBody<R> =
    | Func(params: seq<CVal<R>>, results: seq<CVal<R>>)
    | Struct(fields: seq<CField<R>>)
    | Array(field: CField<R>)
  datatype CType<R> = CType(finality: Finality, supertype: Option<R>, body: CBody<R>)

  /** A reference in a key: a sibling position of the same group, or an absolute canonical id. */
  datatype CanonRef = Rel(pos: nat) | Canon(id: TypeId)
  type CGroup = seq<CType<CanonRef>>

  /** A fully expanded reference: a sibling position, or a whole expanded group and a position in it. */
  datatype XRef = XRel(pos: nat) | XTo(tree: seq<CType<XRef>>, pos: nat)
  type XGroup = seq<CType<XRef>>

  // --- module IR to canonical form ---

  function AbsCode(h: AbsHeap): nat {
    match h
    case HFunc => 0 case HNoFunc => 1 case HExtern => 2 case HNoExtern => 3
    case HAny => 4 case HEq => 5 case HI31 => 6 case HStruct => 7
    case HArray => 8 case HExn => 9 case HNoExn => 10 case HNone => 11
  }

  function HeapKey<R>(h: IrHeap, cref: nat -> R): CHeap<R> {
    match h
    case IrConcrete(i, k) => Concrete(k, cref(i))
    case IrAbs(a) => Abs(AbsCode(a))
  }

  function ValKey<R>(v: IrVal, cref: nat -> R): CVal<R> {
    match v
    case IrI32 => Num(0)
    case IrI64 => Num(1)
    case IrF32 => Num(2)
    case IrF64 => Num(3)
    case IrV128 => Num(4)
    case IrRef(n, h) => Ref(n, HeapKey(h, cref))
  }

  function FieldKey<R>(f: IrField, cref: nat -> R): CField<R> {
    var storage := match f.storage
      case IrI8 => Packed(0)
      case IrI16 => Packed(1)
      case IrStored(v) => Stored(ValKey(v, cref));
    CField(f.mutable, storage)
  }

  function BodyKey<R>(b: CompositeBody, cref: nat -> R): CBody<R> {
    match b
    case IrFunc(ps, rs) =>
      Func(seq(|ps|, i requires 0 <= i < |ps| => ValKey(ps[i], cref)),
           seq(|rs|, i requires 0 <= i < |rs| => ValKey(rs[i], cref)))
    case IrStruct(fs) => Struct(seq(|fs|, i requires 0 <= i < |fs| => FieldKey(fs[i], cref)))
    case IrArray(f) => Array(FieldKey(f, cref))
  }

  function TypeKey<R>(t: ModuleType, cref: nat -> R): CType<R> {
    CType(t.finality, if t.supertype.Some? then Some(cref(t.supertype.value)) else None, BodyKey(t.body, cref))
  }

  // --- mapping the references of a canonical form ---

  function MapHeap<R, S>(h: CHeap<R>, f: R -> S): CHeap<S> {
    match h
    case Abs(c) => Abs(c)
    case Concrete(k, r) => Concrete(k, f(r))
  }

  function MapVal<R, S>(v: CVal<R>, f: R -> S): CVal<S> {
    match v
    case Num(c) => Num(c)
    case Ref(n, h) => Ref(n, MapHeap(h, f))
  }

  function MapField<R, S>(x: CField<R>, f: R -> S): CField<S> {
    CField(x.mutable, match x.storage case Packed(c) => Packed(c) case Stored(v) => Stored(MapVal(v, f)))
  }

  function MapBody<R, S>(b: CBody<R>, f: R -> S): CBody<S> {
    match b
    case Func(ps, rs) =>
      Func(seq(|ps|, i requires 0 <= i < |ps| => MapVal(ps[i], f)),
           seq(|rs|, i requires 0 <= i < |rs| => MapVal(rs[i], f)))
    case Struct(fs) => Struct(seq(|fs|, i requires 0 <= i < |fs| => MapField(fs[i], f)))
    case Array(x) => Array(MapField(x, f))
  }

  function MapType<R, S>(t: CType<R>, f: R -> S): CType<S> {
    CType(t.finality, if t.supertype.Some? then Some(f(t.supertype.value)) else None, MapBody(t.body, f))
  }

  // --- the references a canonical form holds, one entry per occurrence, in source order ---

  function ValRefs<R>(v: CVal<R>): seq<R> {
    if v.Ref? && v.heap.Concrete? then [v.heap.ref] else []
  }

  function ValsRefs<R>(vs: seq<CVal<R>>): seq<R> {
    if vs == [] then [] else ValRefs(vs[0]) + ValsRefs(vs[1..])
  }

  function FieldRefs<R>(x: CField<R>): seq<R> {
    if x.storage.Stored? then ValRefs(x.storage.v) else []
  }

  function FieldsRefs<R>(fs: seq<CField<R>>): seq<R> {
    if fs == [] then [] else FieldRefs(fs[0]) + FieldsRefs(fs[1..])
  }

  function BodyRefs<R>(b: CBody<R>): seq<R> {
    match b
    case Func(ps, rs) => ValsRefs(ps) + ValsRefs(rs)
    case Struct(fs) => FieldsRefs(fs)
    case Array(x) => FieldRefs(x)
  }

  function TypeRefs<R>(t: CType<R>): seq<R> {
    (if t.supertype.Some? then [t.supertype.value] else []) + BodyRefs(t.body)
  }

  lemma ValsRefsHas<R>(vs: seq<CVal<R>>, i: nat, r: R)
    requires i < |vs| && r in ValRefs(vs[i])
    ensures r in ValsRefs(vs)
  {
    if i > 0 { ValsRefsHas(vs[1..], i - 1, r); }
  }

  lemma FieldsRefsHas<R>(fs: seq<CField<R>>, i: nat, r: R)
    requires i < |fs| && r in FieldRefs(fs[i])
    ensures r in FieldsRefs(fs)
  {
    if i > 0 { FieldsRefsHas(fs[1..], i - 1, r); }
  }

  // --- mapping looks at the references only ---

  lemma MapFieldAgree<R, S>(x: CField<R>, f: R -> S, g: R -> S)
    requires forall r :: r in FieldRefs(x) ==> f(r) == g(r)
    ensures MapField(x, f) == MapField(x, g)
  {
    if x.storage.Stored? && x.storage.v.Ref? && x.storage.v.heap.Concrete? {
      assert x.storage.v.heap.ref in FieldRefs(x);
    }
  }

  lemma {:induction false} MapBodyAgree<R, S>(b: CBody<R>, f: R -> S, g: R -> S)
    requires forall r :: r in BodyRefs(b) ==> f(r) == g(r)
    ensures MapBody(b, f) == MapBody(b, g)
  {
    match b
    case Func(ps, rs) =>
      forall i | 0 <= i < |ps| ensures MapVal(ps[i], f) == MapVal(ps[i], g) {
        forall r | r in ValRefs(ps[i]) ensures f(r) == g(r) { ValsRefsHas(ps, i, r); }
      }
      forall i | 0 <= i < |rs| ensures MapVal(rs[i], f) == MapVal(rs[i], g) {
        forall r | r in ValRefs(rs[i]) ensures f(r) == g(r) { ValsRefsHas(rs, i, r); }
      }
    case Struct(fs) =>
      forall i | 0 <= i < |fs| ensures MapField(fs[i], f) == MapField(fs[i], g) {
        forall r | r in FieldRefs(fs[i]) ensures f(r) == g(r) { FieldsRefsHas(fs, i, r); }
        MapFieldAgree(fs[i], f, g);
      }
    case Array(x) =>
      MapFieldAgree(x, f, g);
  }

  lemma MapTypeAgree<R, S>(t: CType<R>, f: R -> S, g: R -> S)
    requires forall r :: r in TypeRefs(t) ==> f(r) == g(r)
    ensures MapType(t, f) == MapType(t, g)
  {
    MapBodyAgree(t.body, f, g);
    if t.supertype.Some? { assert t.supertype.value in TypeRefs(t); }
  }

  /** Mapping with a function injective across the references of two types is injective. */
  lemma {:induction false} MapTypeInjective<R, S>(t: CType<R>, u: CType<R>, f: R -> S)
    requires MapType(t, f) == MapType(u, f)
    requires forall r, s :: r in TypeRefs(t) && s in TypeRefs(u) && f(r) == f(s) ==> r == s
    ensures t == u
  {
    if t.supertype.Some? {
      assert t.supertype.value in TypeRefs(t) && u.supertype.value in TypeRefs(u);
    }
    MapBodyInjective(t.body, u.body, f);
  }

  lemma {:induction false} MapBodyInjective<R, S>(b: CBody<R>, c: CBody<R>, f: R -> S)
    requires MapBody(b, f) == MapBody(c, f)
    requires forall r, s :: r in BodyRefs(b) && s in BodyRefs(c) && f(r) == f(s) ==> r == s
    ensures b == c
  {
    match b
    case Func(ps, rs) =>
      MapValsInjective(ps, c.params, f);
      MapValsInjective(rs, c.results, f);
    case Struct(fs) =>
      assert |fs| == |MapBody(b, f).fields| == |c.fields|;
      forall i | 0 <= i < |fs| ensures fs[i] == c.fields[i] {
        assert MapBody(b, f).fields[i] == MapBody(c, f).fields[i];
        forall r, s | r in FieldRefs(fs[i]) && s in FieldRefs(c.fields[i]) && f(r) == f(s) ensures r == s {
          FieldsRefsHas(fs, i, r);
          FieldsRefsHas(c.fields, i, s);
        }
        MapFieldInjective(fs[i], c.fields[i], f);
      }
    case Array(x) =>
      MapFieldInjective(x, c.field, f);
  }

  lemma {:induction false} MapValsInjective<R, S>(vs: seq<CVal<R>>, us: seq<CVal<R>>, f: R -> S)
    requires seq(|vs|, i requires 0 <= i < |vs| => MapVal(vs[i], f)) ==
      seq(|us|, i requires 0 <= i < |us| => MapVal(us[i], f))
    requires forall r, s :: r in ValsRefs(vs) && s in ValsRefs(us) && f(r) == f(s) ==> r == s
    ensures vs == us
  {
    var a := seq(|vs|, i requires 0 <= i < |vs| => MapVal(vs[i], f));
    var b := seq(|us|, i requires 0 <= i < |us| => MapVal(us[i], f));
    assert |a| == |vs| && |b| == |us|;
    forall i | 0 <= i < |vs| ensures vs[i] == us[i] {
      assert a[i] == b[i];
      if vs[i].Ref? && vs[i].heap.Concrete? {
        ValsRefsHas(vs, i, vs[i].heap.ref);
        ValsRefsHas(us, i, us[i].heap.ref);
      }
    }
  }

  lemma MapFieldInjective<R, S>(x: CField<R>, y: CField<R>, f: R -> S)
    requires MapField(x, f) == MapField(y, f)
    requires forall r, s :: r in FieldRefs(x) && s in FieldRefs(y) && f(r) == f(s) ==> r == s
    ensures x == y
  {
    if x.storage.Stored? && x.storage.v.Ref? && x.storage.v.heap.Concrete? {
      assert x.storage.v.heap.ref in FieldRefs(x);
      assert y.storage.v.heap.ref in FieldRefs(y);
    }
  }

  // --- the references of a mapped form are images ---

  lemma {:induction false} ValsRefsFrom<R, S>(vs: seq<CVal<R>>, us: seq<CVal<S>>, f: R -> S, s: S) returns (r: R)
    requires |vs| == |us| && (forall i :: 0 <= i < |vs| ==> us[i] == MapVal(vs[i], f)) && s in ValsRefs(us)
    ensures r in ValsRefs(vs) && f(r) == s
  {
    if s in ValRefs(us[0]) {
      r := vs[0].heap.ref;
    } else {
      r := ValsRefsFrom(vs[1..], us[1..], f, s);
    }
  }

  lemma {:induction false} FieldsRefsFrom<R, S>(vs: seq<CField<R>>, us: seq<CField<S>>, f: R -> S, s: S) returns (r: R)
    requires |vs| == |us| && (forall i :: 0 <= i < |vs| ==> us[i] == MapField(vs[i], f)) && s in FieldsRefs(us)
    ensures r in FieldsRefs(vs) && f(r) == s
  {
    if s in FieldRefs(us[0]) {
      r := vs[0].storage.v.heap.ref;
    } else {
      r := FieldsRefsFrom(vs[1..], us[1..], f, s);
    }
  }

  lemma {:induction false} BodyRefsFrom<R, S>(b: CBody<R>, f: R -> S, s: S) returns (r: R)
    requires s in BodyRefs(MapBody(b, f))
    ensures r in BodyRefs(b) && f(r) == s
  {
    match b
    case Func(ps, rs) =>
      var mapped := MapBody(b, f);
      if s in ValsRefs(mapped.params) {
        r := ValsRefsFrom(ps, mapped.params, f, s);
      } else {
        r := ValsRefsFrom(rs, mapped.results, f, s);
      }
    case Struct(fs) => r := FieldsRefsFrom(fs, MapBody(b, f).fields, f, s);
    case Array(x) => r := x.storage.v.heap.ref;
  }

  /** Every reference of a mapped type is the image of a reference of the type. */
  lemma {:induction false} TypeRefsFrom<R, S>(t: CType<R>, f: R -> S, s: S) returns (r: R)
    requires s in TypeRefs(MapType(t, f))
    ensures r in TypeRefs(t) && f(r) == s
  {
    if t.supertype.Some? && s == f(t.supertype.value) {
      r := t.supertype.value;
    } else {
      r := BodyRefsFrom(t.body, f, s);
    }
  }

  lemma MapFieldTwice<Q, R, S>(x: CField<Q>, f: Q -> R, g: R -> S, h: Q -> S)
    requires forall q :: h(q) == g(f(q))
    ensures MapField(MapField(x, f), g) == MapField(x, h)
  {
    match x.storage
    case Packed(_) =>
    case Stored(v) => assert MapVal(MapVal(v, f), g) == MapVal(v, h);
  }

  /** Mapping in two goes is mapping with the composition. */
  lemma MapBodyTwice<Q, R, S>(b: CBody<Q>, f: Q -> R, g: R -> S, h: Q -> S)
    requires forall q :: h(q) == g(f(q))
    ensures MapBody(MapBody(b, f), g) == MapBody(b, h)
  {
    var m := MapBody(b, f);
    match b
    case Func(ps, rs) =>
      assert forall i :: 0 <= i < |ps| ==> MapVal(m.params[i], g) == MapVal(ps[i], h);
      assert forall i :: 0 <= i < |rs| ==> MapVal(m.results[i], g) == MapVal(rs[i], h);
      assert MapBody(m, g).params == MapBody(b, h).params && MapBody(m, g).results == MapBody(b, h).results;
    case Struct(fs) =>
      forall i | 0 <= i < |fs| ensures MapField(m.fields[i], g) == MapField(fs[i], h) {
        MapFieldTwice(fs[i], f, g, h);
      }
      assert MapBody(m, g).fields == MapBody(b, h).fields;
    case Array(x) => MapFieldTwice(x, f, g, h);
  }

  lemma MapOfFieldKey<R, S>(x: IrField, cref: nat -> R, f: R -> S, h: nat -> S)
    requires forall n: nat :: h(n) == f(cref(n))
    ensures MapField(FieldKey(x, cref), f) == FieldKey(x, h)
  {
    match x.storage
    case IrI8 =>
    case IrI16 =>
    case IrStored(v) =>
      assert MapVal(ValKey(v, cref), f) == ValKey(v, h);
  }

  /** Keying with `cref` and then mapping with `f` is keying with their composition. */
  lemma MapOfKey<R, S>(t: ModuleType, cref: nat -> R, f: R -> S, h: nat -> S)
    requires forall n: nat :: h(n) == f(cref(n))
    ensures MapType(TypeKey(t, cref), f) == TypeKey(t, h)
  {
    var b := BodyKey(t.body, cref);
    match t.body
    case IrFunc(ps, rs) =>
      assert forall i :: 0 <= i < |ps| ==> MapVal(b.params[i], f) == ValKey(ps[i], h);
      assert forall i :: 0 <= i < |rs| ==> MapVal(b.results[i], f) == ValKey(rs[i], h);
      assert MapBody(b, f).params == BodyKey(t.body, h).params;
      assert MapBody(b, f).results == BodyKey(t.body, h).results;
    case IrStruct(fs) =>
      forall i | 0 <= i < |fs| ensures MapField(b.fields[i], f) == FieldKey(fs[i], h) {
        MapOfFieldKey(fs[i], cref, f, h);
      }
      assert MapBody(b, f).fields == BodyKey(t.body, h).fields;
    case IrArray(x) =>
      MapOfFieldKey(x, cref, f, h);
  }
}
