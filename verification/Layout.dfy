/**
 Byte layouts of aggregate types (`src/canon/layout.rs`), built two ways: straight from the module
 IR, as the interpreter does, and from the registry by way of the public types materialized out of
 it (`src/canon/materialize.rs`), as the collector does.
 */
module Layout {
  import opened Options
  import opened TypeForms
  import opened RegistryState
  import opened RegistryRuns
  import opened Interning

  datatype ScalarKind = SI8 | SI16 | SI32 | SI64 | SF32 | SF64 | SV128
  datatype RefKind = KFunc | KExtern | KAny | KExn

  /** What a field is, wherever it sits. */
  datatype SlotKind = Scalar(scalar: ScalarKind) | Handle(ref: RefKind)

  /** One field of a struct or element of an array: a kind at a byte offset. */
  datatype Slot = Slot(offset: nat, kind: SlotKind) {
    function End(): nat { offset + Width(kind) }
  }

  const REF_WIDTH := 4

  function ScalarWidth(k: ScalarKind): nat {
    match k
    case SI8 => 1
    case SI16 => 2
    case SI32 => 4
    case SF32 => 4
    case SI64 => 8
    case SF64 => 8
    case SV128 => 16
  }

  function Width(k: SlotKind): (w: nat)
    ensures 1 <= w <= 16
  {
    match k
    case Scalar(s) => ScalarWidth(s)
    case Handle(_) => REF_WIDTH
  }

  // --- slots of a struct, back to back ---

  function TotalWidth(kinds: seq<SlotKind>): nat {
    if kinds == [] then 0 else TotalWidth(kinds[..|kinds| - 1]) + Width(kinds[|kinds| - 1])
  }

  /** Each field at the end of the one before it. */
  function SlotsOf(kinds: seq<SlotKind>): (s: seq<Slot>)
    ensures |s| == |kinds|
  {
    seq(|kinds|, i requires 0 <= i < |kinds| => Slot(TotalWidth(kinds[..i]), kinds[i]))
  }

  /** `StructLayout::of`: a running size hands each field its offset. */
  method StructLayout(kinds: seq<SlotKind>) returns (fields: seq<Slot>, size: nat)
    ensures fields == SlotsOf(kinds) && size == TotalWidth(kinds)
  {
    fields, size := [], 0;
    for i := 0 to |kinds|
      invariant fields == SlotsOf(kinds)[..i] && size == TotalWidth(kinds[..i])
    {
      assert kinds[..i + 1][..i] == kinds[..i];
      fields := fields + [Slot(size, kinds[i])];
      size := size + Width(kinds[i]);
    }
    assert kinds[..|kinds|] == kinds;
  }

  lemma {:induction false} TotalWidthMonotone(kinds: seq<SlotKind>, i: nat, j: nat)
    requires i <= j <= |kinds|
    ensures TotalWidth(kinds[..i]) <= TotalWidth(kinds[..j])
    decreases j
  {
    if i < j {
      assert kinds[..j][..j - 1] == kinds[..j - 1];
      TotalWidthMonotone(kinds, i, j - 1);
    }
  }

  lemma TotalWidthNext(kinds: seq<SlotKind>, i: nat)
    requires i < |kinds|
    ensures TotalWidth(kinds[..i + 1]) == TotalWidth(kinds[..i]) + Width(kinds[i])
  {
    assert kinds[..i + 1][..i] == kinds[..i];
  }

  /** Slot `i` starts where the one before it ends. */
  predicate Abuts(s: seq<Slot>, i: nat) {
    0 < i < |s| ==> s[i].offset == s[i - 1].End()
  }

  /** Slots that cover `size` bytes in order, each starting where the last one ended. */
  ghost predicate Tile(s: seq<Slot>, size: nat) {
    && (s != [] ==> s[0].offset == 0)
    && (forall i: nat :: Abuts(s, i))
    && size == (if s == [] then 0 else s[|s| - 1].End())
  }

  /** A struct's slots tile its body: no gap and no overlap. */
  lemma {:induction false} StructTiles(kinds: seq<SlotKind>)
    ensures Tile(SlotsOf(kinds), TotalWidth(kinds))
  {
    var s := SlotsOf(kinds);
    forall i: nat ensures Abuts(s, i) {
      if 0 < i < |s| { TotalWidthNext(kinds, i - 1); }
    }
    if s != [] {
      TotalWidthNext(kinds, |kinds| - 1);
      assert kinds[..|kinds|] == kinds;
    }
  }

  /** Tiling slots lie inside the body. */
  lemma {:induction false} TilesFit(s: seq<Slot>, size: nat, j: nat)
    requires Tile(s, size) && j < |s|
    ensures s[j].End() <= size
    decreases |s| - j
  {
    assert Abuts(s, j + 1);
    if j + 1 < |s| { TilesFit(s, size, j + 1); }
  }

  /** Tiling slots never overlap. */
  lemma {:induction false} TilesAreDisjoint(s: seq<Slot>, size: nat, i: nat, j: nat)
    requires Tile(s, size) && i < j < |s|
    ensures s[i].End() <= s[j].offset
    decreases j
  {
    assert Abuts(s, j) && Abuts(s, j - 1);
    if i + 1 < j { TilesAreDisjoint(s, size, i, j - 1); }
  }

  /** Tiling slots leave no byte uncovered. */
  lemma {:induction false} TilesCover(s: seq<Slot>, size: nat, b: nat, last: nat) returns (i: nat)
    requires Tile(s, size) && last < |s| && b < s[last].End()
    ensures i <= last && s[i].offset <= b < s[i].End()
    decreases last
  {
    assert Abuts(s, last);
    if s[last].offset <= b { i := last; } else { i := TilesCover(s, size, b, last - 1); }
  }

  /** The `n` elements of an array. */
  function ElemsOf(kind: SlotKind, n: nat): (s: seq<Slot>)
    ensures |s| == n
  {
    seq(n, i requires 0 <= i < n => Slot(i * Width(kind), kind))
  }

  lemma ArrayTiles(kind: SlotKind, n: nat)
    ensures Tile(ElemsOf(kind, n), n * Width(kind))
  {
    var s := ElemsOf(kind, n);
    forall i: nat ensures Abuts(s, i) {
      if 0 < i < n { assert i * Width(kind) == (i - 1) * Width(kind) + Width(kind); }
    }
    if n > 0 { assert n * Width(kind) == (n - 1) * Width(kind) + Width(kind); }
  }

  // --- kinds from the module IR ---

  function IrRefKind(h: IrHeap): RefKind {
    match h
    case IrConcrete(_, AggFunc) => KFunc
    case IrConcrete(_, _) => KAny
    case IrAbs(a) => if a.HFunc? || a.HNoFunc? then KFunc
                     else if a.HExtern? || a.HNoExtern? then KExtern
                     else if a.HExn? || a.HNoExn? then KExn
                     else KAny
  }

  function IrFieldKind(f: IrField): SlotKind {
    match f.storage
    case IrI8 => Scalar(SI8)
    case IrI16 => Scalar(SI16)
    case IrStored(v) =>
      match v
      case IrI32 => Scalar(SI32)
      case IrI64 => Scalar(SI64)
      case IrF32 => Scalar(SF32)
      case IrF64 => Scalar(SF64)
      case IrV128 => Scalar(SV128)
      case IrRef(_, h) => Handle(IrRefKind(h))
  }

  /** Function types have no layout; an array's one kind is repeated. */
  datatype BodyLayout = StructOf(kinds: seq<SlotKind>) | ArrayOf(kind: SlotKind)

  /** `Layout::from_body`. */
  function FromBody(b: CompositeBody): Option<BodyLayout> {
    match b
    case IrFunc(_, _) => None
    case IrStruct(fs) => Some(StructOf(seq(|fs|, i requires 0 <= i < |fs| => IrFieldKind(fs[i]))))
    case IrArray(f) => Some(ArrayOf(IrFieldKind(f)))
  }

  // --- public types, materialized from the canonical form ---

  datatype HeapType<R> = PubAbs(abs: AbsHeap) | ConcreteFunc(f: R) | ConcreteStruct(s: R) | ConcreteArray(a: R)
  datatype ValType<R> = TI32 | TI64 | TF32 | TF64 | TV128 | TRef(nullable: bool, heap: HeapType<R>)
  datatype StorageType<R> = TI8 | TI16 | TVal(v: ValType<R>)
  datatype Mutability = Var | Const
  datatype FieldType<R> = FieldType(mutability: Mutability, element: StorageType<R>)

  function NumDecode<R>(c: nat): ValType<R> {
    if c == 0 then TI32 else if c == 1 then TI64 else if c == 2 then TF32 else if c == 3 then TF64 else TV128
  }

  function AbsDecode(c: nat): AbsHeap {
    match c
    case 0 => HFunc case 1 => HNoFunc case 2 => HExtern case 3 => HNoExtern
    case 4 => HAny case 5 => HEq case 6 => HI31 case 7 => HStruct
    case 8 => HArray case 9 => HExn case 10 => HNoExn case _ => HNone
  }

  function MatHeap<R>(h: CHeap<R>): HeapType<R> {
    match h
    case Abs(c) => PubAbs(AbsDecode(c))
    case Concrete(k, r) =>
      match k
      case AggFunc => ConcreteFunc(r)
      case AggStruct => ConcreteStruct(r)
      case AggArray => ConcreteArray(r)
  }

  function MatVal<R>(v: CVal<R>): ValType<R> {
    match v
    case Num(c) => NumDecode(c)
    case Ref(n, h) => TRef(n, MatHeap(h))
  }

  function MatField<R>(f: CField<R>): FieldType<R> {
    var storage := match f.storage
      case Packed(c) => if c == 0 then TI8 else TI16
      case Stored(v) => TVal(MatVal(v));
    FieldType(if f.mutable then Var else Const, storage)
  }

  /** The public heap type `p` says what the IR says, naming `cref(i)` where the IR names type `i`. */
  predicate PublishesHeap<R(==)>(p: HeapType<R>, h: IrHeap, cref: nat -> R) {
    match h
    case IrAbs(a) => p == PubAbs(a)
    case IrConcrete(i, k) =>
      && (k.AggFunc? ==> p == ConcreteFunc(cref(i)))
      && (k.AggStruct? ==> p == ConcreteStruct(cref(i)))
      && (k.AggArray? ==> p == ConcreteArray(cref(i)))
  }

  predicate PublishesVal<R(==)>(p: ValType<R>, v: IrVal, cref: nat -> R) {
    match v
    case IrI32 => p.TI32?
    case IrI64 => p.TI64?
    case IrF32 => p.TF32?
    case IrF64 => p.TF64?
    case IrV128 => p.TV128?
    case IrRef(n, h) => p.TRef? && p.nullable == n && PublishesHeap(p.heap, h, cref)
  }

  predicate PublishesField<R(==)>(p: FieldType<R>, f: IrField, cref: nat -> R) {
    && (p.mutability == Var <==> f.mutable)
    && match f.storage
      case IrI8 => p.element.TI8?
      case IrI16 => p.element.TI16?
      case IrStored(v) => p.element.TVal? && PublishesVal(p.element.v, v, cref)
  }

  lemma ValIsPublished<R>(v: IrVal, cref: nat -> R)
    ensures PublishesVal(MatVal(ValKey(v, cref)), v, cref)
  {
    if v.IrRef? && v.heap.IrAbs? { assert AbsDecode(AbsCode(v.heap.abs)) == v.heap.abs; }
  }

  /**
   The public field type materialized from a field's key is the field the module declares: its
   mutability, packed or full storage, number, nullability, abstract heap type, or concrete type of the
   declared kind.
   */
  lemma FieldIsPublished<R>(f: IrField, cref: nat -> R)
    ensures PublishesField(MatField(FieldKey(f, cref)), f, cref)
  {
    if f.storage.IrStored? { ValIsPublished(f.storage.v, cref); }
  }

  function PubRefKind<R>(h: HeapType<R>): RefKind {
    match h
    case PubAbs(a) => if a.HFunc? || a.HNoFunc? then KFunc
                      else if a.HExtern? || a.HNoExtern? then KExtern
                      else if a.HExn? || a.HNoExn? then KExn
                      else KAny
    case ConcreteFunc(_) => KFunc
    case _ => KAny
  }

  function PubFieldKind<R>(f: FieldType<R>): SlotKind {
    match f.element
    case TI8 => Scalar(SI8)
    case TI16 => Scalar(SI16)
    case TVal(v) =>
      match v
      case TI32 => Scalar(SI32)
      case TI64 => Scalar(SI64)
      case TF32 => Scalar(SF32)
      case TF64 => Scalar(SF64)
      case TV128 => Scalar(SV128)
      case TRef(_, h) => Handle(PubRefKind(h))
  }

  /** `Layout::for_struct` / `for_array` of the materialized fields of a canonical body. */
  function FromCanonical<R>(b: CBody<R>): Option<BodyLayout> {
    match b
    case Func(_, _) => None
    case Struct(fs) => Some(StructOf(seq(|fs|, i requires 0 <= i < |fs| => PubFieldKind(MatField(fs[i])))))
    case Array(f) => Some(ArrayOf(PubFieldKind(MatField(f))))
  }

  /** The layout the collector recovers for a canonical id. */
  function RegistryLayout(r: Reg, id: TypeId): Option<BodyLayout> {
    if id < |r.types| && r.types[id].Some? then FromCanonical(r.types[id].value.body) else None
  }

  // --- the two agree ---

  lemma FieldKindsAgree<R>(f: IrField, cref: nat -> R)
    ensures PubFieldKind(MatField(FieldKey(f, cref))) == IrFieldKind(f)
  {
    match f.storage
    case IrI8 =>
    case IrI16 =>
    case IrStored(v) =>
      match v
      case IrI32 =>
      case IrI64 =>
      case IrF32 =>
      case IrF64 =>
      case IrV128 =>
      case IrRef(_, h) =>
        match h
        case IrAbs(a) => assert AbsDecode(AbsCode(a)) == a;
        case IrConcrete(_, k) =>
  }

  /** Keying a body and materializing it back yields the layout of the body itself. */
  lemma {:induction false} KeyedLayout<R>(b: CompositeBody, cref: nat -> R)
    ensures FromCanonical(BodyKey(b, cref)) == FromBody(b)
  {
    match b
    case IrFunc(_, _) =>
    case IrStruct(fs) =>
      var key := BodyKey(b, cref);
      forall i | 0 <= i < |fs| ensures PubFieldKind(MatField(key.fields[i])) == IrFieldKind(fs[i]) {
        FieldKindsAgree(fs[i], cref);
      }
      assert FromCanonical(key).value.kinds == FromBody(b).value.kinds;
    case IrArray(f) => FieldKindsAgree(f, cref);
  }

  lemma MappedFieldKind<R, S>(x: CField<R>, f: R -> S)
    ensures PubFieldKind(MatField(MapField(x, f))) == PubFieldKind(MatField(x))
  {
  }

  /** Replacing references leaves the layout alone. */
  lemma {:induction false} MappedLayout<R, S>(b: CBody<R>, f: R -> S)
    ensures FromCanonical(MapBody(b, f)) == FromCanonical(b)
  {
    match b
    case Func(_, _) =>
    case Struct(fs) =>
      var mapped := MapBody(b, f);
      forall i | 0 <= i < |fs| ensures PubFieldKind(MatField(mapped.fields[i])) == PubFieldKind(MatField(fs[i])) {
        MappedFieldKind(fs[i], f);
      }
      assert FromCanonical(mapped).value.kinds == FromCanonical(b).value.kinds;
    case Array(x) => MappedFieldKind(x, f);
  }

  /** Two forms of one type, with references mapped in different ways, are laid out alike. */
  lemma {:induction false} ChainedLayout<R, S, T>(t: CType<R>, mt: ModuleType, f: R -> S, cref: nat -> S, g: R -> T)
    requires MapType(t, f) == TypeKey(mt, cref)
    ensures FromCanonical(MapBody(t.body, g)) == FromBody(mt.body)
  {
    MappedLayout(t.body, f);
    MappedLayout(t.body, g);
    KeyedLayout(mt.body, cref);
  }

  /** The stored key of an id that stands for type `m` of a module is that type's, up to references. */
  lemma {:induction false} KeyIsModules(key: CGroup, p: nat, meaning: map<TypeId, XRef>, types: seq<ModuleType>, m: nat)
    returns (cref: nat -> XRef)
    requires p < |key| && m < |types| && XTo(Expand(key, meaning), p) == ModuleMeaning(types, m)
    ensures MapType(key[p], (r: CanonRef) => RefTree(meaning, r)) == TypeKey(types[m], cref)
  {
    var base := GroupStart(types, m);
    cref := ModuleLeaf(types, base);
    SameEnd(types, base, m);
    assert Expand(key, meaning)[p] == MapType(key[p], (r: CanonRef) => RefTree(meaning, r));
    assert ModuleTree(types, base)[p] == TypeKey(types[base + p], cref);
  }

  /**
   In every reachable registry state, a canonical id that stands for type `m` of a module has the
   layout the interpreter computes from the module's IR for `m`.
   */
  lemma {:induction false} LayoutsAgree(h: History, id: TypeId, types: seq<ModuleType>, m: nat)
    requires Run(h) && m < |types| && id in Now(h).meaning && Now(h).meaning[id] == ModuleMeaning(types, m)
    ensures RegistryLayout(Now(h).reg, id) == FromBody(types[m].body)
  {
    var meaning := Now(h).meaning;
    var key, members, p := StoredBody(h, id);
    var cref := KeyIsModules(key, p, meaning, types, m);
    var resolve := (r: CanonRef) => ResolveRef(r, members);
    ChainedLayout(key[p], types[m], (r: CanonRef) => RefTree(meaning, r), cref, resolve);
  }

  /** The declared fields of a struct or array type, in order. */
  function Declared(b: CompositeBody): seq<IrField> {
    match b
    case IrFunc(_, _) => []
    case IrStruct(fs) => fs
    case IrArray(f) => [f]
  }

  /** The public fields materialized from a canonical body. */
  function Materialized<R>(b: CBody<R>): seq<FieldType<R>> {
    match b
    case Func(_, _) => []
    case Struct(fs) => seq(|fs|, i requires 0 <= i < |fs| => MatField(fs[i]))
    case Array(f) => [MatField(f)]
  }

  /**
   In every reachable registry state, the fields materialized for the id of a module's type are the
   fields the module declares, with each type index replaced by that type's own id.
   */
  lemma {:induction false} FieldsArePublished(h: History, types: seq<ModuleType>, ids: seq<TypeId>, m: nat, k: nat)
    requires Run(h) && ModuleOk(types) && |ids| == |types| && m < |types|
    requires InternedUpTo(types, ids, Now(h).meaning) && k < |Declared(types[m].body)|
    ensures ids[m] < |Now(h).reg.types| && Now(h).reg.types[ids[m]].Some?
    ensures var fields := Materialized(Now(h).reg.types[ids[m]].value.body);
      |fields| == |Declared(types[m].body)| &&
      PublishesField(fields[k], Declared(types[m].body)[k], (n: nat) => IdOf(ids, n))
  {
    StoredAsDeclared(h, types, ids, m);
    FieldIsPublished(Declared(types[m].body)[k], (n: nat) => IdOf(ids, n));
  }

  lemma StoredBody(h: History, id: TypeId) returns (key: CGroup, members: seq<TypeId>, p: nat)
    requires Run(h) && id in Now(h).meaning
    ensures p < |key| && Now(h).meaning[id] == XTo(Expand(key, Now(h).meaning), p)
    ensures id < |Now(h).reg.types| && Now(h).reg.types[id].Some?
    ensures Now(h).reg.types[id].value.body == MapBody(key[p].body, (r: CanonRef) => ResolveRef(r, members))
  {
    RunKeepsInvariant(h);
    var r := Now(h).reg;
    key, p := KeyOf(r, Now(h).meaning, id);
    assert GroupOk(r, r.owner[id].value);
    members := r.groups[r.owner[id].value].value.members;
  }
}
