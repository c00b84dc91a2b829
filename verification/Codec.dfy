/** Values in packed object bodies (`src/store/gc_codec.rs`) and `anyref` handles (`src/store/gc.rs`). */
module Codec {
  import opened Options
  import opened Bytes
  import opened Layout

  /** Scalars are bit patterns; a reference carries the index or handle it is stored as. */
  datatype Val =
    | I32(bits: nat) | I64(bits: nat) | F32(bits: nat) | F64(bits: nat) | V128(bits: nat)
    | FuncRef(func: Option<nat>) | ExternRef(ext: Option<nat>) | AnyRef(any: Option<nat>) | ExnRef(exn: Option<nat>)

  const NULL_REF: nat := 0x7FFF_FFFF
  const I31_TAG: nat := 0x8000_0000
  const U32: nat := 0x1_0000_0000

  // --- anyref handles ---

  datatype AnyHandle = I31(value: int) | ObjSlot(index: nat)

  /** An `i32`'s low 31 bits under the tag. `v` is the signed value. */
  function HandleI31(v: int): (h: nat)
    ensures I31_TAG <= h < U32
  {
    I31_TAG + v % I31_TAG
  }

  function DecodeHandle(h: nat): AnyHandle {
    if h < I31_TAG then ObjSlot(h)
    else
      var payload := h % I31_TAG;
      I31(if payload < 0x4000_0000 then payload else payload - I31_TAG)
  }

  /** Every value of 31 signed bits survives boxing, and a boxed value never looks like a slot or null. */
  lemma I31RoundTrip(v: int)
    requires -0x4000_0000 <= v < 0x4000_0000
    ensures DecodeHandle(HandleI31(v)) == I31(v) && HandleI31(v) != NULL_REF
  {
  }

  // --- reading and writing one slot ---

  function RefVal(kind: RefKind, h: nat): Val {
    var r := if h == NULL_REF then None else Some(h);
    match kind
    case KFunc => FuncRef(r)
    case KExtern => ExternRef(r)
    case KAny => AnyRef(r)
    case KExn => ExnRef(r)
  }

  function RefKindOf(v: Val): Option<RefKind> {
    match v
    case FuncRef(_) => Some(KFunc)
    case ExternRef(_) => Some(KExtern)
    case AnyRef(_) => Some(KAny)
    case ExnRef(_) => Some(KExn)
    case _ => None
  }

  function RefHandle(v: Val): nat
    requires RefKindOf(v).Some?
  {
    var r := match v
      case FuncRef(f) => f
      case ExternRef(e) => e
      case AnyRef(a) => a
      case ExnRef(x) => x;
    if r.Some? then r.value else NULL_REF
  }

  /** `slot_accepts`: the kind of value a slot holds; packed integers take an `i32`. */
  predicate Accepts(kind: SlotKind, v: Val) {
    match kind
    case Scalar(s) => (match s
      case SI8 => v.I32?
      case SI16 => v.I32?
      case SI32 => v.I32?
      case SI64 => v.I64?
      case SF32 => v.F32?
      case SF64 => v.F64?
      case SV128 => v.V128?)
    case Handle(k) => RefKindOf(v) == Some(k)
  }

  /** A value whose bits or handle fit the width they are stored in. */
  predicate Fits(v: Val) {
    match v
    case I32(b) => b < Pow256(4)
    case I64(b) => b < Pow256(8)
    case F32(b) => b < Pow256(4)
    case F64(b) => b < Pow256(8)
    case V128(b) => b < Pow256(16)
    case _ => RefHandle(v) < Pow256(4)
  }

  /** The number stored for `v`: packed scalars are truncated, references are handles. */
  function Stored(kind: SlotKind, v: Val): nat
    requires Accepts(kind, v)
  {
    match kind
    case Scalar(SI8) => v.bits % Pow256(1)
    case Scalar(SI16) => v.bits % Pow256(2)
    case Scalar(_) => v.bits
    case Handle(_) => RefHandle(v)
  }

  function Loaded(kind: SlotKind, n: nat): Val {
    match kind
    case Scalar(s) => (match s
      case SI8 => I32(n)
      case SI16 => I32(n)
      case SI32 => I32(n)
      case SI64 => I64(n)
      case SF32 => F32(n)
      case SF64 => F64(n)
      case SV128 => V128(n))
    case Handle(k) => RefVal(k, n)
  }

  function WriteSlot(s: Slot, data: seq<u8>, v: Val): (r: seq<u8>)
    requires s.End() <= |data| && Accepts(s.kind, v)
    ensures |r| == |data|
  {
    Spliced(data, s.offset, ToLe(Stored(s.kind, v), Width(s.kind)))
  }

  function ReadSlot(s: Slot, data: seq<u8>): Val
    requires s.End() <= |data|
  {
    Loaded(s.kind, FromLe(data[s.offset..s.End()]))
  }

  /** `read_slot_packed`: a packed field read sign- or zero-extended, as the `i32` it denotes. */
  function ReadPacked(s: Slot, data: seq<u8>, signed: bool): int
    requires s.End() <= |data| && (s.kind == Scalar(SI8) || s.kind == Scalar(SI16))
  {
    var n := FromLe(data[s.offset..s.End()]);
    var limit := Pow256(Width(s.kind));
    if signed && 2 * n >= limit then n - limit else n
  }

  /** What reading a slot just written gives: the value, its packed scalars cut to their width. */
  function Narrowed(kind: SlotKind, v: Val): Val {
    match kind
    case Scalar(SI8) => if v.I32? then I32(v.bits % 256) else v
    case Scalar(SI16) => if v.I32? then I32(v.bits % 65536) else v
    case _ => v
  }

  lemma StoredFits(kind: SlotKind, v: Val)
    requires Accepts(kind, v) && Fits(v)
    ensures Stored(kind, v) < Pow256(Width(kind))
  {
    assert Pow256(1) == 256 && Pow256(2) == 65536;
  }

  /** A slot reads back what was written, packed scalars narrowed; handles other than the null sentinel are exact. */
  lemma {:induction false} WriteThenRead(s: Slot, data: seq<u8>, v: Val)
    requires s.End() <= |data| && Accepts(s.kind, v) && Fits(v)
    requires RefKindOf(v).Some? && RefHandle(v) == NULL_REF ==> v == RefVal(RefKindOf(v).value, NULL_REF)
    ensures ReadSlot(s, WriteSlot(s, data, v)) == Narrowed(s.kind, v)
  {
    StoredFits(s.kind, v);
    LeRoundTrip(Stored(s.kind, v), Width(s.kind));
    assert Pow256(1) == 256 && Pow256(2) == 65536;
  }

  /**
   A packed field reads back the low bits of what was written: as they are, or as the signed number of
   that width with the same low bits.
   */
  lemma {:induction false} PackedReads(s: Slot, data: seq<u8>, v: Val, signed: bool)
    requires s.End() <= |data| && (s.kind == Scalar(SI8) || s.kind == Scalar(SI16)) && v.I32?
    ensures var limit: int := Pow256(Width(s.kind));
      var n := ReadPacked(s, WriteSlot(s, data, v), signed);
      && (!signed ==> n == v.bits % limit)
      && (signed ==> -limit <= 2 * n < limit && (n - v.bits % limit == 0 || n - v.bits % limit == -limit))
  {
    assert Pow256(1) == 256 && Pow256(2) == 65536;
    LeRoundTrip(Stored(s.kind, v), Width(s.kind));
  }

  /** Writing one of a body's tiling slots leaves the value read from every other slot unchanged. */
  lemma {:induction false} WriteKeepsOthers(slots: seq<Slot>, data: seq<u8>, i: nat, j: nat, v: Val)
    requires Tile(slots, |data|) && i < |slots| && j < |slots| && i != j
    requires slots[i].End() <= |data| && slots[j].End() <= |data| && Accepts(slots[i].kind, v)
    ensures ReadSlot(slots[j], WriteSlot(slots[i], data, v)) == ReadSlot(slots[j], data)
  {
    if i < j { TilesAreDisjoint(slots, |data|, i, j); } else { TilesAreDisjoint(slots, |data|, j, i); }
    var bytes := ToLe(Stored(slots[i].kind, v), Width(slots[i].kind));
    SplicedElsewhere(data, slots[i].offset, bytes, slots[j].offset, slots[j].End());
  }
}
