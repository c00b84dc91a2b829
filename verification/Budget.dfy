/**
 The managed heap's byte budget (`src/store/gc.rs`, `src/exec/collect.rs`, `src/store/grow.rs`):
 what an allocating operation reserves before it pops its operands, and what it later places.
 */
module Budget {
  import opened Options

  /** `usize` on a 64-bit target. */
  const USIZE_MAX: nat := 0xFFFF_FFFF_FFFF_FFFF
  const ABORT_SAFETY_CAP: nat := 0x4000_0000
  const RESERVE_BATCH: nat := 0x1_0000
  /** Slot cell, generation and allocator overhead of one object. */
  const OBJECT_OVERHEAD: nat := 44
  /** The same for an entry of the externref and exception arenas. */
  const ENTRY_OVERHEAD: nat := 64
  /** `size_of::<Val>()`. */
  const VAL_BYTES: nat := 32

  function Min(a: nat, b: nat): nat { if a < b then a else b }
  function Max(a: nat, b: nat): nat { if a < b then b else a }
  function SatAdd(a: nat, b: nat): nat { Min(a + b, USIZE_MAX) }
  function SatSub(a: nat, b: nat): nat { if a < b then 0 else a - b }
  function SatMul(a: nat, b: nat): nat { Min(a * b, USIZE_MAX) }

  /** `GcObject::byte_size` and `object_charge`: the charge of an object with `len` body bytes. */
  function ObjectCharge(len: nat): nat { SatAdd(OBJECT_OVERHEAD, len) }

  /** `exn_charge`: the charge of an exception with `n` arguments. */
  function ExnCharge(n: nat): nat { SatAdd(ENTRY_OVERHEAD, SatMul(n, VAL_BYTES)) }

  datatype Reserve = Reserve(used: nat, reserved: nat, reservation: nat, nextGrow: nat)

  /** Every quantity is a `usize`; the free budget is capped and the growth step stays within its cap. */
  predicate ReserveOk(b: Reserve) {
    && b.used <= USIZE_MAX && b.reserved <= USIZE_MAX
    && b.reservation <= ABORT_SAFETY_CAP
    && RESERVE_BATCH <= b.nextGrow <= Max(b.reservation, RESERVE_BATCH)
  }

  function Fresh(reservation: nat): (b: Reserve)
    ensures ReserveOk(b)
  {
    Reserve(0, 0, Min(reservation, ABORT_SAFETY_CAP), RESERVE_BATCH)
  }

  predicate FitsReserve(b: Reserve, size: nat) {
    b.used + size <= USIZE_MAX && b.used + size <= b.reserved
  }

  function UnreservedCeiling(b: Reserve): nat {
    Max(Max(b.reserved, b.reservation), ABORT_SAFETY_CAP)
  }

  predicate CanFitLimit(b: Reserve, size: nat) {
    b.used + size <= USIZE_MAX && b.used + size <= UnreservedCeiling(b)
  }

  function DesiredReservation(b: Reserve, size: nat): nat {
    Max(SatAdd(b.reserved, b.nextGrow), SatAdd(b.used, size))
  }

  predicate IsFreeGrant(b: Reserve, target: nat) {
    target <= b.reservation
  }

  /** The budget after a grant, and the bytes the engine-wide total gains. */
  function Granted(b: Reserve, target: nat): (Reserve, nat) {
    (b.(reserved := target, nextGrow := Min(SatMul(b.nextGrow, 2), Max(b.reservation, RESERVE_BATCH))),
     SatSub(target, b.reserved))
  }

  /**
   A grant keeps the budget in order: it reserves the target, and the next growth step is twice this one,
   up to the cap.
   */
  lemma GrantKeepsOk(b: Reserve, target: nat)
    requires ReserveOk(b) && target <= USIZE_MAX
    ensures ReserveOk(Granted(b, target).0)
    ensures var after := Granted(b, target).0;
      && after.reserved == target && after.used == b.used && after.reservation == b.reservation
      && (2 * b.nextGrow <= b.reservation || 2 * b.nextGrow <= RESERVE_BATCH ==> after.nextGrow == 2 * b.nextGrow)
      && (2 * b.nextGrow > b.reservation && 2 * b.nextGrow > RESERVE_BATCH ==>
            after.nextGrow == if b.reservation > RESERVE_BATCH then b.reservation else RESERVE_BATCH)
  {
    assert RESERVE_BATCH <= SatMul(b.nextGrow, 2);
  }

  /** What the reservation flow decides for a charge: place the object, or suspend for the limiter. */
  datatype Decision = Place(budget: Reserve, granted: nat) | Suspend(target: nat)

  /**
   `gc_reserve` and `gc_reserve_host` up to the limiter. `collected` is the number of bytes in use
   after a collection, which runs only when the growth needed exceeds the free budget.
   */
  function Decide(b: Reserve, charge: nat, collecting: bool, collected: nat): Decision {
    if FitsReserve(b, charge) then Place(b, 0)
    else
      var collects := !IsFreeGrant(b, DesiredReservation(b, charge)) && collecting;
      var c := if collects then b.(used := collected) else b;
      if collects && FitsReserve(c, charge) then Place(c, 0)
      else
        var target := DesiredReservation(c, charge);
        if IsFreeGrant(c, target) then
          var (granted, delta) := Granted(c, target);
          Place(granted, delta)
        else Suspend(target)
  }

  /** Whether the flow collects: the charge does not fit, and the growth it needs is not free. */
  predicate WillCollect(b: Reserve, charge: nat, collecting: bool) {
    !FitsReserve(b, charge) && !IsFreeGrant(b, DesiredReservation(b, charge)) && collecting
  }

  /** The growth asked for is one step, or the need if that is more, as far as it can be counted. */
  lemma DesiredIsLargest(b: Reserve, size: nat)
    requires ReserveOk(b)
    ensures var target := DesiredReservation(b, size);
      && (b.reserved + b.nextGrow <= USIZE_MAX ==> b.reserved + b.nextGrow <= target)
      && (b.used + size <= USIZE_MAX ==> b.used + size <= target)
      && (target == b.reserved + b.nextGrow || target == b.used + size || target == USIZE_MAX)
  {
  }

  /** An unreserved allocation may use what is reserved, the free budget or the abort cap, whichever is most. */
  lemma CeilingIsLargest(b: Reserve, size: nat)
    ensures CanFitLimit(b, size) <==>
      && b.used + size <= USIZE_MAX
      && (b.used + size <= b.reserved || b.used + size <= b.reservation || b.used + size <= ABORT_SAFETY_CAP)
  {
  }

  /**
   Only real pressure collects or asks the limiter: a store whose growth stays within its free budget
   never does, and the limiter is asked exactly when, after the collection if there is one, the charge
   still does not fit and the growth it needs exceeds that budget.
   */
  lemma OnlyPressureSuspends(b: Reserve, charge: nat, collecting: bool, collected: nat)
    requires ReserveOk(b) && collected <= USIZE_MAX
    ensures var d, pressure := Decide(b, charge, collecting, collected), WillCollect(b, charge, collecting);
      var used := if pressure then collected else b.used;
      var target := DesiredReservation(b.(used := used), charge);
      && (pressure ==> collecting && DesiredReservation(b, charge) > b.reservation)
      && (d.Suspend? <==> (used + charge > b.reserved || used + charge > USIZE_MAX) && target > b.reservation)
      && (d.Suspend? ==> d.target == target)
      && (d.Place? ==> d.budget.used == used && (d.budget.reserved == b.reserved || d.budget.reserved == target))
  {
  }

  /** "Place now" always means that the charge fits the reservation, without overflow. */
  lemma {:induction false} PlaceMeansFits(b: Reserve, charge: nat, collecting: bool, collected: nat)
    requires ReserveOk(b) && collected <= USIZE_MAX
    ensures var d := Decide(b, charge, collecting, collected);
      d.Place? ==> FitsReserve(d.budget, charge) && ReserveOk(d.budget) && b.reserved + d.granted == d.budget.reserved
  {
    var d := Decide(b, charge, collecting, collected);
    if d.Place? && !FitsReserve(b, charge) {
      var c := if !IsFreeGrant(b, DesiredReservation(b, charge)) && collecting then b.(used := collected) else b;
      if !FitsReserve(c, charge) { GrantKeepsOk(c, DesiredReservation(c, charge)); }
    }
  }

  /**
   After the limiter grants the growth an operation suspended for, re-executing the operation finds
   room, and its later capacity check passes, if and only if its bytes can be counted at all.
   */
  lemma {:induction false} GrowthSettlesIt(b: Reserve, charge: nat, body: nat, collecting: bool, collected: nat)
    requires ReserveOk(b) && body <= charge && collected <= USIZE_MAX
    requires Decide(b, charge, collecting, collected).Suspend?
    ensures var target := Decide(b, charge, collecting, collected).target;
      var collects := !IsFreeGrant(b, DesiredReservation(b, charge)) && collecting;
      var c := if collects then b.(used := collected) else b;
      var (after, delta) := Granted(c, target);
      && c.reserved <= target && delta == target - c.reserved
      && (FitsReserve(after, charge) <==> c.used + charge <= USIZE_MAX)
      && (FitsReserve(after, charge) ==> CanFitLimit(after, body))
  {
  }

  // --- no instruction's charge gets near the word size ---

  const LAST_COUNT: nat := 0xFFFF_FFFF
  const MAX_STRIDE: nat := 16
  /** More than any instruction charges: the exception with the most arguments a `u32` can count. */
  const LARGEST_CHARGE: nat := 0x20_0000_0020

  /** Counts are `u32` and no field is wider than 16 bytes: arrays and structs charge at most 2^36+28 bytes. */
  lemma {:induction false} ObjectChargeBound(count: nat, stride: nat)
    requires count <= LAST_COUNT && stride <= MAX_STRIDE
    ensures ObjectCharge(count * stride) <= 0x10_0000_001C <= LARGEST_CHARGE
  {
    MulMonotone(count, LAST_COUNT, stride);
    MulMonotone(stride, MAX_STRIDE, LAST_COUNT);
  }

  lemma ExnChargeBound(args: nat)
    requires args <= LAST_COUNT
    ensures ExnCharge(args) <= LARGEST_CHARGE
  {
  }

  /**
   So on this word size, in every store whose heap stops short of the last `LARGEST_CHARGE` bytes, an
   operation suspended for the limiter never suspends again once its growth is granted: executed
   again it is placed at once, and its later capacity check passes.
   */
  lemma {:induction false} OneGrowthIsEnough(
    b: Reserve, charge: nat, body: nat, collecting: bool, collected: nat, again: nat)
    requires ReserveOk(b) && body <= charge <= LARGEST_CHARGE && collected <= b.used <= USIZE_MAX - LARGEST_CHARGE
    requires Decide(b, charge, collecting, collected).Suspend?
    ensures var c := if WillCollect(b, charge, collecting) then b.(used := collected) else b;
      var after := Granted(c, Decide(b, charge, collecting, collected).target).0;
      Decide(after, charge, collecting, again) == Place(after, 0) && CanFitLimit(after, body)
  {
    GrowthSettlesIt(b, charge, body, collecting, collected);
  }

  // --- beyond the exact condition ---

  /** `grow_gc_reservation`: nothing to do below the target already reserved, a trap when refused. */
  function GrowTo(b: Reserve, target: nat, allowed: bool): Option<Reserve> {
    if target <= b.reserved then Some(b)
    else if allowed then Some(Granted(b, target).0)
    else None
  }

  /** How far executing an operation again and again has come. */
  datatype Progress = Settled | Trapped | Pending(budget: Reserve)

  /**
   An operation after `n` rounds of suspending, growing and being executed again. `consents` is the
   limiter's answer to growth past the abort cap, which is refused without a limiter. Nothing is
   allocated in between, so a collection frees nothing that an earlier one has not (`Survival.CollectTwice`).
   */
  function Retried(b: Reserve, charge: nat, collecting: bool, consents: bool, n: nat): Progress {
    if n == 0 then Pending(b)
    else match Retried(b, charge, collecting, consents, n - 1)
      case Pending(before) => (match Decide(before, charge, collecting, before.used)
        case Place(_, _) => Settled
        case Suspend(target) =>
          var grown := GrowTo(before, target, consents || target <= ABORT_SAFETY_CAP);
          if grown.Some? then Pending(grown.value) else Trapped)
      case ended => ended
  }

  /** A charge that cannot be counted suspends for everything there is, and again once that is granted. */
  lemma {:induction false} UncountableSuspends(b: Reserve, charge: nat, collecting: bool)
    requires ReserveOk(b) && b.used + charge > USIZE_MAX
    ensures Decide(b, charge, collecting, b.used) == Suspend(USIZE_MAX)
    ensures var after := GrowTo(b, USIZE_MAX, true).value;
      && after.reserved == USIZE_MAX && after.used == b.used && ReserveOk(after)
      && forall allowed :: GrowTo(after, USIZE_MAX, allowed) == Some(after)
  {
    if b.reserved < USIZE_MAX { GrantKeepsOk(b, USIZE_MAX); }
  }

  /**
   An operation whose charge cannot be counted is never placed: refused it traps at once, and with a
   consenting limiter, from the first round on, growing changes nothing.
   */
  lemma {:induction false} UncountableNeverSettles(b: Reserve, charge: nat, collecting: bool, consents: bool, n: nat)
    requires ReserveOk(b) && b.used + charge > USIZE_MAX
    ensures var r := Retried(b, charge, collecting, consents, n);
      && !r.Settled? && (r.Trapped? <==> n > 0 && !consents && b.reserved < USIZE_MAX)
      && (r.Pending? ==> ReserveOk(r.budget) && r.budget.used == b.used)
      && (r.Pending? && n > 0 ==> r.budget.reserved == USIZE_MAX)
      && (r.Pending? && n > 0 ==> Retried(b, charge, collecting, consents, n + 1) == r)
  {
    if n == 0 {
      UncountableSuspends(b, charge, collecting);
    } else {
      UncountableNeverSettles(b, charge, collecting, consents, n - 1);
      var before, now := Retried(b, charge, collecting, consents, n - 1), Retried(b, charge, collecting, consents, n);
      if before.Pending? { UncountableSuspends(before.budget, charge, collecting); }
      if now.Pending? { UncountableSuspends(now.budget, charge, collecting); }
    }
  }

  // --- charges peeked before an operation against the bytes it places ---

  datatype Segment = Segment(bytes: nat, dropped: bool)

  /** `seg_clamped_charge`: the counted body size, cut to the source segment. */
  function SegClamped(count: nat, stride: nat, segBytes: nat): nat {
    if count * stride > USIZE_MAX then segBytes else Min(count * stride, segBytes)
  }

  /** `range`: `[start, start + len)` lies within `total`. */
  predicate InRange(start: nat, len: nat, total: nat) {
    start + len <= USIZE_MAX && start + len <= total
  }

  /** `array.new_data`: the bytes placed, when nothing traps. */
  function NewDataBytes(count: nat, offset: nat, stride: nat, seg: Segment): Option<nat> {
    var segLen := if seg.dropped then 0 else seg.bytes;
    if count * stride > USIZE_MAX || !InRange(offset, count * stride, segLen) then None
    else Some(count * stride)
  }

  /** `array.new_elem`: the same over a segment of `refs` references. */
  function NewElemBytes(count: nat, offset: nat, stride: nat, refs: nat): Option<nat> {
    if !InRange(offset, count, refs) || count * stride > USIZE_MAX then None else Some(count * stride)
  }

  /** The clamp is invisible to an operation that succeeds: it charged exactly what it places. */
  lemma {:induction false} ClampedChargeIsExact(count: nat, offset: nat, stride: nat, seg: Segment, refs: nat)
    ensures NewDataBytes(count, offset, stride, seg).Some? ==>
      NewDataBytes(count, offset, stride, seg).value == SegClamped(count, stride, if seg.dropped then 0 else seg.bytes)
    ensures NewElemBytes(count, offset, stride, refs).Some? ==>
      NewElemBytes(count, offset, stride, refs).value == SegClamped(count, stride, SatMul(refs, stride))
  {
    if NewElemBytes(count, offset, stride, refs).Some? {
      MulMonotone(count, refs, stride);
    }
  }

  lemma MulMonotone(a: nat, b: nat, c: nat)
    requires a <= b
    ensures a * c <= b * c
  {
  }
}
