/** Fuel metering with yield slices (`src/store/inner.rs`, `src/exec/gates.rs`, `src/exec/host_async.rs`). */
module Fuel {
  import opened Options

  const U64_LAST: nat := 0xFFFF_FFFF_FFFF_FFFF

  datatype FuelStep = Ran | NeedYield | Exhausted

  datatype Tank = Tank(active: nat, reserve: nat, interval: Option<nat>)

  function TotalFuel(t: Tank): nat {
    t.active + t.reserve
  }

  /**
   The total is a `u64`; an interval is never zero, and no more than one interval's fuel is ever active;
   nothing is held back without one.
   */
  predicate TankOk(t: Tank) {
    && TotalFuel(t) <= U64_LAST
    && (t.interval.Some? ==> 0 < t.interval.value && t.active <= t.interval.value)
    && (t.interval.None? ==> t.reserve == 0)
  }

  predicate IsMin(m: nat, a: nat, b: nat) {
    m <= a && m <= b && (m == a || m == b)
  }

  /** `set_fuel`: the total split at the interval. */
  function Split(total: nat, interval: Option<nat>): Tank {
    var active := if interval.Some? && interval.value < total then interval.value else total;
    Tank(active, total - active, interval)
  }

  function Charge(t: Tank): (Tank, FuelStep) {
    if t.active > 0 then (t.(active := t.active - 1), Ran)
    else if t.reserve > 0 then (t, NeedYield)
    else (t, Exhausted)
  }

  /** `refuel_from_reserve`: one interval, or what is left of the reserve. */
  function Refuel(t: Tank): Tank {
    var slice := if t.interval.None? then 0 else if t.interval.value < t.reserve then t.interval.value else t.reserve;
    t.(active := t.active + slice, reserve := t.reserve - slice)
  }

  /**
   A needed yield is followed by a non-empty slice of one interval, or of what is left if that is less,
   and moves fuel without making or losing any.
   */
  lemma YieldIsProductive(t: Tank)
    requires TankOk(t) && Charge(t).1.NeedYield?
    ensures Refuel(t).active > 0 && TotalFuel(Refuel(t)) == TotalFuel(t) && TankOk(Refuel(t))
    ensures t.interval.Some? && IsMin(Refuel(t).active, t.interval.value, TotalFuel(t))
  {
  }

  /** The ops the async driver charges before fuel runs out, refuelling at each yield. */
  function OpsUntilExhausted(t: Tank): nat
    requires TankOk(t)
    decreases TotalFuel(t), t.reserve
  {
    match Charge(t).1
    case Ran => 1 + OpsUntilExhausted(Charge(t).0)
    case NeedYield => OpsUntilExhausted(Refuel(t))
    case Exhausted => 0
  }

  lemma {:induction false} OpsAreTotal(t: Tank)
    requires TankOk(t)
    ensures OpsUntilExhausted(t) == TotalFuel(t)
    decreases TotalFuel(t), t.reserve
  {
    match Charge(t).1
    case Ran => OpsAreTotal(Charge(t).0);
    case NeedYield => OpsAreTotal(Refuel(t));
    case Exhausted =>
  }

  /** Slicing is invisible: the same total runs the same number of ops whatever the interval. */
  lemma {:induction false} SlicingIsInvisible(total: nat, interval: Option<nat>)
    requires total <= U64_LAST && (interval.Some? ==> interval.value > 0)
    ensures TankOk(Split(total, interval)) && TankOk(Split(total, None))
    ensures OpsUntilExhausted(Split(total, interval)) == OpsUntilExhausted(Split(total, None)) == total
  {
    OpsAreTotal(Split(total, interval));
    OpsAreTotal(Split(total, None));
  }

  /** The operations `n` whole slices pay for. */
  function SliceSum(n: nat, interval: nat): nat {
    if n == 0 then 0 else SliceSum(n - 1, interval) + interval
  }

  lemma {:induction false} SliceSumIsProduct(n: nat, interval: nat)
    ensures SliceSum(n, interval) == n * interval
  {
    if n > 0 { SliceSumIsProduct(n - 1, interval); }
  }

  lemma {:induction false} SliceSumAtLeast(n: nat, interval: nat)
    requires interval > 0
    ensures SliceSum(n, interval) >= n
  {
    if n > 0 { SliceSumAtLeast(n - 1, interval); }
  }

  /** `ran` operations from an active slice of `first` units take exactly `pauses` yields. */
  ghost predicate YieldsExactly(first: nat, interval: Option<nat>, ran: nat, pauses: nat) {
    && (pauses == 0 ==> ran <= first)
    && (pauses > 0 ==>
          && interval.Some?
          && first + SliceSum(pauses - 1, interval.value) < ran <= first + SliceSum(pauses, interval.value))
  }

  /** From a full slice, `ran` operations take one yield less than the slices they need, rounded up. */
  lemma {:induction false} FullSlicesOnly(interval: nat, ran: nat, pauses: nat)
    requires interval > 0 && YieldsExactly(interval, Some(interval), ran, pauses)
    ensures ran > 0 ==> pauses * interval < ran <= (pauses + 1) * interval
    ensures ran == 0 ==> pauses == 0
  {
    SliceSumIsProduct(pauses, interval);
    if pauses > 0 { SliceSumIsProduct(pauses - 1, interval); }
    assert (pauses + 1) * interval == pauses * interval + interval;
    assert pauses > 0 ==> (pauses - 1) * interval == pauses * interval - interval;
  }

  /** The driver has run `ran` operations with `pauses` yields, and is within a slice of `slice` units. */
  ghost predicate Driving(t: Tank, first: nat, ran: nat, pauses: nat, slice: nat) {
    && TankOk(t) && t.active <= slice
    && (pauses == 0 ==> slice == first && ran + t.active == first)
    && (pauses > 0 ==>
          && t.interval.Some? && 0 < slice <= t.interval.value && (t.reserve > 0 ==> slice == t.interval.value)
          && ran + t.active == first + SliceSum(pauses - 1, t.interval.value) + slice)
  }

  lemma {:induction false} DriveRuns(t: Tank, first: nat, ran: nat, pauses: nat, slice: nat)
    requires Driving(t, first, ran, pauses, slice) && Charge(t).1.Ran?
    ensures Driving(Charge(t).0, first, ran + 1, pauses, slice) && Charge(t).0.active < slice
  {
  }

  lemma {:induction false} DriveYields(t: Tank, first: nat, ran: nat, pauses: nat, slice: nat)
    requires Driving(t, first, ran, pauses, slice) && Charge(t).1.NeedYield?
    ensures Driving(Refuel(t), first, ran, pauses + 1, Refuel(t).active)
  {
    YieldIsProductive(t);
  }

  lemma {:induction false} DriveEnds(t: Tank, first: nat, ran: nat, pauses: nat, slice: nat)
    requires Driving(t, first, ran, pauses, slice) && (pauses > 0 ==> t.active < slice)
    ensures YieldsExactly(first, t.interval, ran, pauses) && pauses <= ran
  {
    if pauses > 0 {
      SliceSumAtLeast(pauses - 1, t.interval.value);
      assert SliceSum(pauses, t.interval.value) == SliceSum(pauses - 1, t.interval.value) + t.interval.value;
    }
  }

  class FuelMeter {
    var fuel: nat
    var fuelReserve: nat
    var fuelYieldInterval: Option<nat>

    function Value(): Tank
      reads this
    {
      Tank(fuel, fuelReserve, fuelYieldInterval)
    }

    predicate Valid()
      reads this
    {
      TankOk(Value())
    }

    constructor ()
      ensures Valid() && TotalFuel(Value()) == 0 && fuelYieldInterval.None?
    {
      fuel, fuelReserve, fuelYieldInterval := 0, 0, None;
    }

    method SetFuel(total: nat)
      requires Valid() && total <= U64_LAST
      modifies this`fuel, this`fuelReserve
      ensures Valid() && TotalFuel(Value()) == total && Value() == Split(total, fuelYieldInterval)
      ensures fuelYieldInterval.Some? ==> IsMin(fuel, fuelYieldInterval.value, total)
      ensures fuelYieldInterval.None? ==> fuel == total
    {
      fuel := total;
      if fuelYieldInterval.Some? && fuelYieldInterval.value < total {
        fuel := fuelYieldInterval.value;
      }
      fuelReserve := total - fuel;
    }

    /** A new interval re-splits what is left; zero means none. */
    method SetFuelYieldInterval(interval: Option<nat>)
      requires Valid()
      modifies this
      ensures Valid() && TotalFuel(Value()) == old(TotalFuel(Value()))
      ensures fuelYieldInterval == if interval == Some(0) then None else interval
      ensures fuelYieldInterval.Some? ==> IsMin(fuel, fuelYieldInterval.value, fuel + fuelReserve)
      ensures fuelYieldInterval.None? ==> fuelReserve == 0
    {
      var total := fuel + fuelReserve;
      fuelYieldInterval := if interval == Some(0) then None else interval;
      fuel := total;
      if fuelYieldInterval.Some? && fuelYieldInterval.value < total {
        fuel := fuelYieldInterval.value;
      }
      fuelReserve := total - fuel;
    }

    method ConsumeFuelStep() returns (r: FuelStep)
      requires Valid()
      modifies this`fuel
      ensures Valid() && (Value(), r) == Charge(old(Value()))
      ensures TotalFuel(Value()) == old(TotalFuel(Value())) - (if r.Ran? then 1 else 0)
      ensures r.Exhausted? <==> old(TotalFuel(Value())) == 0
    {
      if fuel > 0 {
        fuel := fuel - 1;
        return Ran;
      }
      r := if fuelReserve > 0 then NeedYield else Exhausted;
    }

    /** Moves one interval, or what is left of the reserve; the driver calls it at a yield, with no active fuel. */
    method RefuelFromReserve()
      requires Valid()
      modifies this`fuel, this`fuelReserve
      ensures Value() == Refuel(old(Value())) && TotalFuel(Value()) == old(TotalFuel(Value()))
      ensures fuelYieldInterval.Some? ==> IsMin(fuel - old(fuel), fuelYieldInterval.value, old(fuelReserve))
      ensures fuelYieldInterval.None? ==> fuel == old(fuel)
      ensures old(fuel) == 0 ==> Valid()
    {
      var slice := 0;
      if fuelYieldInterval.Some? {
        slice := if fuelYieldInterval.value < fuelReserve then fuelYieldInterval.value else fuelReserve;
      }
      fuel, fuelReserve := fuel + slice, fuelReserve - slice;
    }

    /**
     The async driver over the next `ops` operations: each is charged, each needed yield refuels and
     charges the operation again. Stops when fuel is exhausted. Whatever number of operations is asked
     for, the yields are exactly those the interval calls for: the first when the active slice is used
     up, and then one after every `interval` operations.
     */
    method Drive(ops: nat) returns (ran: nat, pauses: nat)
      requires Valid()
      modifies this`fuel, this`fuelReserve
      ensures Valid() && ran == (if ops <= old(TotalFuel(Value())) then ops else old(TotalFuel(Value())))
      ensures TotalFuel(Value()) == old(TotalFuel(Value())) - ran
      ensures YieldsExactly(old(fuel), fuelYieldInterval, ran, pauses) && pauses <= ran
    {
      ran, pauses := 0, 0;
      ghost var slice: nat := fuel;
      ghost var first := fuel;
      while ran < ops
        invariant Driving(Value(), first, ran, pauses, slice) && ran <= ops
        invariant TotalFuel(Value()) == old(TotalFuel(Value())) - ran
        invariant pauses > 0 && ran == ops ==> fuel < slice
        decreases ops - ran, fuelReserve
      {
        ghost var now := Value();
        var step := ConsumeFuelStep();
        match step {
          case Ran =>
            DriveRuns(now, first, ran, pauses, slice);
            ran := ran + 1;
          case NeedYield =>
            DriveYields(now, first, ran, pauses, slice);
            YieldIsProductive(now);
            RefuelFromReserve();
            slice, pauses := fuel, pauses + 1;
          case Exhausted =>
            DriveEnds(now, first, ran, pauses, slice);
            return;
        }
      }
      DriveEnds(Value(), first, ran, pauses, slice);
    }
  }
}
