/**
 The engine-wide total of committed GC bytes (`src/engine.rs`), under every interleaving of stores
 that are created, grow their reservations and are dropped.
 */
module EngineTotal {
  import opened Options
  import opened Arenas
  import opened Budget

  /** `usize` arithmetic of the atomic counter wraps. */
  const WORD: nat := USIZE_MAX + 1

  /** A live store: its budget, and the bytes granted but not yet added to the engine's total. */
  datatype Account = Account(budget: Reserve, granted: nat)

  /** Stores by id; a dropped store's place is empty. */
  datatype Engine = Engine(committed: nat, stores: seq<Option<Account>>)

  datatype Op =
    | Create(reservation: nat)
    /** The store's heap is used and collected. */
    | Use(id: nat, used: nat)
    /** `gc_reserve` or `gc_reserve_host`, up to its grant. */
    | Reserve(id: nat, charge: nat, collecting: bool, collected: nat)
    /** `grow_gc_reservation`, the limiter consenting. */
    | Grow(id: nat, target: nat)
    /** `add_gc_committed`. */
    | Add(id: nat)
    /** `StoreInner::drop`. */
    | Drop(id: nat)

  predicate IsStore(e: Engine, id: nat) {
    id < |e.stores| && e.stores[id].Some?
  }

  function WithStore(e: Engine, id: nat, a: Account): Engine
    requires id < |e.stores|
  {
    e.(stores := e.stores[id := Some(a)])
  }

  /** A store works on its own: between its grant and its add it does nothing else. */
  predicate Idle(e: Engine, id: nat) {
    IsStore(e, id) && e.stores[id].value.granted == 0
  }

  function Step(e: Engine, op: Op): Engine {
    match op
    case Create(reservation) => e.(stores := e.stores + [Some(Account(Fresh(reservation), 0))])
    case Use(id, used) =>
      if Idle(e, id) && used <= USIZE_MAX then
        WithStore(e, id, e.stores[id].value.(budget := e.stores[id].value.budget.(used := used)))
      else e
    case Reserve(id, charge, collecting, collected) =>
      if Idle(e, id) && collected <= USIZE_MAX then
        (match Decide(e.stores[id].value.budget, charge, collecting, collected)
         case Place(budget, granted) => WithStore(e, id, Account(budget, granted))
         case Suspend(_) => e)
      else e
    case Grow(id, target) =>
      if Idle(e, id) && e.stores[id].value.budget.reserved < target <= USIZE_MAX then
        var (budget, granted) := Granted(e.stores[id].value.budget, target);
        WithStore(e, id, Account(budget, granted))
      else e
    case Add(id) =>
      if IsStore(e, id) then
        var a := e.stores[id].value;
        WithStore(e, id, a.(granted := 0)).(committed := (e.committed + a.granted) % WORD)
      else e
    case Drop(id) =>
      if Idle(e, id) then
        Engine((e.committed - e.stores[id].value.budget.reserved) % WORD, e.stores[id := None])
      else e
  }

  function Run(ops: seq<Op>): Engine {
    if ops == [] then Engine(0, []) else Step(Run(ops[..|ops| - 1]), ops[|ops| - 1])
  }

  function ReservedOf(a: Account): nat { a.budget.reserved }
  function GrantedOf(a: Account): nat { a.granted }

  /** The bytes reserved by all live stores, and the part of them the total has yet to gain. */
  function Reserved(e: Engine): nat { Total(e.stores, ReservedOf) }
  function InFlight(e: Engine): nat { Total(e.stores, GrantedOf) }

  predicate AccountOk(a: Account) {
    ReserveOk(a.budget) && a.granted <= a.budget.reserved
  }

  ghost predicate EngineOk(e: Engine) {
    && (forall i :: 0 <= i < |e.stores| && e.stores[i].Some? ==> AccountOk(e.stores[i].value))
    && e.committed < WORD && (e.committed + InFlight(e)) % WORD == Reserved(e) % WORD
  }

  /** A store's bytes change; what it granted is exactly what its reservation grew by. */
  lemma {:induction false} AccountMoves(e: Engine, id: nat, a: Account)
    requires EngineOk(e) && Idle(e, id) && AccountOk(a)
    requires a.budget.reserved == e.stores[id].value.budget.reserved + a.granted
    ensures EngineOk(WithStore(e, id, a))
  {
    TotalUpdate(e.stores, id, Some(a), ReservedOf);
    TotalUpdate(e.stores, id, Some(a), GrantedOf);
    var after := WithStore(e, id, a);
    assert Reserved(after) == Reserved(e) + a.granted && InFlight(after) == InFlight(e) + a.granted;
    ModAdd(e.committed + InFlight(e), Reserved(e), a.granted);
  }

  lemma {:induction false} ModAdd(a: int, b: int, c: int)
    requires a % WORD == b % WORD
    ensures (a + c) % WORD == (b + c) % WORD
  {
    assert (a - b) % WORD == 0;
    var k := (a - b) / WORD;
    assert a + c == b + c + k * WORD;
    ModMultiple(b + c, k);
  }

  lemma ModMultiple(a: int, k: int)
    ensures (a + k * WORD) % WORD == a % WORD
  {
  }

  lemma ModOnce(a: int, b: int)
    ensures (a % WORD + b) % WORD == (a + b) % WORD
  {
    ModMultiple(a % WORD + b, a / WORD);
  }

  lemma {:induction false} AddOk(e: Engine, id: nat)
    requires EngineOk(e) && IsStore(e, id)
    ensures EngineOk(Step(e, Add(id)))
  {
    var a := e.stores[id].value;
    TotalUpdate(e.stores, id, Some(a.(granted := 0)), ReservedOf);
    TotalUpdate(e.stores, id, Some(a.(granted := 0)), GrantedOf);
    ModOnce(e.committed + a.granted, InFlight(e) - a.granted);
  }

  /** The counter after a drop balances what is left. */
  lemma {:induction false} DropBalances(committed: nat, flight: nat, reserved: nat, r: nat)
    requires (committed + flight) % WORD == reserved % WORD && r <= reserved
    ensures ((committed - r) % WORD + flight) % WORD == (reserved - r) % WORD
  {
    var gone: int := r;
    ModOnce(committed - gone, flight);
    ModAdd(committed + flight, reserved, -gone);
  }

  lemma {:induction false} DropOk(e: Engine, id: nat)
    requires EngineOk(e) && Idle(e, id)
    ensures EngineOk(Step(e, Drop(id)))
  {
    TotalUpdate(e.stores, id, None, ReservedOf);
    TotalUpdate(e.stores, id, None, GrantedOf);
    DropBalances(e.committed, InFlight(e), Reserved(e), e.stores[id].value.budget.reserved);
  }

  lemma {:induction false} CreateOk(e: Engine, reservation: nat)
    requires EngineOk(e)
    ensures EngineOk(Step(e, Create(reservation)))
  {
    var x := Some(Account(Fresh(reservation), 0));
    TotalPush(e.stores, x, ReservedOf);
    TotalPush(e.stores, x, GrantedOf);
  }

  lemma {:induction false} ReserveOpOk(e: Engine, op: Op)
    requires EngineOk(e) && op.Reserve?
    ensures EngineOk(Step(e, op))
  {
    if Idle(e, op.id) && op.collected <= USIZE_MAX {
      var b := e.stores[op.id].value.budget;
      PlaceMeansFits(b, op.charge, op.collecting, op.collected);
      var d := Decide(b, op.charge, op.collecting, op.collected);
      if d.Place? { AccountMoves(e, op.id, Account(d.budget, d.granted)); }
    }
  }

  lemma {:induction false} StepOk(e: Engine, op: Op)
    requires EngineOk(e)
    ensures EngineOk(Step(e, op))
  {
    match op
    case Create(reservation) => CreateOk(e, reservation);
    case Use(id, used) =>
      if Idle(e, id) && used <= USIZE_MAX {
        AccountMoves(e, id, e.stores[id].value.(budget := e.stores[id].value.budget.(used := used)));
      }
    case Reserve(_, _, _, _) => ReserveOpOk(e, op);
    case Grow(id, target) =>
      if Idle(e, id) && e.stores[id].value.budget.reserved < target <= USIZE_MAX {
        GrantKeepsOk(e.stores[id].value.budget, target);
        var (budget, granted) := Granted(e.stores[id].value.budget, target);
        AccountMoves(e, id, Account(budget, granted));
      }
    case Add(id) => if IsStore(e, id) { AddOk(e, id); }
    case Drop(id) => if Idle(e, id) { DropOk(e, id); }
  }

  lemma {:induction false} RunOk(ops: seq<Op>)
    ensures EngineOk(Run(ops))
  {
    if ops != [] {
      RunOk(ops[..|ops| - 1]);
      StepOk(Run(ops[..|ops| - 1]), ops[|ops| - 1]);
    }
  }

  lemma {:induction false} GrantedWithinReserved(e: Engine, n: nat)
    requires n <= |e.stores| && forall i :: 0 <= i < |e.stores| && e.stores[i].Some? ==> AccountOk(e.stores[i].value)
    ensures Total(e.stores[..n], GrantedOf) <= Total(e.stores[..n], ReservedOf)
    decreases n
  {
    if n > 0 {
      GrantedWithinReserved(e, n - 1);
      assert e.stores[..n][..n - 1] == e.stores[..n - 1];
    }
  }

  /**
   In every interleaving, what the engine counts plus what is granted but not yet added is what the
   live stores have reserved: modulo the word size always, and exactly if and only if the part it
   should have counted fits a word. With nothing in flight the total is then the sum.
   */
  lemma {:induction false} CommittedIsReserved(ops: seq<Op>)
    ensures var e := Run(ops);
      && (e.committed + InFlight(e)) % WORD == Reserved(e) % WORD
      && (e.committed + InFlight(e) == Reserved(e) <==> Reserved(e) - InFlight(e) <= USIZE_MAX)
      && (Reserved(e) <= USIZE_MAX && InFlight(e) == 0 ==> e.committed == Reserved(e))
  {
    RunOk(ops);
    var e := Run(ops);
    GrantedWithinReserved(e, |e.stores|);
    assert e.stores[..|e.stores|] == e.stores;
    if Reserved(e) - InFlight(e) <= USIZE_MAX { SmallMod(e.committed, InFlight(e), Reserved(e)); }
  }

  lemma {:induction false} SmallMod(c: nat, f: nat, r: nat)
    requires c < WORD && f <= r && r - f < WORD && (c + f) % WORD == r % WORD
    ensures c + f == r
  {
    var g: int := f;
    ModAdd(c + f, r, -g);
    ModSmall(c);
    ModSmall(r - f);
  }

  lemma ModSmall(a: nat)
    requires a < WORD
    ensures a % WORD == a
  {
  }

  /** Dropping a store never takes more than the engine counted, as long as that part fits a word. */
  lemma {:induction false} DropDoesNotUnderflow(ops: seq<Op>, id: nat)
    requires Idle(Run(ops), id) && Reserved(Run(ops)) - InFlight(Run(ops)) <= USIZE_MAX
    ensures Run(ops).stores[id].value.budget.reserved <= Run(ops).committed
  {
    var e := Run(ops);
    CommittedIsReserved(ops);
    RunOk(ops);
    var without := e.(stores := e.stores[id := None]);
    TotalUpdate(e.stores, id, None, ReservedOf);
    TotalUpdate(e.stores, id, None, GrantedOf);
    GrantedWithinReserved(without, |without.stores|);
    assert without.stores[..|without.stores|] == without.stores;
  }

  // --- two stores that together exceed a word ---

  const TWO_HUGE: seq<Op> :=
    [Create(0), Grow(0, USIZE_MAX), Add(0), Create(0), Grow(1, USIZE_MAX), Add(1)]

  lemma RunNext(ops: seq<Op>, op: Op)
    ensures Run(ops + [op]) == Step(Run(ops), op)
  {
    assert (ops + [op])[..|ops|] == ops;
  }

  /** A store that was just created, grown to everything there is, and accounted for. */
  function Huge(): Option<Account> {
    Some(Account(Granted(Fresh(0), USIZE_MAX).0, 0))
  }

  /** The same before it is accounted for. */
  function HugeGranted(): Option<Account> {
    Some(Account(Granted(Fresh(0), USIZE_MAX).0, USIZE_MAX))
  }

  lemma CreateThenGrow(e: Engine)
    ensures Step(Step(e, Create(0)), Grow(|e.stores|, USIZE_MAX)) == e.(stores := e.stores + [HugeGranted()])
  {
    var created := e.stores + [Some(Account(Fresh(0), 0))];
    assert created[|e.stores| := HugeGranted()] == e.stores + [HugeGranted()];
  }

  lemma ThenAdd(e: Engine)
    ensures Step(e.(stores := e.stores + [HugeGranted()]), Add(|e.stores|)) ==
      Engine((e.committed + USIZE_MAX) % WORD, e.stores + [Huge()])
  {
    assert (e.stores + [HugeGranted()])[|e.stores| := Huge()] == e.stores + [Huge()];
  }

  lemma {:induction false} OneHugeStore(ops: seq<Op>, id: nat)
    requires |Run(ops).stores| == id
    ensures Run(ops + [Create(0)] + [Grow(id, USIZE_MAX)] + [Add(id)]) ==
      Engine((Run(ops).committed + USIZE_MAX) % WORD, Run(ops).stores + [Huge()])
  {
    RunNext(ops, Create(0));
    RunNext(ops + [Create(0)], Grow(id, USIZE_MAX));
    RunNext(ops + [Create(0)] + [Grow(id, USIZE_MAX)], Add(id));
    CreateThenGrow(Run(ops));
    ThenAdd(Run(ops));
  }

  /** Two reservations of all a word can count: the total falls one short of either, and a drop wraps it. */
  lemma {:induction false} TwoHugeStores()
    ensures var e := Run(TWO_HUGE);
      && Idle(e, 0) && InFlight(e) == 0 && e.committed == USIZE_MAX - 1
      && e.stores[0].value.budget.reserved == USIZE_MAX > e.committed
      && Step(e, Drop(0)).committed == USIZE_MAX
  {
    var three := [Create(0)] + [Grow(0, USIZE_MAX)] + [Add(0)];
    OneHugeStore([], 0);
    assert [] + [Create(0)] + [Grow(0, USIZE_MAX)] + [Add(0)] == three;
    OneHugeStore(three, 1);
    assert three + [Create(0)] + [Grow(1, USIZE_MAX)] + [Add(1)] == TWO_HUGE;
    var e := Run(TWO_HUGE);
    assert e.stores == [Huge()] + [Huge()];
    NothingGranted([Huge()], []);
    TotalPush([Huge()], Huge(), GrantedOf);
  }

  lemma NothingGranted(one: seq<Option<Account>>, none: seq<Option<Account>>)
    requires one == [Huge()] && none == []
    ensures Total(one, GrantedOf) == 0
  {
    assert one == none + [Huge()];
    TotalPush(none, Huge(), GrantedOf);
  }
}
