/** The reclaimable arena (`src/store/reclaim.rs`) and the managed object heap (`src/store/gc.rs`). */
module Heap {
  import opened Options
  import opened Arenas
  import opened Bytes
  import opened Budget

  class ReclaimArena<E> {
    var slots: seq<Option<E>>
    var generations: seq<nat>
    var free: seq<nat>
    /** What has been done to this arena. */
    ghost var history: Ops<E>

    ghost function Value(): Arena<E>
      reads this
    {
      Arena(slots, generations, free)
    }

    ghost predicate Valid()
      reads this
    {
      Value() == ArenaOf(history)
    }

    constructor ()
      ensures Valid() && Value() == Arena([], [], [])
    {
      slots, generations, free, history := [], [], [], Made;
    }

    method Alloc(e: E) returns (index: nat)
      requires Valid()
      modifies this
      ensures Valid() && index == NextIndex(old(Value())) && Value() == Placed(old(Value()), e)
    {
      ArenaStaysOk(history);
      PlacedOk(Value(), e);
      history := Ops.Alloc(history, e);
      if free != [] {
        index := free[|free| - 1];
        free := free[..|free| - 1];
        slots := slots[index := Some(e)];
      } else {
        index := |slots|;
        slots, generations := slots + [Some(e)], generations + [0];
      }
    }

    /** Frees every occupied slot not in `live`; returns the bytes this releases. */
    method Sweep(live: set<nat>, byteOf: E -> nat) returns (freed: nat)
      requires Valid()
      modifies this
      ensures Valid() && Value() == Swept(old(Value()), live)
      ensures freed + Total(slots, byteOf) == Total(old(slots), byteOf)
    {
      TablesParallel(history);
      freed := SweepSlots(live, byteOf);
      SweepFacts(old(Value()), live, byteOf);
      history := Ops.Sweep(history, live);
    }

    method SweepSlots(live: set<nat>, byteOf: E -> nat) returns (freed: nat)
      requires |slots| == |generations|
      modifies this`slots, this`generations, this`free
      ensures |slots| == |old(slots)| && Value() == SweepTo(old(Value()), live, |slots|)
      ensures freed == FreedBytes(old(Value()), live, |slots|, byteOf)
    {
      freed := 0;
      for i := 0 to |slots|
        invariant |slots| == |generations| == |old(slots)| && Value() == SweepTo(old(Value()), live, i)
        invariant freed == FreedBytes(old(Value()), live, i, byteOf)
      {
        if slots[i].Some? && i !in live {
          freed := freed + byteOf(slots[i].value);
          slots := slots[i := None];
          generations := generations[i := NextGeneration(generations[i])];
          free := free + [i];
        }
      }
    }
  }

  // --- the mark bitmap ---

  function Bit(k: nat): bv64
    requires k < 64
  {
    1 as bv64 << k
  }

  /** Whether bit `k` of a word is set. */
  predicate Has(w: bv64, k: nat)
    requires k < 64
  {
    w & Bit(k) != 0
  }

  function OrIn(w: bv64, k: nat): bv64
    requires k < 64
  {
    w | Bit(k)
  }

  lemma OneBitEach(j: nat, k: nat)
    requires j < 64 && k < 64
    ensures Bit(k) & Bit(j) != 0 <==> j == k
  {
  }

  lemma AndOverOr(w: bv64, b: bv64, c: bv64)
    ensures (w | b) & c != 0 <==> (w & c != 0 || b & c != 0)
  {
  }

  lemma OrBit(w: bv64, j: nat, k: nat)
    requires j < 64 && k < 64
    ensures ((w | Bit(k)) & Bit(j) != 0) <==> (j == k || w & Bit(j) != 0)
  {
    AndOverOr(w, Bit(k), Bit(j));
    OneBitEach(j, k);
  }

  /** Or-ing a shifted one into a word sets exactly that bit. */
  lemma {:induction false} OrAddsBit(w: bv64, j: nat, k: nat)
    requires j < 64 && k < 64
    ensures Has(OrIn(w, k), j) <==> j == k || Has(w, j)
  {
    OrBit(w, j, k);
  }

  lemma ZeroHasNone(k: nat)
    requires k < 64
    ensures !Has(0, k)
  {
  }

  /** Bit `i` of the bitmap, 64 bits a word, absent words reading as zero. */
  predicate Marked(marks: seq<bv64>, i: nat) {
    i / 64 < |marks| && Has(marks[i / 64], i % 64)
  }

  /** `Vec::resize` with zero words, never shorter. */
  function Widened(marks: seq<bv64>, words: nat): (w: seq<bv64>)
    ensures |w| == if words <= |marks| then |marks| else words
    ensures forall i :: 0 <= i < |w| ==> w[i] == if i < |marks| then marks[i] else 0
  {
    if words <= |marks| then marks else marks + seq(words - |marks|, _ => 0)
  }

  /** The bitmap with bit `i` set, grown by zero words as far as needed. */
  function WithBit(marks: seq<bv64>, i: nat): seq<bv64> {
    var wide := Widened(marks, i / 64 + 1);
    wide[i / 64 := OrIn(wide[i / 64], i % 64)]
  }

  /** Setting a bit adds exactly that index to the set the bitmap stands for. */
  lemma {:induction false} SetBit(marks: seq<bv64>, i: nat, j: nat)
    ensures Marked(WithBit(marks, i), j) <==> j == i || Marked(marks, j)
  {
    var wide := Widened(marks, i / 64 + 1);
    assert j == 64 * (j / 64) + j % 64 && i == 64 * (i / 64) + i % 64;
    ZeroHasNone(j % 64);
    if j / 64 == i / 64 { OrAddsBit(wide[i / 64], j % 64, i % 64); }
  }

  /** The bitmap in which the given indices have been marked, in order. */
  ghost function Bitmap(marked: seq<nat>): seq<bv64> {
    if marked == [] then [] else WithBit(Bitmap(marked[..|marked| - 1]), marked[|marked| - 1])
  }

  lemma BitmapGrows(marked: seq<nat>, i: nat)
    ensures Bitmap(marked + [i]) == WithBit(Bitmap(marked), i)
  {
    assert (marked + [i])[..|marked|] == marked;
  }

  /** The bitmap refines a plain set of indices: exactly the bits that were set read as set. */
  lemma {:induction false} BitmapIsSet(marked: seq<nat>, i: nat)
    ensures Marked(Bitmap(marked), i) <==> i in marked
  {
    if marked != [] {
      var before, last := marked[..|marked| - 1], marked[|marked| - 1];
      assert marked == before + [last];
      BitmapIsSet(before, i);
      SetBit(Bitmap(before), last, i);
    }
  }

  // --- the object heap ---

  datatype ObjKind = ObjStruct | ObjArray | ObjExtern
  datatype GcObject = GcObject(typeId: nat, kind: ObjKind, data: seq<u8>)

  function ByteSize(o: GcObject): nat {
    ObjectCharge(|o.data|)
  }

  class GcHeap {
    var slots: seq<Option<GcObject>>
    var generations: seq<nat>
    var free: seq<nat>
    var used: nat
    var reserved: nat
    var reservation: nat
    var nextGrow: nat
    /** The mark bitmap, 64 slots a word. */
    var marks: seq<bv64>
    var collecting: bool
    ghost var history: Ops<GcObject>
    /** The slots marked since the bitmap was last cleared. */
    ghost var marked: seq<nat>

    ghost function MarkSet(): set<nat>
      reads this
    {
      set i | i in marked
    }

    ghost function Value(): Arena<GcObject>
      reads this
    {
      Arena(slots, generations, free)
    }

    function Reserves(): Reserve
      reads this
    {
      Reserve(used, reserved, reservation, nextGrow)
    }

    ghost predicate Valid()
      reads this
    {
      Value() == ArenaOf(history) && ReserveOk(Reserves()) && marks == Bitmap(marked)
    }

    constructor (collecting: bool, reservation: nat)
      ensures Valid() && Value() == Arena([], [], []) && MarkSet() == {}
      ensures Reserves() == Fresh(reservation) && this.collecting == collecting
    {
      slots, generations, free, history, marks, marked := [], [], [], Made, [], [];
      used, reserved, nextGrow := 0, 0, RESERVE_BATCH;
      this.reservation := Min(reservation, ABORT_SAFETY_CAP);
      this.collecting := collecting;
    }

    method Charge(bytes: nat)
      requires Valid()
      modifies this`used
      ensures Valid() && used == SatAdd(old(used), bytes)
    {
      used := SatAdd(used, bytes);
    }

    method Credit(bytes: nat)
      requires Valid()
      modifies this`used
      ensures Valid() && used == SatSub(old(used), bytes)
    {
      used := SatSub(used, bytes);
    }

    /** Records a growth of the reservation to `target`; returns the bytes added. */
    method Grant(target: nat) returns (added: nat)
      requires Valid() && target <= USIZE_MAX
      modifies this`reserved, this`nextGrow
      ensures Valid() && (Reserves(), added) == Granted(old(Reserves()), target)
    {
      GrantKeepsOk(Reserves(), target);
      var was := reserved;
      reserved := target;
      nextGrow := Min(SatMul(nextGrow, 2), Max(reservation, RESERVE_BATCH));
      added := SatSub(reserved, was);
    }

    /** Places an object in a free or fresh slot; fails only when the handle space is exhausted. */
    method Alloc(o: GcObject, handleSpace: nat) returns (r: Result<nat>)
      requires Valid()
      modifies this`slots, this`generations, this`free, this`used, this`history
      ensures Valid() && r.Err? == (old(free) == [] && |old(slots)| >= handleSpace)
      ensures r.Err? ==> Value() == old(Value()) && used == old(used)
      ensures r.Ok? ==>
        r.value == NextIndex(old(Value())) && Value() == Placed(old(Value()), o) &&
        used == SatAdd(old(used), ByteSize(o))
    {
      if free == [] && |slots| >= handleSpace {
        return Err;
      }
      var index := TakeSlot(o);
      used := SatAdd(used, ByteSize(o));
      r := Ok(index);
    }

    method TakeSlot(o: GcObject) returns (index: nat)
      requires Value() == ArenaOf(history)
      modifies this`slots, this`generations, this`free, this`history
      ensures Value() == ArenaOf(history) && index == NextIndex(old(Value())) && Value() == Placed(old(Value()), o)
    {
      ArenaStaysOk(history);
      PlacedOk(Value(), o);
      history := Ops.Alloc(history, o);
      if free != [] {
        index := free[|free| - 1];
        free := free[..|free| - 1];
        slots := slots[index := Some(o)];
      } else {
        index := |slots|;
        slots, generations := slots + [Some(o)], generations + [0];
      }
    }

    /** Marks a live slot; `newly` says whether this call was the one to mark it. */
    method Mark(i: nat) returns (newly: bool)
      requires Valid()
      modifies this`marks, this`marked
      ensures Valid() && newly == (Occupied(slots, i) && i !in old(MarkSet()))
      ensures MarkSet() == old(MarkSet()) + (if Occupied(slots, i) then {i} else {})
    {
      if i >= |slots| || slots[i].None? {
        return false;
      }
      var was := IsMarked(i);
      newly := !was;
      if newly {
        SetMark(i);
      }
    }

    method SetMark(i: nat)
      requires marks == Bitmap(marked)
      modifies this`marks, this`marked
      ensures marks == Bitmap(marked) && MarkSet() == old(MarkSet()) + {i}
    {
      BitmapGrows(marked, i);
      var wide := Widened(marks, i / 64 + 1);
      marks := wide[i / 64 := OrIn(wide[i / 64], i % 64)];
      marked := marked + [i];
    }

    method IsMarked(i: nat) returns (b: bool)
      requires marks == Bitmap(marked)
      ensures b <==> i in MarkSet()
    {
      BitmapIsSet(marked, i);
      b := i / 64 < |marks| && Has(marks[i / 64], i % 64);
    }

    method ClearMarks()
      requires Valid()
      modifies this`marks, this`marked
      ensures Valid() && MarkSet() == {}
    {
      marks, marked := [], [];
    }

    /** Frees every unmarked object, credits its bytes, and clears the bitmap. */
    method Sweep()
      requires Valid() && Total(slots, ByteSize) <= used
      modifies this
      ensures Valid() && Value() == Swept(old(Value()), old(MarkSet())) && MarkSet() == {}
      ensures used + Total(old(slots), ByteSize) == old(used) + Total(slots, ByteSize)
      ensures reserved == old(reserved) && reservation == old(reservation)
      ensures nextGrow == old(nextGrow) && collecting == old(collecting)
    {
      ghost var live := MarkSet();
      forall i: nat ensures Marked(marks, i) <==> i in live { BitmapIsSet(marked, i); }
      SweepUnmarked(live);
      marks, marked := [], [];
    }

    method SweepUnmarked(ghost live: set<nat>)
      requires Value() == ArenaOf(history) && Total(slots, ByteSize) <= used
      requires forall i: nat :: Marked(marks, i) <==> i in live
      modifies this`slots, this`generations, this`free, this`used, this`history
      ensures Value() == ArenaOf(history) && Value() == Swept(old(Value()), live)
      ensures used + Total(old(slots), ByteSize) == old(used) + Total(slots, ByteSize) && used <= old(used)
    {
      TablesParallel(history);
      SweepFacts(Value(), live, ByteSize);
      SweepSlots(ByteSize, live);
      history := Ops.Sweep(history, live);
    }

    method SweepSlots(sizeOf: GcObject -> nat, ghost live: set<nat>)
      requires |slots| == |generations| && Total(slots, sizeOf) <= used
      requires forall i: nat :: Marked(marks, i) <==> i in live
      modifies this`slots, this`generations, this`free, this`used
      ensures |slots| == |old(slots)| && Value() == SweepTo(old(Value()), live, |slots|)
      ensures used + FreedBytes(old(Value()), live, |slots|, sizeOf) == old(used)
    {
      ghost var start, total := Value(), used;
      for i := 0 to |slots|
        invariant |slots| == |start.slots| && SweptTo(start, live, i, sizeOf, Value(), used, total)
      {
        ghost var now, left := Value(), used;
        CanSweepNext(start, live, i, sizeOf, now, left, total);
        SweepSlot(i, sizeOf, live);
        NextSwept(start, live, i, sizeOf, now, left, Value(), used, total);
      }
    }

    /** Frees one slot if it is occupied and unmarked. */
    method SweepSlot(i: nat, sizeOf: GcObject -> nat, ghost live: set<nat>)
      requires i < |slots| == |generations| && (Marked(marks, i) <==> i in live)
      requires (if i in live then 0 else SizeAt(slots[i], sizeOf)) <= used
      modifies this`slots, this`generations, this`free, this`used
      ensures Value() == SweepOne(old(Value()), live, i)
      ensures used + (if i in live then 0 else SizeAt(old(slots)[i], sizeOf)) == old(used)
    {
      if slots[i].Some? && !Marked(marks, i) {
        used := SatSub(used, sizeOf(slots[i].value));
        slots := slots[i := None];
        generations := generations[i := NextGeneration(generations[i])];
        free := free + [i];
      }
    }
  }

  /** A sweep over `start` that has passed the slots below `i`, and the bytes still counted. */
  ghost predicate SweptTo<E>(
    start: Arena<E>, live: set<nat>, i: nat, size: E -> nat, now: Arena<E>, left: nat, total: nat) {
    && i <= |start.slots| == |start.generations| && |now.slots| == |now.generations| == |start.slots|
    && now == SweepTo(start, live, i) && left + FreedBytes(start, live, i, size) == total
  }

  lemma {:induction false} CanSweepNext<E>(
    start: Arena<E>, live: set<nat>, i: nat, size: E -> nat, now: Arena<E>, left: nat, total: nat)
    requires SweptTo(start, live, i, size, now, left, total) && i < |start.slots| && Total(start.slots, size) <= total
    ensures (if i in live then 0 else SizeAt(now.slots[i], size)) <= left
  {
    FreedAndLeft(start, live, i + 1, size);
  }

  lemma {:induction false} NextSwept<E>(
    start: Arena<E>, live: set<nat>, i: nat, size: E -> nat, now: Arena<E>, left: nat, next: Arena<E>, left': nat,
    total: nat)
    requires SweptTo(start, live, i, size, now, left, total) && i < |start.slots| && next == SweepOne(now, live, i)
    requires left' + (if i in live then 0 else SizeAt(now.slots[i], size)) == left
    ensures SweptTo(start, live, i + 1, size, next, left', total)
  {
  }
}
