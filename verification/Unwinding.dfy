/** The stacks an exception leaves behind (`src/exec/exn.rs`). */
module Unwinding {
  import opened Options
  import opened Layout
  import opened ExecState
  import opened Handlers

  /** An exception in flight: its tag, its encoded arguments, and the cell of its own handle. */
  datatype Thrown = Thrown(tag: nat, args: seq<(Cell, Tag)>, handle: Cell)

  datatype Unwound = Caught | Escaped | Failed

  /** The operand height once only `n` frames are left. */
  function HeightAt(e: Exec, n: nat): nat {
    if n < |e.frames| then e.frames[n].localsBase else |e.values|
  }

  /** The stacks once all frames from `n` up have been popped. */
  function PoppedTo(e: Exec, n: nat): Exec
    requires Sound(e)
  {
    if n < |e.frames| then
      e.(values := e.values[..HeightAt(e, n)], shadow := e.shadow[..HeightAt(e, n)], frames := e.frames[..n])
    else e
  }

  /** What a clause asks to be pushed. */
  function Payload(t: Thrown, rec: HandlerRec): seq<(Cell, Tag)> {
    (if rec.payloadArgs then t.args else []) + (if rec.payloadRef then [(t.handle, Some(KExn))] else [])
  }

  /** Whether the clause's height, above the frame's floor, is on the stack. */
  predicate CanRestore(e: Exec, rec: HandlerRec) {
    && e.frames != [] && e.frames[|e.frames| - 1].operandBase + rec.restoreHeight <= U32_LAST
    && e.frames[|e.frames| - 1].operandBase + rec.restoreHeight <= |e.values|
  }

  /** The stacks at the landing pad: exactly the restored operands and the payload. */
  function Landed(e: Exec, t: Thrown, rec: HandlerRec): Exec
    requires Lockstep(e) && CanRestore(e, rec)
  {
    var top := |e.frames| - 1;
    var height := e.frames[top].operandBase + rec.restoreHeight;
    e.(values := e.values[..height] + Cells(Payload(t, rec)), shadow := e.shadow[..height] + Tags(Payload(t, rec)),
       frames := e.frames[..top] + [e.frames[top].(ip := rec.landingIp)])
  }

  /** Unwinding as a function: search outward, pop what was searched in vain, land or escape. */
  function UnwindTo(e: Exec, t: Thrown, ip: nat, stop: nat): (Exec, Unwound)
    requires Sound(e)
  {
    match Seek(e.frames, ip, stop, t.tag)
    case Handler(d, rec) =>
      var popped := PoppedTo(e, d + 1);
      if Lockstep(popped) && CanRestore(popped, rec) then (Landed(popped, t, rec), Caught) else (popped, Failed)
    case Uncaught => (PoppedTo(e, stop), Escaped)
    case Broken(d) => (PoppedTo(e, d + 1), Failed)
  }

  // --- where an exception lands, cell by cell ---

  /**
   Control is at the clause's landing pad in frame `d`: the operands below the `try_table` are those of
   `e`, over them lie the exception's arguments if the clause wants them and then its handle, tagged, if
   it wants that, and nothing more; the frames above `d` are gone.
   */
  predicate LandsIn(e: Exec, after: Exec, t: Thrown, rec: HandlerRec, d: nat) {
    d < |e.frames| &&
    var height := e.frames[d].operandBase + rec.restoreHeight;
    var handle := height + (if rec.payloadArgs then |t.args| else 0);
    && |after.values| == |after.shadow| == handle + (if rec.payloadRef then 1 else 0)
    && SameStretch(e, 0, height, after, 0)
    && (rec.payloadArgs ==> ArgsAt(after, height, t.args))
    && (rec.payloadRef ==> after.values[handle] == t.handle && after.shadow[handle] == Some(KExn))
    && |after.frames| == d + 1 && after.frames[..d] == e.frames[..d]
    && after.frames[d] == e.frames[d].(ip := rec.landingIp) && after.reentry == e.reentry
  }

  lemma {:induction false} LandedLands(e: Exec, t: Thrown, rec: HandlerRec)
    requires Lockstep(e) && CanRestore(e, rec)
    ensures LandsIn(e, Landed(e, t, rec), t, rec, |e.frames| - 1)
  {
    var after := Landed(e, t, rec);
    var height := e.frames[|e.frames| - 1].operandBase + rec.restoreHeight;
    var args := if rec.payloadArgs then t.args else [];
    var ref := if rec.payloadRef then [(t.handle, Some(KExn))] else [];
    PushedOver(e, after, height, args + ref);
    ArgsSplit(after, height, args, ref);
  }

  lemma PushedOver(e: Exec, after: Exec, height: nat, pushed: seq<(Cell, Tag)>)
    requires Lockstep(e) && height <= |e.values|
    requires after.values == e.values[..height] + Cells(pushed) && after.shadow == e.shadow[..height] + Tags(pushed)
    ensures |after.values| == |after.shadow| == height + |pushed|
    ensures SameStretch(e, 0, height, after, 0) && ArgsAt(after, height, pushed)
  {
  }

  lemma ArgsSplit(e: Exec, at: nat, a: seq<(Cell, Tag)>, b: seq<(Cell, Tag)>)
    requires ArgsAt(e, at, a + b)
    ensures ArgsAt(e, at, a) && ArgsAt(e, at + |a|, b)
  {
  }

  /** The frame `d` is the innermost one that catches the exception, and control has landed in it. */
  ghost predicate CaughtIn(e: Exec, after: Exec, t: Thrown, ip: nat, stop: nat, d: nat, rec: HandlerRec) {
    && stop <= d < |e.frames| && PassFrames(e.frames, d + 1, ip, t.tag)
    && AtFrame(e.frames, d, ip, t.tag) == Match(rec) && LandsIn(e, after, t, rec, d)
  }

  /** Every frame from `stop` on let the exception pass, and all of them are gone with their operands. */
  ghost predicate EscapedTo(e: Exec, after: Exec, t: Thrown, ip: nat, stop: nat) {
    && PassFrames(e.frames, stop, ip, t.tag)
    && (stop >= |e.frames| ==> after == e)
    && (stop < |e.frames| ==>
          var base := e.frames[stop].localsBase;
          && |after.values| == |after.shadow| == base && SameStretch(e, 0, base, after, 0)
          && after.frames == e.frames[..stop] && after.reentry == e.reentry)
  }

  /** What an unwinding that ended in `r` has done. */
  ghost predicate UnwoundRightly(e: Exec, after: Exec, r: Unwound, t: Thrown, ip: nat, stop: nat) {
    && (r.Caught? ==> exists d: nat, rec :: CaughtIn(e, after, t, ip, stop, d, rec))
    && (r.Escaped? <==> PassFrames(e.frames, stop, ip, t.tag))
    && (r.Escaped? ==> EscapedTo(e, after, t, ip, stop))
  }

  lemma {:induction false} LandedBelow(e: Exec, t: Thrown, rec: HandlerRec, d: nat)
    requires Sound(e) && d < |e.frames| && Lockstep(PoppedTo(e, d + 1)) && CanRestore(PoppedTo(e, d + 1), rec)
    ensures LandsIn(e, Landed(PoppedTo(e, d + 1), t, rec), t, rec, d)
  {
    var popped := PoppedTo(e, d + 1);
    LandedLands(popped, t, rec);
    var height := e.frames[d].operandBase + rec.restoreHeight;
    assert popped.frames[d] == e.frames[d] && popped.frames[..d] == e.frames[..d];
    assert popped.values[..height] == e.values[..height] && popped.shadow[..height] == e.shadow[..height];
  }

  /**
   The outward search either lands in the innermost frame that catches the exception, or lets it escape
   exactly when no frame down to the boundary catches it, or fails.
   */
  lemma {:induction false} UnwindsRightly(e: Exec, t: Thrown, ip: nat, stop: nat)
    requires Sound(e)
    ensures UnwoundRightly(e, UnwindTo(e, t, ip, stop).0, UnwindTo(e, t, ip, stop).1, t, ip, stop)
  {
    SeekStops(e.frames, ip, stop, t.tag);
    match Seek(e.frames, ip, stop, t.tag)
    case Handler(d, rec) =>
      var popped := PoppedTo(e, d + 1);
      if Lockstep(popped) && CanRestore(popped, rec) {
        LandedBelow(e, t, rec, d);
        assert CaughtIn(e, Landed(popped, t, rec), t, ip, stop, d, rec);
      }
    case Uncaught =>
    case Broken(d) =>
  }

  lemma {:induction false} PoppedStaysSound(e: Exec, n: nat)
    requires Sound(e) && NoDelimiters(e.frames, n, |e.frames|)
    ensures Sound(PoppedTo(e, n))
  {
    if n < |e.frames| {
      ReentriesAbove(e.frames, n);
      assert forall i :: 0 <= i < n ==> e.frames[i].operandBase <= HeightAt(e, n);
    }
  }

  /** Popping in two goes is popping once. */
  lemma {:induction false} PoppedTwice(e: Exec, m: nat, n: nat)
    requires Sound(e) && n <= m <= |e.frames| && NoDelimiters(e.frames, m, |e.frames|) && Sound(PoppedTo(e, m))
    ensures PoppedTo(PoppedTo(e, m), n) == PoppedTo(e, n)
  {
    if m < |e.frames| && n < m {
      assert e.frames[..m][..n] == e.frames[..n];
      assert e.frames[n].localsBase <= e.frames[m].localsBase;
      assert e.values[..HeightAt(e, m)][..HeightAt(e, n)] == e.values[..HeightAt(e, n)];
      assert e.shadow[..HeightAt(e, m)][..HeightAt(e, n)] == e.shadow[..HeightAt(e, n)];
    }
  }

  /** Landing keeps the execution sound and touches nothing below the catching frame's floor. */
  lemma {:induction false} LandedSound(e: Exec, t: Thrown, rec: HandlerRec)
    requires Sound(e) && CanRestore(e, rec)
    ensures Sound(Landed(e, t, rec))
  {
    var top := |e.frames| - 1;
    var after := Landed(e, t, rec);
    assert e.frames == e.frames[..top] + [e.frames[top]];
    ReentriesPush(e.frames[..top], e.frames[top]);
    ReentriesPush(e.frames[..top], after.frames[top]);
  }

  /** A boundary: `stop` frames and `base` operands, none of them the popped frames' own. */
  predicate Boundary(e: Exec, stop: nat, base: nat) {
    && stop <= |e.frames| && base <= |e.values| && NoDelimiters(e.frames, stop, |e.frames|)
    && (stop < |e.frames| ==> base <= e.frames[stop].localsBase)
  }

  lemma {:induction false} PoppedKeeps(e: Exec, n: nat, stop: nat, base: nat)
    requires Sound(e) && Boundary(e, stop, base) && stop <= n
    ensures KeepsBelow(e, PoppedTo(e, n), stop, base)
  {
    if n < |e.frames| {
      assert e.frames[stop].localsBase <= e.frames[n].localsBase;
      assert e.frames[..n][..stop] == e.frames[..stop];
      assert e.values[..HeightAt(e, n)][..base] == e.values[..base];
      assert e.shadow[..HeightAt(e, n)][..base] == e.shadow[..base];
    }
  }

  lemma {:induction false} LandedKeeps(e: Exec, t: Thrown, rec: HandlerRec, stop: nat, base: nat)
    requires Lockstep(e) && CanRestore(e, rec) && stop < |e.frames| && base <= e.frames[|e.frames| - 1].operandBase
    ensures KeepsBelow(e, Landed(e, t, rec), stop, base)
  {
    var top := |e.frames| - 1;
    var height := e.frames[top].operandBase + rec.restoreHeight;
    assert (e.values[..height] + Cells(Payload(t, rec)))[..base] == e.values[..base];
    assert (e.shadow[..height] + Tags(Payload(t, rec)))[..base] == e.shadow[..base];
    assert (e.frames[..top] + [e.frames[top].(ip := rec.landingIp)])[..stop] == e.frames[..stop];
  }

  lemma KeepsTwice(e: Exec, mid: Exec, after: Exec, depth: nat, base: nat)
    requires KeepsBelow(e, mid, depth, base) && KeepsBelow(mid, after, depth, base)
    ensures KeepsBelow(e, after, depth, base)
  {
  }

  /** A sound execution that differs from `e` only above the boundary. */
  predicate Contained(e: Exec, after: Exec, stop: nat, base: nat) {
    Sound(after) && KeepsBelow(e, after, stop, base)
  }

  lemma {:induction false} PoppedContained(e: Exec, n: nat, stop: nat, base: nat)
    requires Sound(e) && Boundary(e, stop, base) && stop <= n
    ensures Contained(e, PoppedTo(e, n), stop, base)
  {
    PoppedStaysSound(e, n);
    PoppedKeeps(e, n, stop, base);
  }

  lemma {:induction false} LandedContained(e: Exec, mid: Exec, t: Thrown, rec: HandlerRec, stop: nat, base: nat)
    requires Contained(e, mid, stop, base) && CanRestore(mid, rec) && stop < |mid.frames|
    requires base <= mid.frames[|mid.frames| - 1].operandBase
    ensures Contained(e, Landed(mid, t, rec), stop, base)
  {
    LandedSound(mid, t, rec);
    LandedKeeps(mid, t, rec, stop, base);
    KeepsTwice(e, mid, Landed(mid, t, rec), stop, base);
  }

  lemma {:induction false} BoundaryBelow(e: Exec, stop: nat, base: nat, d: nat)
    requires Sound(e) && Boundary(e, stop, base) && stop <= d < |e.frames|
    ensures base <= e.frames[d].operandBase
  {
    if stop < d { assert e.frames[stop].operandBase <= e.frames[d].localsBase; }
  }

  /** Popping to a frame above the boundary and landing in it, or failing to, stays above the boundary. */
  lemma {:induction false} CaughtContained(e: Exec, t: Thrown, stop: nat, base: nat, d: nat, rec: HandlerRec)
    requires Sound(e) && Boundary(e, stop, base) && stop <= d < |e.frames|
    ensures var popped := PoppedTo(e, d + 1);
      && Contained(e, popped, stop, base)
      && (CanRestore(popped, rec) ==> Contained(e, Landed(popped, t, rec), stop, base))
  {
    var popped := PoppedTo(e, d + 1);
    PoppedContained(e, d + 1, stop, base);
    BoundaryBelow(e, stop, base, d);
    if CanRestore(popped, rec) {
      assert popped.frames[|popped.frames| - 1] == e.frames[d];
      LandedContained(e, popped, t, rec, stop, base);
    }
  }

  /** Whatever its outcome, unwinding keeps the execution sound and leaves everything below its boundary alone. */
  lemma {:induction false} UnwindKeeps(e: Exec, t: Thrown, ip: nat, stop: nat, base: nat)
    requires Sound(e) && Boundary(e, stop, base)
    ensures Contained(e, UnwindTo(e, t, ip, stop).0, stop, base)
  {
    SeekStops(e.frames, ip, stop, t.tag);
    match Seek(e.frames, ip, stop, t.tag)
    case Handler(d, rec) => CaughtContained(e, t, stop, base, d, rec);
    case Uncaught => PoppedContained(e, stop, stop, base);
    case Broken(d) => PoppedContained(e, d + 1, stop, base);
  }

  /** No delimiter appears, and no frame either. */
  lemma {:induction false} UnwindFrames(e: Exec, t: Thrown, ip: nat, stop: nat)
    requires Sound(e) && NoDelimiters(e.frames, stop, |e.frames|) && stop <= |e.frames|
    ensures var after := UnwindTo(e, t, ip, stop).0;
      |after.frames| <= |e.frames| && NoDelimiters(after.frames, stop, |after.frames|) && after.reentry == e.reentry
  {
    SeekStops(e.frames, ip, stop, t.tag);
  }

  // --- the loop, state by state ---

  /** The unwinder has searched down to the top frame of `now`, which it is about to search at `at`. */
  ghost predicate Searching(start: Exec, now: Exec, t: Thrown, ip: nat, at: nat, stop: nat) {
    && Sound(start) && Sound(now) && NoDelimiters(start.frames, stop, |start.frames|)
    && |now.frames| <= |start.frames| && now == PoppedTo(start, |now.frames|)
    && Seek(start.frames, ip, stop, t.tag) == Seek(now.frames, at, stop, t.tag)
    && (|now.frames| <= stop ==> now == start)
  }

  lemma {:induction false} SearchStarts(e: Exec, t: Thrown, ip: nat, stop: nat)
    requires Sound(e) && NoDelimiters(e.frames, stop, |e.frames|)
    ensures Searching(e, e, t, ip, ip, stop)
  {
  }

  /** What searching the top frame at `at` leads to, if it settles the matter. */
  function TopOutcome(e: Exec, t: Thrown, at: nat): Option<(Exec, Unwound)>
    requires Lockstep(e) && e.frames != []
  {
    var f := e.frames[|e.frames| - 1];
    match InTable(f.code.handlers, at, f.tags, t.tag)
    case NoMatch => None
    case MissingTag => Some((e, Failed))
    case Match(rec) => Some(if CanRestore(e, rec) then (Landed(e, t, rec), Caught) else (e, Failed))
  }

  /** The search is over at the boundary. */
  lemma {:induction false} SearchRunsOut(start: Exec, now: Exec, t: Thrown, ip: nat, at: nat, stop: nat)
    requires Searching(start, now, t, ip, at, stop) && |now.frames| <= stop
    ensures UnwindTo(start, t, ip, stop) == (now, Escaped)
  {
  }

  /** The search is over at a matching clause, or at one whose tag is missing. */
  lemma {:induction false} SearchSettles(start: Exec, now: Exec, t: Thrown, ip: nat, at: nat, stop: nat)
    requires Searching(start, now, t, ip, at, stop) && |now.frames| > stop
    ensures TopOutcome(now, t, at).Some? ==> UnwindTo(start, t, ip, stop) == TopOutcome(now, t, at).value
  {
    assert PoppedTo(start, |now.frames|) == now;
  }

  /** The top frame searched in vain is popped. */
  lemma {:induction false} SearchGoesOn(start: Exec, now: Exec, t: Thrown, ip: nat, at: nat, stop: nat, next: Exec)
    requires Searching(start, now, t, ip, at, stop) && |now.frames| > stop
    requires TopOutcome(now, t, at).None?
    requires Sound(next) && next == PoppedTo(now, |now.frames| - 1)
    ensures |next.frames| == |now.frames| - 1
    ensures |next.frames| == stop ==> UnwindTo(start, t, ip, stop) == (next, Escaped)
    ensures |next.frames| > stop ==>
      var caller := next.frames[|next.frames| - 1];
      && (caller.ip == 0 ==> UnwindTo(start, t, ip, stop) == (next, Failed))
      && (caller.ip > 0 ==> Searching(start, next, t, ip, caller.ip - 1, stop))
  {
    PoppedTwice(start, |now.frames|, |now.frames| - 1);
  }
}
