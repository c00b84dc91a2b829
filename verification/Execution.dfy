/**
 The interpreter's transient state and the operations that change it (`src/exec/mod.rs`,
 `src/exec/frame.rs`, `src/exec/exn.rs`).
 */
module Execution {
  import opened Options
  import opened Layout
  import opened Codec
  import opened Tracing
  import opened Collector
  import opened ExecState
  import opened Handlers
  import opened Unwinding

  // --- operand roots ---

  /** The value a cell and its shadow tag stand for, where it is a reference. */
  function CellNodes(c: Cell, t: Tag): seq<Node> {
    if t.Some? then SeedHandle(c, t.value) else []
  }

  function StackNodes(values: seq<Cell>, shadow: seq<Tag>): seq<Node>
    requires |values| == |shadow|
  {
    if values == [] then []
    else
      var top := |values| - 1;
      StackNodes(values[..top], shadow[..top]) + CellNodes(values[top], shadow[top])
  }

  /** A value as a cell and the tag its slot gets. */
  function Encode(v: Val): (Cell, Tag) {
    match RefKindOf(v)
    case Some(kind) => (RefHandle(v), Some(kind))
    case None => (v.bits, None)
  }

  function EncodeAll(vs: seq<Val>): (r: seq<(Cell, Tag)>)
    ensures |r| == |vs|
  {
    seq(|vs|, i requires 0 <= i < |vs| => Encode(vs[i]))
  }

  /** The untyped stack and its shadow lose no reference: they seed a collection as the typed values would. */
  lemma {:induction false} ShadowKeepsRoots(vs: seq<Val>)
    ensures StackNodes(Cells(EncodeAll(vs)), Tags(EncodeAll(vs))) == SeedVals(vs)
  {
    if vs != [] {
      var init := vs[..|vs| - 1];
      ShadowKeepsRoots(init);
      assert Cells(EncodeAll(vs))[..|vs| - 1] == Cells(EncodeAll(init));
      assert Tags(EncodeAll(vs))[..|vs| - 1] == Tags(EncodeAll(init));
    }
  }

  /** Searching `frames` from the top, the first delimiter. */
  function InnermostCall(frames: seq<Frame>): (d: Option<nat>)
    ensures d.Some? ==>
      d.value < |frames| && frames[d.value].delimiter.Some? && NoDelimiters(frames, d.value + 1, |frames|)
    ensures d.None? ==> NoDelimiters(frames, 0, |frames|)
  {
    if frames == [] then None
    else if frames[|frames| - 1].delimiter.Some? then Some(|frames| - 1)
    else InnermostCall(frames[..|frames| - 1])
  }

  /**
   `copy_within` towards the bottom and `truncate`: the elements from `src` on are moved down to `dst` one
   by one, over stretches that may overlap.
   */
  method MoveDown<T>(s: seq<T>, src: nat, dst: nat) returns (t: seq<T>)
    requires dst <= src <= |s|
    ensures t == s[..dst] + s[src..]
  {
    t := s;
    for i := 0 to |s| - src
      invariant |t| == |s| && (forall k :: dst <= k < dst + i ==> t[k] == s[k - dst + src])
      invariant forall k :: 0 <= k < dst || dst + i <= k < |s| ==> t[k] == s[k]
    {
      t := t[dst + i := t[src + i]];
    }
    t := t[..dst + (|s| - src)];
  }

  class Execution {
    var values: seq<Cell>
    var shadow: seq<Tag>
    var frames: seq<Frame>
    var hostReentryDepth: nat

    function Value(): Exec
      reads this
    {
      Exec(values, shadow, frames, hostReentryDepth)
    }

    constructor ()
      ensures Value() == EMPTY_EXEC
    {
      values, shadow, frames, hostReentryDepth := [], [], [], 0;
    }

    /** Lays a call's locals and frame over the parameters on the stack; an error changes nothing. */
    method PushCall(tags: seq<nat>, code: Code) returns (r: Result<()>)
      modifies this
      ensures r.Ok? == old(CanPush(Value(), code))
      ensures r.Ok? ==> Value() == PushedCall(old(Value()), tags, code)
      ensures r.Ok? ==> CallLaid(old(Value()), Value(), tags, code)
      ensures r.Err? ==> Value() == old(Value())
    {
      if |values| != |shadow| || |values| > U32_LAST {
        return Err;
      }
      var floor := if frames == [] then 0 else frames[|frames| - 1].operandBase;
      if |values| < floor || |values| - floor < code.nParams || |values| + |code.locals| > U32_LAST {
        return Err;
      }
      PushedCallLays(Value(), tags, code);
      var localsBase, operandBase := |values| - code.nParams, |values| + |code.locals|;
      PushDefaults(code.locals);
      frames := frames + [Frame(code, 0, localsBase, operandBase, tags, None)];
      r := Ok(());
    }

    /** One default per declared local, cell and tag together. */
    method PushDefaults(locals: seq<Tag>)
      modifies this`values, this`shadow
      ensures values == old(values) + Defaults(locals) && shadow == old(shadow) + locals
    {
      for i := 0 to |locals|
        invariant values == old(values) + Defaults(locals[..i]) && shadow == old(shadow) + locals[..i]
      {
        assert locals[..i + 1][..i] == locals[..i];
        shadow := shadow + [locals[i]];
        values := values + [if locals[i].Some? then NULL_REF else 0];
      }
      assert locals[..|locals|] == locals;
    }

    method PushDelimiter(kind: Delimiter, tags: seq<nat>, code: Code) returns (r: Result<()>)
      modifies this`frames
      ensures r.Ok? == (|values| == |shadow| && |values| <= U32_LAST)
      ensures Value() == if r.Ok? then PushedDelimiter(old(Value()), kind, tags, code) else old(Value())
    {
      if |values| != |shadow| || |values| > U32_LAST {
        return Err;
      }
      frames := frames + [Frame(code, 0, |values|, |values|, tags, Some(kind))];
      r := Ok(());
    }

    /** Enters a call, or rolls every stack and the re-entry count back to where they were. */
    method EnterCall(kind: Delimiter, tags: seq<nat>, code: Code, args: seq<(Cell, Tag)>) returns (r: Result<()>)
      modifies this
      ensures r.Ok? == old(CanEnter(Value(), code, args))
      ensures r.Ok? ==> Value() == EnteredCall(old(Value()), kind, tags, code, args)
      ensures r.Ok? ==> EntryLaid(old(Value()), Value(), kind, tags, code, args)
      ensures r.Err? ==> Value() == old(Value())
    {
      var valueBase, frameBase, oldDepth := |values|, |frames|, hostReentryDepth;
      if kind.HostReentry? {
        hostReentryDepth := hostReentryDepth + 1;
      }
      var pushed := PushDelimiter(kind, tags, code);
      if pushed.Err? {
        hostReentryDepth := oldDepth;
        return Err;
      }
      shadow, values := shadow + Tags(args), values + Cells(args);
      assert Value() == Delimited(old(Value()), kind, tags, code, args);
      pushed := PushCall(tags, code);
      if pushed.Err? {
        values, shadow, frames := values[..valueBase], shadow[..valueBase], frames[..frameBase];
        hostReentryDepth := oldDepth;
        return Err;
      }
      EnteredCallLays(old(Value()), kind, tags, code, args);
      r := Ok(());
    }

    /** Drops the re-entry reserve of the call whose boundary is at `stop`. */
    method ReleaseReentry(stop: nat) returns (r: Result<()>)
      modifies this`hostReentryDepth
      ensures r.Ok? == (stop < |frames| && frames[stop].delimiter.Some? &&
        (frames[stop].delimiter == Some(HostReentry) ==> old(hostReentryDepth) > 0))
      ensures r.Ok? ==>
        hostReentryDepth == old(hostReentryDepth) - (if frames[stop].delimiter == Some(HostReentry) then 1 else 0)
      ensures r.Err? ==> hostReentryDepth == old(hostReentryDepth)
    {
      if stop >= |frames| || frames[stop].delimiter.None? {
        return Err;
      }
      if frames[stop].delimiter.value.HostReentry? {
        if hostReentryDepth == 0 {
          return Err;
        }
        hostReentryDepth := hostReentryDepth - 1;
      }
      r := Ok(());
    }

    /** Splits off a finished call's results and gives the outer call its stacks back. */
    method TakeResults(valueBase: nat, stop: nat, tys: seq<Tag>) returns (r: Result<seq<Cell>>)
      modifies this
      ensures r.Ok? == old(CanTake(Value(), valueBase, stop, tys))
      ensures r.Ok? ==> Value() == CutTo(old(Value()), valueBase, stop) && r.value == old(values)[valueBase..]
      ensures r.Ok? ==> values + r.value == old(values) && shadow + tys == old(shadow) && frames == old(frames)[..stop]
      ensures r.Err? ==> Value() == old(Value())
    {
      if |values| != |shadow| || valueBase > |values| || stop > |frames| || shadow[valueBase..] != tys {
        return Err;
      }
      var released := ReleaseReentry(stop);
      if released.Err? {
        return Err;
      }
      r := Ok(values[valueBase..]);
      values, shadow, frames := values[..valueBase], shadow[..valueBase], frames[..stop];
    }

    /** Discards a failed call's frames and operands. */
    method DiscardTo(valueBase: nat, stop: nat) returns (r: Result<()>)
      modifies this
      ensures r.Ok? == old(CanDiscard(Value(), valueBase, stop))
      ensures Value() == if r.Ok? then CutTo(old(Value()), valueBase, stop) else old(Value())
    {
      if |values| != |shadow| || valueBase > |values| || stop > |frames| {
        return Err;
      }
      var released := ReleaseReentry(stop);
      if released.Err? {
        return Err;
      }
      values, shadow, frames := values[..valueBase], shadow[..valueBase], frames[..stop];
      r := Ok(());
    }

    /** Searches the frames downward for a delimiter. */
    method FindDelimiter() returns (d: Option<nat>)
      ensures d == InnermostCall(frames)
    {
      var depth: nat := |frames|;
      assert frames[..depth] == frames;
      while depth > 0
        invariant depth <= |frames| && InnermostCall(frames) == InnermostCall(frames[..depth])
      {
        if frames[depth - 1].delimiter.Some? {
          return Some(depth - 1);
        }
        assert frames[..depth][..depth - 1] == frames[..depth - 1];
        depth := depth - 1;
      }
      d := None;
    }

    /** Discards the innermost call and reports its boundary. */
    method DiscardCurrentCall() returns (r: Result<(nat, nat)>)
      modifies this
      ensures var d := InnermostCall(old(frames));
        && (r.Ok? <==> d.Some? && old(CanDiscard(Value(), frames[d.value].localsBase, d.value)))
        && (r.Ok? ==> r.value == (old(frames)[d.value].localsBase, d.value))
        && (r.Ok? ==> Value() == CutTo(old(Value()), r.value.0, r.value.1))
        && (r.Err? ==> Value() == old(Value()))
    {
      var d := FindDelimiter();
      if d.None? {
        return Err;
      }
      var valueBase := frames[d.value].localsBase;
      var discarded := DiscardTo(valueBase, d.value);
      r := if discarded.Ok? then Ok((valueBase, d.value)) else Err;
    }

    /** Moves the top `keep` operands down over `pop` discarded ones. */
    method TakeBranch(keep: nat, pop: nat) returns (r: Result<()>)
      modifies this`values, this`shadow
      ensures r.Ok? == old(CanBranch(Value(), keep, pop))
      ensures Value() == if r.Ok? then Branched(old(Value()), keep, pop) else old(Value())
      ensures r.Ok? ==> BranchKept(old(Value()), Value(), keep, pop)
    {
      if |values| != |shadow| || frames == [] {
        return Err;
      }
      var len, floor := |values|, frames[|frames| - 1].operandBase;
      if len < floor || len - floor < keep + pop {
        return Err;
      }
      BranchedKeepsTop(Value(), keep, pop);
      var src := len - keep;
      var dst := src - pop;
      values := MoveDown(values, src, dst);
      shadow := MoveDown(shadow, src, dst);
      r := Ok(());
    }

    /** Pops the frame, moving its results to the frame's base; `tail` permits operands left below them. */
    method DoReturn(n: nat, stop: nat, tail: bool) returns (r: Result<bool>)
      modifies this
      ensures r.Ok? == old(CanReturn(Value(), n, stop, tail))
      ensures r.Ok? ==> Value() == Returned(old(Value()), n, stop, tail) && r.value == (|frames| == stop)
      ensures r.Ok? ==>
        var base := old(frames)[|old(frames)| - 1].localsBase;
        && |values| == |shadow| == base + n && base <= |old(values)| && n <= |old(values)|
        && values[..base] == old(values)[..base] && values[base..] == old(values)[|old(values)| - n..]
        && shadow[..base] == old(shadow)[..base] && shadow[base..] == old(shadow)[|old(shadow)| - n..]
        && frames == old(frames)[..|old(frames)| - 1] && hostReentryDepth == old(hostReentryDepth)
      ensures r.Err? ==> Value() == old(Value())
    {
      if |frames| <= stop || |values| != |shadow| {
        return Err;
      }
      var f, len := frames[|frames| - 1], |values|;
      if f.delimiter.Some? || len < f.operandBase {
        return Err;
      }
      var available := len - f.operandBase;
      if f.localsBase > f.operandBase || f.localsBase + n > len || available < n || (!tail && available != n) {
        return Err;
      }
      frames := frames[..|frames| - 1];
      values := MoveDown(values, len - n, f.localsBase);
      shadow := MoveDown(shadow, len - n, f.localsBase);
      r := Ok(|frames| == stop);
    }

    /** The roots a collection takes from the stack: every non-null cell whose tag says reference. */
    method OperandRoots() returns (r: Result<seq<(nat, RefKind)>>)
      ensures r.Ok? == (|values| == |shadow|)
      ensures r.Ok? ==> SeedHandles(r.value) == StackNodes(values, shadow)
    {
      if |values| != |shadow| {
        return Err;
      }
      var roots: seq<(nat, RefKind)> := [];
      for i := 0 to |values|
        invariant SeedHandles(roots) == StackNodes(values[..i], shadow[..i])
      {
        assert values[..i + 1][..i] == values[..i] && shadow[..i + 1][..i] == shadow[..i];
        if shadow[i].Some? && values[i] != NULL_REF {
          var root := (values[i], shadow[i].value);
          assert (roots + [root])[..|roots|] == roots;
          roots := roots + [root];
        }
      }
      assert values[..|values|] == values && shadow[..|shadow|] == shadow;
      r := Ok(roots);
    }

    // --- exceptions ---

    /** Pops a frame in which no clause matched. */
    method PopUnwoundFrame()
      requires Sound(Value()) && frames != [] && frames[|frames| - 1].delimiter.None?
      modifies this
      ensures Value() == PoppedTo(old(Value()), |old(frames)| - 1) && Sound(Value())
    {
      PoppedStaysSound(Value(), |frames| - 1);
      var base := frames[|frames| - 1].localsBase;
      values, shadow, frames := values[..base], shadow[..base], frames[..|frames| - 1];
    }

    /** Restores the clause's height, pushes its payload and points the frame at the landing pad. */
    method EnterHandler(t: Thrown, rec: HandlerRec) returns (r: Unwound)
      requires |values| == |shadow| && frames != []
      modifies this
      ensures if CanRestore(old(Value()), rec) then r == Caught && Value() == Landed(old(Value()), t, rec)
              else r == Failed && Value() == old(Value())
      ensures r == Caught ==> LandsIn(old(Value()), Value(), t, rec, |old(frames)| - 1)
    {
      if CanRestore(Value(), rec) { LandedLands(Value(), t, rec); }
      var top := |frames| - 1;
      var height := frames[top].operandBase + rec.restoreHeight;
      if height > U32_LAST || height > |values| {
        return Failed;
      }
      var payload := [];
      if rec.payloadArgs {
        payload := payload + t.args;
      }
      if rec.payloadRef {
        payload := payload + [(t.handle, Some(KExn))];
      }
      assert payload == Payload(t, rec);
      values, shadow := values[..height] + Cells(payload), shadow[..height] + Tags(payload);
      frames := frames[..top] + [frames[top].(ip := rec.landingIp)];
      r := Caught;
    }

    /** Searches the top frame's own table, and enters the handler found there. */
    method SearchTop(t: Thrown, at: nat) returns (r: Option<Unwound>)
      requires |values| == |shadow| && frames != []
      modifies this
      ensures var settled := TopOutcome(old(Value()), t, at);
        if settled.Some? then r == Some(settled.value.1) && Value() == settled.value.0
        else r.None? && Value() == old(Value())
    {
      var f := frames[|frames| - 1];
      var found := FindClause(f.code.handlers, at, f.tags, t.tag);
      if found.MissingTag? {
        return Some(Failed);
      }
      if found.Match? {
        var entered := EnterHandler(t, found.rec);
        return Some(entered);
      }
      r := None;
    }

    /** Pops the top frame, searched in vain at `at`, and moves on to the call its caller waits for. */
    method PopOut(t: Thrown, at: nat, stop: nat, ghost start: Exec, ghost ip: nat)
      returns (done: Option<Unwound>, next: nat)
      requires Searching(start, Value(), t, ip, at, stop) && |frames| > stop && TopOutcome(Value(), t, at).None?
      modifies this
      ensures done.Some? ==> (Value(), done.value) == UnwindTo(start, t, ip, stop)
      ensures done.None? ==> Searching(start, Value(), t, ip, next, stop) && |frames| < |old(frames)|
    {
      ghost var now := Value();
      PopUnwoundFrame();
      SearchGoesOn(start, now, t, ip, at, stop, Value());
      next := at;
      if |frames| == stop {
        done := Some(Escaped);
      } else if frames[|frames| - 1].ip == 0 {
        done := Some(Failed);
      } else {
        done, next := None, frames[|frames| - 1].ip - 1;
      }
    }

    /** One round of the unwinder: the top frame is searched at `at`, and popped if it has no clause. */
    method SearchFrame(t: Thrown, at: nat, stop: nat, ghost start: Exec, ghost ip: nat)
      returns (done: Option<Unwound>, next: nat)
      requires Searching(start, Value(), t, ip, at, stop) && |frames| > stop
      modifies this
      ensures done.Some? ==> (Value(), done.value) == UnwindTo(start, t, ip, stop)
      ensures done.None? ==> Searching(start, Value(), t, ip, next, stop) && |frames| < |old(frames)|
    {
      SearchSettles(start, Value(), t, ip, at, stop);
      next := at;
      done := SearchTop(t, at);
      if done.None? {
        done, next := PopOut(t, at, stop, start, ip);
      }
    }

    /** Searches frames outward for a handler, popping each one searched in vain, down to `stop`. */
    method Unwind(t: Thrown, ip: nat, stop: nat) returns (r: Unwound)
      requires Sound(Value()) && NoDelimiters(frames, stop, |frames|)
      modifies this
      ensures (Value(), r) == UnwindTo(old(Value()), t, ip, stop)
      ensures UnwoundRightly(old(Value()), Value(), r, t, ip, stop)
    {
      var faultIp: nat := ip;
      ghost var start := Value();
      UnwindsRightly(start, t, ip, stop);
      SearchStarts(start, t, ip, stop);
      while |frames| > stop
        invariant Searching(start, Value(), t, ip, faultIp, stop)
        decreases |frames|
      {
        var done, next := SearchFrame(t, faultIp, stop, start, ip);
        if done.Some? {
          return done.value;
        }
        faultIp := next;
      }
      SearchRunsOut(start, Value(), t, ip, faultIp, stop);
      r := Escaped;
    }

    /** A host function threw: unwind from the call the top frame is waiting for. */
    method RaiseHostException(t: Thrown, stop: nat) returns (r: Unwound)
      requires Sound(Value()) && NoDelimiters(frames, stop, |frames|)
      modifies this
      ensures var e := old(Value());
        if |e.frames| <= stop then r == Escaped && Value() == e
        else if e.frames[|e.frames| - 1].ip == 0 then r == Failed && Value() == e
        else
          var site := e.frames[|e.frames| - 1].ip - 1;
          (Value(), r) == UnwindTo(e, t, site, stop) && UnwoundRightly(e, Value(), r, t, site, stop)
    {
      if |frames| <= stop {
        return Escaped;
      }
      if frames[|frames| - 1].ip == 0 {
        return Failed;
      }
      r := Unwind(t, frames[|frames| - 1].ip - 1, stop);
    }
  }
}
