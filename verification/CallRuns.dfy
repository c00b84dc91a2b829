/**
 Runs of the shared stack machine: calls nested through host re-entry, and every way a call can go
 on or end (`src/exec/mod.rs`, `src/exec/frame.rs`, `src/exec/exn.rs`, `src/exec/host.rs`).
 */
module CallRuns {
  import opened Options
  import opened ExecState
  import opened Unwinding
  import opened Execution

  /** An open call: its boundary, and the execution it was entered on. */
  datatype Call = Call(valueBase: nat, stopDepth: nat, outer: Exec)

  /** `running`: the innermost call has passed the stack check `run` starts with. */
  datatype Session = Session(exec: Exec, calls: seq<Call>, running: bool)

  const IDLE := Session(EMPTY_EXEC, [], false)

  /** Byte sizes of a cell and a frame, and the configured limit on all stacks together. */
  datatype Limits = Limits(cellBytes: nat, frameBytes: nat, maxStack: nat)

  /** `stack_bytes`. */
  function StackBytes(e: Exec, l: Limits): nat {
    |e.values| * l.cellBytes + |e.shadow| + |e.frames| * l.frameBytes + e.reentry * HOST_REENTRY_RESERVE
  }

  datatype Op =
    /** `enter`: a call from the embedder, or from a host function the running call has called. */
    | Enter(tags: seq<nat>, code: Code, args: seq<(Cell, Tag)>)
    /** `run` is entered, or resumed after a suspension. */
    | StartRun
    /** Operand and local traffic of the top frame, host parameters popped and host results pushed. */
    | Operate(values: seq<Cell>, shadow: seq<Tag>)
    /** The top frame's resume point is saved. */
    | SaveIp(ip: nat)
    | Branch(keep: nat, pop: nat)
    | CallFunction(tags: seq<nat>, code: Code, returnIp: nat)
    | Return(n: nat)
    | TailCall(tags: seq<nat>, code: Code)
    /** A tail call to a host function pops the frame, leaving the parameters. */
    | TailHost(n: nat)
    /** An exception raised at `ip` by the guest or at the host call the top frame waits for. */
    | Raise(thrown: Thrown, ip: nat)
    /** The call ends: with results, by an error, or by a contained panic. */
    | Finish(tys: seq<Tag>)
    | Discard
    | Panic

  function Innermost(s: Session): Call
    requires s.calls != []
  {
    s.calls[|s.calls| - 1]
  }

  /** The depth the innermost call runs above. */
  function Stop(s: Session): nat
    requires s.calls != []
  {
    Innermost(s).stopDepth + 1
  }

  function KindAt(depth: nat): Delimiter {
    if depth == 0 then TopLevel else HostReentry
  }

  function OpenCall(s: Session, tags: seq<nat>, code: Code, args: seq<(Cell, Tag)>): Session {
    if CanEnter(s.exec, code, args) then
      var entry := Call(|s.exec.values|, |s.exec.frames|, s.exec);
      Session(EnteredCall(s.exec, KindAt(|s.exec.frames|), tags, code, args), s.calls + [entry], false)
    else s
  }

  function Ended(s: Session, e: Exec): Session
    requires s.calls != []
  {
    Session(e, s.calls[..|s.calls| - 1], |s.calls| > 1)
  }

  /** The top frame's own part of the stack is all an operand instruction may touch. */
  predicate OwnOperands(e: Exec, values: seq<Cell>, shadow: seq<Tag>) {
    e.frames != [] && |values| == |shadow| &&
    var f := e.frames[|e.frames| - 1];
    f.operandBase <= |values| && KeepsBelow(e, e.(values := values, shadow := shadow), 0, f.localsBase)
  }

  function TopIp(e: Exec, ip: nat): Exec
    requires e.frames != []
  {
    var top := |e.frames| - 1;
    e.(frames := e.frames[..top] + [e.frames[top].(ip := ip)])
  }

  /** Steps of the innermost call, which is running. */
  predicate RunStep(s: Session, l: Limits, op: Op, t: Session) {
    s.calls != [] && s.running && s.exec.frames != [] &&
    match op
    case Operate(values, shadow) =>
      OwnOperands(s.exec, values, shadow) && t == s.(exec := s.exec.(values := values, shadow := shadow))
    case SaveIp(ip) => Stop(s) < |s.exec.frames| && t == s.(exec := TopIp(s.exec, ip))
    case Branch(keep, pop) =>
      Stop(s) < |s.exec.frames| && CanBranch(s.exec, keep, pop) && t == s.(exec := Branched(s.exec, keep, pop))
    case CallFunction(tags, code, returnIp) =>
      && Stop(s) < |s.exec.frames| && StackBytes(s.exec, l) < l.maxStack && CanPush(TopIp(s.exec, returnIp), code)
      && t == s.(exec := PushedCall(TopIp(s.exec, returnIp), tags, code))
    case Return(n) => CanReturn(s.exec, n, Stop(s), false) && t == s.(exec := Returned(s.exec, n, Stop(s), false))
    case TailCall(tags, code) =>
      && CanReturn(s.exec, code.nParams, Stop(s), true)
      && var returned := Returned(s.exec, code.nParams, Stop(s), true);
        CanPush(returned, code) && t == s.(exec := PushedCall(returned, tags, code))
    case TailHost(n) => CanReturn(s.exec, n, Stop(s), true) && t == s.(exec := Returned(s.exec, n, Stop(s), true))
    case Raise(thrown, ip) => Sound(s.exec) && t == s.(exec := UnwindTo(s.exec, thrown, ip, Stop(s)).0)
    case _ => false
  }

  predicate CallStep(s: Session, l: Limits, op: Op, t: Session) {
    match op
    case Enter(tags, code, args) => (s.calls == [] || s.running) && t == OpenCall(s, tags, code, args)
    case StartRun =>
      s.calls != [] && t == s.(running := StackBytes(s.exec, l) < l.maxStack)
    case Finish(tys) =>
      s.calls != [] && var c := Innermost(s);
      CanTake(s.exec, c.valueBase, c.stopDepth, tys) && t == Ended(s, CutTo(s.exec, c.valueBase, c.stopDepth))
    case Discard =>
      s.calls != [] && var c := Innermost(s);
      t == Ended(s, if CanDiscard(s.exec, c.valueBase, c.stopDepth)
                    then CutTo(s.exec, c.valueBase, c.stopDepth) else s.exec)
    case Panic =>
      s.calls != [] && var d := InnermostCall(s.exec.frames);
      t == Ended(s, if d.Some? && CanDiscard(s.exec, s.exec.frames[d.value].localsBase, d.value)
                    then CutTo(s.exec, s.exec.frames[d.value].localsBase, d.value) else s.exec)
    case _ => false
  }

  predicate Step(s: Session, l: Limits, op: Op, t: Session) {
    RunStep(s, l, op, t) || CallStep(s, l, op, t)
  }

  ghost predicate IsRun(ss: seq<Session>, ops: seq<Op>, l: Limits) {
    && |ss| == |ops| + 1 && ss[0] == IDLE
    && forall k: nat :: k < |ops| ==> StepAt(ss, ops, l, k)
  }

  ghost predicate StepAt(ss: seq<Session>, ops: seq<Op>, l: Limits, k: nat) {
    k < |ops| && k + 1 < |ss| && Step(ss[k], l, ops[k], ss[k + 1])
  }

  // --- the invariant ---

  /** The execution a call was entered on lies untouched below the call's delimiter. */
  predicate CallOk(e: Exec, c: Call) {
    && |c.outer.values| == c.valueBase && |c.outer.frames| == c.stopDepth && c.stopDepth < |e.frames|
    && KeepsBelow(c.outer, e, c.stopDepth, c.valueBase)
    && e.frames[c.stopDepth].delimiter == Some(KindAt(c.stopDepth))
    && e.frames[c.stopDepth].localsBase == c.valueBase
  }

  /** Calls nest: each one's delimiter is the topmost, over an execution in which the calls before it nest. */
  ghost predicate Nested(e: Exec, calls: seq<Call>)
    decreases |calls|
  {
    Sound(e) &&
    if calls == [] then e == EMPTY_EXEC
    else
      var c := calls[|calls| - 1];
      CallOk(e, c) && NoDelimiters(e.frames, c.stopDepth + 1, |e.frames|) && Nested(c.outer, calls[..|calls| - 1])
  }

  /** What a step of the innermost call must leave. */
  predicate Proceeds(e: Exec, after: Exec, c: Call) {
    && Contained(e, after, c.stopDepth + 1, c.valueBase)
    && NoDelimiters(after.frames, c.stopDepth + 1, |after.frames|)
  }

  lemma {:induction false} ProceedsNested(e: Exec, after: Exec, calls: seq<Call>)
    requires calls != [] && Nested(e, calls) && Proceeds(e, after, calls[|calls| - 1])
    ensures Nested(after, calls)
  {
    var c := calls[|calls| - 1];
    KeepsLess(e, after, c.stopDepth + 1, c.valueBase, c.stopDepth, c.valueBase);
    KeepsTwice(c.outer, e, after, c.stopDepth, c.valueBase);
    assert after.frames[c.stopDepth] == after.frames[..c.stopDepth + 1][c.stopDepth];
    assert e.frames[c.stopDepth] == e.frames[..c.stopDepth + 1][c.stopDepth];
  }

  /** Cutting back to the boundary gives the outer execution, exactly. */
  lemma {:induction false} CutIsOuter(e: Exec, calls: seq<Call>)
    requires calls != [] && Nested(e, calls)
    ensures var c := calls[|calls| - 1];
      CanDiscard(e, c.valueBase, c.stopDepth) && CutTo(e, c.valueBase, c.stopDepth) == c.outer
  {
    var c := calls[|calls| - 1];
    ReentriesOfCall(e.frames, c.stopDepth);
    assert Sound(c.outer);
    assert c.outer.frames == c.outer.frames[..c.stopDepth] && c.outer.values == c.outer.values[..c.valueBase];
    assert c.outer.shadow == c.outer.shadow[..c.valueBase];
  }

  /** The innermost delimiter is the innermost call's. */
  lemma {:induction false} InnermostIsLast(e: Exec, calls: seq<Call>)
    requires calls != [] && Nested(e, calls)
    ensures var c := calls[|calls| - 1];
      InnermostCall(e.frames) == Some(c.stopDepth) && e.frames[c.stopDepth].localsBase == c.valueBase
  {
    var c := calls[|calls| - 1];
    var d := InnermostCall(e.frames);
    assert e.frames[c.stopDepth].delimiter.Some?;
  }

  // --- each step of the innermost call proceeds ---

  /** All a step of call `c` needs to know about the execution. */
  predicate Inside(e: Exec, c: Call) {
    && Sound(e) && c.stopDepth < |e.frames| && e.frames[c.stopDepth].localsBase == c.valueBase
    && NoDelimiters(e.frames, c.stopDepth + 1, |e.frames|)
  }

  /** No frame of the call reaches below its boundary. */
  lemma BoundaryIsLow(e: Exec, c: Call, d: nat)
    requires Inside(e, c) && c.stopDepth <= d < |e.frames|
    ensures c.valueBase <= e.frames[d].localsBase <= e.frames[d].operandBase <= |e.values|
  {
    if c.stopDepth < d { assert e.frames[c.stopDepth].operandBase <= e.frames[d].localsBase; }
  }

  /** Cutting the stacks at or above the boundary and adding to them keeps what is below it. */
  lemma KeepsFrom(e: Exec, after: Exec, c: Call, cut: nat)
    requires Inside(e, c) && c.valueBase <= cut <= |e.values|
    requires c.stopDepth < |after.frames| && after.frames[..c.stopDepth + 1] == e.frames[..c.stopDepth + 1]
    requires cut <= |after.values| && after.values[..cut] == e.values[..cut]
    requires cut <= |after.shadow| && after.shadow[..cut] == e.shadow[..cut]
    ensures KeepsBelow(e, after, c.stopDepth + 1, c.valueBase)
  {
    var b := c.valueBase;
    assert e.values[..b] == e.values[..cut][..b] && after.values[..b] == after.values[..cut][..b];
    assert e.shadow[..b] == e.shadow[..cut][..b] && after.shadow[..b] == after.shadow[..cut][..b];
  }

  lemma OperandsSound(e: Exec, values: seq<Cell>, shadow: seq<Tag>)
    requires Sound(e) && OwnOperands(e, values, shadow)
    ensures Sound(e.(values := values, shadow := shadow))
  {
    var f := e.frames[|e.frames| - 1];
    assert forall i :: 0 <= i < |e.frames| - 1 ==> e.frames[i].operandBase <= f.localsBase;
  }

  lemma {:induction false} OperateProceeds(e: Exec, values: seq<Cell>, shadow: seq<Tag>, c: Call)
    requires Inside(e, c) && OwnOperands(e, values, shadow)
    ensures Proceeds(e, e.(values := values, shadow := shadow), c)
  {
    OperandsSound(e, values, shadow);
    BoundaryIsLow(e, c, |e.frames| - 1);
    KeepsFrom(e, e.(values := values, shadow := shadow), c, e.frames[|e.frames| - 1].localsBase);
  }

  lemma {:induction false} TopIpSound(e: Exec, ip: nat)
    requires Sound(e) && e.frames != []
    ensures Sound(TopIp(e, ip))
  {
    var top, after := |e.frames| - 1, TopIp(e, ip);
    assert e.frames == e.frames[..top] + [e.frames[top]];
    ReentriesPush(e.frames[..top], e.frames[top]);
    ReentriesPush(e.frames[..top], after.frames[top]);
    SameBases(e.frames, after.frames, |e.values|);
  }

  lemma SameBases(frames: seq<Frame>, after: seq<Frame>, height: nat)
    requires BasesOk(frames, height) && |after| == |frames|
    requires forall i :: 0 <= i < |frames| ==>
      after[i].localsBase == frames[i].localsBase && after[i].operandBase == frames[i].operandBase
    ensures BasesOk(after, height)
  {
  }

  lemma {:induction false} SaveIpProceeds(e: Exec, ip: nat, c: Call)
    requires Inside(e, c) && c.stopDepth + 1 < |e.frames|
    ensures Proceeds(e, TopIp(e, ip), c)
  {
    TopIpSound(e, ip);
    assert TopIp(e, ip).frames[..c.stopDepth + 1] == e.frames[..c.stopDepth + 1];
    KeepsFrom(e, TopIp(e, ip), c, c.valueBase);
  }

  lemma {:induction false} BranchProceeds(e: Exec, keep: nat, pop: nat, c: Call)
    requires Inside(e, c) && CanBranch(e, keep, pop)
    ensures Proceeds(e, Branched(e, keep, pop), c)
  {
    BranchedSound(e, keep, pop);
    BoundaryIsLow(e, c, |e.frames| - 1);
    KeepsFrom(e, Branched(e, keep, pop), c, |e.values| - keep - pop);
  }

  lemma {:induction false} PushProceeds(e: Exec, tags: seq<nat>, code: Code, c: Call)
    requires Inside(e, c) && CanPush(e, code)
    ensures Proceeds(e, PushedCall(e, tags, code), c)
  {
    var after := PushedCall(e, tags, code);
    PushedCallSound(e, tags, code);
    assert after.frames[..c.stopDepth + 1] == e.frames[..c.stopDepth + 1];
    KeepsFrom(e, after, c, |e.values|);
  }

  lemma {:induction false} ReturnProceeds(e: Exec, n: nat, tail: bool, c: Call)
    requires Inside(e, c) && CanReturn(e, n, c.stopDepth + 1, tail)
    ensures Proceeds(e, Returned(e, n, c.stopDepth + 1, tail), c)
  {
    var after := Returned(e, n, c.stopDepth + 1, tail);
    ReturnedSound(e, n, c.stopDepth + 1, tail);
    BoundaryIsLow(e, c, |e.frames| - 1);
    assert after.frames[..c.stopDepth + 1] == e.frames[..c.stopDepth + 1];
    KeepsFrom(e, after, c, e.frames[|e.frames| - 1].localsBase);
  }

  lemma {:induction false} RaiseProceeds(e: Exec, thrown: Thrown, ip: nat, c: Call)
    requires Inside(e, c)
    ensures Proceeds(e, UnwindTo(e, thrown, ip, c.stopDepth + 1).0, c)
  {
    if c.stopDepth + 1 < |e.frames| { BoundaryIsLow(e, c, c.stopDepth + 1); }
    BoundaryIsLow(e, c, c.stopDepth);
    UnwindKeeps(e, thrown, ip, c.stopDepth + 1, c.valueBase);
    UnwindFrames(e, thrown, ip, c.stopDepth + 1);
  }

  // --- every step keeps calls nested ---

  lemma NestedInside(e: Exec, calls: seq<Call>)
    requires calls != [] && Nested(e, calls)
    ensures Inside(e, calls[|calls| - 1])
  {
  }

  lemma ProceedsInside(e: Exec, after: Exec, c: Call)
    requires Inside(e, c) && Proceeds(e, after, c)
    ensures Inside(after, c)
  {
    assert after.frames[c.stopDepth] == after.frames[..c.stopDepth + 1][c.stopDepth];
    assert e.frames[c.stopDepth] == e.frames[..c.stopDepth + 1][c.stopDepth];
  }

  lemma ProceedsTwice(e: Exec, mid: Exec, after: Exec, c: Call)
    requires Proceeds(e, mid, c) && Proceeds(mid, after, c)
    ensures Proceeds(e, after, c)
  {
    KeepsTwice(e, mid, after, c.stopDepth + 1, c.valueBase);
  }

  lemma {:induction false} CallProceeds(e: Exec, tags: seq<nat>, code: Code, returnIp: nat, c: Call)
    requires Inside(e, c) && c.stopDepth + 1 < |e.frames| && CanPush(TopIp(e, returnIp), code)
    ensures Proceeds(e, PushedCall(TopIp(e, returnIp), tags, code), c)
  {
    var saved := TopIp(e, returnIp);
    SaveIpProceeds(e, returnIp, c);
    ProceedsInside(e, saved, c);
    PushProceeds(saved, tags, code, c);
    ProceedsTwice(e, saved, PushedCall(saved, tags, code), c);
  }

  lemma {:induction false} TailCallProceeds(e: Exec, tags: seq<nat>, code: Code, c: Call)
    requires Inside(e, c) && CanReturn(e, code.nParams, c.stopDepth + 1, true)
    requires CanPush(Returned(e, code.nParams, c.stopDepth + 1, true), code)
    ensures Proceeds(e, PushedCall(Returned(e, code.nParams, c.stopDepth + 1, true), tags, code), c)
  {
    var returned := Returned(e, code.nParams, c.stopDepth + 1, true);
    ReturnProceeds(e, code.nParams, true, c);
    ProceedsInside(e, returned, c);
    PushProceeds(returned, tags, code, c);
    ProceedsTwice(e, returned, PushedCall(returned, tags, code), c);
  }

  predicate PopsFrames(op: Op) {
    op.Return? || op.TailCall? || op.TailHost?
  }

  lemma {:induction false} PopStepProceeds(s: Session, l: Limits, op: Op, t: Session)
    requires s.calls != [] && Inside(s.exec, Innermost(s)) && RunStep(s, l, op, t) && PopsFrames(op)
    ensures Proceeds(s.exec, t.exec, Innermost(s))
  {
    var e, c := s.exec, Innermost(s);
    if op.Return? {
      ReturnProceeds(e, op.n, false, c);
    } else if op.TailHost? {
      ReturnProceeds(e, op.n, true, c);
    } else {
      assert t.exec == PushedCall(Returned(e, op.code.nParams, c.stopDepth + 1, true), op.tags, op.code);
      TailCallProceeds(e, op.tags, op.code, c);
    }
  }

  lemma {:induction false} RunStepProceeds(s: Session, l: Limits, op: Op, t: Session)
    requires s.calls != [] && Inside(s.exec, Innermost(s)) && RunStep(s, l, op, t)
    ensures Proceeds(s.exec, t.exec, Innermost(s)) && t.calls == s.calls && t.running == s.running
  {
    if PopsFrames(op) {
      PopStepProceeds(s, l, op, t);
    } else if op.Raise? {
      RaiseStepProceeds(s, l, op, t);
    } else if op.CallFunction? {
      CallStepProceeds(s, l, op, t);
    } else {
      OwnStepProceeds(s, l, op, t);
    }
  }

  ghost predicate Raised(e: Exec, thrown: Thrown, ip: nat, c: Call, after: Exec) {
    Inside(e, c) && after == UnwindTo(e, thrown, ip, c.stopDepth + 1).0
  }

  lemma {:induction false} RaiseStepProceeds(s: Session, l: Limits, op: Op, t: Session)
    requires s.calls != [] && Inside(s.exec, Innermost(s)) && RunStep(s, l, op, t) && op.Raise?
    ensures Proceeds(s.exec, t.exec, Innermost(s))
  {
    RaiseStepIs(s, l, op, t);
    RaisedProceeds(s.exec, op.thrown, op.ip, Innermost(s), t.exec);
  }

  lemma {:induction false} RaisedProceeds(e: Exec, thrown: Thrown, ip: nat, c: Call, after: Exec)
    requires Raised(e, thrown, ip, c, after)
    ensures Proceeds(e, after, c)
  {
    RaiseProceeds(e, thrown, ip, c);
  }

  /** The facts of a raising step, on plain executions. */
  lemma {:induction false} RaiseStepIs(s: Session, l: Limits, op: Op, t: Session)
    requires s.calls != [] && Inside(s.exec, Innermost(s)) && RunStep(s, l, op, t) && op.Raise?
    ensures Raised(s.exec, op.thrown, op.ip, Innermost(s), t.exec)
  {
  }

  lemma {:induction false} CallStepProceeds(s: Session, l: Limits, op: Op, t: Session)
    requires s.calls != [] && Inside(s.exec, Innermost(s)) && RunStep(s, l, op, t) && op.CallFunction?
    ensures Proceeds(s.exec, t.exec, Innermost(s))
  {
    CallStepIs(s, l, op, t);
    CallProceeds(s.exec, op.tags, op.code, op.returnIp, Innermost(s));
  }

  lemma CallStepIs(s: Session, l: Limits, op: Op, t: Session)
    requires RunStep(s, l, op, t) && op.CallFunction?
    ensures Stop(s) < |s.exec.frames| && CanPush(TopIp(s.exec, op.returnIp), op.code)
    ensures t.exec == PushedCall(TopIp(s.exec, op.returnIp), op.tags, op.code)
  {
  }

  /** Steps that neither push nor pop a frame. */
  lemma {:induction false} OwnStepProceeds(s: Session, l: Limits, op: Op, t: Session)
    requires s.calls != [] && Inside(s.exec, Innermost(s)) && RunStep(s, l, op, t)
    requires op.Operate? || op.SaveIp? || op.Branch?
    ensures Proceeds(s.exec, t.exec, Innermost(s))
  {
    var e, c := s.exec, Innermost(s);
    if op.Operate? {
      OperateProceeds(e, op.values, op.shadow, c);
    } else if op.SaveIp? {
      SaveIpProceeds(e, op.ip, c);
    } else {
      BranchProceeds(e, op.keep, op.pop, c);
    }
  }

  lemma {:induction false} RunStepNested(s: Session, l: Limits, op: Op, t: Session)
    requires Nested(s.exec, s.calls) && RunStep(s, l, op, t)
    ensures Nested(t.exec, t.calls) && t.calls == s.calls
  {
    NestedInside(s.exec, s.calls);
    RunStepProceeds(s, l, op, t);
    ProceedsNested(s.exec, t.exec, s.calls);
  }

  lemma {:induction false} EnterNested(s: Session, tags: seq<nat>, code: Code, args: seq<(Cell, Tag)>)
    requires Nested(s.exec, s.calls)
    ensures var t := OpenCall(s, tags, code, args);
      Nested(t.exec, t.calls)
  {
    var e, t := s.exec, OpenCall(s, tags, code, args);
    if CanEnter(e, code, args) {
      EnteredSound(e, KindAt(|e.frames|), tags, code, args);
      var c := t.calls[|s.calls|];
      assert t.calls[..|s.calls|] == s.calls;
      assert t.exec.frames[..c.stopDepth] == e.frames && t.exec.values[..c.valueBase] == e.values;
      assert t.exec.shadow[..c.valueBase] == e.shadow;
      assert e.frames[..c.stopDepth] == e.frames && e.values[..c.valueBase] == e.values;
      assert e.shadow[..c.valueBase] == e.shadow;
    }
  }

  /** However a call ends, the execution left is the one it was entered on. */
  lemma {:induction false} EndRestores(s: Session, l: Limits, op: Op, t: Session)
    requires Nested(s.exec, s.calls) && CallStep(s, l, op, t) && (op.Finish? || op.Discard? || op.Panic?)
    ensures t.exec == Innermost(s).outer && t.calls == s.calls[..|s.calls| - 1] && Nested(t.exec, t.calls)
  {
    CutIsOuter(s.exec, s.calls);
    if op.Panic? { InnermostIsLast(s.exec, s.calls); }
  }

  lemma {:induction false} StepNested(s: Session, l: Limits, op: Op, t: Session)
    requires Nested(s.exec, s.calls) && Step(s, l, op, t)
    ensures Nested(t.exec, t.calls)
  {
    if RunStep(s, l, op, t) {
      RunStepNested(s, l, op, t);
    } else if op.Enter? {
      EnterNested(s, op.tags, op.code, op.args);
    } else if !op.StartRun? {
      EndRestores(s, l, op, t);
    }
  }

  lemma {:induction false} RunNested(ss: seq<Session>, ops: seq<Op>, l: Limits, k: nat)
    requires IsRun(ss, ops, l) && k < |ss|
    ensures Nested(ss[k].exec, ss[k].calls)
    decreases k
  {
    if k > 0 {
      RunNested(ss, ops, l, k - 1);
      assert StepAt(ss, ops, l, k - 1);
      StepNested(ss[k - 1], l, ops[k - 1], ss[k]);
    }
  }

  // --- call isolation over runs ---

  /** Steps other than a successful entry and an end leave the open calls alone. */
  lemma {:induction false} CallsChange(s: Session, l: Limits, op: Op, t: Session)
    requires Nested(s.exec, s.calls) && Step(s, l, op, t)
    ensures t.calls == s.calls || (op.Enter? && t.calls == s.calls + [Call(|s.exec.values|, |s.exec.frames|, s.exec)])
      || (s.calls != [] && t.calls == s.calls[..|s.calls| - 1] && t.exec == Innermost(s).outer)
  {
    if RunStep(s, l, op, t) {
      RunStepNested(s, l, op, t);
    } else if op.Finish? || op.Discard? || op.Panic? {
      EndRestores(s, l, op, t);
    }
  }

  lemma {:induction false} CallEnds(s: Session, l: Limits, op: Op, t: Session)
    requires Nested(s.exec, s.calls) && Step(s, l, op, t) && |t.calls| < |s.calls|
    ensures |t.calls| == |s.calls| - 1 && t.exec == Innermost(s).outer
  {
    CallsChange(s, l, op, t);
  }

  lemma {:induction false} CallEndsAt(ss: seq<Session>, ops: seq<Op>, l: Limits, k: nat)
    requires IsRun(ss, ops, l) && 0 < k < |ss| && |ss[k].calls| < |ss[k - 1].calls|
    ensures |ss[k].calls| == |ss[k - 1].calls| - 1 && ss[k].exec == Innermost(ss[k - 1]).outer
  {
    RunNested(ss, ops, l, k - 1);
    assert StepAt(ss, ops, l, k - 1);
    CallEnds(ss[k - 1], l, ops[k - 1], ss[k]);
  }

  /** A call entered at step `i` is still open, unchanged, as long as at least as many calls are open. */
  lemma {:induction false} CallStaysOpen(ss: seq<Session>, ops: seq<Op>, l: Limits, i: nat, k: nat)
    requires IsRun(ss, ops, l) && i < k < |ss| && |ss[i + 1].calls| > |ss[i].calls|
    requires forall m :: i < m <= k ==> |ss[m].calls| > |ss[i].calls|
    ensures ss[k].calls[|ss[i].calls|] == Call(|ss[i].exec.values|, |ss[i].exec.frames|, ss[i].exec)
    decreases k
  {
    RunNested(ss, ops, l, k - 1);
    assert StepAt(ss, ops, l, k - 1);
    CallsChange(ss[k - 1], l, ops[k - 1], ss[k]);
    if k > i + 1 { CallStaysOpen(ss, ops, l, i, k - 1); }
  }

  /** Every open call, not only the innermost, has its outer execution intact below its boundary. */
  lemma {:induction false} OuterIsIntact(e: Exec, calls: seq<Call>, j: nat)
    requires Nested(e, calls) && j < |calls|
    ensures CallOk(e, calls[j])
    decreases |calls|
  {
    var c := calls[|calls| - 1];
    if j < |calls| - 1 {
      OuterIsIntact(c.outer, calls[..|calls| - 1], j);
      var o := calls[j];
      assert c.outer.frames[..o.stopDepth + 1] == e.frames[..o.stopDepth + 1] by {
        assert e.frames[..c.stopDepth][..o.stopDepth + 1] == e.frames[..o.stopDepth + 1];
      }
      assert e.frames[o.stopDepth] == e.frames[..c.stopDepth][o.stopDepth];
      assert c.outer.frames[..c.stopDepth] == c.outer.frames;
      KeepsLess(c.outer, e, c.stopDepth, c.valueBase, o.stopDepth, o.valueBase);
      KeepsTwice(o.outer, c.outer, e, o.stopDepth, o.valueBase);
    }
  }

  /**
   Call isolation: from the step that enters a call to any later state in which it is open, the
   values, tags and frames below its boundary are those it was entered on.
   */
  lemma {:induction false} CallIsolation(ss: seq<Session>, ops: seq<Op>, l: Limits, i: nat, k: nat)
    requires IsRun(ss, ops, l) && i < k < |ss| && |ss[i + 1].calls| > |ss[i].calls|
    requires forall m :: i < m <= k ==> |ss[m].calls| > |ss[i].calls|
    ensures KeepsBelow(ss[i].exec, ss[k].exec, |ss[i].exec.frames|, |ss[i].exec.values|) && Sound(ss[k].exec)
  {
    RunNested(ss, ops, l, k);
    CallStaysOpen(ss, ops, l, i, k);
    OuterIsIntact(ss[k].exec, ss[k].calls, |ss[i].calls|);
  }

  /**
   Whatever a call does and however it ends (results, a trap, an uncaught exception, a discard or a
   contained panic), the caller gets back exactly the execution it made the call on.
   */
  lemma {:induction false} CallRestores(ss: seq<Session>, ops: seq<Op>, l: Limits, i: nat, k: nat)
    requires IsRun(ss, ops, l) && i < k < |ss| && |ss[i + 1].calls| > |ss[i].calls| && |ss[k].calls| == |ss[i].calls|
    requires forall m :: i < m < k ==> |ss[m].calls| > |ss[i].calls|
    ensures ss[k].exec == ss[i].exec
  {
    assert i < k - 1;
    CallEndsAt(ss, ops, l, k);
    CallStaysOpen(ss, ops, l, i, k - 1);
  }

  // --- re-entry count and stack bound ---

  /** In every state the re-entry counter is the number of host re-entry delimiters. */
  lemma {:induction false} ReentryCountsDelimiters(ss: seq<Session>, ops: seq<Op>, l: Limits, k: nat)
    requires IsRun(ss, ops, l) && k < |ss|
    ensures ss[k].exec.reentry == Reentries(ss[k].exec.frames)
    ensures |ss[k].exec.values| == |ss[k].exec.shadow| && BasesOk(ss[k].exec.frames, |ss[k].exec.values|)
  {
    RunNested(ss, ops, l, k);
  }

  lemma {:induction false} NestedReentry(e: Exec, calls: seq<Call>)
    requires Nested(e, calls)
    ensures e.frames == [] <==> calls == []
    ensures e.reentry == if calls == [] then 0 else |calls| - 1
    decreases |calls|
  {
    if calls != [] {
      var c := calls[|calls| - 1];
      NestedReentry(c.outer, calls[..|calls| - 1]);
      ReentriesOfCall(e.frames, c.stopDepth);
      assert e.frames[..c.stopDepth] == c.outer.frames[..c.stopDepth] == c.outer.frames;
    }
  }

  /**
   In every run the first open call is the embedder's and every other one a host re-entry, so the
   re-entry counter is the number of open calls less one.
   */
  lemma {:induction false} ReentryIsDepth(ss: seq<Session>, ops: seq<Op>, l: Limits, k: nat)
    requires IsRun(ss, ops, l) && k < |ss|
    ensures ss[k].exec.reentry == if ss[k].calls == [] then 0 else |ss[k].calls| - 1
  {
    RunNested(ss, ops, l, k);
    NestedReentry(ss[k].exec, ss[k].calls);
  }

  /** What frames and host crossings weigh against the limit. */
  function Weight(e: Exec, l: Limits): nat {
    |e.frames| * l.frameBytes + e.reentry * HOST_REENTRY_RESERVE
  }

  /** Re-entrant calls were entered from executions at most one frame over the limit. */
  predicate Light(calls: seq<Call>, l: Limits) {
    forall j :: 0 <= j < |calls| && calls[j].outer != EMPTY_EXEC ==>
      Weight(calls[j].outer, l) < l.maxStack + l.frameBytes
  }

  predicate Bounded(s: Session, l: Limits) {
    && Light(s.calls, l)
    && (s.running ==> Weight(s.exec, l) < l.maxStack + l.frameBytes)
    && Weight(s.exec, l) < l.maxStack + 3 * l.frameBytes + HOST_REENTRY_RESERVE
  }

  lemma WeightBelowBytes(e: Exec, l: Limits)
    ensures Weight(e, l) <= StackBytes(e, l)
  {
  }

  lemma FewerFrames(e: Exec, after: Exec, l: Limits)
    requires |after.frames| <= |e.frames| && after.reentry == e.reentry
    ensures Weight(after, l) <= Weight(e, l)
  {
    MulLess(|after.frames|, |e.frames|, l.frameBytes);
  }

  lemma MulLess(a: nat, b: nat, c: nat)
    requires a <= b
    ensures a * c <= b * c
  {
  }

  lemma OneMoreFrame(e: Exec, after: Exec, l: Limits)
    requires |after.frames| == |e.frames| + 1 && after.reentry == e.reentry
    ensures Weight(after, l) == Weight(e, l) + l.frameBytes
  {
  }

  lemma {:induction false} RunStepBounded(s: Session, l: Limits, op: Op, t: Session)
    requires Nested(s.exec, s.calls) && Bounded(s, l) && RunStep(s, l, op, t)
    ensures Bounded(t, l)
  {
    if op.CallFunction? {
      WeightBelowBytes(s.exec, l);
      OneMoreFrame(s.exec, t.exec, l);
    } else {
      if op.Raise? { UnwindFrames(s.exec, op.thrown, op.ip, Stop(s)); }
      FewerFrames(s.exec, t.exec, l);
    }
  }

  lemma EnterWeight(e: Exec, tags: seq<nat>, code: Code, args: seq<(Cell, Tag)>, l: Limits)
    requires CanEnter(e, code, args)
    ensures var after := EnteredCall(e, KindAt(|e.frames|), tags, code, args);
      Weight(after, l) <= Weight(e, l) + 2 * l.frameBytes + HOST_REENTRY_RESERVE
  {
  }

  lemma {:induction false} EnterBounded(s: Session, tags: seq<nat>, code: Code, args: seq<(Cell, Tag)>, l: Limits)
    requires Nested(s.exec, s.calls) && Bounded(s, l) && (s.calls == [] || s.running)
    ensures Bounded(OpenCall(s, tags, code, args), l)
  {
    if CanEnter(s.exec, code, args) { EnterWeight(s.exec, tags, code, args, l); }
  }

  lemma {:induction false} EndBounded(s: Session, t: Session, l: Limits)
    requires Light(s.calls, l) && s.calls != [] && t == Ended(s, Innermost(s).outer) && Nested(t.exec, t.calls)
    ensures Bounded(t, l)
  {
    if t.calls == [] {
      assert t.exec == EMPTY_EXEC;
    } else {
      assert t.exec.frames != [];
    }
  }

  lemma {:induction false} StepBounded(s: Session, l: Limits, op: Op, t: Session)
    requires Nested(s.exec, s.calls) && Bounded(s, l) && Step(s, l, op, t)
    ensures Bounded(t, l)
  {
    if RunStep(s, l, op, t) {
      RunStepBounded(s, l, op, t);
    } else if op.Enter? {
      EnterBounded(s, op.tags, op.code, op.args, l);
    } else if op.StartRun? {
      WeightBelowBytes(s.exec, l);
    } else {
      EndRestores(s, l, op, t);
      EndBounded(s, t, l);
    }
  }

  /**
   Runaway recursion is bounded: in every state of every run, frames and host crossings together stay
   within the configured limit plus three frames and one crossing.
   */
  lemma {:induction false} StackIsBounded(ss: seq<Session>, ops: seq<Op>, l: Limits, k: nat)
    requires IsRun(ss, ops, l) && k < |ss|
    ensures Bounded(ss[k], l)
    decreases k
  {
    if k > 0 {
      StackIsBounded(ss, ops, l, k - 1);
      RunNested(ss, ops, l, k - 1);
      assert StepAt(ss, ops, l, k - 1);
      StepBounded(ss[k - 1], l, ops[k - 1], ss[k]);
    }
  }

  // --- tail calls ---

  /** A stretch of one frame's life: its own instructions, and tail calls that replace it. */
  ghost predicate TailRun(ss: seq<Session>, ops: seq<Op>, l: Limits) {
    && |ss| == |ops| + 1 && ss[0].calls != [] && ss[0].exec.frames != []
    && forall k: nat :: k < |ops| ==> StaysAt(ss, ops, l, k)
  }

  ghost predicate StaysAt(ss: seq<Session>, ops: seq<Op>, l: Limits, k: nat) {
    && k < |ops| && k + 1 < |ss|
    && (ops[k].Operate? || ops[k].SaveIp? || ops[k].Branch? || ops[k].TailCall?)
    && RunStep(ss[k], l, ops[k], ss[k + 1])
  }

  function TopFrame(s: Session): Frame
    requires s.exec.frames != []
  {
    s.exec.frames[|s.exec.frames| - 1]
  }

  lemma {:induction false} TailStepKeeps(s: Session, l: Limits, op: Op, t: Session)
    requires RunStep(s, l, op, t) && (op.Operate? || op.SaveIp? || op.Branch? || op.TailCall?)
    ensures |t.exec.frames| == |s.exec.frames| && t.exec.reentry == s.exec.reentry && t.calls == s.calls
    ensures TopFrame(t).localsBase == TopFrame(s).localsBase
    ensures op.TailCall? ==>
      |t.exec.values| == TopFrame(s).localsBase + op.code.nParams + |op.code.locals| &&
      TopFrame(t).operandBase == |t.exec.values|
  {
  }

  // --- what a call and a return hand over ---

  /**
   A tail call hands the callee exactly the caller's top operands, as many as it has parameters, with
   their tags: they lie at the base of the caller's frame, the callee's own locals over them start null
   or zero, what the caller left under them is gone, and what lies below the frame is untouched.
   */
  lemma {:induction false} TailCallPasses(s: Session, l: Limits, tags: seq<nat>, code: Code, t: Session)
    requires RunStep(s, l, TailCall(tags, code), t)
    ensures TailCallLaid(s.exec, t.exec, tags, code)
  {
    ReplacedLays(s.exec, tags, code, Stop(s));
  }

  predicate TailCallLaid(e: Exec, after: Exec, tags: seq<nat>, code: Code) {
    && e.frames != [] && code.nParams <= |e.values|
    && var base := e.frames[|e.frames| - 1].localsBase;
      && |after.values| == |after.shadow| == base + code.nParams + |code.locals|
      && SameStretch(e, 0, base, after, 0)
      && SameStretch(e, |e.values| - code.nParams, |e.values|, after, base)
      && DefaultsAt(after, base + code.nParams, code.locals)
      && after.frames == e.frames[..|e.frames| - 1] + [Frame(code, 0, base, |after.values|, tags, None)]
  }

  lemma {:induction false} ReplacedLays(e: Exec, tags: seq<nat>, code: Code, stop: nat)
    requires CanReturn(e, code.nParams, stop, true) && CanPush(Returned(e, code.nParams, stop, true), code)
    ensures TailCallLaid(e, PushedCall(Returned(e, code.nParams, stop, true), tags, code), tags, code)
  {
    var mid := Returned(e, code.nParams, stop, true);
    ReturnedKeepsTop(e, code.nParams, stop, true);
    PushedCallLays(mid, tags, code);
    BothStretchesStay(e, mid, PushedCall(mid, tags, code), code.nParams);
  }

  lemma BothStretchesStay(e: Exec, mid: Exec, after: Exec, n: nat)
    requires ReturnLaid(e, mid, n) && SameStretch(mid, 0, |mid.values|, after, 0)
    ensures SameStretch(e, 0, e.frames[|e.frames| - 1].localsBase, after, 0)
    ensures SameStretch(e, |e.values| - n, |e.values|, after, e.frames[|e.frames| - 1].localsBase)
  {
    var base := e.frames[|e.frames| - 1].localsBase;
    StretchStays(e, 0, base, mid, 0, after);
    StretchStays(e, |e.values| - n, |e.values|, mid, base, after);
  }

  /** A stretch stays when the stacks it lies on only grow. */
  lemma StretchStays(e: Exec, lo: nat, hi: nat, mid: Exec, at: nat, after: Exec)
    requires SameStretch(e, lo, hi, mid, at) && SameStretch(mid, 0, |mid.values|, after, 0)
    requires |mid.shadow| == |mid.values|
    ensures SameStretch(e, lo, hi, after, at)
  {
    SliceStays(mid.values, after.values, |mid.values|, at, at + (hi - lo));
    SliceStays(mid.shadow, after.shadow, |mid.shadow|, at, at + (hi - lo));
  }

  lemma SliceStays<T>(s: seq<T>, t: seq<T>, m: nat, lo: nat, hi: nat)
    requires lo <= hi <= m <= |s| && m <= |t| && s[0..m] == t[0..m]
    ensures s[lo..hi] == t[lo..hi]
  {
    assert s[lo..hi] == s[0..m][lo..hi] && t[lo..hi] == t[0..m][lo..hi];
  }

  /** A call leaves the parameters in place as the callee's first locals, and the caller at its resume point. */
  lemma {:induction false} CallPasses(
    s: Session, l: Limits, tags: seq<nat>, code: Code, returnIp: nat, t: Session)
    requires RunStep(s, l, CallFunction(tags, code, returnIp), t)
    ensures CallLaid(TopIp(s.exec, returnIp), t.exec, tags, code)
    ensures SameStretch(s.exec, 0, |s.exec.values|, t.exec, 0)
    ensures TopFrame(t).localsBase + code.nParams == |s.exec.values|
    ensures t.exec.frames[|s.exec.frames| - 1] == TopFrame(s).(ip := returnIp)
  {
    PushedCallLays(TopIp(s.exec, returnIp), tags, code);
  }

  /** An ordinary return hands back all of the frame's operands, exactly as many as it has results. */
  lemma {:induction false} ReturnHands(s: Session, l: Limits, n: nat, t: Session)
    requires RunStep(s, l, Return(n), t)
    ensures ReturnLaid(s.exec, t.exec, n) && TopFrame(s).operandBase + n == |s.exec.values|
  {
    ReturnedKeepsTop(s.exec, n, Stop(s), false);
  }

  /**
   Any number of tail calls runs in one frame: the frame count and the frame's base never change, the
   height a callee starts at is set by that base and its own parameters and locals alone, and its
   parameters there are the top operands of the frame it replaced.
   */
  lemma {:induction false} TailCallsKeepFrames(ss: seq<Session>, ops: seq<Op>, l: Limits, k: nat)
    requires TailRun(ss, ops, l) && k < |ss|
    ensures |ss[k].exec.frames| == |ss[0].exec.frames| && ss[k].exec.reentry == ss[0].exec.reentry
    ensures TopFrame(ss[k]).localsBase == TopFrame(ss[0]).localsBase
    ensures k > 0 && ops[k - 1].TailCall? ==>
      var base, n, before := TopFrame(ss[0]).localsBase, ops[k - 1].code.nParams, ss[k - 1].exec;
      && |ss[k].exec.values| == base + n + |ops[k - 1].code.locals|
      && n <= |before.values| && SameStretch(before, |before.values| - n, |before.values|, ss[k].exec, base)
    decreases k
  {
    if k > 0 {
      TailCallsKeepFrames(ss, ops, l, k - 1);
      assert StaysAt(ss, ops, l, k - 1);
      TailStepKeeps(ss[k - 1], l, ops[k - 1], ss[k]);
      if ops[k - 1].TailCall? { TailCallPasses(ss[k - 1], l, ops[k - 1].tags, ops[k - 1].code, ss[k]); }
    }
  }
}
