/**
 The shared execution stacks (`src/exec/mod.rs`, `src/exec/frame.rs`, `src/exec/stack.rs`): untyped
 cells with a reference-tag shadow, and a frame stack on which delimiters separate calls.
 */
module ExecState {
  import opened Options
  import opened Layout
  import opened Codec

  const U32_LAST: nat := 0xFFFF_FFFF
  /** Native stack charged for one host re-entry. */
  const HOST_REENTRY_RESERVE: nat := 4096

  /** An untyped operand slot; a null reference is the null sentinel. */
  type Cell = nat
  /** `RefTag`: nothing for a scalar. */
  type Tag = Option<RefKind>

  datatype Delimiter = TopLevel | HostReentry

  datatype HandlerRec = HandlerRec(
    tag: Option<nat>, restoreHeight: nat, payloadArgs: bool, payloadRef: bool, landingIp: nat)
  datatype HandlerSpan = HandlerSpan(startIp: nat, endIp: nat, clauses: seq<HandlerRec>)

  /** A compiled function: its arity, the tags of its declared locals and its exception table. */
  datatype Code = Code(nParams: nat, locals: seq<Tag>, handlers: seq<HandlerSpan>)

  /** `tags` is the tag index space of the frame's instance. */
  datatype Frame = Frame(
    code: Code, ip: nat, localsBase: nat, operandBase: nat, tags: seq<nat>, delimiter: Option<Delimiter>)

  datatype Exec = Exec(values: seq<Cell>, shadow: seq<Tag>, frames: seq<Frame>, reentry: nat)

  const EMPTY_EXEC := Exec([], [], [], 0)

  // --- what every reachable execution satisfies ---

  predicate Lockstep(e: Exec) {
    |e.values| == |e.shadow|
  }

  /** Frames occupy ascending, non-overlapping stretches of the operand stack. */
  predicate BasesOk(frames: seq<Frame>, height: nat) {
    && (forall i :: 0 <= i < |frames| ==> frames[i].localsBase <= frames[i].operandBase <= height)
    && (forall i, j :: 0 <= i < j < |frames| ==> frames[i].operandBase <= frames[j].localsBase)
  }

  /** The number of host re-entry delimiters. */
  function Reentries(frames: seq<Frame>): nat {
    if frames == [] then 0
    else Reentries(frames[..|frames| - 1]) + (if frames[|frames| - 1].delimiter == Some(HostReentry) then 1 else 0)
  }

  predicate Sound(e: Exec) {
    Lockstep(e) && BasesOk(e.frames, |e.values|) && e.reentry == Reentries(e.frames)
  }

  predicate NoDelimiters(frames: seq<Frame>, lo: nat, hi: nat) {
    forall i :: lo <= i < hi && i < |frames| ==> frames[i].delimiter.None?
  }

  /** `after` has the first `depth` frames and the first `base` operands of `e`, tags included. */
  predicate KeepsBelow(e: Exec, after: Exec, depth: nat, base: nat) {
    && depth <= |e.frames| && depth <= |after.frames| && after.frames[..depth] == e.frames[..depth]
    && base <= |e.values| && base <= |after.values| && after.values[..base] == e.values[..base]
    && base <= |e.shadow| && base <= |after.shadow| && after.shadow[..base] == e.shadow[..base]
  }

  lemma KeepsLess(e: Exec, after: Exec, depth: nat, base: nat, d: nat, b: nat)
    requires KeepsBelow(e, after, depth, base) && d <= depth && b <= base
    ensures KeepsBelow(e, after, d, b)
  {
    assert e.frames[..d] == e.frames[..depth][..d] && after.frames[..d] == after.frames[..depth][..d];
    assert e.values[..b] == e.values[..base][..b] && after.values[..b] == after.values[..base][..b];
    assert e.shadow[..b] == e.shadow[..base][..b] && after.shadow[..b] == after.shadow[..base][..b];
  }

  lemma {:induction false} ReentriesPush(frames: seq<Frame>, f: Frame)
    ensures Reentries(frames + [f]) == Reentries(frames) + (if f.delimiter == Some(HostReentry) then 1 else 0)
  {
    assert (frames + [f])[..|frames|] == frames;
  }

  /** Frames without delimiters do not change the count. */
  lemma {:induction false} ReentriesAbove(frames: seq<Frame>, lo: nat)
    requires lo <= |frames| && NoDelimiters(frames, lo, |frames|)
    ensures Reentries(frames) == Reentries(frames[..lo])
    decreases |frames|
  {
    if lo < |frames| {
      ReentriesAbove(frames[..|frames| - 1], lo);
      assert frames[..|frames| - 1][..lo] == frames[..lo];
    } else {
      assert frames[..lo] == frames;
    }
  }

  lemma {:induction false} ReentriesOfCall(frames: seq<Frame>, d: nat)
    requires d < |frames| && NoDelimiters(frames, d + 1, |frames|)
    ensures Reentries(frames) == Reentries(frames[..d]) + (if frames[d].delimiter == Some(HostReentry) then 1 else 0)
  {
    ReentriesAbove(frames, d + 1);
    ReentriesPush(frames[..d], frames[d]);
    assert frames[..d] + [frames[d]] == frames[..d + 1];
  }

  // --- operations as functions of the state ---

  /** The top frame's floor, below which no operand may be popped. */
  function Floor(frames: seq<Frame>): nat {
    if frames == [] then 0 else frames[|frames| - 1].operandBase
  }

  /** `push_default`: null for a reference, zero for a scalar. */
  function DefaultCell(t: Tag): Cell {
    if t.Some? then NULL_REF else 0
  }

  function Defaults(locals: seq<Tag>): (r: seq<Cell>)
    ensures |r| == |locals|
  {
    if locals == [] then [] else Defaults(locals[..|locals| - 1]) + [DefaultCell(locals[|locals| - 1])]
  }

  predicate CanPush(e: Exec, code: Code) {
    && Lockstep(e) && Floor(e.frames) + code.nParams <= |e.values|
    && |e.values| + |code.locals| <= U32_LAST
  }

  /** `push_call`: the parameters already on the stack become the frame's first locals. */
  function PushedCall(e: Exec, tags: seq<nat>, code: Code): Exec
    requires CanPush(e, code)
  {
    var height := |e.values|;
    e.(values := e.values + Defaults(code.locals), shadow := e.shadow + code.locals,
       frames := e.frames + [Frame(code, 0, height - code.nParams, height + |code.locals|, tags, None)])
  }

  function PushedDelimiter(e: Exec, kind: Delimiter, tags: seq<nat>, code: Code): Exec {
    e.(frames := e.frames + [Frame(code, 0, |e.values|, |e.values|, tags, Some(kind))])
  }

  /** Arguments and their tags on top of a new delimiter, the re-entry counted. */
  function Delimited(e: Exec, kind: Delimiter, tags: seq<nat>, code: Code, args: seq<(Cell, Tag)>): Exec {
    var d := PushedDelimiter(e, kind, tags, code);
    d.(values := d.values + Cells(args), shadow := d.shadow + Tags(args),
       reentry := if kind.HostReentry? then e.reentry + 1 else e.reentry)
  }

  function Cells(args: seq<(Cell, Tag)>): seq<Cell> {
    seq(|args|, i requires 0 <= i < |args| => args[i].0)
  }

  function Tags(args: seq<(Cell, Tag)>): seq<Tag> {
    seq(|args|, i requires 0 <= i < |args| => args[i].1)
  }

  predicate CanEnter(e: Exec, code: Code, args: seq<(Cell, Tag)>) {
    && Lockstep(e) && |e.values| <= U32_LAST
    && code.nParams <= |args| && |e.values| + |args| + |code.locals| <= U32_LAST
  }

  /** `enter_call` when it succeeds. */
  function EnteredCall(e: Exec, kind: Delimiter, tags: seq<nat>, code: Code, args: seq<(Cell, Tag)>): Exec
    requires CanEnter(e, code, args)
  {
    PushedCall(Delimited(e, kind, tags, code, args), tags, code)
  }

  predicate CanBranch(e: Exec, keep: nat, pop: nat) {
    Lockstep(e) && e.frames != [] && Floor(e.frames) + keep + pop <= |e.values|
  }

  /** `take_branch`: the top `keep` operands slide down over `pop` others. */
  function Branched(e: Exec, keep: nat, pop: nat): Exec
    requires CanBranch(e, keep, pop)
  {
    var src := |e.values| - keep;
    e.(values := e.values[..src - pop] + e.values[src..], shadow := e.shadow[..src - pop] + e.shadow[src..])
  }

  /** When `do_return` succeeds: an ordinary return leaves exactly its results above the floor. */
  predicate CanReturn(e: Exec, n: nat, stop: nat, tail: bool) {
    && stop < |e.frames| && Lockstep(e)
    && var f := e.frames[|e.frames| - 1];
      && f.delimiter.None? && f.localsBase <= f.operandBase && f.operandBase + n <= |e.values|
      && (!tail ==> f.operandBase + n == |e.values|)
  }

  function Returned(e: Exec, n: nat, stop: nat, tail: bool): Exec
    requires CanReturn(e, n, stop, tail)
  {
    var base := e.frames[|e.frames| - 1].localsBase;
    e.(values := e.values[..base] + e.values[|e.values| - n..], shadow := e.shadow[..base] + e.shadow[|e.shadow| - n..],
       frames := e.frames[..|e.frames| - 1])
  }

  predicate CanDiscard(e: Exec, valueBase: nat, stop: nat) {
    && Lockstep(e) && valueBase <= |e.values| && stop < |e.frames| && e.frames[stop].delimiter.Some?
    && (e.frames[stop].delimiter == Some(HostReentry) ==> e.reentry > 0)
  }

  /** The stacks cut back to a call's boundary and its re-entry released. */
  function CutTo(e: Exec, valueBase: nat, stop: nat): Exec
    requires CanDiscard(e, valueBase, stop)
  {
    Exec(e.values[..valueBase], e.shadow[..valueBase], e.frames[..stop],
         if e.frames[stop].delimiter == Some(HostReentry) then e.reentry - 1 else e.reentry)
  }

  /** `take_results` also demands exactly the declared results on the stack. */
  predicate CanTake(e: Exec, valueBase: nat, stop: nat, tys: seq<Tag>) {
    CanDiscard(e, valueBase, stop) && e.shadow[valueBase..] == tys
  }

  // --- what the operations leave, cell by cell ---

  /** The stretch of `after` from `at` on starts with the stretch `lo..hi` of `e`, cells and tags alike. */
  predicate SameStretch(e: Exec, lo: nat, hi: nat, after: Exec, at: nat) {
    && lo <= hi <= |e.values| && hi <= |e.shadow|
    && at + (hi - lo) <= |after.values| && at + (hi - lo) <= |after.shadow|
    && after.values[at..at + (hi - lo)] == e.values[lo..hi]
    && after.shadow[at..at + (hi - lo)] == e.shadow[lo..hi]
  }

  /** From `at` on lie the defaults of `locals`: null references and zero scalars, tagged as declared. */
  predicate DefaultsAt(e: Exec, at: nat, locals: seq<Tag>) {
    && at + |locals| <= |e.values| && at + |locals| <= |e.shadow|
    && (forall k :: at <= k < at + |locals| ==> e.shadow[k] == locals[k - at])
    && (forall k :: at <= k < at + |locals| ==> e.values[k] == if locals[k - at].Some? then NULL_REF else 0)
  }

  /** From `at` on lie the cells and tags of `args`, in order. */
  predicate ArgsAt(e: Exec, at: nat, args: seq<(Cell, Tag)>) {
    && at + |args| <= |e.values| && at + |args| <= |e.shadow|
    && (forall k :: at <= k < at + |args| ==> e.values[k] == args[k - at].0)
    && (forall k :: at <= k < at + |args| ==> e.shadow[k] == args[k - at].1)
  }

  lemma {:induction false} DefaultsAreDefault(locals: seq<Tag>, i: nat)
    requires i < |locals|
    ensures Defaults(locals)[i] == if locals[i].Some? then NULL_REF else 0
  {
    if i < |locals| - 1 { DefaultsAreDefault(locals[..|locals| - 1], i); }
  }

  /** The callee's parameters are the caller's top operands, in place, and its locals start null or zero. */
  predicate CallLaid(e: Exec, after: Exec, tags: seq<nat>, code: Code) {
    && |after.values| == |after.shadow| == |e.values| + |code.locals|
    && SameStretch(e, 0, |e.values|, after, 0) && DefaultsAt(after, |e.values|, code.locals)
    && |after.frames| == |e.frames| + 1 && after.frames[..|e.frames|] == e.frames && after.reentry == e.reentry
    && var f := after.frames[|e.frames|];
      && f.localsBase + code.nParams == |e.values| && f.operandBase == |after.values|
      && f.code == code && f.tags == tags && f.ip == 0 && f.delimiter.None?
  }

  lemma {:induction false} PushedCallLays(e: Exec, tags: seq<nat>, code: Code)
    requires CanPush(e, code)
    ensures CallLaid(e, PushedCall(e, tags, code), tags, code)
  {
    var after := PushedCall(e, tags, code);
    forall k | |e.values| <= k < |after.values|
      ensures after.values[k] == if code.locals[k - |e.values|].Some? then NULL_REF else 0
    {
      DefaultsAreDefault(code.locals, k - |e.values|);
    }
  }

  /** The boundary, the arguments over it, and the entered function's frame and locals over them. */
  predicate EntryLaid(
    e: Exec, after: Exec, kind: Delimiter, tags: seq<nat>, code: Code, args: seq<(Cell, Tag)>)
  {
    var depth, base := |e.frames|, |e.values|;
    && |after.values| == |after.shadow| == base + |args| + |code.locals|
    && SameStretch(e, 0, base, after, 0) && ArgsAt(after, base, args)
    && DefaultsAt(after, base + |args|, code.locals)
    && |after.frames| == depth + 2 && after.frames[..depth] == e.frames
    && after.frames[depth].delimiter == Some(kind)
    && after.frames[depth].localsBase == after.frames[depth].operandBase == base
    && after.reentry == e.reentry + (if kind == HostReentry then 1 else 0)
    && var f := after.frames[depth + 1];
      && f.localsBase + code.nParams == base + |args| && f.operandBase == |after.values|
      && f.code == code && f.tags == tags && f.ip == 0 && f.delimiter.None?
  }

  /** Growing the stacks leaves arguments where they are. */
  lemma ArgsStay(mid: Exec, after: Exec, at: nat, args: seq<(Cell, Tag)>)
    requires ArgsAt(mid, at, args) && SameStretch(mid, 0, |mid.values|, after, 0) && |mid.shadow| == |mid.values|
    ensures ArgsAt(after, at, args)
  {
    forall i: nat | at <= i < at + |args|
      ensures after.values[i] == mid.values[i] && after.shadow[i] == mid.shadow[i]
    {
      assert after.values[..|mid.values|][i] == mid.values[i] && after.shadow[..|mid.values|][i] == mid.shadow[i];
    }
  }

  lemma DelimitedLays(e: Exec, kind: Delimiter, tags: seq<nat>, code: Code, args: seq<(Cell, Tag)>)
    requires Lockstep(e)
    ensures var mid := Delimited(e, kind, tags, code, args);
      && |mid.values| == |mid.shadow| == |e.values| + |args|
      && SameStretch(e, 0, |e.values|, mid, 0) && ArgsAt(mid, |e.values|, args)
  {
  }

  lemma StretchTwice(e: Exec, mid: Exec, after: Exec, n: nat, m: nat)
    requires SameStretch(e, 0, n, mid, 0) && SameStretch(mid, 0, m, after, 0) && n <= m
    ensures SameStretch(e, 0, n, after, 0)
  {
    assert after.values[..n] == after.values[..m][..n] && after.shadow[..n] == after.shadow[..m][..n];
  }

  lemma {:induction false} EnteredCallLays(e: Exec, kind: Delimiter, tags: seq<nat>, code: Code, args: seq<(Cell, Tag)>)
    requires CanEnter(e, code, args)
    ensures EntryLaid(e, EnteredCall(e, kind, tags, code, args), kind, tags, code, args)
  {
    var mid, after := Delimited(e, kind, tags, code, args), EnteredCall(e, kind, tags, code, args);
    DelimitedLays(e, kind, tags, code, args);
    PushedCallLays(mid, tags, code);
    ArgsStay(mid, after, |e.values|, args);
    StretchTwice(e, mid, after, |e.values|, |mid.values|);
    assert after.frames == e.frames + [mid.frames[|e.frames|]] + [after.frames[|e.frames| + 1]];
  }

  /** A branch keeps the top `keep` operands, in order, and everything below the `pop` ones under them. */
  predicate BranchKept(e: Exec, after: Exec, keep: nat, pop: nat) {
    && keep + pop <= |e.values| && |after.values| == |after.shadow| == |e.values| - pop
    && SameStretch(e, 0, |e.values| - keep - pop, after, 0)
    && SameStretch(e, |e.values| - keep, |e.values|, after, |e.values| - keep - pop)
    && after.frames == e.frames && after.reentry == e.reentry
  }

  lemma BranchedKeepsTop(e: Exec, keep: nat, pop: nat)
    requires CanBranch(e, keep, pop)
    ensures BranchKept(e, Branched(e, keep, pop), keep, pop)
  {
  }

  /** A return leaves the top `n` operands at the popped frame's base, over what was there below it. */
  predicate ReturnLaid(e: Exec, after: Exec, n: nat) {
    && e.frames != [] && n <= |e.values|
    && var base := e.frames[|e.frames| - 1].localsBase;
      && |after.values| == |after.shadow| == base + n
      && SameStretch(e, 0, base, after, 0) && SameStretch(e, |e.values| - n, |e.values|, after, base)
      && after.frames == e.frames[..|e.frames| - 1] && after.reentry == e.reentry
  }

  lemma ReturnedKeepsTop(e: Exec, n: nat, stop: nat, tail: bool)
    requires CanReturn(e, n, stop, tail)
    ensures ReturnLaid(e, Returned(e, n, stop, tail), n)
  {
  }

  // --- every operation keeps the execution sound ---

  lemma {:induction false} PushKeepsBases(frames: seq<Frame>, f: Frame, height: nat, after: nat)
    requires BasesOk(frames, height) && Floor(frames) <= f.localsBase <= f.operandBase <= after && height <= after
    ensures BasesOk(frames + [f], after)
  {
  }

  lemma {:induction false} PushedCallSound(e: Exec, tags: seq<nat>, code: Code)
    requires Sound(e) && CanPush(e, code)
    ensures Sound(PushedCall(e, tags, code))
  {
    var after := PushedCall(e, tags, code);
    var f := after.frames[|e.frames|];
    PushKeepsBases(e.frames, f, |e.values|, |after.values|);
    ReentriesPush(e.frames, f);
  }

  lemma {:induction false} DelimitedSound(e: Exec, kind: Delimiter, tags: seq<nat>, code: Code, args: seq<(Cell, Tag)>)
    requires Sound(e)
    ensures Sound(Delimited(e, kind, tags, code, args))
  {
    var after := Delimited(e, kind, tags, code, args);
    var f := after.frames[|e.frames|];
    PushKeepsBases(e.frames, f, |e.values|, |after.values|);
    ReentriesPush(e.frames, f);
  }

  lemma {:induction false} EnteredSound(e: Exec, kind: Delimiter, tags: seq<nat>, code: Code, args: seq<(Cell, Tag)>)
    requires Sound(e) && CanEnter(e, code, args)
    ensures Sound(EnteredCall(e, kind, tags, code, args))
  {
    DelimitedSound(e, kind, tags, code, args);
    PushedCallSound(Delimited(e, kind, tags, code, args), tags, code);
  }

  lemma BranchedSound(e: Exec, keep: nat, pop: nat)
    requires Sound(e) && CanBranch(e, keep, pop)
    ensures Sound(Branched(e, keep, pop))
  {
  }

  /** Dropping the top frame leaves what is below it sound at any height from that frame's base up. */
  lemma {:induction false} PoppedSound(e: Exec, values: seq<Cell>, shadow: seq<Tag>)
    requires Sound(e) && e.frames != [] && e.frames[|e.frames| - 1].delimiter.None?
    requires |values| == |shadow| && e.frames[|e.frames| - 1].localsBase <= |values|
    ensures Sound(Exec(values, shadow, e.frames[..|e.frames| - 1], e.reentry))
  {
  }

  lemma {:induction false} ReturnedSound(e: Exec, n: nat, stop: nat, tail: bool)
    requires Sound(e) && CanReturn(e, n, stop, tail)
    ensures Sound(Returned(e, n, stop, tail))
  {
    var after := Returned(e, n, stop, tail);
    PoppedSound(e, after.values, after.shadow);
  }
}
