/** Exception tables and the outward search for a handler (`src/exec/exn.rs`, `src/module/handler.rs`). */
module Handlers {
  import opened Options
  import opened ExecState

  /** What searching one exception table gives; a clause whose tag index does not exist stops the search. */
  datatype Found = Match(rec: HandlerRec) | NoMatch | MissingTag

  predicate Covers(s: HandlerSpan, ip: nat) {
    s.startIp <= ip < s.endIp
  }

  /** Whether a clause catches `thrown`; nothing when its tag is missing from the instance. */
  function Catches(rec: HandlerRec, tags: seq<nat>, thrown: nat): Option<bool> {
    match rec.tag
    case None => Some(true)
    case Some(idx) => if idx < |tags| then Some(tags[idx] == thrown) else None
  }

  function InClauses(clauses: seq<HandlerRec>, tags: seq<nat>, thrown: nat): Found {
    if clauses == [] then NoMatch
    else match Catches(clauses[0], tags, thrown)
      case Some(true) => Match(clauses[0])
      case Some(false) => InClauses(clauses[1..], tags, thrown)
      case None => MissingTag
  }

  function InSpan(s: HandlerSpan, ip: nat, tags: seq<nat>, thrown: nat): Found {
    if Covers(s, ip) then InClauses(s.clauses, tags, thrown) else NoMatch
  }

  function InTable(spans: seq<HandlerSpan>, ip: nat, tags: seq<nat>, thrown: nat): Found {
    if spans == [] then NoMatch
    else
      var first := InSpan(spans[0], ip, tags, thrown);
      if first.NoMatch? then InTable(spans[1..], ip, tags, thrown) else first
  }

  /** `find_clause`: two nested loops over the table. */
  method FindClause(spans: seq<HandlerSpan>, ip: nat, tags: seq<nat>, thrown: nat) returns (r: Found)
    ensures r == InTable(spans, ip, tags, thrown)
  {
    for i := 0 to |spans|
      invariant InTable(spans, ip, tags, thrown) == InTable(spans[i..], ip, tags, thrown)
    {
      assert spans[i..][1..] == spans[i + 1..];
      if spans[i].startIp <= ip && ip < spans[i].endIp {
        var clauses := spans[i].clauses;
        for j := 0 to |clauses|
          invariant InClauses(clauses, tags, thrown) == InClauses(clauses[j..], tags, thrown)
        {
          assert clauses[j..][1..] == clauses[j + 1..];
          var caught := Catches(clauses[j], tags, thrown);
          if caught.None? {
            return MissingTag;
          }
          if caught.value {
            return Match(clauses[j]);
          }
        }
      }
    }
    r := NoMatch;
  }

  // --- what the table search finds ---

  /** A clause is for an exception if it has no tag, or if the tag its index names in the instance is the one thrown. */
  predicate IsFor(rec: HandlerRec, tags: seq<nat>, thrown: nat) {
    rec.tag == None || exists idx: nat :: idx < |tags| && rec.tag == Some(idx) && tags[idx] == thrown
  }

  /** A clause lets an exception pass if the tag its index names in the instance is another one. */
  predicate LetsPass(rec: HandlerRec, tags: seq<nat>, thrown: nat) {
    exists idx: nat :: idx < |tags| && rec.tag == Some(idx) && tags[idx] != thrown
  }

  lemma CatchesByTag(rec: HandlerRec, tags: seq<nat>, thrown: nat)
    ensures Catches(rec, tags, thrown) == Some(true) <==> IsFor(rec, tags, thrown)
    ensures Catches(rec, tags, thrown) == Some(false) <==> LetsPass(rec, tags, thrown)
  {
    if rec.tag.Some? && rec.tag.value < |tags| { assert tags[rec.tag.value] == tags[rec.tag.value]; }
  }

  /** The first `n` clauses all let the exception pass. */
  predicate PassesClauses(clauses: seq<HandlerRec>, tags: seq<nat>, thrown: nat, n: nat) {
    n <= |clauses| && forall j :: 0 <= j < n ==> LetsPass(clauses[j], tags, thrown)
  }

  lemma {:induction false} FirstClause(clauses: seq<HandlerRec>, tags: seq<nat>, thrown: nat)
    ensures var r := InClauses(clauses, tags, thrown);
      && (r.NoMatch? <==> PassesClauses(clauses, tags, thrown, |clauses|))
      && (r.Match? ==> IsFor(r.rec, tags, thrown))
      && (r.Match? ==> exists j :: 0 <= j < |clauses| && clauses[j] == r.rec && PassesClauses(clauses, tags, thrown, j))
  {
    if clauses != [] { CatchesByTag(clauses[0], tags, thrown); }
    if clauses != [] && LetsPass(clauses[0], tags, thrown) {
      var rest := clauses[1..];
      FirstClause(rest, tags, thrown);
      var r := InClauses(clauses, tags, thrown);
      if PassesClauses(rest, tags, thrown, |rest|) {
        ShiftedPass(clauses, tags, thrown, |rest|);
      }
      if r.Match? {
        var j :| 0 <= j < |rest| && rest[j] == r.rec && PassesClauses(rest, tags, thrown, j);
        ShiftedPass(clauses, tags, thrown, j);
        assert clauses[j + 1] == r.rec;
      }
      if PassesClauses(clauses, tags, thrown, |clauses|) {
        assert forall j :: 0 <= j < |rest| ==> rest[j] == clauses[j + 1];
      }
    }
  }

  lemma ShiftedPass(clauses: seq<HandlerRec>, tags: seq<nat>, thrown: nat, n: nat)
    requires clauses != [] && LetsPass(clauses[0], tags, thrown)
    requires PassesClauses(clauses[1..], tags, thrown, n)
    ensures PassesClauses(clauses, tags, thrown, n + 1)
  {
    forall j | 0 <= j < n + 1 ensures LetsPass(clauses[j], tags, thrown) {
      if j > 0 { assert clauses[j] == clauses[1..][j - 1]; }
    }
  }

  /** Span `i` is the first that does not let the exception pass. */
  ghost predicate FirstSpan(spans: seq<HandlerSpan>, ip: nat, tags: seq<nat>, thrown: nat, i: nat) {
    && i < |spans| && !InSpan(spans[i], ip, tags, thrown).NoMatch?
    && forall k :: 0 <= k < i ==> InSpan(spans[k], ip, tags, thrown).NoMatch?
  }

  /** The table search stops at the first covering span with a clause for the exception, and only then. */
  lemma {:induction false} TableFinds(spans: seq<HandlerSpan>, ip: nat, tags: seq<nat>, thrown: nat)
    ensures var r := InTable(spans, ip, tags, thrown);
      && (r.NoMatch? <==> forall k :: 0 <= k < |spans| ==> InSpan(spans[k], ip, tags, thrown).NoMatch?)
      && (!r.NoMatch? ==>
            exists i: nat :: FirstSpan(spans, ip, tags, thrown, i) && r == InSpan(spans[i], ip, tags, thrown))
  {
    if spans != [] {
      if InSpan(spans[0], ip, tags, thrown).NoMatch? {
        var rest := spans[1..];
        TableFinds(rest, ip, tags, thrown);
        assert forall k :: 0 <= k < |rest| ==> rest[k] == spans[k + 1];
        var r := InTable(spans, ip, tags, thrown);
        if !r.NoMatch? {
          var i: nat :| FirstSpan(rest, ip, tags, thrown, i) && r == InSpan(rest[i], ip, tags, thrown);
          assert FirstSpan(spans, ip, tags, thrown, i + 1) by {
            forall k | 0 <= k < i + 1 ensures InSpan(spans[k], ip, tags, thrown).NoMatch? {
              if k > 0 { assert spans[k] == rest[k - 1]; }
            }
          }
        } else {
          forall k | 0 <= k < |spans| ensures InSpan(spans[k], ip, tags, thrown).NoMatch? {
            if k > 0 { assert spans[k] == rest[k - 1]; }
          }
        }
      } else {
        assert FirstSpan(spans, ip, tags, thrown, 0);
      }
    }
  }

  /** Every clause of a span around the instruction at `ip` lets the exception pass. */
  predicate SpanPasses(s: HandlerSpan, ip: nat, tags: seq<nat>, thrown: nat) {
    s.startIp <= ip && ip < s.endIp ==> PassesClauses(s.clauses, tags, thrown, |s.clauses|)
  }

  /** The table has nothing for the exception exactly when every span around the instruction lets it pass. */
  lemma {:induction false} TableMisses(spans: seq<HandlerSpan>, ip: nat, tags: seq<nat>, thrown: nat)
    ensures InTable(spans, ip, tags, thrown).NoMatch? <==>
      forall k :: 0 <= k < |spans| ==> SpanPasses(spans[k], ip, tags, thrown)
  {
    TableFinds(spans, ip, tags, thrown);
    forall k | 0 <= k < |spans|
      ensures InSpan(spans[k], ip, tags, thrown).NoMatch? <==> SpanPasses(spans[k], ip, tags, thrown)
    {
      FirstClause(spans[k].clauses, tags, thrown);
    }
  }

  predicate Within(a: HandlerSpan, b: HandlerSpan) {
    b.startIp <= a.startIp && a.endIp <= b.endIp
  }

  /**
   How the compiler emits nested `try_table`s: of two spans that share an instruction, the earlier
   lies within the later.
   */
  ghost predicate InnerFirst(spans: seq<HandlerSpan>) {
    forall i, j, ip: nat :: 0 <= i < j < |spans| && Covers(spans[i], ip) && Covers(spans[j], ip) ==>
      Within(spans[i], spans[j])
  }

  /** The clause found belongs to the innermost covering span that has one for the exception. */
  lemma {:induction false} FoundIsInnermost(spans: seq<HandlerSpan>, ip: nat, tags: seq<nat>, thrown: nat)
    requires InnerFirst(spans) && InTable(spans, ip, tags, thrown).Match?
    ensures var rec := InTable(spans, ip, tags, thrown).rec;
      IsFor(rec, tags, thrown) &&
      exists i: nat :: i < |spans| && Covers(spans[i], ip) && rec in spans[i].clauses &&
        forall k :: 0 <= k < |spans| && !InSpan(spans[k], ip, tags, thrown).NoMatch? ==> Within(spans[i], spans[k])
  {
    TableFinds(spans, ip, tags, thrown);
    var r := InTable(spans, ip, tags, thrown);
    var i: nat :| FirstSpan(spans, ip, tags, thrown, i) && r == InSpan(spans[i], ip, tags, thrown);
    FirstClause(spans[i].clauses, tags, thrown);
    forall k | 0 <= k < |spans| && !InSpan(spans[k], ip, tags, thrown).NoMatch? ensures Within(spans[i], spans[k]) {
      if k != i { assert i < k && Covers(spans[i], ip) && Covers(spans[k], ip); }
    }
  }

  // --- the search over frames ---

  datatype Sought = Handler(depth: nat, rec: HandlerRec) | Uncaught | Broken(depth: nat)

  /**
   The unwinder's loop as a recursion: the top frame is searched at `ip`, then each caller at the
   instruction before its return address. `Broken` names the frame at which it had to stop.
   */
  function Seek(frames: seq<Frame>, ip: nat, stop: nat, thrown: nat): Sought {
    if |frames| <= stop then Uncaught
    else
      var top := |frames| - 1;
      match InTable(frames[top].code.handlers, ip, frames[top].tags, thrown)
      case Match(rec) => Handler(top, rec)
      case MissingTag => Broken(top)
      case NoMatch =>
        if top == stop then Uncaught
        else if frames[top - 1].ip == 0 then Broken(top - 1)
        else Seek(frames[..top], frames[top - 1].ip - 1, stop, thrown)
  }

  /** Where frame `d` is executing: at `ip` if it is the top one, else at the call it is waiting for. */
  function SiteOf(frames: seq<Frame>, d: nat, ip: nat): int
    requires d < |frames|
  {
    if d == |frames| - 1 then ip else frames[d].ip - 1
  }

  /** What frame `d`'s own table has for the exception. */
  function AtFrame(frames: seq<Frame>, d: nat, ip: nat, thrown: nat): Found
    requires d < |frames|
  {
    var site := SiteOf(frames, d, ip);
    if site < 0 then MissingTag else InTable(frames[d].code.handlers, site, frames[d].tags, thrown)
  }

  ghost predicate PassFrames(frames: seq<Frame>, lo: nat, ip: nat, thrown: nat) {
    forall d :: lo <= d < |frames| ==> AtFrame(frames, d, ip, thrown).NoMatch?
  }

  lemma {:induction false} OneFrameDown(frames: seq<Frame>, ip: nat, thrown: nat, lo: nat)
    requires |frames| >= 2 && frames[|frames| - 2].ip > 0 && lo < |frames|
    requires AtFrame(frames, |frames| - 1, ip, thrown).NoMatch?
    requires PassFrames(frames[..|frames| - 1], lo, frames[|frames| - 2].ip - 1, thrown)
    ensures PassFrames(frames, lo, ip, thrown)
  {
    var below, site := frames[..|frames| - 1], frames[|frames| - 2].ip - 1;
    forall d | lo <= d < |frames| ensures AtFrame(frames, d, ip, thrown).NoMatch? {
      if d < |frames| - 1 { assert AtFrame(below, d, site, thrown).NoMatch?; }
    }
  }

  /** Where the search stops, every frame above let the exception pass, and it never goes below `stop`. */
  lemma {:induction false} SeekStops(frames: seq<Frame>, ip: nat, stop: nat, thrown: nat)
    ensures var r := Seek(frames, ip, stop, thrown);
      && (r.Uncaught? ==> PassFrames(frames, stop, ip, thrown))
      && (!r.Uncaught? ==> stop <= r.depth < |frames| && PassFrames(frames, r.depth + 1, ip, thrown))
      && (r.Handler? ==> AtFrame(frames, r.depth, ip, thrown) == Match(r.rec))
      && (r.Broken? ==> AtFrame(frames, r.depth, ip, thrown) == MissingTag)
    decreases |frames|
  {
    if stop < |frames| {
      var top := |frames| - 1;
      if AtFrame(frames, top, ip, thrown).NoMatch? && stop < top && frames[top - 1].ip > 0 {
        var below, site := frames[..top], frames[top - 1].ip - 1;
        SeekStops(below, site, stop, thrown);
        var r := Seek(below, site, stop, thrown);
        OneFrameDown(frames, ip, thrown, if r.Uncaught? then stop else r.depth + 1);
        if !r.Uncaught? { assert AtFrame(frames, r.depth, ip, thrown) == AtFrame(below, r.depth, site, thrown); }
      }
    }
  }

  /**
   Unwinding is an outward search: it ends in the first frame, counting down from the top and no
   further than the boundary, whose own table catches the exception; and it finds nothing exactly
   when no frame's table does.
   */
  lemma {:induction false} SeekIsOutward(frames: seq<Frame>, ip: nat, stop: nat, thrown: nat)
    ensures Seek(frames, ip, stop, thrown).Uncaught? <==> PassFrames(frames, stop, ip, thrown)
    ensures forall d: nat, rec :: Seek(frames, ip, stop, thrown) == Handler(d, rec) <==>
      (stop <= d < |frames| && PassFrames(frames, d + 1, ip, thrown) && AtFrame(frames, d, ip, thrown) == Match(rec))
  {
    SeekStops(frames, ip, stop, thrown);
  }
}
