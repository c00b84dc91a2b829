/** Cleanup records of suspended async calls (`src/store/inner.rs`). */
module AsyncCleanup {
  import opened Options
  import opened Layout
  import opened ExecState

  /** `token` stands for the identity of the shared cancellation flag, `cancelled` for its value. */
  datatype Cleanup = Cleanup(
    token: nat, cancelled: bool, rootsMark: Option<nat>, pending: Option<nat>, generation: nat,
    boundary: Option<(nat, nat)>)

  /** The parts of a store a cleanup restores, and whether an internal error was latched. */
  datatype Parked = Parked(exec: Exec, roots: seq<(nat, RefKind)>, pending: Option<nat>, generation: nat, latched: bool)

  function Truncated<T>(s: seq<T>, n: nat): seq<T> {
    if n <= |s| then s[..n] else s
  }

  /** The parked execution without the call at `boundary`; a top-level call leaves the slot empty. */
  function WithoutCall(e: Exec, boundary: (nat, nat)): Exec {
    if boundary.1 == 0 then EMPTY_EXEC
    else if CanDiscard(e, boundary.0, boundary.1) then CutTo(e, boundary.0, boundary.1) else e
  }

  /** One record undone. */
  function Undone(p: Parked, r: Cleanup): Parked {
    Parked(
      if r.boundary.Some? then WithoutCall(p.exec, r.boundary.value) else p.exec,
      if r.rootsMark.Some? then Truncated(p.roots, r.rootsMark.value) else p.roots,
      r.pending, r.generation,
      p.latched || (r.boundary.Some? && !CanDiscard(p.exec, r.boundary.value.0, r.boundary.value.1)))
  }

  /** Cancelled records undone from the innermost out, up to the first that is not. */
  function Recovered(p: Parked, records: seq<Cleanup>): (Parked, seq<Cleanup>)
    decreases |records|
  {
    if records == [] || !records[|records| - 1].cancelled then (p, records)
    else Recovered(Undone(p, records[|records| - 1]), records[..|records| - 1])
  }

  /** The last record with this boundary. */
  function Owner(records: seq<Cleanup>, boundary: (nat, nat)): (i: Option<nat>)
    ensures i.Some? ==> i.value < |records| && records[i.value].boundary == Some(boundary)
    ensures forall j :: (if i.Some? then i.value + 1 else 0) <= j < |records| ==> records[j].boundary != Some(boundary)
  {
    if records == [] then None
    else if records[|records| - 1].boundary == Some(boundary) then Some(|records| - 1)
    else Owner(records[..|records| - 1], boundary)
  }

  class AsyncCalls {
    var exec: Exec
    var roots: seq<(nat, RefKind)>
    var pending: Option<nat>
    var generation: nat
    var latched: bool
    var records: seq<Cleanup>

    function Value(): Parked
      reads this
    {
      Parked(exec, roots, pending, generation, latched)
    }

    constructor ()
      ensures Value() == Parked(EMPTY_EXEC, [], None, 0, false) && records == []
    {
      exec, roots, pending, generation, latched, records := EMPTY_EXEC, [], None, 0, false, [];
    }

    method BeginCleanup(
      token: nat, mark: Option<nat>, was: Option<nat>, wasGeneration: nat, boundary: Option<(nat, nat)>)
      modifies this`records
      ensures records == old(records) + [Cleanup(token, false, mark, was, wasGeneration, boundary)]
    {
      records := records + [Cleanup(token, false, mark, was, wasGeneration, boundary)];
    }

    /** Removes the innermost record, and refuses to remove any other. */
    method CompleteCleanup(token: nat) returns (r: Result<()>)
      modifies this`records
      ensures r.Ok? == (old(records) != [] && old(records)[|old(records)| - 1].token == token)
      ensures records == if r.Ok? then old(records)[..|old(records)| - 1] else old(records)
    {
      if records == [] || records[|records| - 1].token != token {
        return Err;
      }
      records := records[..|records| - 1];
      r := Ok(());
    }

    /** Undoes every cancelled record at the end of the list. */
    method RecoverCancelled()
      modifies this
      ensures (Value(), records) == Recovered(old(Value()), old(records))
    {
      while records != [] && records[|records| - 1].cancelled
        invariant Recovered(Value(), records) == Recovered(old(Value()), old(records))
        decreases |records|
      {
        var r := records[|records| - 1];
        records := records[..|records| - 1];
        if r.boundary.Some? {
          var (valueBase, stop) := r.boundary.value;
          var taken := exec;
          exec := EMPTY_EXEC;
          if CanDiscard(taken, valueBase, stop) {
            taken := CutTo(taken, valueBase, stop);
          } else {
            latched := true;
          }
          if stop != 0 {
            exec := taken;
          }
        }
        if r.rootsMark.Some? {
          roots := Truncated(roots, r.rootsMark.value);
        }
        pending, generation := r.pending, r.generation;
      }
    }

    /** Drops the record of a call that was discarded, and every record inside it. */
    method AbandonBoundary(valueBase: nat, stop: nat)
      modifies this`records
      ensures var i := Owner(old(records), (valueBase, stop));
        records == if i.Some? then old(records)[..i.value] else old(records)
    {
      var i: nat := |records|;
      assert records[..i] == records;
      while i > 0
        invariant i <= |records| && records == old(records)
        invariant Owner(records, (valueBase, stop)) == Owner(records[..i], (valueBase, stop))
      {
        if records[i - 1].boundary == Some((valueBase, stop)) {
          records := records[..i - 1];
          return;
        }
        assert records[..i][..i - 1] == records[..i - 1];
        i := i - 1;
      }
    }
  }
}
