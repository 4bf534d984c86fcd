/** One mlxlink invocation (runner.go): the bounded output buffer and how a run is judged. */
module Runner {
  import opened Wrappers
  import opened Model

  const MAX_OUTPUT_BYTES: nat := 4194304

  /** A *RunError carries its reason; any other error, a cancelled parent included, does not. */
  datatype RunError = RunError(reason: ErrorReason) | OtherError

  function ReasonFromError(e: RunError): ErrorReason {
    match e
    case RunError(reason) => reason
    case OtherError => Unknown
  }

  /** What errors.Is and errors.As can find in the error of cmd.Run. */
  datatype ExitFailure = ExitFailure(waitDelay: bool, notFound: bool, permission: bool, exited: bool)

  /** A finished process: its stdout writes in order and how it ended. */
  datatype Process = Process(
    writes: seq<Bytes>,
    failure: Option<ExitFailure>,
    deadlineExceeded: bool,
    parentCancelled: bool)

  function ClassifyRunError(deadlineExceeded: bool, f: ExitFailure): ErrorReason {
    if deadlineExceeded then Timeout
    else if f.waitDelay then Timeout
    else if f.notFound then CommandNotFound
    else if f.permission then PermissionDenied
    else if f.exited then ExitError
    else Unknown
  }

  function Concat(writes: seq<Bytes>): Bytes {
    if writes == [] then [] else Concat(writes[..|writes| - 1]) + writes[|writes| - 1]
  }

  /** An empty write after the limit has been reached; os/exec never issues one. */
  ghost predicate EmptyWriteWhenFull(writes: seq<Bytes>, limit: nat) {
    exists i | 0 <= i < |writes| :: writes[i] == [] && |Concat(writes[..i])| >= limit
  }

  function Take(b: Bytes, n: nat): Bytes {
    if |b| <= n then b else b[..n]
  }

  class LimitedBuffer {
    const limit: nat
    var buf: Bytes
    var exceeded: bool
    /** Every write so far, for the specification only. */
    ghost var writes: seq<Bytes>

    /** The buffer holds the first limit bytes, and remembers whether any were dropped. */
    ghost predicate Valid()
      reads this
    {
      && buf == Take(Concat(writes), limit)
      && (exceeded <==> |Concat(writes)| > limit || EmptyWriteWhenFull(writes, limit))
    }

    constructor (limit: nat)
      ensures Valid() && writes == [] && this.limit == limit
    {
      this.limit := limit;
      buf := [];
      exceeded := false;
      writes := [];
    }

    /** Reports every byte as written, kept or not. */
    method Write(p: Bytes) returns (n: nat)
      requires Valid()
      modifies this
      ensures Valid() && writes == old(writes) + [p]
      ensures n == |p|
    {
      ConcatSnoc(writes, p);
      FullSnoc(writes, p, limit);
      var remaining := limit - |buf|;
      writes := writes + [p];
      if remaining > 0 {
        if |p| <= remaining {
          buf := buf + p;
          return |p|;
        }
        buf := buf + p[..remaining];
      }
      exceeded := true;
      return |p|;
    }
  }

  lemma ConcatSnoc(writes: seq<Bytes>, p: Bytes)
    ensures Concat(writes + [p]) == Concat(writes) + p
  {
    assert (writes + [p])[..|writes|] == writes;
  }

  lemma FullSnoc(writes: seq<Bytes>, p: Bytes, limit: nat)
    ensures EmptyWriteWhenFull(writes + [p], limit)
       <==> EmptyWriteWhenFull(writes, limit) || (p == [] && |Concat(writes)| >= limit)
  {
    var after := writes + [p];
    assert after[..|writes|] == writes;
    assert forall i | 0 <= i < |writes| :: after[..i] == writes[..i] && after[i] == writes[i];
    if p == [] && |Concat(writes)| >= limit {
      assert after[|writes|] == [];
    }
  }

  /** How a finished process is judged. */
  ghost function RunOutcome(p: Process): Result<Bytes, RunError> {
    if p.parentCancelled then Err(OtherError)
    else if |Concat(p.writes)| > MAX_OUTPUT_BYTES || EmptyWriteWhenFull(p.writes, MAX_OUTPUT_BYTES)
    then Err(RunError(OutputTooLarge))
    else if p.failure.None? then Ok(Concat(p.writes))
    else Err(RunError(ClassifyRunError(p.deadlineExceeded, p.failure.value)))
  }

  method Run(p: Process) returns (r: Result<Bytes, RunError>)
    ensures r == RunOutcome(p)
  {
    var stdout := new LimitedBuffer(MAX_OUTPUT_BYTES);
    for i := 0 to |p.writes|
      invariant fresh(stdout) && stdout.Valid() && stdout.writes == p.writes[..i] && stdout.limit == MAX_OUTPUT_BYTES
    {
      var n := stdout.Write(p.writes[i]);
    }
    assert p.writes[..|p.writes|] == p.writes;
    if p.parentCancelled { return Err(OtherError); }
    if stdout.exceeded { return Err(RunError(OutputTooLarge)); }
    match p.failure
    case None => return Ok(stdout.buf);
    case Some(f) => return Err(RunError(ClassifyRunError(p.deadlineExceeded, f)));
  }

  /**
   For writes as os/exec issues them, a run succeeds exactly when the process
   ended cleanly, uncancelled and within the limit, and then returns its
   complete output; an overlong output is refused however the process ended.
   */
  lemma {:induction false} AcceptedOutputIsComplete(p: Process)
    requires forall i | 0 <= i < |p.writes| :: p.writes[i] != []
    ensures RunOutcome(p).Ok?
       <==> !p.parentCancelled && p.failure.None? && |Concat(p.writes)| <= 4194304
    ensures RunOutcome(p).Ok? ==> RunOutcome(p).value == Concat(p.writes)
    ensures !p.parentCancelled && |Concat(p.writes)| > MAX_OUTPUT_BYTES ==> RunOutcome(p) == Err(RunError(OutputTooLarge))
    ensures RunOutcome(p) == Err(RunError(ExitError)) ==>
              !p.deadlineExceeded && p.failure.Some? && p.failure.value.exited && |Concat(p.writes)| <= MAX_OUTPUT_BYTES
  {
    assert !EmptyWriteWhenFull(p.writes, MAX_OUTPUT_BYTES);
  }

  /** The causes of a failure, in the order they are asked about. */
  predicate TooSlow(deadlineExceeded: bool, f: ExitFailure) { deadlineExceeded || f.waitDelay }

  /** None of the other causes: the tool ran in time and ended with a non-zero status. */
  predicate Rejected(deadlineExceeded: bool, f: ExitFailure) {
    !TooSlow(deadlineExceeded, f) && !f.notFound && !f.permission && f.exited
  }

  /**
   When each reason results, for writes as os/exec issues them. Shutdown comes
   before everything and carries no reason; then output beyond four mebibytes;
   then the failure's own causes. Only a rejected query can start a fallback.
   */
  lemma ReasonExactly(p: Process)
    requires forall i | 0 <= i < |p.writes| :: p.writes[i] != []
    ensures p.parentCancelled <==> RunOutcome(p) == Err(OtherError)
    ensures !p.parentCancelled ==>
              (RunOutcome(p) == Err(RunError(OutputTooLarge)) <==> |Concat(p.writes)| > 4194304)
    ensures !p.parentCancelled && |Concat(p.writes)| <= 4194304 && p.failure.Some? ==>
              var f, slow := p.failure.value, TooSlow(p.deadlineExceeded, p.failure.value);
              && (RunOutcome(p) == Err(RunError(Timeout)) <==> slow)
              && (RunOutcome(p) == Err(RunError(CommandNotFound)) <==> !slow && f.notFound)
              && (RunOutcome(p) == Err(RunError(PermissionDenied)) <==> !slow && !f.notFound && f.permission)
              && (RunOutcome(p) == Err(RunError(ExitError)) <==> Rejected(p.deadlineExceeded, f))
              && (RunOutcome(p) == Err(RunError(Unknown))
                  <==> !slow && !f.notFound && !f.permission && !f.exited)
    ensures RunOutcome(p) == Err(RunError(ExitError)) ==>
              && !p.parentCancelled && |Concat(p.writes)| <= 4194304
              && p.failure.Some? && Rejected(p.deadlineExceeded, p.failure.value)
  {
    hide Concat;
    assert !EmptyWriteWhenFull(p.writes, MAX_OUTPUT_BYTES);
  }

  /** An empty write after the last byte that fits gets a complete output refused, cleanly as the process ended. */
  lemma EmptyWriteRefusesCompleteOutput(output: Bytes)
    requires |output| == MAX_OUTPUT_BYTES
    ensures var p := Process([output, []], None, false, false);
            && Concat(p.writes) == output && |Concat(p.writes)| <= MAX_OUTPUT_BYTES
            && RunOutcome(p) == Err(RunError(OutputTooLarge))
            && RunOutcome(p.(writes := [output])) == Ok(output)
  {
    hide Concat, EmptyWriteWhenFull;
    EmptyAfterFull(output, MAX_OUTPUT_BYTES);
  }

  lemma EmptyAfterFull(output: Bytes, limit: nat)
    requires |output| == limit > 0
    ensures Concat([output]) == output && Concat([output, []]) == output
    ensures EmptyWriteWhenFull([output, []], limit) && !EmptyWriteWhenFull([output], limit)
  {
    var none: seq<Bytes>, one: seq<Bytes> := [], [output];
    assert none + [output] == one && one + [[]] == [output, []];
    ConcatSnoc(none, output);
    ConcatSnoc(one, []);
    FullSnoc(none, output, limit);
    FullSnoc(one, [], limit);
  }
}
