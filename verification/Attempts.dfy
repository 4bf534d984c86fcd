/**
 One collection attempt (poller.go): the staged Eye, combined and baseline
 queries of the network phase, and the single PCIe query. The outside world is
 a set of tapes indexed by how often it has been consulted, so a statement for
 every world covers every run.
 */
module Attempts {
  import opened Wrappers
  import opened Model
  import opened Journal
  import opened Runner

  /** How often each part of the world has been consulted. */
  datatype Cursor = Cursor(discoveries: nat, networkCalls: nat, pcieCalls: nat, readings: nat, samples: nat) {
    function Sampled(): Cursor { this.(samples := samples + 1) }
    function Read(): Cursor { this.(readings := readings + 1) }
    function NetworkCalled(): Cursor { this.(networkCalls := networkCalls + 1, readings := readings + 1) }
    function PCIeCalled(): Cursor { this.(pcieCalls := pcieCalls + 1, readings := readings + 1) }
  }

  const ORIGIN := Cursor(0, 0, 0, 0, 0)

  /**
   discover is None for a failed discovery; clock gives successive readings;
   cancelAt is the first look at the context that finds it cancelled, after
   which every look does.
   */
  datatype Host = Host(
    discover: nat -> Option<seq<Target>>,
    network: nat -> Result<Bytes, RunError>,
    pcie: nat -> Result<Bytes, RunError>,
    clock: nat -> Time,
    cancelAt: Option<nat>) {

    predicate Cancelled(sample: nat) {
      cancelAt.Some? && cancelAt.value <= sample
    }
  }

  /** The host, the two decoders and the poller's configuration. */
  datatype World = World(
    host: Host,
    decode: Bytes -> Option<PortData>,
    decodePCIe: Bytes -> Option<PCIeEye>,
    showEye: bool,
    showPCIeEye: bool)

  /** outcome is None when the attempt was abandoned because of shutdown. */
  datatype Attempt<+D> = Attempt(
    cursor: Cursor,
    calls: seq<Query>,
    errors: multiset<ErrorKey>,
    outcome: Option<Outcome<D>>)

  function NetworkKey(t: Target, reason: ErrorReason): ErrorKey {
    NetworkError(t.device, t.port, t.pciAddr, reason)
  }

  function PCIeKey(t: Target, reason: ErrorReason): ErrorKey {
    PCIeError(t.device, t.pciAddr, reason)
  }

  /** The sections a response is authoritative for, by the query that produced it. */
  function Authoritative(via: Query, d: PortData): PortData {
    match via
    case WithEye => d
    case Combined => d.(eye := NO_EYE)
    case Baseline => d.(fecHistogram := [], serDesTX := NO_SERDES, eye := NO_EYE)
    case PCIeQuery => d
  }

  function Stages(showEye: bool): seq<Query> {
    if showEye then [WithEye, Combined, Baseline] else [Combined, Baseline]
  }

  /** One query: the attempt ends with it, or the process exited non-zero under a live context. */
  datatype Tried = Ended(attempt: Attempt<PortData>) | Rejected(after: Cursor, now: Time)

  /** The baseline query looks at the context once more before it is made. */
  function Approach(c: Cursor, q: Query): Cursor {
    if q == Baseline then c.Sampled() else c
  }

  /** What one runner call and the decode of its bytes came to. */
  datatype Answer = Shutdown | Refused(reason: ErrorReason) | Undecodable | Readable(data: PortData)

  datatype Asked = Asked(answer: Answer, cursor: Cursor, now: Time)

  /** Call, read the clock, look at the context; then decode and look again. */
  ghost function Ask(w: World, c: Cursor): Asked {
    var after := c.NetworkCalled().Sampled();
    var now := w.host.clock(c.readings);
    if w.host.Cancelled(c.samples) then Asked(Shutdown, after, now)
    else
      match w.host.network(c.networkCalls)
      case Err(e) => Asked(Refused(ReasonFromError(e)), after, now)
      case Ok(raw) =>
        if w.host.Cancelled(after.samples) then Asked(Shutdown, after.Sampled(), now)
        else
          match w.decode(raw)
          case None => Asked(Undecodable, after.Sampled(), now)
          case Some(d) => Asked(Readable(d), after.Sampled(), now)
  }

  /** The attempt when this query is the last one asked. */
  function EndedBy(t: Target, q: Query, call: nat, x: Asked, start: Time): Attempt<PortData> {
    match x.answer
    case Shutdown => Attempt(x.cursor, [q], multiset{}, None)
    case Refused(reason) => FailedWith(x.cursor, t, q, reason, x.now - start)
    case Undecodable => FailedWith(x.cursor, t, q, InvalidJSON, x.now - start)
    case Readable(d) =>
      Attempt(x.cursor, [q], multiset{}, Some(Success(call, q, Authoritative(q, d), x.now, x.now - start)))
  }

  function FailedWith(c: Cursor, t: Target, q: Query, reason: ErrorReason, duration: int): Attempt<PortData> {
    Attempt(c, [q], multiset{NetworkKey(t, reason)}, Some(Failure(reason, duration)))
  }

  lemma EndedByShape(t: Target, q: Query, call: nat, x: Asked, start: Time)
    ensures var a := EndedBy(t, q, call, x, start);
            && a.cursor == x.cursor && a.calls == [q]
            && (a.outcome.None? <==> x.answer.Shutdown?)
            && (x.answer.Shutdown? ==> a.errors == multiset{})
  {
  }

  ghost function Try(w: World, c: Cursor, t: Target, q: Query, start: Time): Tried {
    var before := Approach(c, q);
    if q == Baseline && w.host.Cancelled(c.samples) then Ended(Attempt(before, [], multiset{}, None))
    else
      var x := Ask(w, before);
      if x.answer.Refused? && x.answer.reason == ExitError then Rejected(x.cursor, x.now)
      else Ended(EndedBy(t, q, before.networkCalls, x, start))
  }

  /**
   Try the queries in order, moving on only past a non-zero exit. The context is
   looked at after every call and every decode, once more before the baseline
   query, and once more when an Eye query's fallback comes back.
   */
  ghost function Staged(w: World, c: Cursor, t: Target, stages: seq<Query>, start: Time): Attempt<PortData>
    requires stages != []
    decreases |stages|
  {
    match Try(w, c, t, stages[0], start)
    case Ended(attempt) => attempt
    case Rejected(after, now) =>
      if |stages| > 1 then FallenBack(w, t, stages[0], Staged(w, after, t, stages[1..], start))
      else FailedWith(after, t, stages[0], ExitError, now - start)
  }

  /** A rejected query is counted only once the query after it has been completed. */
  ghost function FallenBack(w: World, t: Target, q: Query, rest: Attempt<PortData>): Attempt<PortData> {
    var calls := [q] + rest.calls;
    if rest.outcome.None? then rest.(calls := calls)
    else if q == WithEye && w.host.Cancelled(rest.cursor.samples)
    then Attempt(rest.cursor.Sampled(), calls, rest.errors, None)
    else Attempt(if q == WithEye then rest.cursor.Sampled() else rest.cursor,
                 calls, rest.errors + multiset{NetworkKey(t, ExitError)}, rest.outcome)
  }

  ghost function Collect(w: World, c: Cursor, t: Target): Attempt<PortData> {
    Staged(w, c.Read(), t, Stages(w.showEye), w.host.clock(c.readings))
  }

  // ----- the same staging, one function per query as the code nests them -----

  ghost function BaselineAttempt(w: World, c: Cursor, t: Target, start: Time): Attempt<PortData> {
    if w.host.Cancelled(c.samples) then Attempt(c.Sampled(), [], multiset{}, None)
    else EndedBy(t, Baseline, c.networkCalls, Ask(w, c.Sampled()), start)
  }

  ghost function CombinedAttempt(w: World, c: Cursor, t: Target, start: Time): Attempt<PortData> {
    var x := Ask(w, c);
    if x.answer.Refused? && x.answer.reason == ExitError
    then FallenBack(w, t, Combined, BaselineAttempt(w, x.cursor, t, start))
    else EndedBy(t, Combined, c.networkCalls, x, start)
  }

  ghost function EyeAttempt(w: World, c: Cursor, t: Target, start: Time): Attempt<PortData> {
    var x := Ask(w, c);
    if x.answer.Refused? && x.answer.reason == ExitError
    then FallenBack(w, t, WithEye, CombinedAttempt(w, x.cursor, t, start))
    else EndedBy(t, WithEye, c.networkCalls, x, start)
  }

  lemma BaselineIsStaged(w: World, c: Cursor, t: Target, start: Time)
    ensures Staged(w, c, t, [Baseline], start) == BaselineAttempt(w, c, t, start)
  {
  }

  lemma CombinedIsStaged(w: World, c: Cursor, t: Target, start: Time)
    ensures Staged(w, c, t, Stages(false), start) == CombinedAttempt(w, c, t, start)
  {
    assert Stages(false)[1..] == [Baseline];
    BaselineIsStaged(w, Ask(w, c).cursor, t, start);
  }

  /** The nested methods together are the staged fallback. */
  lemma EyeIsStaged(w: World, c: Cursor, t: Target, start: Time)
    ensures Staged(w, c, t, Stages(true), start) == EyeAttempt(w, c, t, start)
  {
    assert Stages(true)[1..] == Stages(false);
    CombinedIsStaged(w, Ask(w, c).cursor, t, start);
  }

  ghost function CollectPCIe(w: World, c: Cursor, t: Target): Attempt<PCIeEye> {
    var start := w.host.clock(c.readings);
    var before := c.Read();
    var after := before.PCIeCalled().Sampled();
    var now := w.host.clock(before.readings);
    if w.host.Cancelled(before.samples) then Attempt(after, [PCIeQuery], multiset{}, None)
    else
      match w.host.pcie(before.pcieCalls)
      case Err(e) =>
        var reason := ReasonFromError(e);
        Attempt(after, [PCIeQuery], multiset{PCIeKey(t, reason)}, Some(Failure(reason, now - start)))
      case Ok(raw) =>
        if w.host.Cancelled(after.samples) then Attempt(after.Sampled(), [PCIeQuery], multiset{}, None)
        else
          match w.decodePCIe(raw)
          case None =>
            Attempt(after.Sampled(), [PCIeQuery], multiset{PCIeKey(t, InvalidJSON)}, Some(Failure(InvalidJSON, now - start)))
          case Some(d) =>
            Attempt(after.Sampled(), [PCIeQuery], multiset{}, Some(Success(before.pcieCalls, PCIeQuery, d, now, now - start)))
  }

  // ----- cancellation -----

  /** What a sweep relies on: a cancelled context abandons, and only a cancelled context does. */
  ghost predicate StopsWhenCancelled<D>(a: Attempt<D>, host: Host, c: Cursor) {
    && c.samples < a.cursor.samples
    && (host.Cancelled(c.samples) ==> a.outcome.None?)
    && (a.outcome.None? ==> host.Cancelled(a.cursor.samples))
    && c.discoveries == a.cursor.discoveries
  }

  lemma AskShape(w: World, c: Cursor)
    ensures var x := Ask(w, c);
            && x.now == w.host.clock(c.readings) && x.cursor.readings == c.readings + 1
            && c.samples < x.cursor.samples && x.cursor.discoveries == c.discoveries
            && (w.host.Cancelled(c.samples) ==> x.answer.Shutdown?)
            && (if x.answer.Shutdown? then w.host.Cancelled(x.cursor.samples) else !w.host.Cancelled(x.cursor.samples - 1))
  {
  }

  lemma TryShape(w: World, c: Cursor, t: Target, q: Query, start: Time)
    ensures match Try(w, c, t, q, start)
            case Ended(a) =>
              && StopsWhenCancelled(a, w.host, c) && a.cursor.readings == c.readings + |a.calls|
              && (a.outcome.Some? ==>
                    && a.calls == [q] && a.outcome.value.duration == w.host.clock(c.readings) - start
                    && !w.host.Cancelled(a.cursor.samples - 1))
            case Rejected(after, now) =>
              && c.samples < after.samples && after.discoveries == c.discoveries && !w.host.Cancelled(c.samples)
              && after.readings == c.readings + 1 && now == w.host.clock(c.readings)
              && !w.host.Cancelled(after.samples - 1)
  {
    hide Ask;
    AskShape(w, Approach(c, q));
  }

  lemma {:induction false} StagedStops(w: World, c: Cursor, t: Target, stages: seq<Query>, start: Time)
    requires stages != []
    ensures StopsWhenCancelled(Staged(w, c, t, stages, start), w.host, c)
    decreases |stages|
  {
    hide Try;
    TryShape(w, c, t, stages[0], start);
    var tried := Try(w, c, t, stages[0], start);
    if tried.Rejected? && |stages| > 1 {
      StagedStops(w, tried.after, t, stages[1..], start);
    }
  }

  // ----- error accounting -----

  ghost function Exits(t: Target, n: nat): multiset<ErrorKey> {
    multiset{}[NetworkKey(t, ExitError) := n]
  }

  /** What a completed attempt leaves in the error counter, exactly. */
  ghost predicate CountedExactly(t: Target, calls: seq<Query>, errors: multiset<ErrorKey>, o: Outcome<PortData>) {
    && calls != []
    && errors == (match o
                  case Success(_, _, _, _, _) => Exits(t, |calls| - 1)
                  case Failure(reason, _) => Exits(t, |calls| - 1) + multiset{NetworkKey(t, reason)})
    && |errors| + (if o.Success? then 1 else 0) == |calls|
  }

  lemma ExitsSucc(t: Target, n: nat)
    ensures Exits(t, n) + multiset{NetworkKey(t, ExitError)} == Exits(t, n + 1)
    ensures |Exits(t, n)| == n
  {
    if n > 0 {
      ExitsSucc(t, n - 1);
    }
  }

  /**
   Every rejected query of a completed attempt counts one exit_error, the last
   query counts its own reason unless it succeeded, and nothing else is counted.
   */
  lemma {:induction false} StagedCounts(w: World, c: Cursor, t: Target, stages: seq<Query>, start: Time)
    requires stages != []
    ensures Counts(t, Staged(w, c, t, stages, start))
    decreases |stages|
  {
    var tried := Try(w, c, t, stages[0], start);
    if tried.Rejected? && |stages| > 1 {
      StagedCounts(w, tried.after, t, stages[1..], start);
      FallenBackCounts(w, t, stages[0], Staged(w, tried.after, t, stages[1..], start));
    } else {
      TryCounts(w, c, t, stages[0], start);
      FailedWithCounts(c, t, stages[0], ExitError, 0);
    }
  }

  ghost predicate Counts(t: Target, a: Attempt<PortData>) {
    a.outcome.Some? ==> CountedExactly(t, a.calls, a.errors, a.outcome.value)
  }

  lemma FailedWithCounts(c: Cursor, t: Target, q: Query, reason: ErrorReason, duration: int)
    ensures Counts(t, FailedWith(c, t, q, reason, duration))
  {
    assert Exits(t, 0) == multiset{};
  }

  lemma TryCounts(w: World, c: Cursor, t: Target, q: Query, start: Time)
    ensures var tried := Try(w, c, t, q, start); tried.Ended? ==> Counts(t, tried.attempt)
  {
    hide Ask, Exits, FailedWith;
    var x := Ask(w, Approach(c, q));
    EndedByCounts(t, q, Approach(c, q).networkCalls, x, start);
  }

  lemma EndedByCounts(t: Target, q: Query, call: nat, x: Asked, start: Time)
    ensures Counts(t, EndedBy(t, q, call, x, start))
  {
    hide FailedWith;
    match x.answer
    case Refused(reason) => FailedWithCounts(x.cursor, t, q, reason, x.now - start);
    case Undecodable => FailedWithCounts(x.cursor, t, q, InvalidJSON, x.now - start);
    case Readable(_) => assert Exits(t, 0) == multiset{};
    case Shutdown =>
  }

  lemma FallenBackCounts(w: World, t: Target, q: Query, rest: Attempt<PortData>)
    requires Counts(t, rest)
    ensures Counts(t, FallenBack(w, t, q, rest))
  {
    hide Exits;
    if rest.outcome.Some? {
      ExitsSucc(t, |rest.calls| - 1);
    }
  }

  lemma PCIeCounts(w: World, c: Cursor, t: Target)
    ensures var a := CollectPCIe(w, c, t);
            a.outcome.Some? ==>
              match a.outcome.value
              case Success(_, _, _, _, _) => a.errors == multiset{}
              case Failure(reason, _) => a.errors == multiset{PCIeKey(t, reason)}
    ensures CollectPCIe(w, c, t).outcome.None? ==> CollectPCIe(w, c, t).errors == multiset{}
    ensures CollectPCIe(w, c, t).calls == [PCIeQuery]
  {
  }

  // ----- shutdown accounting -----

  /** Without an Eye stage, an abandoned attempt counts nothing, whenever cancellation comes. */
  lemma {:induction false} AbandonedCountsNothing(w: World, c: Cursor, t: Target, stages: seq<Query>, start: Time)
    requires stages != [] && WithEye !in stages
    ensures var a := Staged(w, c, t, stages, start);
            a.outcome.None? ==> a.errors == multiset{}
    decreases |stages|
  {
    var tried := Try(w, c, t, stages[0], start);
    if tried.Rejected? && |stages| > 1 {
      AbandonedCountsNothing(w, tried.after, t, stages[1..], start);
    }
  }

  /** A completed attempt's last look found the context live. */
  lemma {:induction false} CompletedWhileLive(w: World, c: Cursor, t: Target, stages: seq<Query>, start: Time)
    requires stages != []
    ensures var a := Staged(w, c, t, stages, start);
            a.outcome.Some? ==> a.cursor.samples > 0 && !w.host.Cancelled(a.cursor.samples - 1)
    decreases |stages|
  {
    hide Try;
    TryShape(w, c, t, stages[0], start);
    var tried := Try(w, c, t, stages[0], start);
    if tried.Rejected? && |stages| > 1 {
      CompletedWhileLive(w, tried.after, t, stages[1..], start);
    }
  }

  /** The attempt an Eye query falls back to. */
  ghost function EyeFallback(w: World, c: Cursor, t: Target): Attempt<PortData> {
    Staged(w, c.Read().NetworkCalled().Sampled(), t, Stages(false), w.host.clock(c.readings))
  }

  /** The Eye query exited non-zero while the context was still live. */
  predicate EyeRejected(w: World, c: Cursor) {
    && !w.host.Cancelled(c.samples)
    && w.host.network(c.networkCalls).Err?
    && ReasonFromError(w.host.network(c.networkCalls).error) == ExitError
  }

  lemma EyeCollect(w: World, c: Cursor, t: Target)
    requires w.showEye
    ensures EyeRejected(w, c) ==> Collect(w, c, t) == FallenBack(w, t, WithEye, EyeFallback(w, c, t))
    ensures !EyeRejected(w, c) && Collect(w, c, t).outcome.None? ==> Collect(w, c, t).errors == multiset{}
  {
    assert Stages(true)[1..] == Stages(false);
  }

  // ----- the grammar of calls -----

  /** The look at the context taken just before stage i, when i calls have been made. */
  function LookBefore(c: Cursor, stages: seq<Query>, i: nat): nat
    requires 0 < i < |stages|
  {
    if stages[i] == Baseline then c.samples + i else c.samples + i - 1
  }

  predicate Exited(w: World, c: Cursor, i: nat) {
    w.host.network(c.networkCalls + i).Err? && ReasonFromError(w.host.network(c.networkCalls + i).error) == ExitError
  }

  /**
   The calls are a prefix of the stages, and reach stage i+1 exactly when call i
   ended in exit_error and the context was still live when stage i+1 was tried.
   */
  ghost predicate CallGrammar(w: World, c: Cursor, stages: seq<Query>, calls: seq<Query>) {
    && calls <= stages
    && forall i: nat | i + 1 < |stages| ::
         i + 1 < |calls| <==> i < |calls| && LeadsOn(w, c, stages, i)
  }

  /** Call i leads on to the next stage. */
  predicate LeadsOn(w: World, c: Cursor, stages: seq<Query>, i: nat)
    requires i + 1 < |stages|
  {
    Exited(w, c, i) && !w.host.Cancelled(LookBefore(c, stages, i + 1))
  }

  lemma BaselineCalls(w: World, c: Cursor, t: Target, start: Time)
    ensures Staged(w, c, t, [Baseline], start).calls == if w.host.Cancelled(c.samples) then [] else [Baseline]
  {
  }

  lemma CombinedCalls(w: World, c: Cursor, t: Target, start: Time)
    ensures Staged(w, c, t, Stages(false), start).calls
         == if LeadsOn(w, c, Stages(false), 0) then [Combined, Baseline] else [Combined]
  {
    var tried := Try(w, c, t, Combined, start);
    assert Stages(false)[1..] == [Baseline];
    assert tried.Rejected? <==> !w.host.Cancelled(c.samples) && Exited(w, c, 0);
    if tried.Rejected? {
      BaselineCalls(w, tried.after, t, start);
    }
  }

  lemma EyeCalls(w: World, c: Cursor, t: Target, start: Time)
    ensures Staged(w, c, t, Stages(true), start).calls
         == if !LeadsOn(w, c, Stages(true), 0) then [WithEye]
            else if LeadsOn(w, c, Stages(true), 1) then [WithEye, Combined, Baseline]
            else [WithEye, Combined]
  {
    var tried := Try(w, c, t, WithEye, start);
    assert Stages(true)[1..] == Stages(false);
    assert tried.Rejected? <==> !w.host.Cancelled(c.samples) && Exited(w, c, 0);
    if tried.Rejected? {
      CombinedCalls(w, tried.after, t, start);
      assert Exited(w, tried.after, 0) == Exited(w, c, 1);
    }
  }

  lemma EyeGrammar(w: World, c: Cursor, calls: seq<Query>)
    requires calls == if !LeadsOn(w, c, Stages(true), 0) then [WithEye]
                      else if LeadsOn(w, c, Stages(true), 1) then [WithEye, Combined, Baseline]
                      else [WithEye, Combined]
    ensures CallGrammar(w, c, Stages(true), calls)
  {
    var stages := Stages(true);
    forall i: nat | i + 1 < |stages|
      ensures i + 1 < |calls| <==> i < |calls| && LeadsOn(w, c, stages, i)
    {
      assert i == 0 || i == 1;
    }
  }

  lemma StagedGrammar(w: World, c: Cursor, t: Target, showEye: bool, start: Time)
    ensures CallGrammar(w, c, Stages(showEye), Staged(w, c, t, Stages(showEye), start).calls)
    ensures Staged(w, c, t, Stages(showEye), start).calls != []
  {
    if showEye {
      EyeCalls(w, c, t, start);
      EyeGrammar(w, c, Staged(w, c, t, Stages(true), start).calls);
    } else {
      CombinedCalls(w, c, t, start);
      CombinedGrammar(w, c, Staged(w, c, t, Stages(false), start).calls);
    }
  }

  lemma CombinedGrammar(w: World, c: Cursor, calls: seq<Query>)
    requires calls == if LeadsOn(w, c, Stages(false), 0) then [Combined, Baseline] else [Combined]
    ensures CallGrammar(w, c, Stages(false), calls)
  {
    var stages := Stages(false);
    forall i: nat | i + 1 < |stages|
      ensures i + 1 < |calls| <==> i < |calls| && LeadsOn(w, c, stages, i)
    {
      assert i == 0;
    }
  }

  // ----- completed attempts: no look at the context matters -----

  /** How often a completed attempt with these calls, the first of them call n, looked at the context. */
  function LooksOf(w: World, n: nat, calls: seq<Query>): nat
    decreases |calls|
  {
    if calls == [] then 0
    else
      (if calls[0] == Baseline then 2 else 1) + (if w.host.network(n).Ok? then 1 else 0)
      + LooksOf(w, n + 1, calls[1..])
      + (if calls[0] == WithEye && |calls| > 1 then 1 else 0)
  }

  /** Where a completed attempt with these calls leaves the tapes. */
  function Past(w: World, c: Cursor, calls: seq<Query>): Cursor {
    c.(networkCalls := c.networkCalls + |calls|,
       readings := c.readings + |calls|,
       samples := c.samples + LooksOf(w, c.networkCalls, calls))
  }

  /** The calls go on past every non-zero exit, and past nothing else, while there are stages left. */
  ghost predicate CompletedGrammar(w: World, c: Cursor, stages: seq<Query>, calls: seq<Query>) {
    && calls != [] && calls <= stages
    && forall i: nat | i + 1 < |stages| :: i + 1 < |calls| <==> i < |calls| && Exited(w, c, i)
  }

  lemma LooksOfOne(w: World, n: nat, q: Query)
    ensures LooksOf(w, n, [q]) == (if q == Baseline then 2 else 1) + (if w.host.network(n).Ok? then 1 else 0)
  {
    assert [q][1..] == [];
  }

  lemma AskLooks(w: World, c: Cursor)
    ensures var x := Ask(w, c);
            !x.answer.Shutdown? ==>
              && (x.answer.Refused? && x.answer.reason == ExitError <==> Exited(w, c, 0))
              && x.cursor == c.(networkCalls := c.networkCalls + 1, readings := c.readings + 1,
                                samples := c.samples + if w.host.network(c.networkCalls).Ok? then 2 else 1)
  {
  }

  lemma TryCompleted(w: World, c: Cursor, t: Target, q: Query, start: Time)
    ensures match Try(w, c, t, q, start)
            case Ended(a) => a.outcome.Some? ==> a.calls == [q] && !Exited(w, c, 0) && a.cursor == Past(w, c, [q])
            case Rejected(after, _) => Exited(w, c, 0) && after == Past(w, c, [q])
  {
    hide Ask, LooksOf, Exited;
    LooksOfOne(w, c.networkCalls, q);
    AskLooks(w, Approach(c, q));
    assert Exited(w, Approach(c, q), 0) == Exited(w, c, 0) by { SameExit(w, c, Approach(c, q), 0); }
    EndedByShape(t, q, Approach(c, q).networkCalls, Ask(w, Approach(c, q)), start);
  }

  lemma SameExit(w: World, c: Cursor, e: Cursor, i: nat)
    requires c.networkCalls == e.networkCalls
    ensures Exited(w, c, i) == Exited(w, e, i)
  {
  }

  /** A completed attempt's calls depend on the runner's answers alone, and so does where it leaves the tapes. */
  lemma {:induction false} StagedCompleted(w: World, c: Cursor, t: Target, stages: seq<Query>, start: Time)
    requires stages != [] && WithEye !in stages[1..]
    ensures var a := Staged(w, c, t, stages, start);
            a.outcome.Some? ==> CompletedGrammar(w, c, stages, a.calls) && a.cursor == Past(w, c, a.calls)
    decreases |stages|
  {
    hide Try, Exited, LooksOf;
    TryCompleted(w, c, t, stages[0], start);
    var tried := Try(w, c, t, stages[0], start);
    var a := Staged(w, c, t, stages, start);
    if a.outcome.Some? {
      if tried.Rejected? && |stages| > 1 {
        StagedCompleted(w, tried.after, t, stages[1..], start);
        CompletedFront(w, c, t, stages, Staged(w, tried.after, t, stages[1..], start));
      }
    }
  }

  lemma CompletedFront(w: World, c: Cursor, t: Target, stages: seq<Query>, rest: Attempt<PortData>)
    requires |stages| > 1 && Exited(w, c, 0)
    requires CompletedGrammar(w, Past(w, c, [stages[0]]), stages[1..], rest.calls)
    requires rest.cursor == Past(w, Past(w, c, [stages[0]]), rest.calls)
    requires rest.outcome.Some? && FallenBack(w, t, stages[0], rest).outcome.Some?
    ensures var a := FallenBack(w, t, stages[0], rest);
            CompletedGrammar(w, c, stages, a.calls) && a.cursor == Past(w, c, a.calls)
  {
    hide Exited;
    var a, after := FallenBack(w, t, stages[0], rest), Past(w, c, [stages[0]]);
    assert a.calls == [stages[0]] + rest.calls && a.calls[1..] == rest.calls;
    LooksOfOne(w, c.networkCalls, stages[0]);
    assert [stages[0]] + stages[1..] == stages;
    forall i: nat | i + 1 < |stages|
      ensures i + 1 < |a.calls| <==> i < |a.calls| && Exited(w, c, i)
    {
      if i > 0 {
        assert Exited(w, c, i) == Exited(w, after, i - 1) by { ExitShift(w, c, after, i); }
      }
    }
  }

  lemma ExitShift(w: World, c: Cursor, after: Cursor, i: nat)
    requires after.networkCalls == c.networkCalls + 1 && i > 0
    ensures Exited(w, c, i) == Exited(w, after, i - 1)
  {
  }

  // ----- what an abandoned Eye attempt leaves behind -----

  /** Call n was answered with bytes that decode. */
  predicate Answered(w: World, n: nat) {
    w.host.network(n).Ok? && w.decode(w.host.network(n).value).Some?
  }

  /** The calls of a completed attempt without Eye that starts with call n. */
  function PlainCalls(w: World, c: Cursor): seq<Query> {
    if Exited(w, c, 0) then [Combined, Baseline] else [Combined]
  }

  /** The attempt completes exactly when its last look finds the context live. */
  lemma PlainCompletes(w: World, c: Cursor, t: Target, start: Time)
    ensures var a, looks := Staged(w, c, t, Stages(false), start), LooksOf(w, c.networkCalls, PlainCalls(w, c));
            && looks > 0
            && (a.outcome.Some? <==> !w.host.Cancelled(c.samples + looks - 1))
            && (a.outcome.Some? ==> a.calls == PlainCalls(w, c) && a.cursor.samples == c.samples + looks)
            && (a.outcome.Some? ==> (a.errors == multiset{} <==> Answered(w, c.networkCalls)))
  {
    hide Staged, Ask, EndedBy, LooksOf, Answered, BaselineAttempt;
    var x := Ask(w, c);
    CombinedIsStaged(w, c, t, start);
    LooksOfOne(w, c.networkCalls, Combined);
    AskEnds(w, c, t, Combined, start);
    if Exited(w, c, 0) {
      LooksOfBoth(w, c);
      BaselineCompletes(w, x.cursor, t, start);
    }
  }

  lemma LooksOfBoth(w: World, c: Cursor)
    requires Exited(w, c, 0)
    ensures LooksOf(w, c.networkCalls, PlainCalls(w, c)) == 1 + LooksOf(w, c.networkCalls + 1, [Baseline])
    ensures !Answered(w, c.networkCalls)
  {
    assert PlainCalls(w, c)[1..] == [Baseline];
  }

  /** One query's answer, as the attempt that ends with it sees it. */
  lemma AskEnds(w: World, c: Cursor, t: Target, q: Query, start: Time)
    ensures var x, a := Ask(w, c), EndedBy(t, q, c.networkCalls, Ask(w, c), start);
            var looks := if w.host.network(c.networkCalls).Ok? then 2 else 1;
            && (x.answer.Refused? && x.answer.reason == ExitError <==> !w.host.Cancelled(c.samples) && Exited(w, c, 0))
            && (x.answer.Refused? ==> x.cursor == c.NetworkCalled().Sampled())
            && (a.outcome.Some? <==> !w.host.Cancelled(c.samples + looks - 1))
            && (a.outcome.Some? ==> a.calls == [q] && a.cursor.samples == c.samples + looks)
            && (a.outcome.Some? ==> (a.errors == multiset{} <==> Answered(w, c.networkCalls)))
  {
  }

  lemma BaselineCompletes(w: World, c: Cursor, t: Target, start: Time)
    ensures var a, looks := BaselineAttempt(w, c, t, start), LooksOf(w, c.networkCalls, [Baseline]);
            && (a.outcome.Some? <==> !w.host.Cancelled(c.samples + looks - 1))
            && (a.outcome.Some? ==> a.calls == [Baseline] && a.cursor.samples == c.samples + looks)
  {
    LooksOfOne(w, c.networkCalls, Baseline);
  }

  /** Seen from the fallback: it had completed with errors, and the very next look found the context cancelled. */
  lemma AbandonedEyeFallback(w: World, c: Cursor, t: Target)
    requires w.showEye
    ensures var a := Collect(w, c, t);
            && (a.outcome.None? && a.errors != multiset{}
                <==> && EyeRejected(w, c) && EyeFallback(w, c, t).outcome.Some? && EyeFallback(w, c, t).errors != multiset{}
                     && w.host.cancelAt == Some(EyeFallback(w, c, t).cursor.samples))
            && (a.outcome.None? && a.errors != multiset{} ==> a.errors == EyeFallback(w, c, t).errors)
  {
    hide Collect, Staged;
    EyeCollect(w, c, t);
    var next, start := c.Read().NetworkCalled().Sampled(), w.host.clock(c.readings);
    AbandonedCountsNothing(w, next, t, Stages(false), start);
    CompletedWhileLive(w, next, t, Stages(false), start);
    if !EyeRejected(w, c) { EyeUnrejected(w, c, t); }
  }

  lemma EyeUnrejected(w: World, c: Cursor, t: Target)
    requires w.showEye && !EyeRejected(w, c)
    ensures Collect(w, c, t).outcome.None? ==> Collect(w, c, t).errors == multiset{}
  {
    EyeCollect(w, c, t);
  }

  /**
   An abandoned Eye attempt leaves counts behind in exactly one case, which the
   runner's answers and the moment of cancellation decide: the Eye query exited
   non-zero, the combined query after it was not answered with decodable bytes,
   and the context was cancelled precisely between the fallback's last look and
   the one that follows it.
   */
  lemma AbandonedEyeCounts(w: World, c: Cursor, t: Target)
    requires w.showEye
    ensures var a, next := Collect(w, c, t), c.Read().NetworkCalled().Sampled();
            && (a.outcome.None? && a.errors != multiset{}
                <==> && Exited(w, c, 0) && !Answered(w, c.networkCalls + 1)
                     && w.host.cancelAt == Some(next.samples + LooksOf(w, next.networkCalls, PlainCalls(w, next))))
            && (a.outcome.None? && a.errors != multiset{} ==> a.errors == EyeFallback(w, c, t).errors && |a.errors| <= 2)
  {
    hide LooksOf, Collect, Staged, Answered, Exits;
    AbandonedEyeFallback(w, c, t);
    var next, start := c.Read().NetworkCalled().Sampled(), w.host.clock(c.readings);
    StagedCounts(w, next, t, Stages(false), start);
    PlainCompletes(w, next, t, start);
  }

  lemma TryRefused(w: World, c: Cursor, t: Target, reason: ErrorReason, start: Time)
    requires !w.host.Cancelled(c.samples) && reason != ExitError
    requires w.host.network(c.networkCalls) == Err(RunError(reason))
    ensures Try(w, c, t, Combined, start)
         == Ended(FailedWith(c.NetworkCalled().Sampled(), t, Combined, reason, w.host.clock(c.readings) - start))
  {
  }

  /** The exception is real: a shutdown between the fallback's timeout and the next look leaves the timeout counted. */
  lemma AbandonedEyeCanCount(w: World, t: Target)
    requires w.showEye && w.host.cancelAt == Some(2)
    requires w.host.network(0) == Err(RunError(ExitError)) && w.host.network(1) == Err(RunError(Timeout))
    ensures Collect(w, ORIGIN, t).outcome.None?
    ensures Collect(w, ORIGIN, t).errors == multiset{NetworkKey(t, Timeout)}
  {
    hide Try, Collect;
    var start := w.host.clock(0);
    var next := Cursor(0, 1, 0, 2, 1);
    EyeCollect(w, ORIGIN, t);
    assert EyeFallback(w, ORIGIN, t) == Staged(w, next, t, Stages(false), start);
    TryRefused(w, next, t, Timeout, start);
  }

  /** The calls consume consecutive answers, and the data comes from the last of them. */
  ghost predicate SourcedFrom(w: World, c: Cursor, a: Attempt<PortData>) {
    && a.cursor.networkCalls == c.networkCalls + |a.calls| && a.cursor.pcieCalls == c.pcieCalls
    && (a.outcome.Some? ==> a.calls != [] && (a.outcome.value.Success? ==>
          var o := a.outcome.value;
          && o.via == a.calls[|a.calls| - 1]
          && o.call == a.cursor.networkCalls - 1
          && NetworkSourced(w, o)))
  }

  lemma AskSource(w: World, c: Cursor)
    ensures var x := Ask(w, c);
            && x.cursor.networkCalls == c.networkCalls + 1 && x.cursor.pcieCalls == c.pcieCalls
            && (x.answer.Readable? ==>
                  w.host.network(c.networkCalls).Ok? && w.decode(w.host.network(c.networkCalls).value) == Some(x.answer.data))
  {
  }

  lemma TrySource(w: World, c: Cursor, t: Target, q: Query, start: Time)
    ensures match Try(w, c, t, q, start)
            case Ended(a) => a.calls <= [q] && SourcedFrom(w, c, a)
            case Rejected(after, _) => after.networkCalls == c.networkCalls + 1 && after.pcieCalls == c.pcieCalls
  {
    hide Ask;
    AskSource(w, Approach(c, q));
  }

  lemma {:induction false} StagedSource(w: World, c: Cursor, t: Target, stages: seq<Query>, start: Time)
    requires stages != []
    ensures var a := Staged(w, c, t, stages, start); a.calls <= stages && SourcedFrom(w, c, a)
    decreases |stages|
  {
    var tried := Try(w, c, t, stages[0], start);
    TrySource(w, c, t, stages[0], start);
    if tried.Rejected? && |stages| > 1 {
      StagedSource(w, tried.after, t, stages[1..], start);
      var rest := Staged(w, tried.after, t, stages[1..], start);
      assert [stages[0]] + rest.calls <= [stages[0]] + stages[1..];
      assert [stages[0]] + stages[1..] == stages;
    }
  }

  /** The data is the authoritative part of the decoded bytes of the call it names. */
  ghost predicate NetworkSourced(w: World, o: Outcome<PortData>) {
    o.Success? ==>
      && w.host.network(o.call).Ok?
      && w.decode(w.host.network(o.call).value).Some?
      && o.data == Authoritative(o.via, w.decode(w.host.network(o.call).value).value)
  }

  ghost predicate PCIeSourced(w: World, o: Outcome<PCIeEye>) {
    o.Success? ==>
      && w.host.pcie(o.call).Ok?
      && w.decodePCIe(w.host.pcie(o.call).value) == Some(o.data)
  }

  // ----- which attempts complete -----

  /** The calls an attempt makes when nothing cuts it short. */
  function FullCalls(w: World, c: Cursor): seq<Query> {
    if !w.showEye then PlainCalls(w, c)
    else if Exited(w, c, 0) then [WithEye] + PlainCalls(w, c.NetworkCalled())
    else [WithEye]
  }

  /**
   An attempt completes exactly when the context is still live at the last of its
   looks, one after each call, one after each decode, one before the baseline query
   and one after an Eye query's fallback; and it has then made all its calls.
   */
  lemma CompletesExactly(w: World, c: Cursor, t: Target)
    ensures var a, looks := Collect(w, c, t), LooksOf(w, c.networkCalls, FullCalls(w, c));
            && (a.outcome.Some? <==> !w.host.Cancelled(c.samples + looks - 1))
            && (a.outcome.Some? ==> a.calls == FullCalls(w, c) && a.cursor.samples == c.samples + looks)
  {
    hide Staged, LooksOf, PlainCalls, Ask;
    var start := w.host.clock(c.readings);
    if w.showEye {
      EyeCompletes(w, c, t);
    } else {
      PlainCompletes(w, c.Read(), t, start);
      SamePlain(w, c, c.Read());
    }
  }

  lemma SamePlain(w: World, c: Cursor, e: Cursor)
    requires c.networkCalls == e.networkCalls
    ensures PlainCalls(w, c) == PlainCalls(w, e)
  {
  }

  lemma EyeCompletes(w: World, c: Cursor, t: Target)
    requires w.showEye
    ensures var a, looks := Collect(w, c, t), LooksOf(w, c.networkCalls, FullCalls(w, c));
            && (a.outcome.Some? <==> !w.host.Cancelled(c.samples + looks - 1))
            && (a.outcome.Some? ==> a.calls == FullCalls(w, c) && a.cursor.samples == c.samples + looks)
  {
    hide Staged, LooksOf, PlainCalls, Ask, EndedBy;
    var start, next := w.host.clock(c.readings), c.Read().NetworkCalled().Sampled();
    EyeIsStaged(w, c.Read(), t, start);
    CombinedIsStaged(w, next, t, start);
    AskEnds(w, c.Read(), t, WithEye, start);
    LooksOfOne(w, c.networkCalls, WithEye);
    PlainCompletes(w, next, t, start);
    SamePlain(w, c.NetworkCalled(), next);
    if Exited(w, c, 0) {
      LooksOfEye(w, c);
    }
  }

  lemma LooksOfEye(w: World, c: Cursor)
    requires Exited(w, c, 0)
    ensures LooksOf(w, c.networkCalls, [WithEye] + PlainCalls(w, c.NetworkCalled()))
         == 2 + LooksOf(w, c.networkCalls + 1, PlainCalls(w, c.NetworkCalled()))
  {
    var rest := PlainCalls(w, c.NetworkCalled());
    assert ([WithEye] + rest)[1..] == rest;
  }

  /** The same for the single PCIe query, which is looked after once, and once more when its bytes have been decoded. */
  lemma PCIeCompletesExactly(w: World, c: Cursor, t: Target)
    ensures var a, looks := CollectPCIe(w, c, t), if w.host.pcie(c.pcieCalls).Ok? then 2 else 1;
            && a.calls == [PCIeQuery]
            && (a.outcome.Some? <==> !w.host.Cancelled(c.samples + looks - 1))
            && (a.outcome.Some? ==> a.cursor.samples == c.samples + looks)
  {
  }

  // ----- what a completed attempt reports, answer by answer -----

  /** The reason an unsuccessful call is filed under: its own, and unknown for an error that carries none. */
  ghost predicate FiledUnder(answer: Result<Bytes, RunError>, readable: bool, reason: ErrorReason) {
    match answer
    case Ok(_) => !readable && reason == InvalidJSON
    case Err(RunError(own)) => reason == own
    case Err(OtherError) => reason == Unknown
  }

  /** Success exactly for bytes that decode; otherwise the reason of the answer; and a success is dated by the last reading. */
  ghost predicate Reports<D>(o: Outcome<D>, answer: Result<Bytes, RunError>, readable: bool, last: Time) {
    match o
    case Success(_, _, _, at, _) => answer.Ok? && readable && at == last
    case Failure(reason, _) => FiledUnder(answer, readable, reason)
  }

  lemma AskReports(w: World, c: Cursor, t: Target, q: Query, start: Time)
    ensures var x, a := Ask(w, c), EndedBy(t, q, c.networkCalls, Ask(w, c), start);
            && x.cursor.networkCalls == c.networkCalls + 1 && x.cursor.readings == c.readings + 1
            && x.now == w.host.clock(c.readings) && a.cursor == x.cursor
            && (a.outcome.Some? ==>
                  Reports(a.outcome.value, w.host.network(c.networkCalls), Answered(w, c.networkCalls), x.now))
            && (x.answer.Refused? && x.answer.reason == ExitError ==> w.host.network(c.networkCalls) == Err(RunError(ExitError)))
  {
  }

  lemma TryReports(w: World, c: Cursor, t: Target, q: Query, start: Time)
    ensures match Try(w, c, t, q, start)
            case Ended(a) => a.outcome.Some? ==>
              && a.cursor.networkCalls == c.networkCalls + 1 && a.cursor.readings == c.readings + 1
              && Reports(a.outcome.value, w.host.network(c.networkCalls), Answered(w, c.networkCalls), w.host.clock(c.readings))
            case Rejected(after, _) =>
              && after.networkCalls == c.networkCalls + 1 && after.readings == c.readings + 1
              && w.host.network(c.networkCalls) == Err(RunError(ExitError))
  {
    hide Ask, EndedBy, Reports, Answered;
    AskReports(w, Approach(c, q), t, q, start);
  }

  /** A completed attempt reports the answer to its last call, dated by the reading after that call. */
  lemma {:induction false} StagedReports(w: World, c: Cursor, t: Target, stages: seq<Query>, start: Time)
    requires stages != []
    ensures var a := Staged(w, c, t, stages, start);
            a.outcome.Some? ==>
              && a.cursor.networkCalls > 0 && a.cursor.readings > 0
              && Reports(a.outcome.value, w.host.network(a.cursor.networkCalls - 1), Answered(w, a.cursor.networkCalls - 1),
                         w.host.clock(a.cursor.readings - 1))
    decreases |stages|
  {
    hide Try, Answered;
    TryReports(w, c, t, stages[0], start);
    var tried := Try(w, c, t, stages[0], start);
    if tried.Rejected? && |stages| > 1 {
      StagedReports(w, tried.after, t, stages[1..], start);
    }
  }

  lemma PCIeReports(w: World, c: Cursor, t: Target)
    ensures var a, n := CollectPCIe(w, c, t), c.pcieCalls;
            var readable := w.host.pcie(n).Ok? && w.decodePCIe(w.host.pcie(n).value).Some?;
            && a.cursor.pcieCalls == n + 1 && a.cursor.readings > 0
            && (a.outcome.Some? ==> Reports(a.outcome.value, w.host.pcie(n), readable, w.host.clock(a.cursor.readings - 1)))
  {
  }

  /** Every count carries the target's device, port and PCI address. */
  ghost predicate Labelled(t: Target, errors: multiset<ErrorKey>) {
    forall k | k in errors :: k == NetworkError(t.device, t.port, t.pciAddr, k.reason)
  }

  lemma CountsLabelled(t: Target, a: Attempt<PortData>)
    requires Counts(t, a) && a.outcome.Some?
    ensures Labelled(t, a.errors)
  {
  }

  /** Errors are counted under those labels, and under device and PCI address alone in the PCIe counter. */
  lemma ErrorsLabelled(w: World, c: Cursor, t: Target)
    ensures Labelled(t, Collect(w, c, t).errors)
    ensures forall k | k in CollectPCIe(w, c, t).errors :: k == PCIeError(t.device, t.pciAddr, k.reason)
  {
    hide Staged, Counts, Labelled;
    NetworkLabelled(w, c, t);
  }

  lemma NetworkLabelled(w: World, c: Cursor, t: Target)
    ensures Labelled(t, Collect(w, c, t).errors)
  {
    hide Staged, Counts;
    var a, start := Collect(w, c, t), w.host.clock(c.readings);
    if a.outcome.Some? {
      StagedCounts(w, c.Read(), t, Stages(w.showEye), start);
      CountsLabelled(t, a);
    } else if w.showEye {
      AbandonedEyeFallback(w, c, t);
      StagedCounts(w, c.Read().NetworkCalled().Sampled(), t, Stages(false), start);
      if a.errors != multiset{} {
        CountsLabelled(t, EyeFallback(w, c, t));
      }
    } else {
      AbandonedCountsNothing(w, c.Read(), t, Stages(false), start);
    }
  }

  // ----- what a success keeps of its response -----

  /** Section by section, what the query that answered is trusted with. */
  ghost predicate KeepsSections(via: Query, data: PortData, d: PortData) {
    && data.link == d.link && data.counters == d.counters && data.moduleData == d.moduleData
    && (via == WithEye ==> data == d)
    && (via == Combined ==> data.fecHistogram == d.fecHistogram && data.serDesTX == d.serDesTX && data.eye == NO_EYE)
    && (via == Baseline ==> data.fecHistogram == [] && data.serDesTX == NO_SERDES && data.eye == NO_EYE)
  }

  /** Every success keeps exactly the sections its query is trusted with of the response it names. */
  lemma CollectKeeps(w: World, c: Cursor, t: Target)
    ensures var a := Collect(w, c, t);
            a.outcome.Some? && a.outcome.value.Success? ==>
              var o := a.outcome.value;
              && Answered(w, o.call) && o.via in {WithEye, Combined, Baseline} && (o.via == WithEye ==> w.showEye)
              && KeepsSections(o.via, o.data, w.decode(w.host.network(o.call).value).value)
  {
    hide Staged;
    StagedSource(w, c.Read(), t, Stages(w.showEye), w.host.clock(c.readings));
    var a := Collect(w, c, t);
    if a.outcome.Some? && a.outcome.value.Success? {
      assert a.outcome.value.via in Stages(w.showEye);
    }
  }

  // ----- duration -----

  /** The recorded duration runs from the attempt's start to the reading after its last call. */
  lemma {:induction false} StagedSpan(w: World, c: Cursor, t: Target, stages: seq<Query>, start: Time)
    requires stages != []
    ensures var a := Staged(w, c, t, stages, start);
            && a.cursor.readings == c.readings + |a.calls|
            && (a.outcome.Some? ==> a.calls != [] && a.outcome.value.duration == w.host.clock(a.cursor.readings - 1) - start)
    decreases |stages|
  {
    hide Try;
    TryShape(w, c, t, stages[0], start);
    var tried := Try(w, c, t, stages[0], start);
    if tried.Rejected? && |stages| > 1 {
      StagedSpan(w, tried.after, t, stages[1..], start);
    }
  }

  // ----- independence from the clock and from the PCIe phase -----

  ghost predicate SameOutcome<D>(a: Option<Outcome<D>>, b: Option<Outcome<D>>) {
    match (a, b)
    case (None, None) => true
    case (Some(Success(i, v, d, _, _)), Some(Success(j, u, e, _, _))) => i == j && v == u && d == e
    case (Some(Failure(r, _)), Some(Failure(s, _))) => r == s
    case _ => false
  }

  /** The same network answers, decoders and Eye setting, and no shutdown; anything else may differ. */
  ghost predicate SameNetwork(w: World, v: World) {
    && w.host.cancelAt.None? && v.host.cancelAt.None?
    && w.showEye == v.showEye
    && (forall n :: w.host.discover(n) == v.host.discover(n))
    && (forall n :: w.host.network(n) == v.host.network(n))
    && (forall raw :: w.decode(raw) == v.decode(raw))
  }

  /** Two attempts that differ in times and in nothing else. */
  ghost predicate SameAttempt<D>(a: Attempt<D>, b: Attempt<D>) {
    && a.calls == b.calls && a.errors == b.errors && SameOutcome(a.outcome, b.outcome)
    && a.cursor.networkCalls == b.cursor.networkCalls && a.cursor.discoveries == b.cursor.discoveries
    && a.outcome.Some?
  }

  lemma {:induction false} StagedSame(w: World, v: World, c: Cursor, e: Cursor, t: Target, stages: seq<Query>,
                                      start: Time, begin: Time)
    requires stages != [] && SameNetwork(w, v)
    requires c.networkCalls == e.networkCalls && c.discoveries == e.discoveries
    ensures SameAttempt(Staged(w, c, t, stages, start), Staged(v, e, t, stages, begin))
    decreases |stages|
  {
    var tried, other := Try(w, c, t, stages[0], start), Try(v, e, t, stages[0], begin);
    TrySame(w, v, c, e, t, stages[0], start, begin);
    if tried.Rejected? && |stages| > 1 {
      StagedSame(w, v, tried.after, other.after, t, stages[1..], start, begin);
    }
  }

  lemma AskSame(w: World, v: World, c: Cursor, e: Cursor)
    requires SameNetwork(w, v) && c.networkCalls == e.networkCalls && c.discoveries == e.discoveries
    ensures var x, y := Ask(w, c), Ask(v, e);
            && x.answer == y.answer && !x.answer.Shutdown?
            && x.cursor.networkCalls == y.cursor.networkCalls && x.cursor.discoveries == y.cursor.discoveries
  {
  }

  lemma EndedBySame(t: Target, q: Query, call: nat, x: Asked, y: Asked, start: Time, begin: Time)
    requires x.answer == y.answer && !x.answer.Shutdown?
    requires x.cursor.networkCalls == y.cursor.networkCalls && x.cursor.discoveries == y.cursor.discoveries
    ensures SameAttempt(EndedBy(t, q, call, x, start), EndedBy(t, q, call, y, begin))
  {
  }

  lemma TrySame(w: World, v: World, c: Cursor, e: Cursor, t: Target, q: Query, start: Time, begin: Time)
    requires SameNetwork(w, v) && c.networkCalls == e.networkCalls && c.discoveries == e.discoveries
    ensures match (Try(w, c, t, q, start), Try(v, e, t, q, begin))
            case (Ended(a), Ended(b)) => SameAttempt(a, b)
            case (Rejected(a, _), Rejected(b, _)) => a.networkCalls == b.networkCalls && a.discoveries == b.discoveries
            case _ => false
  {
    hide Ask, EndedBy, SameAttempt;
    var x, y := Ask(w, Approach(c, q)), Ask(v, Approach(e, q));
    AskSame(w, v, Approach(c, q), Approach(e, q));
    EndedBySame(t, q, Approach(c, q).networkCalls, x, y, start, begin);
  }
}
