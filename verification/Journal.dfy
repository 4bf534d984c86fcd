/**
 The journal of one collection phase (poller.go): what each attempt returned
 and what became visible to scrapes, in order. Everything a reader of the
 store can observe is a function of a prefix of this journal.
 */
module Journal {
  import opened Wrappers
  import opened Model

  datatype Query = WithEye | Combined | Baseline | PCIeQuery

  /** DeviceSnapshot and PCIeEyeSnapshot; lastSuccess is None for Go's zero time. */
  datatype Snapshot<+D> = Snapshot(
    target: Target,
    data: D,
    lastSuccess: Option<Time>,
    lastError: Option<ErrorReason>,
    lastDuration: int)

  type SnapshotMap<+D> = map<string, Snapshot<D>>

  /** How an attempt ended; a success names the runner call that supplied its data. */
  datatype Outcome<+D> =
    | Success(call: nat, via: Query, data: D, at: Time, duration: int)
    | Failure(reason: ErrorReason, duration: int)

  /** The label values of one error counter: PCIe errors carry no port. */
  datatype ErrorKey =
    | NetworkError(device: string, port: string, pciAddr: string, reason: ErrorReason)
    | PCIeError(device: string, pciAddr: string, reason: ErrorReason)

  datatype Event<+D> =
    | Discovered(targets: seq<Target>)
    | Collected(target: Target, calls: seq<Query>, errors: multiset<ErrorKey>, outcome: Outcome<D>)
    | Abandoned(target: Target, calls: seq<Query>, errors: multiset<ErrorKey>)
    | Published(devices: SnapshotMap<D>)
    | Announced

  type Log<+D> = seq<Event<D>>

  predicate DistinctDevices(targets: seq<Target>) {
    forall i, j | 0 <= i < j < |targets| :: targets[i].device != targets[j].device
  }

  predicate Among(device: string, targets: seq<Target>) {
    exists t | t in targets :: t.device == device
  }

  /** snapshotSet.lookup on a loaded set. */
  function Lookup<D>(devices: SnapshotMap<D>, device: string): Option<Snapshot<D>> {
    if device in devices then Some(devices[device]) else None
  }

  /** snapshotSet.lookup on the store, which is nil before the first publish. */
  function StoreLookup<D>(store: Option<SnapshotMap<D>>, device: string): Option<Snapshot<D>> {
    if store.None? then None else Lookup(store.value, device)
  }

  /** The snapshot an attempt leaves behind, given the one before it. */
  function Fold<D>(zero: D, previous: Option<Snapshot<D>>, t: Target, o: Outcome<D>): Snapshot<D> {
    match o
    case Success(_, _, data, at, duration) => Snapshot(t, data, Some(at), None, duration)
    case Failure(reason, duration) =>
      Snapshot(t,
        if previous.Some? then previous.value.data else zero,
        if previous.Some? then previous.value.lastSuccess else None,
        Some(reason), duration)
  }

  // ----- the reference: what the history says about one device -----

  /**
   The state of a device after a history: its attempts since it last
   (re)appeared, folded in order; nothing once a discovery leaves it out.
   */
  ghost function Entry<D>(zero: D, log: Log<D>, device: string): Option<Snapshot<D>> {
    if log == [] then None
    else
      var front, last := log[..|log| - 1], log[|log| - 1];
      if last.Collected? && last.target.device == device
      then Some(Fold(zero, Entry(zero, front, device), last.target, last.outcome))
      else if last.Discovered? && !Among(device, last.targets) then None
      else Entry(zero, front, device)
  }

  /** A set of snapshots says exactly what the history says, for every device. */
  ghost predicate Agrees<D>(zero: D, devices: SnapshotMap<D>, log: Log<D>) {
    forall d :: Lookup(devices, d) == Entry(zero, log, d)
  }

  /** Every set ever published agreed with the history at that moment. */
  ghost predicate Faithful<D>(zero: D, log: Log<D>) {
    forall i | 0 <= i < |log| && log[i].Published? :: Agrees(zero, log[i].devices, log[..i])
  }

  /** What the store holds after this history: the latest published set. */
  ghost function LastPublished<D>(log: Log<D>): Option<SnapshotMap<D>> {
    if log == [] then None
    else if log[|log| - 1].Published? then Some(log[|log| - 1].devices)
    else LastPublished(log[..|log| - 1])
  }

  /** Every set this history published, in order. */
  ghost function PublishedSets<D>(log: Log<D>): seq<SnapshotMap<D>> {
    if log == [] then []
    else
      var last := log[|log| - 1];
      PublishedSets(log[..|log| - 1]) + (if last.Published? then [last.devices] else [])
  }

  lemma PublishedSetsSnoc<D>(log: Log<D>, e: Event<D>)
    ensures PublishedSets(log + [e]) == PublishedSets(log) + (if e.Published? then [e.devices] else [])
  {
    assert (log + [e])[..|log|] == log;
  }

  /** The store holds the last of the published sets. */
  lemma {:induction false} LastOfPublished<D>(log: Log<D>)
    ensures LastPublished(log)
         == if PublishedSets(log) == [] then None else Some(PublishedSets(log)[|PublishedSets(log)| - 1])
  {
    if log != [] && !log[|log| - 1].Published? {
      LastOfPublished(log[..|log| - 1]);
    }
  }

  ghost predicate InSync<D>(zero: D, log: Log<D>) {
    forall d :: StoreLookup(LastPublished(log), d) == Entry(zero, log, d)
  }

  lemma EntrySnoc<D>(zero: D, log: Log<D>, e: Event<D>, device: string)
    ensures Entry(zero, log + [e], device)
         == if e.Collected? && e.target.device == device
            then Some(Fold(zero, Entry(zero, log, device), e.target, e.outcome))
            else if e.Discovered? && !Among(device, e.targets) then None
            else Entry(zero, log, device)
  {
    assert (log + [e])[..|log|] == log;
  }

  lemma LastPublishedSnoc<D>(log: Log<D>, e: Event<D>)
    ensures LastPublished(log + [e]) == if e.Published? then Some(e.devices) else LastPublished(log)
  {
    assert (log + [e])[..|log|] == log;
  }

  lemma FaithfulSnoc<D>(zero: D, log: Log<D>, e: Event<D>)
    requires Faithful(zero, log)
    requires e.Published? ==> Agrees(zero, e.devices, log)
    ensures Faithful(zero, log + [e])
  {
    var after := log + [e];
    forall i | 0 <= i < |after| && after[i].Published? ensures Agrees(zero, after[i].devices, after[..i]) {
      assert after[..i] == log[..i];
      if i == |log| { assert log[..i] == log; }
    }
  }

  /** The targets of the latest successful discovery. */
  ghost function LastDiscovered<D>(log: Log<D>): Option<seq<Target>> {
    if log == [] then None
    else if log[|log| - 1].Discovered? then Some(log[|log| - 1].targets)
    else LastDiscovered(log[..|log| - 1])
  }

  lemma LastDiscoveredSnoc<D>(log: Log<D>, e: Event<D>)
    ensures LastDiscovered(log + [e]) == if e.Discovered? then Some(e.targets) else LastDiscovered(log)
  {
    assert (log + [e])[..|log|] == log;
  }

  // ----- latest success -----

  /** The latest successful attempt on the device since it last (re)appeared. */
  ghost function LatestSuccess<D>(log: Log<D>, device: string): Option<Outcome<D>> {
    if log == [] then None
    else
      var front, last := log[..|log| - 1], log[|log| - 1];
      if last.Collected? && last.target.device == device && last.outcome.Success? then Some(last.outcome)
      else if last.Discovered? && !Among(device, last.targets) then None
      else LatestSuccess(front, device)
  }

  /** The latest attempt of any kind since the device last (re)appeared. */
  ghost function LatestAttempt<D>(log: Log<D>, device: string): Option<(Target, Outcome<D>)> {
    if log == [] then None
    else
      var front, last := log[..|log| - 1], log[|log| - 1];
      if last.Collected? && last.target.device == device then Some((last.target, last.outcome))
      else if last.Discovered? && !Among(device, last.targets) then None
      else LatestAttempt(front, device)
  }

  /**
   Every field traced to its source: Data and LastSuccess are those of the
   latest success, Target, LastError and LastDuration those of the latest
   attempt; a device is present exactly when it was attempted since it appeared.
   */
  lemma {:induction false} EntryFields<D>(zero: D, log: Log<D>, device: string)
    ensures Entry(zero, log, device).Some? <==> LatestAttempt(log, device).Some?
    ensures LatestSuccess(log, device).Some? ==> LatestSuccess(log, device).value.Success?
    ensures Entry(zero, log, device).Some? ==>
              var s := Entry(zero, log, device).value;
              var (t, o) := LatestAttempt(log, device).value;
              && s.target == t && t.device == device && s.lastDuration == o.duration
              && s.lastError == (if o.Success? then None else Some(o.reason))
              && (match LatestSuccess(log, device)
                  case None => s.data == zero && s.lastSuccess == None
                  case Some(x) => s.data == x.data && s.lastSuccess == Some(x.at))
    ensures LatestSuccess(log, device).Some? ==> LatestAttempt(log, device).Some?
  {
    if log != [] {
      EntryFields(zero, log[..|log| - 1], device);
    }
  }

  lemma {:induction false} LatestSuccessRecorded<D>(log: Log<D>, device: string)
    ensures LatestSuccess(log, device).Some? ==>
              exists i | 0 <= i < |log| ::
                log[i].Collected? && log[i].target.device == device && log[i].outcome == LatestSuccess(log, device).value
  {
    if log != [] {
      var front := log[..|log| - 1];
      LatestSuccessRecorded(front, device);
      if LatestSuccess(log, device).Some? {
        var last := log[|log| - 1];
        if last.Collected? && last.target.device == device && last.outcome.Success? {
          assert log[|log| - 1].outcome == LatestSuccess(log, device).value;
        } else {
          var i :| 0 <= i < |front| && front[i].Collected? && front[i].target.device == device
                   && front[i].outcome == LatestSuccess(log, device).value;
          assert log[i] == front[i];
        }
      }
    }
  }

  /** Attempt k succeeded on the device, and every discovery since then has reported it. */
  ghost predicate SuccessKept<D>(log: Log<D>, hi: nat, device: string, k: nat)
    requires hi <= |log|
  {
    k < hi && SucceededOn(log[k], device) && KeptBetween(log, device, k, hi)
  }

  predicate SucceededOn<D>(e: Event<D>, device: string) {
    e.Collected? && e.target.device == device && e.outcome.Success?
  }

  /** Besides, no later attempt on the device has succeeded. */
  ghost predicate Supplies<D>(log: Log<D>, hi: nat, device: string, k: nat)
    requires hi <= |log|
  {
    SuccessKept(log, hi, device, k) && forall i | k < i < hi :: !SucceededOn(log[i], device)
  }

  lemma LatestSuccessStep<D>(log: Log<D>, hi: nat, device: string)
    requires 0 < hi <= |log|
    ensures LatestSuccess(log[..hi], device)
         == if SucceededOn(log[hi - 1], device) then Some(log[hi - 1].outcome)
            else if log[hi - 1].Discovered? && !Among(device, log[hi - 1].targets) then None
            else LatestSuccess(log[..hi - 1], device)
  {
    assert log[..hi][..hi - 1] == log[..hi - 1];
  }

  /** The success that supplies a device is its latest one. */
  lemma {:induction false} SuppliesLatest<D>(log: Log<D>, hi: nat, device: string, k: nat)
    requires hi <= |log| && Supplies(log, hi, device, k)
    ensures LatestSuccess(log[..hi], device) == Some(log[k].outcome)
    decreases hi
  {
    LatestSuccessStep(log, hi, device);
    if k < hi - 1 {
      assert Supplies(log, hi - 1, device, k);
      SuppliesLatest(log, hi - 1, device, k);
    }
  }

  /** A device has a latest success exactly when one of its successes has been kept, and then one supplies it. */
  lemma {:induction false} LatestSuccessExactly<D>(log: Log<D>, hi: nat, device: string)
    requires hi <= |log|
    ensures LatestSuccess(log[..hi], device).Some? <==> exists k: nat :: SuccessKept(log, hi, device, k)
    ensures LatestSuccess(log[..hi], device).Some? ==> exists k: nat :: Supplies(log, hi, device, k)
    decreases hi
  {
    if hi > 0 {
      var e := log[hi - 1];
      LatestSuccessStep(log, hi, device);
      LatestSuccessExactly(log, hi - 1, device);
      if SucceededOn(e, device) {
        assert Supplies(log, hi, device, hi - 1);
      } else if e.Discovered? && !Among(device, e.targets) {
        forall k: nat ensures !SuccessKept(log, hi, device, k) {
          assert k < hi - 1 ==> !KeptBetween(log, device, k, hi);
        }
      } else {
        if k: nat :| SuccessKept(log, hi, device, k) {
          assert SuccessKept(log, hi - 1, device, k);
        }
        if LatestSuccess(log[..hi - 1], device).Some? {
          var k: nat :| Supplies(log, hi - 1, device, k);
          assert Supplies(log, hi, device, k);
        }
      }
    }
  }

  // ----- readiness -----

  /** Readiness is announced right after a publish that shows its device collected. */
  ghost predicate AnnouncedAfterPublish<D>(log: Log<D>) {
    forall i | 0 <= i < |log| && log[i].Announced? :: AnnouncedAt(log, i)
  }

  ghost predicate AnnouncedAt<D>(log: Log<D>, i: nat)
    requires i < |log|
  {
    && i >= 2 && log[i - 1].Published? && log[i - 2].Collected? && log[i - 2].outcome.Success?
    && log[i - 2].target.device in log[i - 1].devices
    && log[i - 1].devices[log[i - 2].target.device].lastError == None
    && log[i - 1].devices[log[i - 2].target.device].lastSuccess == Some(log[i - 2].outcome.at)
  }

  ghost predicate Ready<D>(log: Log<D>) {
    exists i | 0 <= i < |log| :: log[i].Announced?
  }

  /** No discovery between two points leaves the device out. */
  ghost predicate KeptBetween<D>(log: Log<D>, device: string, lo: nat, hi: nat)
    requires lo <= hi <= |log|
  {
    forall i | lo <= i < hi && log[i].Discovered? :: Among(device, log[i].targets)
  }

  ghost predicate HasSuccess<D>(zero: D, log: Log<D>, device: string) {
    Entry(zero, log, device).Some? && Entry(zero, log, device).value.lastSuccess.Some?
  }

  lemma {:induction false} SuccessPersists<D>(zero: D, log: Log<D>, device: string, lo: nat, hi: nat)
    requires lo <= hi <= |log| && KeptBetween(log, device, lo, hi)
    requires HasSuccess(zero, log[..lo], device)
    ensures HasSuccess(zero, log[..hi], device)
    decreases hi
  {
    if lo < hi {
      SuccessPersists(zero, log, device, lo, hi - 1);
      assert log[..hi] == log[..hi - 1] + [log[hi - 1]];
      EntrySnoc(zero, log[..hi - 1], log[hi - 1], device);
    }
  }

  /**
   Once a device's success has been announced, every later published set shows
   it with a last success for as long as discovery keeps reporting it, and the
   store is never nil again.
   */
  lemma AnnouncedStays<D>(zero: D, log: Log<D>, i: nat, j: nat)
    requires Faithful(zero, log) && AnnouncedAfterPublish(log)
    requires i < j < |log| && log[i].Announced? && log[j].Published?
    requires KeptBetween(log, log[i - 2].target.device, i, j)
    ensures log[i - 2].target.device in log[j].devices
    ensures log[j].devices[log[i - 2].target.device].lastSuccess.Some?
  {
    var d := log[i - 2].target.device;
    assert AnnouncedAt(log, i);
    assert log[..i - 1] == log[..i - 2] + [log[i - 2]];
    EntrySnoc(zero, log[..i - 2], log[i - 2], d);
    assert log[..i] == log[..i - 1] + [log[i - 1]];
    EntrySnoc(zero, log[..i - 1], log[i - 1], d);
    assert HasSuccess(zero, log[..i], d);
    SuccessPersists(zero, log, d, i, j);
    assert Lookup(log[j].devices, d) == Entry(zero, log[..j], d);
  }

  lemma {:induction false} PublishedStays<D>(log: Log<D>, i: nat)
    requires i < |log| && log[i].Published?
    ensures LastPublished(log).Some?
  {
    if i < |log| - 1 {
      assert log[..|log| - 1][i] == log[i];
      PublishedStays(log[..|log| - 1], i);
    }
  }

  // ----- error accounting -----

  ghost function EventErrors<D>(e: Event<D>): multiset<ErrorKey> {
    if e.Collected? || e.Abandoned? then e.errors else multiset{}
  }

  /** The error counter after this history. */
  ghost function Errors<D>(log: Log<D>): multiset<ErrorKey> {
    if log == [] then multiset{}
    else Errors(log[..|log| - 1]) + EventErrors(log[|log| - 1])
  }

  lemma ErrorsSnoc<D>(log: Log<D>, e: Event<D>)
    ensures Errors(log + [e]) == Errors(log) + EventErrors(e)
  {
    assert (log + [e])[..|log|] == log;
  }

  ghost function CompletedCalls<D>(log: Log<D>): nat {
    if log == [] then 0
    else CompletedCalls(log[..|log| - 1]) + (if log[|log| - 1].Collected? then |log[|log| - 1].calls| else 0)
  }

  ghost function Successes<D>(log: Log<D>): nat {
    if log == [] then 0
    else
      var last := log[|log| - 1];
      Successes(log[..|log| - 1]) + (if last.Collected? && last.outcome.Success? then 1 else 0)
  }

  ghost function AbandonedErrors<D>(log: Log<D>): nat {
    if log == [] then 0
    else AbandonedErrors(log[..|log| - 1]) + (if log[|log| - 1].Abandoned? then |log[|log| - 1].errors| else 0)
  }

  /** A completed attempt counts one error per call, less one if it succeeded. */
  ghost predicate Accounted<D>(e: Event<D>) {
    e.Collected? ==> |e.errors| + (if e.outcome.Success? then 1 else 0) == |e.calls|
  }

  /**
   Conservation: over any history the error total is the runner calls of
   completed attempts, less the successes, plus what abandoned attempts left.
   */
  lemma {:induction false} ErrorsConserved<D>(log: Log<D>)
    requires forall i | 0 <= i < |log| :: Accounted(log[i])
    ensures |Errors(log)| + Successes(log) == CompletedCalls(log) + AbandonedErrors(log)
  {
    if log != [] {
      var n := |log| - 1;
      assert forall i | 0 <= i < n :: log[..n][i] == log[i];
      ErrorsConserved(log[..n]);
      assert Accounted(log[n]);
    }
  }

  // ----- runner calls -----

  datatype Invocation = Invocation(query: Query, device: string)

  ghost function CallsOn(calls: seq<Query>, device: string): seq<Invocation> {
    seq(|calls|, i requires 0 <= i < |calls| => Invocation(calls[i], device))
  }

  /** The runner calls of a stretch of history, in order. */
  ghost function Invocations<D>(events: Log<D>): seq<Invocation> {
    if events == [] then []
    else
      var e := events[0];
      (if e.Collected? || e.Abandoned? then CallsOn(e.calls, e.target.device) else []) + Invocations(events[1..])
  }

  lemma {:induction false} InvocationsConcat<D>(a: Log<D>, b: Log<D>)
    ensures Invocations(a + b) == Invocations(a) + Invocations(b)
  {
    if a == [] {
      assert a + b == b;
    } else {
      assert (a + b)[1..] == a[1..] + b;
      InvocationsConcat(a[1..], b);
    }
  }
}
