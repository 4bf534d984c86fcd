/** How long a sweep can keep the runner busy. */
module Timing {
  import opened Wrappers
  import opened Model
  import opened Journal
  import opened Attempts
  import opened Sweeps
  import opened Runs
  import History

  /** The clock reading taken last. */
  function LastReading(host: Host, c: Cursor): Time {
    host.clock(if c.readings == 0 then 0 else c.readings - 1)
  }

  /** From the first to the last reading of each attempt of a sweep, added up. */
  ghost function Busy<D>(collect: Collector<D>, host: Host, c: Cursor, targets: seq<Target>): int
    decreases |targets|
  {
    if targets == [] then 0
    else
      var a := collect(c, targets[0]);
      (LastReading(host, a.cursor) - host.clock(c.readings))
      + (if a.outcome.None? then 0 else Busy(collect, host, a.cursor, targets[1..]))
  }

  /** One attempt's calls each took at most the bound; readings outside the attempt do not matter. */
  ghost predicate AttemptWithin<D>(a: Attempt<D>, host: Host, c: Cursor, bound: nat) {
    forall r | c.readings < r < a.cursor.readings :: host.clock(r) - host.clock(r - 1) <= bound
  }

  /** Each call of those attempts took no longer than the bound. */
  ghost predicate CallsWithin<D>(collect: Collector<D>, host: Host, c: Cursor, targets: seq<Target>, bound: nat)
    decreases |targets|
  {
    targets != [] ==>
      var a := collect(c, targets[0]);
      && AttemptWithin(a, host, c, bound)
      && (a.outcome.Some? ==> CallsWithin(collect, host, a.cursor, targets[1..], bound))
  }

  /** An attempt reads the clock once at its start and once after each call. */
  ghost predicate ReadsPerCall<D>(collect: Collector<D>, most: nat) {
    forall c, t :: AttemptReads(collect(c, t), c, most)
  }

  ghost predicate AttemptReads<D>(a: Attempt<D>, c: Cursor, most: nat) {
    a.cursor.readings == c.readings + 1 + |a.calls| && |a.calls| <= most
  }

  lemma CollectorsRead(w: World)
    ensures ReadsPerCall(NetworkCollector(w), 3) && ReadsPerCall(PCIeCollector(w), 1)
  {
    forall c, t ensures AttemptReads(NetworkCollector(w)(c, t), c, 3) {
      StagedSpan(w, c.Read(), t, Stages(w.showEye), w.host.clock(c.readings));
      StagedSource(w, c.Read(), t, Stages(w.showEye), w.host.clock(c.readings));
    }
    forall c, t ensures AttemptReads(PCIeCollector(w)(c, t), c, 1) {
      assert PCIeCollector(w)(c, t) == CollectPCIe(w, c, t);
    }
  }

  lemma {:induction false} ReadingsSpan(host: Host, lo: nat, n: nat, bound: nat)
    requires forall r | lo < r <= lo + n :: host.clock(r) - host.clock(r - 1) <= bound
    ensures host.clock(lo + n) - host.clock(lo) <= bound * n
    decreases n
  {
    if n > 0 {
      ReadingsSpan(host, lo, n - 1, bound);
      assert bound * n == bound * (n - 1) + bound;
    }
  }

  lemma {:induction false} BusyBound<D>(collect: Collector<D>, host: Host, c: Cursor, targets: seq<Target>, bound: nat, most: nat)
    requires ReadsPerCall(collect, most) && CallsWithin(collect, host, c, targets, bound)
    ensures Busy(collect, host, c, targets) <= bound * most * |targets|
    decreases |targets|
  {
    hide ReadsPerCall;
    if targets != [] {
      var a := collect(c, targets[0]);
      FirstBusy(collect, host, c, targets, bound, most);
      OneMore(bound * most, |targets|);
      if a.outcome.Some? {
        BusyBound(collect, host, a.cursor, targets[1..], bound, most);
      }
    }
  }

  lemma FirstBusy<D>(collect: Collector<D>, host: Host, c: Cursor, targets: seq<Target>, bound: nat, most: nat)
    requires ReadsPerCall(collect, most) && CallsWithin(collect, host, c, targets, bound) && targets != []
    ensures LastReading(host, collect(c, targets[0]).cursor) - host.clock(c.readings) <= bound * most
  {
    var a := collect(c, targets[0]);
    assert AttemptReads(a, c, most);
    ReadingsSpan(host, c.readings, |a.calls|, bound);
    Monotone(bound, |a.calls|, most);
  }

  lemma Monotone(bound: nat, few: nat, most: nat)
    requires few <= most
    ensures bound * few <= bound * most
  {
  }

  lemma OneMore(each: nat, n: nat)
    requires n > 0
    ensures each * n == each * (n - 1) + each && each * (n - 1) >= 0
  {
  }

  /** The time a sweep spends in its attempts. */
  ghost function SweepBusy(w: World, st: State, targets: seq<Target>): int {
    Busy(NetworkCollector(w), w.host, Begun(st).cursor, targets)
    + (if History.PCIeRuns(w, st, targets)
       then Busy(PCIeCollector(w), w.host, NetworkPhase(w, Begun(st), targets).cursor, targets) else 0)
  }

  ghost predicate SweepWithin(w: World, st: State, targets: seq<Target>, bound: nat) {
    && CallsWithin(NetworkCollector(w), w.host, Begun(st).cursor, targets, bound)
    && (History.PCIeRuns(w, st, targets) ==>
          CallsWithin(PCIeCollector(w), w.host, NetworkPhase(w, Begun(st), targets).cursor, targets, bound))
  }

  /**
   When every call of a sweep takes at most the timeout plus the equal wait delay,
   the sweep is busy for at most eight timeouts per device.
   */
  lemma SweepTimeBound(w: World, st: State, targets: seq<Target>, timeout: nat)
    requires SweepWithin(w, st, targets, 2 * timeout)
    ensures SweepBusy(w, st, targets) <= 8 * timeout * |targets|
  {
    hide Busy, CallsWithin, ReadsPerCall;
    CollectorsRead(w);
    Eight(timeout, |targets|);
    BusyBound(NetworkCollector(w), w.host, Begun(st).cursor, targets, 2 * timeout, 3);
    if History.PCIeRuns(w, st, targets) {
      BusyBound(PCIeCollector(w), w.host, NetworkPhase(w, Begun(st), targets).cursor, targets, 2 * timeout, 1);
    }
  }

  lemma Eight(t: nat, n: nat)
    ensures 2 * t * 3 * n + 2 * t * 1 * n == 8 * t * n && 2 * t * 1 * n >= 0
  {
    assert 2 * t * 3 == 6 * t && 2 * t * 1 == 2 * t;
    assert 6 * t * n + 2 * t * n == (6 * t + 2 * t) * n;
  }

  // ----- recorded durations -----

  /** The duration of a completed attempt is the time between its first and its last reading. */
  ghost predicate Measures<D>(a: Attempt<D>, host: Host, c: Cursor) {
    a.outcome.Some? ==> a.outcome.value.duration == LastReading(host, a.cursor) - host.clock(c.readings)
  }

  lemma CollectorsMeasure(w: World)
    ensures forall c, t :: Measures(NetworkCollector(w)(c, t), w.host, c)
    ensures forall c, t :: Measures(PCIeCollector(w)(c, t), w.host, c)
  {
    forall c, t ensures Measures(NetworkCollector(w)(c, t), w.host, c) {
      StagedSpan(w, c.Read(), t, Stages(w.showEye), w.host.clock(c.readings));
    }
    forall c, t ensures Measures(PCIeCollector(w)(c, t), w.host, c) {
      assert PCIeCollector(w)(c, t) == CollectPCIe(w, c, t);
    }
  }

  lemma AttemptBound<D>(a: Attempt<D>, host: Host, c: Cursor, bound: nat, most: nat)
    requires AttemptReads(a, c, most) && Measures(a, host, c) && AttemptWithin(a, host, c, bound)
    ensures a.outcome.Some? ==> a.outcome.value.duration <= bound * most
  {
    ReadingsSpan(host, c.readings, |a.calls|, bound);
    Monotone(bound, |a.calls|, most);
  }

  /**
   With each of its calls taking at most the command timeout plus the equal wait
   delay, an attempt makes at most three calls and lasts at most six timeouts,
   however long the pause before the next attempt.
   */
  lemma AttemptDuration(w: World, c: Cursor, t: Target, timeout: nat)
    requires AttemptWithin(Collect(w, c, t), w.host, c, 2 * timeout)
    ensures |Collect(w, c, t).calls| <= 3
    ensures Collect(w, c, t).outcome.Some? ==> Collect(w, c, t).outcome.value.duration <= 6 * timeout
  {
    hide Collect, AttemptWithin, Measures;
    CollectorsRead(w);
    CollectorsMeasure(w);
    assert NetworkCollector(w)(c, t) == Collect(w, c, t);
    assert AttemptReads(NetworkCollector(w)(c, t), c, 3) && Measures(NetworkCollector(w)(c, t), w.host, c);
    AttemptBound(Collect(w, c, t), w.host, c, 2 * timeout, 3);
  }

  /** No attempt recorded in the journal lasted longer than the limit. */
  ghost predicate Brief<D>(log: Log<D>, limit: int) {
    forall i | 0 <= i < |log| && log[i].Collected? :: log[i].outcome.duration <= limit
  }

  lemma BriefConcat<D>(a: Log<D>, b: Log<D>, limit: int)
    requires Brief(a, limit) && Brief(b, limit)
    ensures Brief(a + b, limit)
  {
  }

  lemma {:induction false} VisitBrief<D>(zero: D, collect: Collector<D>, announce: bool, host: Host, c: Cursor,
                                         targets: seq<Target>, previous: Option<SnapshotMap<D>>, working: SnapshotMap<D>,
                                         bound: nat, most: nat)
    requires ReadsPerCall(collect, most) && forall c, t :: Measures(collect(c, t), host, c)
    requires CallsWithin(collect, host, c, targets, bound)
    ensures Brief(Visit(zero, collect, announce, c, targets, previous, working).events, bound * most)
    decreases |targets|
  {
    hide Measures, Fold, StoreLookup;
    if targets != [] {
      var t := targets[0];
      var a := collect(c, t);
      if a.outcome.Some? {
        assert AttemptReads(a, c, most) && Measures(a, host, c) && AttemptWithin(a, host, c, bound);
        AttemptBound(a, host, c, bound, most);
        var now := working[t.device := Fold(zero, StoreLookup(previous, t.device), t, a.outcome.value)];
        VisitBrief(zero, collect, announce, host, a.cursor, targets[1..], previous, now, bound, most);
        BriefConcat(VisitEvents(t, a, now, announce),
                    Visit(zero, collect, announce, a.cursor, targets[1..], previous, now).events, bound * most);
      }
    }
  }

  lemma PhaseBrief<D>(zero: D, collect: Collector<D>, announce: bool, host: Host, c: Cursor, targets: seq<Target>,
                      log: Log<D>, bound: nat, most: nat)
    requires ReadsPerCall(collect, most) && forall c, t :: Measures(collect(c, t), host, c)
    requires CallsWithin(collect, host, c, targets, bound) && Brief(log, bound * most)
    ensures Brief(log + [Discovered(targets)] + SweepDevices(zero, collect, announce, c, targets, LastPublished(log)).events,
                  bound * most)
  {
    hide ReadsPerCall, Measures, CallsWithin;
    var store := LastPublished(log);
    VisitBrief(zero, collect, announce, host, c, targets, store, Seed(store, targets), bound, most);
    BriefConcat(log + [Discovered(targets)], SweepDevices(zero, collect, announce, c, targets, store).events, bound * most);
  }

  /** Every call of the sweep that starts here takes at most the bound. */
  ghost predicate NextSweepWithin(w: World, st: State, bound: nat) {
    var found := w.host.discover(st.cursor.discoveries);
    found.Some? ==> SweepWithin(w, st, found.value, bound)
  }

  /** Every call of the run takes at most the bound; nothing is asked of the pauses between attempts and sweeps. */
  ghost predicate RunWithin(w: World, turns: seq<Turn>, bound: nat) {
    if turns == [] then w.host.Cancelled(0) || NextSweepWithin(w, Look(INITIAL), bound)
    else
      var front, turn := turns[..|turns| - 1], turns[|turns| - 1];
      && RunWithin(w, front, bound)
      && (SweepsOnTick(w, RunAfter(w, front), turn) ==> NextSweepWithin(w, Look(RunAfter(w, front).state), bound))
  }

  /** The turn receives a tick and sweeps. */
  ghost predicate SweepsOnTick(w: World, r: Run, turn: Turn) {
    var ticker := r.ticker.FireTimes(turn.wait);
    !r.stopped && ticker.pending.Some? && !(w.host.Cancelled(r.state.cursor.samples) && turn.done)
  }

  ghost predicate BriefState(st: State, bound: nat) {
    Brief(st.net, bound * 3) && Brief(st.pcie, bound * 1)
  }

  lemma SweepBrief(w: World, st: State, bound: nat)
    requires BriefState(st, bound) && NextSweepWithin(w, st, bound)
    ensures BriefState(Sweep(w, st), bound)
  {
    hide Brief, CallsWithin, ReadsPerCall, Measures;
    var found := w.host.discover(st.cursor.discoveries);
    if found.Some? {
      CollectorsRead(w);
      CollectorsMeasure(w);
      var begun, targets := Begun(st), found.value;
      PhaseBrief(NO_DATA, NetworkCollector(w), true, w.host, begun.cursor, targets, begun.net, bound, 3);
      if History.PCIeRuns(w, st, targets) {
        var after := NetworkPhase(w, begun, targets);
        PhaseBrief(NO_PCIE_EYE, PCIeCollector(w), false, w.host, after.cursor, targets, after.pcie, bound, 1);
      }
    }
  }

  lemma {:induction false} RunBrief(w: World, turns: seq<Turn>, bound: nat)
    requires RunWithin(w, turns, bound)
    ensures BriefState(RunAfter(w, turns).state, bound)
  {
    hide NextSweepWithin, Sweep, Ticker.FireTimes;
    if turns == [] {
      if !w.host.Cancelled(0) {
        SweepBrief(w, Look(INITIAL), bound);
      }
    } else {
      var front, turn := turns[..|turns| - 1], turns[|turns| - 1];
      var r := RunAfter(w, front);
      RunBrief(w, front, bound);
      if SweepsOnTick(w, r, turn) {
        SweepBrief(w, Look(r.state), bound);
      }
    }
  }

  lemma {:induction false} LatestAttemptBrief<D>(log: Log<D>, device: string, limit: int)
    requires Brief(log, limit)
    ensures LatestAttempt(log, device).Some? ==> LatestAttempt(log, device).value.1.duration <= limit
  {
    if log != [] {
      LatestAttemptBrief(log[..|log| - 1], device, limit);
    }
  }

  lemma PublishedBrief<D>(zero: D, log: Log<D>, i: nat, device: string, limit: int)
    requires Faithful(zero, log) && Brief(log, limit)
    requires i < |log| && log[i].Published? && device in log[i].devices
    ensures log[i].devices[device].lastDuration <= limit
  {
    assert Lookup(log[i].devices, device) == Entry(zero, log[..i], device);
    EntryFields(zero, log[..i], device);
    LatestAttemptBrief(log[..i], device, limit);
  }

  /**
   Over any run whose calls each take at most the timeout plus the equal wait
   delay, every network snapshot ever published records at most six timeouts and
   every PCIe one at most two.
   */
  lemma PublishedDurations(w: World, turns: seq<Turn>, timeout: nat, i: nat, device: string)
    requires History.DistinctDiscovery(w) && RunWithin(w, turns, 2 * timeout)
    ensures var net := RunAfter(w, turns).state.net;
            i < |net| && net[i].Published? && device in net[i].devices ==> net[i].devices[device].lastDuration <= 6 * timeout
    ensures var pcie := RunAfter(w, turns).state.pcie;
            i < |pcie| && pcie[i].Published? && device in pcie[i].devices ==> pcie[i].devices[device].lastDuration <= 2 * timeout
  {
    hide RunWithin, Brief;
    History.EveryRunSound(w, turns);
    RunBrief(w, turns, 2 * timeout);
    var st := RunAfter(w, turns).state;
    if i < |st.net| && st.net[i].Published? && device in st.net[i].devices {
      PublishedBrief(NO_DATA, st.net, i, device, 2 * timeout * 3);
    }
    if i < |st.pcie| && st.pcie[i].Published? && device in st.pcie[i].devices {
      PublishedBrief(NO_PCIE_EYE, st.pcie, i, device, 2 * timeout * 1);
    }
  }
}
