/**
 Theorems over every run: what scrapes can see, where it comes from, readiness,
 error totals and the order of runner calls.
 */
module History {
  import opened Wrappers
  import opened Model
  import opened Journal
  import opened Attempts
  import opened Sweeps
  import opened Runs

  /** Device names are directory entries, so one discovery never repeats a name. */
  ghost predicate DistinctDiscovery(w: World) {
    forall n :: w.host.discover(n).Some? ==> DistinctDevices(w.host.discover(n).value)
  }

  ghost predicate PhaseSound<D>(zero: D, host: Host, c: Cursor, log: Log<D>) {
    && Faithful(zero, log) && AnnouncedAfterPublish(log)
    && (InSync(zero, log) || host.Cancelled(c.samples))
  }

  /** What holds between any two steps of any run. */
  ghost predicate Sound(w: World, st: State) {
    && PhaseSound(NO_DATA, w.host, st.cursor, st.net)
    && PhaseSound(NO_PCIE_EYE, w.host, st.cursor, st.pcie)
  }

  lemma CollectorsStop(w: World)
    ensures Stops(NetworkCollector(w), w.host) && Stops(PCIeCollector(w), w.host)
  {
    forall c, t ensures StopsWhenCancelled(NetworkCollector(w)(c, t), w.host, c) {
      StagedStops(w, c.Read(), t, Stages(w.showEye), w.host.clock(c.readings));
    }
  }

  lemma PhaseStep<D>(zero: D, collect: Collector<D>, announce: bool, host: Host, c: Cursor, targets: seq<Target>, log: Log<D>)
    requires Stops(collect, host) && DistinctDevices(targets) && PhaseSound(zero, host, c, log)
    ensures var s := SweepDevices(zero, collect, announce, c, targets, LastPublished(log));
            PhaseSound(zero, host, s.cursor, log + [Discovered(targets)] + s.events)
            && c.samples <= s.cursor.samples
  {
    SweepFaithful(zero, collect, announce, host, c, targets, log);
  }

  /** More looks at the context never make an unsound phase. */
  lemma PhaseLater<D>(zero: D, host: Host, c: Cursor, later: Cursor, log: Log<D>)
    requires PhaseSound(zero, host, c, log) && c.samples <= later.samples
    ensures PhaseSound(zero, host, later, log)
  {
  }

  lemma NetworkPhaseSound(w: World, st: State, targets: seq<Target>)
    requires Sound(w, st) && DistinctDevices(targets)
    ensures Sound(w, NetworkPhase(w, st, targets))
  {
    CollectorsStop(w);
    PhaseStep(NO_DATA, NetworkCollector(w), true, w.host, st.cursor, targets, st.net);
    PhaseLater(NO_PCIE_EYE, w.host, st.cursor, NetworkPhase(w, st, targets).cursor, st.pcie);
  }

  lemma PCIePhaseSound(w: World, st: State, targets: seq<Target>)
    requires Sound(w, st) && DistinctDevices(targets)
    ensures Sound(w, PCIePhase(w, st, targets))
  {
    CollectorsStop(w);
    PhaseStep(NO_PCIE_EYE, PCIeCollector(w), false, w.host, st.cursor, targets, st.pcie);
    PhaseLater(NO_DATA, w.host, st.cursor, PCIePhase(w, st, targets).cursor, st.net);
  }

  lemma SweepSound(w: World, st: State)
    requires DistinctDiscovery(w) && Sound(w, st)
    ensures Sound(w, Sweep(w, st))
  {
    var found := w.host.discover(st.cursor.discoveries);
    var begun := Begun(st);
    PhaseLater(NO_DATA, w.host, st.cursor, begun.cursor, st.net);
    PhaseLater(NO_PCIE_EYE, w.host, st.cursor, begun.cursor, st.pcie);
    if found.Some? {
      NetworkPhaseSound(w, begun, found.value);
      PCIePhaseSound(w, NetworkPhase(w, begun, found.value), found.value);
    }
  }

  lemma LookSound(w: World, st: State)
    requires Sound(w, st)
    ensures Sound(w, Look(st))
  {
    PhaseLater(NO_DATA, w.host, st.cursor, st.cursor.Sampled(), st.net);
    PhaseLater(NO_PCIE_EYE, w.host, st.cursor, st.cursor.Sampled(), st.pcie);
  }

  /**
   History refinement. At every point of every run, whatever the schedule and
   however it is shut down, each set ever published in either phase is exactly
   the fold of the attempt history up to that moment; and until shutdown the
   store itself is.
   */
  lemma {:induction false} EveryRunSound(w: World, turns: seq<Turn>)
    requires DistinctDiscovery(w)
    ensures Sound(w, RunAfter(w, turns).state)
  {
    if turns == [] {
      LookSound(w, INITIAL);
      if !w.host.Cancelled(0) {
        SweepSound(w, Look(INITIAL));
      }
    } else {
      var r := RunAfter(w, turns[..|turns| - 1]);
      EveryRunSound(w, turns[..|turns| - 1]);
      LookSound(w, r.state);
      SweepSound(w, Look(r.state));
      LookSound(w, Sweep(w, Look(r.state)));
    }
  }

  /** Without shutdown the store always equals the fold of the history. */
  lemma UncancelledStore(w: World, turns: seq<Turn>, device: string)
    requires DistinctDiscovery(w) && w.host.cancelAt.None?
    ensures StoreLookup(LastPublished(RunAfter(w, turns).state.net), device)
         == Entry(NO_DATA, RunAfter(w, turns).state.net, device)
    ensures StoreLookup(LastPublished(RunAfter(w, turns).state.pcie), device)
         == Entry(NO_PCIE_EYE, RunAfter(w, turns).state.pcie, device)
  {
    EveryRunSound(w, turns);
  }

  // ----- every event is an attempt's -----

  /** Everything in the journals was done by an attempt; this needs nothing of the discovered names. */
  ghost predicate OnlyAttempts(w: World, st: State) {
    AllGenuine(NetworkCollector(w), st.net) && AllGenuine(PCIeCollector(w), st.pcie)
  }

  lemma GenuineConcat<D>(collect: Collector<D>, a: Log<D>, b: Log<D>)
    requires AllGenuine(collect, a) && AllGenuine(collect, b)
    ensures AllGenuine(collect, a + b)
  {
  }

  lemma PhaseGenuine<D>(zero: D, collect: Collector<D>, announce: bool, c: Cursor, targets: seq<Target>, log: Log<D>)
    requires AllGenuine(collect, log)
    ensures AllGenuine(collect, log + [Discovered(targets)]
                                + SweepDevices(zero, collect, announce, c, targets, LastPublished(log)).events)
  {
    var store := LastPublished(log);
    VisitGenuine(zero, collect, announce, c, targets, store, Seed(store, targets));
    GenuineConcat(collect, log + [Discovered(targets)], SweepDevices(zero, collect, announce, c, targets, store).events);
  }

  lemma SweepGenuine(w: World, st: State)
    requires OnlyAttempts(w, st)
    ensures OnlyAttempts(w, Sweep(w, st))
  {
    var found := w.host.discover(st.cursor.discoveries);
    if found.Some? {
      var begun := Begun(st);
      PhaseGenuine(NO_DATA, NetworkCollector(w), true, begun.cursor, found.value, begun.net);
      var after := NetworkPhase(w, begun, found.value);
      PhaseGenuine(NO_PCIE_EYE, PCIeCollector(w), false, after.cursor, found.value, after.pcie);
    }
  }

  lemma {:induction false} EveryRunGenuine(w: World, turns: seq<Turn>)
    ensures OnlyAttempts(w, RunAfter(w, turns).state)
  {
    if turns == [] {
      SweepGenuine(w, Look(INITIAL));
    } else {
      var r := RunAfter(w, turns[..|turns| - 1]);
      EveryRunGenuine(w, turns[..|turns| - 1]);
      SweepGenuine(w, Look(r.state));
    }
  }

  // ----- where published data comes from -----

  /** The set published at point i of a journal shows the device with these snapshot fields' sources. */
  lemma PublishedSource<D>(zero: D, collect: Collector<D>, log: Log<D>, i: nat, device: string)
    requires Faithful(zero, log) && AllGenuine(collect, log)
    requires i < |log| && log[i].Published? && device in log[i].devices
    ensures var s := log[i].devices[device];
            && s.target.device == device
            && LatestAttempt(log[..i], device).Some?
            && (s.lastError == None <==> LatestAttempt(log[..i], device).value.1.Success?)
            && (match LatestSuccess(log[..i], device)
                case None => s.data == zero && s.lastSuccess == None
                case Some(o) => o.Success? && s.data == o.data && s.lastSuccess == Some(o.at) && FromCollector(collect, device, o))
  {
    assert Lookup(log[i].devices, device) == Entry(zero, log[..i], device);
    EntryFields(zero, log[..i], device);
    LatestSuccessRecorded(log[..i], device);
    var o := LatestSuccess(log[..i], device);
    if o.Some? {
      var k :| 0 <= k < i && log[..i][k].Collected? && log[..i][k].target.device == device && log[..i][k].outcome == o.value;
      assert Genuine(collect, log[k]);
      var e := log[k];
      var c :| IsAttempt(collect(c, e.target), e.calls, e.errors, Some(e.outcome));
      assert collect(c, e.target).outcome == Some(o.value);
    }
  }

  ghost predicate FromCollector<D>(collect: Collector<D>, device: string, o: Outcome<D>) {
    exists c, t: Target :: t.device == device && collect(c, t).outcome == Some(o)
  }

  lemma NetworkOutcomeSourced(w: World, device: string, o: Outcome<PortData>)
    requires o.Success? && FromCollector(NetworkCollector(w), device, o)
    ensures NetworkSourced(w, o) && o.via in Stages(w.showEye)
  {
    var c, t: Target :| t.device == device && NetworkCollector(w)(c, t).outcome == Some(o);
    StagedSource(w, c.Read(), t, Stages(w.showEye), w.host.clock(c.readings));
    var calls := Collect(w, c, t).calls;
    assert o.via == Stages(w.showEye)[|calls| - 1];
  }

  /**
   Section authority: in every set ever published, Eye data means the device's
   last success answered an Eye query, FEC or SerDes data means it did not answer
   the baseline query, and with Eye off there is no Eye data, whatever the
   responses held.
   */
  lemma PublishedAuthority(w: World, turns: seq<Turn>, i: nat, device: string)
    requires DistinctDiscovery(w)
    requires var net := RunAfter(w, turns).state.net;
             i < |net| && net[i].Published? && device in net[i].devices
    ensures var net := RunAfter(w, turns).state.net;
            var data, source := net[i].devices[device].data, LatestSuccess(net[..i], device);
            && (data.eye != NO_EYE ==> w.showEye && source.Some? && source.value.Success? && source.value.via == WithEye)
            && (data.fecHistogram != [] || data.serDesTX != NO_SERDES ==>
                  source.Some? && source.value.Success? && source.value.via != Baseline)
  {
    EveryRunSound(w, turns);
    EveryRunGenuine(w, turns);
    var net := RunAfter(w, turns).state.net;
    PublishedSource(NO_DATA, NetworkCollector(w), net, i, device);
    var source := LatestSuccess(net[..i], device);
    if source.Some? {
      NetworkOutcomeSourced(w, device, source.value);
    }
  }

  /**
   What a published snapshot shows: section by section what the latest successful
   query on the device is trusted with, of a response that decodes; nothing at all
   before the first success.
   */
  lemma PublishedSections(w: World, turns: seq<Turn>, i: nat, device: string)
    requires DistinctDiscovery(w)
    requires var net := RunAfter(w, turns).state.net;
             i < |net| && net[i].Published? && device in net[i].devices
    ensures var net := RunAfter(w, turns).state.net;
            var data := net[i].devices[device].data;
            match LatestSuccess(net[..i], device)
            case None => data == NO_DATA
            case Some(o) =>
              && o.Success? && o.via in {WithEye, Combined, Baseline} && (o.via == WithEye ==> w.showEye)
              && w.host.network(o.call).Ok? && w.decode(w.host.network(o.call).value).Some?
              && KeepsSections(o.via, data, w.decode(w.host.network(o.call).value).value)
  {
    hide KeepsSections, Collect;
    EveryRunSound(w, turns);
    EveryRunGenuine(w, turns);
    var net := RunAfter(w, turns).state.net;
    PublishedSource(NO_DATA, NetworkCollector(w), net, i, device);
    var source := LatestSuccess(net[..i], device);
    if source.Some? {
      var c, t: Target :| t.device == device && NetworkCollector(w)(c, t).outcome == Some(source.value);
      CollectKeeps(w, c, t);
    }
  }

  // ----- readiness -----

  /**
   Readiness is safe: it is announced only right after a set showing the device
   collected has been published; from then on the store is never nil; and every
   later set shows that device with a last success for as long as every discovery
   in between reports it.
   */
  lemma ReadinessSafe(w: World, turns: seq<Turn>, i: nat, j: nat)
    requires DistinctDiscovery(w)
    requires var net := RunAfter(w, turns).state.net;
             i < j < |net| && net[i].Announced? && net[j].Published?
    ensures var net := RunAfter(w, turns).state.net;
            && AnnouncedAt(net, i)
            && LastPublished(net).Some?
            && (KeptBetween(net, net[i - 2].target.device, i, j) ==>
                  net[i - 2].target.device in net[j].devices
                  && net[j].devices[net[i - 2].target.device].lastSuccess.Some?)
  {
    EveryRunSound(w, turns);
    var net := RunAfter(w, turns).state.net;
    assert AnnouncedAt(net, i);
    PublishedStays(net, j);
    if KeptBetween(net, net[i - 2].target.device, i, j) {
      AnnouncedStays(NO_DATA, net, i, j);
    }
  }

  /** A published set shows a success on the device exactly when some success has been kept until then. */
  lemma SetShowsExactly<D>(zero: D, log: Log<D>, j: nat, device: string)
    requires Faithful(zero, log) && j < |log| && log[j].Published?
    ensures device in log[j].devices && log[j].devices[device].lastSuccess.Some?
       <==> exists k: nat :: SuccessKept(log, j, device, k)
  {
    assert Lookup(log[j].devices, device) == Entry(zero, log[..j], device);
    EntryFields(zero, log[..j], device);
    LatestSuccessExactly(log, j, device);
  }

  /**
   What a set can offer, in every run and in both phases: a device is there with a
   last success if and only if an attempt on it succeeded earlier and every
   discovery since has reported it.
   */
  lemma ShownExactly(w: World, turns: seq<Turn>, j: nat, device: string)
    requires DistinctDiscovery(w)
    ensures var net := RunAfter(w, turns).state.net;
            j < |net| && net[j].Published? ==>
              (device in net[j].devices && net[j].devices[device].lastSuccess.Some?
               <==> exists k: nat :: SuccessKept(net, j, device, k))
    ensures var pcie := RunAfter(w, turns).state.pcie;
            j < |pcie| && pcie[j].Published? ==>
              (device in pcie[j].devices && pcie[j].devices[device].lastSuccess.Some?
               <==> exists k: nat :: SuccessKept(pcie, j, device, k))
  {
    hide SuccessKept;
    EveryRunSound(w, turns);
    var st := RunAfter(w, turns).state;
    if j < |st.net| && st.net[j].Published? {
      SetShowsExactly(NO_DATA, st.net, j, device);
    }
    if j < |st.pcie| && st.pcie[j].Published? {
      SetShowsExactly(NO_PCIE_EYE, st.pcie, j, device);
    }
  }

  // ----- readiness, exactly -----

  /** The poller has announced readiness exactly when some attempt has succeeded. */
  ghost predicate ReadyBySuccess<D>(log: Log<D>) { Ready(log) <==> Successes(log) > 0 }

  lemma SuccessesSnoc<D>(log: Log<D>, e: Event<D>)
    ensures Successes(log + [e]) == Successes(log) + (if e.Collected? && e.outcome.Success? then 1 else 0)
  {
    assert (log + [e])[..|log|] == log;
  }

  lemma QuietReady<D>(log: Log<D>, e: Event<D>)
    requires ReadyBySuccess(log) && !e.Announced? && !(e.Collected? && e.outcome.Success?)
    ensures ReadyBySuccess(log + [e])
  {
    SuccessesSnoc(log, e);
    ReadySnoc(log, e);
  }

  lemma VisitEventsReady(log: Log<PortData>, t: Target, a: Attempt<PortData>, now: SnapshotMap<PortData>)
    requires a.outcome.Some? && ReadyBySuccess(log)
    ensures ReadyBySuccess(log + VisitEvents(t, a, now, true))
  {
    var collected := Collected(t, a.calls, a.errors, a.outcome.value);
    var one := log + [collected];
    var two := one + [Published(now)];
    SuccessesSnoc(log, collected);
    SuccessesSnoc(one, Published(now));
    SuccessesSnoc(two, Announced);
    ReadySnoc(log, collected);
    ReadySnoc(one, Published(now));
    ReadySnoc(two, Announced);
    assert log + VisitEvents(t, a, now, true) == if a.outcome.value.Success? then two + [Announced] else two;
  }

  lemma {:induction false} VisitReady(w: World, c: Cursor, targets: seq<Target>, previous: Option<SnapshotMap<PortData>>,
                                      working: SnapshotMap<PortData>, log: Log<PortData>)
    requires ReadyBySuccess(log)
    ensures ReadyBySuccess(log + Visit(NO_DATA, NetworkCollector(w), true, c, targets, previous, working).events)
    decreases |targets|
  {
    hide Collect, VisitEvents, Fold, StoreLookup, ReadyBySuccess;
    var s := Visit(NO_DATA, NetworkCollector(w), true, c, targets, previous, working);
    if targets == [] {
      assert log + s.events == log;
    } else {
      var t := targets[0];
      var a := Collect(w, c, t);
      if a.outcome.None? {
        QuietReady(log, Abandoned(t, a.calls, a.errors));
      } else {
        var now := working[t.device := Fold(NO_DATA, StoreLookup(previous, t.device), t, a.outcome.value)];
        var after := log + VisitEvents(t, a, now, true);
        VisitEventsReady(log, t, a, now);
        VisitReady(w, a.cursor, targets[1..], previous, now, after);
        assert log + s.events == after + Visit(NO_DATA, NetworkCollector(w), true, a.cursor, targets[1..], previous, now).events;
      }
    }
  }

  lemma SweepReady(w: World, st: State)
    requires ReadyBySuccess(st.net)
    ensures ReadyBySuccess(Sweep(w, st).net)
  {
    hide ReadyBySuccess;
    var found := w.host.discover(st.cursor.discoveries);
    if found.Some? {
      var targets, begun := found.value, Begun(st);
      var store := LastPublished(st.net);
      QuietReady(st.net, Discovered(targets));
      QuietReady(st.net + [Discovered(targets)], Published(map[]));
      VisitReady(w, begun.cursor, targets, store, Seed(store, targets), st.net + [Discovered(targets)]);
    }
  }

  /** In every run the poller is ready exactly when some device has ever been collected successfully. */
  lemma ReadyExactly(w: World, turns: seq<Turn>)
    ensures Ready(RunAfter(w, turns).state.net) <==> Successes(RunAfter(w, turns).state.net) > 0
  {
    RunReady(w, turns);
  }

  lemma {:induction false} RunReady(w: World, turns: seq<Turn>)
    ensures ReadyBySuccess(RunAfter(w, turns).state.net)
  {
    hide Sweep;
    if turns == [] {
      SweepReady(w, Look(INITIAL));
    } else {
      var r := RunAfter(w, turns[..|turns| - 1]);
      RunReady(w, turns[..|turns| - 1]);
      SweepReady(w, Look(r.state));
    }
  }

  // ----- error totals -----

  lemma GenuineAccounted(w: World, e: Event<PortData>)
    requires Genuine(NetworkCollector(w), e)
    ensures Accounted(e)
    ensures e.Collected? ==> CountedExactly(e.target, e.calls, e.errors, e.outcome)
    ensures e.Abandoned? && !w.showEye ==> e.errors == multiset{}
  {
    if e.Collected? {
      var c :| IsAttempt(NetworkCollector(w)(c, e.target), e.calls, e.errors, Some(e.outcome));
      StagedCounts(w, c.Read(), e.target, Stages(w.showEye), w.host.clock(c.readings));
    } else if e.Abandoned? {
      var c :| IsAttempt(NetworkCollector(w)(c, e.target), e.calls, e.errors, None);
      if !w.showEye {
        AbandonedCountsNothing(w, c.Read(), e.target, Stages(false), w.host.clock(c.readings));
      }
    }
  }

  // ----- what abandoned attempts leave in the counter -----

  /** At most two counts are left over, and only once the context is cancelled. */
  ghost predicate LittleLeft(w: World, c: Cursor, log: Log<PortData>) {
    AbandonedErrors(log) <= 2 && (AbandonedErrors(log) > 0 ==> w.host.Cancelled(c.samples))
  }

  lemma AttemptLeaves(w: World, c: Cursor, t: Target)
    ensures var a := Collect(w, c, t);
            && c.samples <= a.cursor.samples
            && (a.outcome.None? ==>
                  && |a.errors| <= 2 && (|a.errors| > 0 ==> !w.host.Cancelled(c.samples))
                  && w.host.Cancelled(a.cursor.samples))
  {
    hide Staged, LooksOf, PlainCalls, Exited, Answered;
    var a := Collect(w, c, t);
    CollectorsStop(w);
    assert StopsWhenCancelled(NetworkCollector(w)(c, t), w.host, c);
    if w.showEye {
      AbandonedEyeCounts(w, c, t);
    } else {
      AbandonedCountsNothing(w, c.Read(), t, Stages(false), w.host.clock(c.readings));
    }
  }

  lemma AbandonedErrorsSnoc<D>(log: Log<D>, e: Event<D>)
    ensures AbandonedErrors(log + [e]) == AbandonedErrors(log) + (if e.Abandoned? then |e.errors| else 0)
  {
    assert (log + [e])[..|log|] == log;
  }

  lemma VisitEventsLeave(t: Target, a: Attempt<PortData>, now: SnapshotMap<PortData>, log: Log<PortData>)
    requires a.outcome.Some?
    ensures AbandonedErrors(log + VisitEvents(t, a, now, true)) == AbandonedErrors(log)
  {
    var one := log + [Collected(t, a.calls, a.errors, a.outcome.value)];
    var two := one + [Published(now)];
    AbandonedErrorsSnoc(log, Collected(t, a.calls, a.errors, a.outcome.value));
    AbandonedErrorsSnoc(one, Published(now));
    AbandonedErrorsSnoc(two, Announced);
    assert log + VisitEvents(t, a, now, true) == if a.outcome.value.Success? then two + [Announced] else two;
  }

  lemma {:induction false} VisitLeaves(w: World, c: Cursor, targets: seq<Target>, previous: Option<SnapshotMap<PortData>>,
                                       working: SnapshotMap<PortData>, log: Log<PortData>)
    requires LittleLeft(w, c, log)
    ensures var s := Visit(NO_DATA, NetworkCollector(w), true, c, targets, previous, working);
            LittleLeft(w, s.cursor, log + s.events)
    decreases |targets|
  {
    hide Collect, VisitEvents, Fold, StoreLookup, AbandonedErrors;
    var s := Visit(NO_DATA, NetworkCollector(w), true, c, targets, previous, working);
    if targets == [] {
      assert log + s.events == log;
    } else {
      var t := targets[0];
      var a := Collect(w, c, t);
      AttemptLeaves(w, c, t);
      if a.outcome.None? {
        AbandonedErrorsSnoc(log, Abandoned(t, a.calls, a.errors));
      } else {
        var now := working[t.device := Fold(NO_DATA, StoreLookup(previous, t.device), t, a.outcome.value)];
        var after := log + VisitEvents(t, a, now, true);
        VisitEventsLeave(t, a, now, log);
        VisitLeaves(w, a.cursor, targets[1..], previous, now, after);
        assert log + s.events == after + Visit(NO_DATA, NetworkCollector(w), true, a.cursor, targets[1..], previous, now).events;
      }
    }
  }

  lemma NetworkPhaseLeaves(w: World, st: State, targets: seq<Target>)
    requires LittleLeft(w, st.cursor, st.net)
    ensures LittleLeft(w, NetworkPhase(w, st, targets).cursor, NetworkPhase(w, st, targets).net)
  {
    var store, begun := LastPublished(st.net), st.net + [Discovered(targets)];
    AbandonedErrorsSnoc(st.net, Discovered(targets));
    AbandonedErrorsSnoc(begun, Published(map[]));
    VisitLeaves(w, st.cursor, targets, store, Seed(store, targets), begun);
  }

  lemma {:induction false} VisitForward<D>(zero: D, collect: Collector<D>, announce: bool, host: Host, c: Cursor,
                                           targets: seq<Target>, previous: Option<SnapshotMap<D>>, working: SnapshotMap<D>)
    requires Stops(collect, host)
    ensures c.samples <= Visit(zero, collect, announce, c, targets, previous, working).cursor.samples
    decreases |targets|
  {
    if targets != [] {
      var t := targets[0];
      var a := collect(c, t);
      assert StopsWhenCancelled(a, host, c);
      if a.outcome.Some? {
        var now := working[t.device := Fold(zero, StoreLookup(previous, t.device), t, a.outcome.value)];
        VisitForward(zero, collect, announce, host, a.cursor, targets[1..], previous, now);
      }
    }
  }

  lemma SweepLeaves(w: World, st: State)
    requires LittleLeft(w, st.cursor, st.net)
    ensures LittleLeft(w, Sweep(w, st).cursor, Sweep(w, st).net)
  {
    hide LittleLeft, NetworkPhase;
    var found := w.host.discover(st.cursor.discoveries);
    var begun := Begun(st);
    LeftLater(w, st.cursor, begun.cursor, st.net);
    if found.Some? {
      var targets := found.value;
      NetworkPhaseLeaves(w, begun, targets);
      var after := NetworkPhase(w, begun, targets);
      var links := LastPublished(after.pcie);
      CollectorsStop(w);
      VisitForward(NO_PCIE_EYE, PCIeCollector(w), false, w.host, after.cursor, targets, links, Seed(links, targets));
      LeftLater(w, after.cursor, PCIePhase(w, after, targets).cursor, after.net);
    }
  }

  lemma LeftLater(w: World, c: Cursor, later: Cursor, log: Log<PortData>)
    requires LittleLeft(w, c, log) && c.samples <= later.samples
    ensures LittleLeft(w, later, log)
  {
  }

  lemma {:induction false} RunLeaves(w: World, turns: seq<Turn>)
    ensures LittleLeft(w, RunAfter(w, turns).state.cursor, RunAfter(w, turns).state.net)
  {
    hide Sweep;
    if turns == [] {
      SweepLeaves(w, Look(INITIAL));
    } else {
      var r := RunAfter(w, turns[..|turns| - 1]);
      RunLeaves(w, turns[..|turns| - 1]);
      var looked := Look(r.state);
      LeftLater(w, r.state.cursor, looked.cursor, r.state.net);
      SweepLeaves(w, looked);
      LeftLater(w, Sweep(w, looked).cursor, Look(Sweep(w, looked)).cursor, Sweep(w, looked).net);
    }
  }

  /**
   Conservation over any run: the error counter's total is the runner calls of
   completed attempts minus the successful attempts, plus at most two counts that
   one abandoned Eye attempt may have left; without Eye nothing is ever left.
   */
  lemma RunErrorsConserved(w: World, turns: seq<Turn>)
    ensures var net := RunAfter(w, turns).state.net;
            && |Errors(net)| + Successes(net) == CompletedCalls(net) + AbandonedErrors(net)
            && AbandonedErrors(net) <= 2
            && (!w.showEye || w.host.cancelAt.None? ==> AbandonedErrors(net) == 0)
  {
    EveryRunGenuine(w, turns);
    RunLeaves(w, turns);
    var net := RunAfter(w, turns).state.net;
    forall i | 0 <= i < |net| ensures Accounted(net[i]) && (net[i].Abandoned? && !w.showEye ==> net[i].errors == multiset{}) {
      assert Genuine(NetworkCollector(w), net[i]);
      GenuineAccounted(w, net[i]);
    }
    ErrorsConserved(net);
    if !w.showEye {
      NothingAbandoned(net);
    }
  }

  /** The PCIe counter, over any run: one per call that did not succeed, and nothing from abandoned attempts. */
  lemma RunPCIeErrorsConserved(w: World, turns: seq<Turn>)
    ensures var pcie := RunAfter(w, turns).state.pcie;
            |Errors(pcie)| + Successes(pcie) == CompletedCalls(pcie) && AbandonedErrors(pcie) == 0
  {
    EveryRunGenuine(w, turns);
    var pcie := RunAfter(w, turns).state.pcie;
    forall i | 0 <= i < |pcie| ensures Accounted(pcie[i]) && (pcie[i].Abandoned? ==> pcie[i].errors == multiset{}) {
      assert Genuine(PCIeCollector(w), pcie[i]);
      PCIeAccounted(w, pcie[i]);
    }
    ErrorsConserved(pcie);
    NothingAbandoned(pcie);
  }

  lemma PCIeAccounted(w: World, e: Event<PCIeEye>)
    requires Genuine(PCIeCollector(w), e)
    ensures Accounted(e) && (e.Abandoned? ==> e.errors == multiset{})
  {
    if e.Collected? {
      var c :| IsAttempt(PCIeCollector(w)(c, e.target), e.calls, e.errors, Some(e.outcome));
      PCIeCounts(w, c, e.target);
    } else if e.Abandoned? {
      var c :| IsAttempt(PCIeCollector(w)(c, e.target), e.calls, e.errors, None);
      PCIeCounts(w, c, e.target);
    }
  }

  lemma {:induction false} NothingAbandoned<D>(log: Log<D>)
    requires forall i | 0 <= i < |log| :: log[i].Abandoned? ==> log[i].errors == multiset{}
    ensures AbandonedErrors(log) == 0
  {
    if log != [] {
      assert forall i | 0 <= i < |log| - 1 :: log[..|log| - 1][i] == log[i];
      NothingAbandoned(log[..|log| - 1]);
      assert log[|log| - 1].Abandoned? ==> log[|log| - 1].errors == multiset{};
    }
  }

  // ----- runner calls -----

  /**
   The attempts of a sweep, from their place on the tapes. A completed one called
   on past exactly the non-zero exits; an abandoned one, which ends the sweep, did
   so as long as the looks at the context it took there found it live.
   */
  ghost predicate FollowsGrammar(w: World, c: Cursor, events: Log<PortData>)
    decreases |events|
  {
    if events == [] then true
    else
      match events[0]
      case Collected(_, calls, _, _) =>
        && CompletedGrammar(w, c.Read(), Stages(w.showEye), calls)
        && FollowsGrammar(w, Past(w, c.Read(), calls), events[1..])
      case Abandoned(_, calls, _) =>
        calls != [] && CallGrammar(w, c.Read(), Stages(w.showEye), calls) && events[1..] == []
      case _ => FollowsGrammar(w, c, events[1..])
  }

  lemma CollectGrammar(w: World, c: Cursor, t: Target)
    ensures var a := Collect(w, c, t);
            && a.calls != [] && CallGrammar(w, c.Read(), Stages(w.showEye), a.calls)
            && (a.outcome.Some? ==>
                  CompletedGrammar(w, c.Read(), Stages(w.showEye), a.calls) && a.cursor == Past(w, c.Read(), a.calls))
  {
    hide Staged, CompletedGrammar, CallGrammar, Past;
    StagedGrammar(w, c.Read(), t, w.showEye, w.host.clock(c.readings));
    StagedCompleted(w, c.Read(), t, Stages(w.showEye), w.host.clock(c.readings));
  }

  lemma {:induction false} VisitGrammar(w: World, c: Cursor, targets: seq<Target>,
                                        previous: Option<SnapshotMap<PortData>>, working: SnapshotMap<PortData>)
    ensures FollowsGrammar(w, c, Visit(NO_DATA, NetworkCollector(w), true, c, targets, previous, working).events)
    decreases |targets|
  {
    hide Collect, CallGrammar, CompletedGrammar, Past, Fold, StoreLookup, VisitEvents;
    if targets != [] {
      var t := targets[0];
      var a := Collect(w, c, t);
      CollectGrammar(w, c, t);
      var events := Visit(NO_DATA, NetworkCollector(w), true, c, targets, previous, working).events;
      if a.outcome.Some? {
        var now := working[t.device := Fold(NO_DATA, StoreLookup(previous, t.device), t, a.outcome.value)];
        VisitGrammar(w, a.cursor, targets[1..], previous, now);
        var rest := Visit(NO_DATA, NetworkCollector(w), true, a.cursor, targets[1..], previous, now).events;
        GrammarFront(w, c, t, a, now, rest);
      } else {
        assert events[1..] == [];
      }
    }
  }

  lemma GrammarFront(w: World, c: Cursor, t: Target, a: Attempt<PortData>, now: SnapshotMap<PortData>, rest: Log<PortData>)
    requires a.outcome.Some? && CompletedGrammar(w, c.Read(), Stages(w.showEye), a.calls)
    requires FollowsGrammar(w, Past(w, c.Read(), a.calls), rest)
    ensures FollowsGrammar(w, c, VisitEvents(t, a, now, true) + rest)
  {
    hide CompletedGrammar, Past;
    var events := VisitEvents(t, a, now, true) + rest;
    var after := Past(w, c.Read(), a.calls);
    var tail: Log<PortData> := if a.outcome.value.Success? then [Announced] + rest else rest;
    assert events[1..] == [Published(now)] + tail;
    assert ([Published(now)] + tail)[1..] == tail;
    if a.outcome.value.Success? {
      assert tail[1..] == rest;
    }
    assert FollowsGrammar(w, after, tail);
    assert FollowsGrammar(w, after, [Published(now)] + tail);
  }

  /** One PCIe query per attempted device. */
  ghost function PCIeCalls(targets: seq<Target>): seq<Invocation> {
    seq(|targets|, i requires 0 <= i < |targets| => Invocation(PCIeQuery, targets[i].device))
  }

  lemma {:induction false} PCIeVisitCalls(w: World, c: Cursor, targets: seq<Target>,
                                          previous: Option<SnapshotMap<PCIeEye>>, working: SnapshotMap<PCIeEye>)
    ensures var s := Visit(NO_PCIE_EYE, PCIeCollector(w), false, c, targets, previous, working);
            && Invocations(s.events) <= PCIeCalls(targets)
            && (s.completed ==> Invocations(s.events) == PCIeCalls(targets))
    decreases |targets|
  {
    var s := Visit(NO_PCIE_EYE, PCIeCollector(w), false, c, targets, previous, working);
    if targets != [] {
      var t := targets[0];
      var a := CollectPCIe(w, c, t);
      PCIeCounts(w, c, t);
      var mine := CallsOn([PCIeQuery], t.device);
      assert PCIeCalls(targets) == mine + PCIeCalls(targets[1..]);
      if a.outcome.Some? {
        var now := working[t.device := Fold(NO_PCIE_EYE, StoreLookup(previous, t.device), t, a.outcome.value)];
        PCIeVisitCalls(w, a.cursor, targets[1..], previous, now);
        var rest := Visit(NO_PCIE_EYE, PCIeCollector(w), false, a.cursor, targets[1..], previous, now).events;
        VisitInvocations(t, a, now, false, rest);
      } else {
        assert s.events[1..] == [];
        assert Invocations(s.events) == mine;
      }
    }
  }

  /** The sweep has a PCIe phase: it is enabled and the network phase ran to completion. */
  ghost predicate PCIeRuns(w: World, st: State, targets: seq<Target>) {
    NetworkSweep(w, Begun(st), targets).completed && w.showPCIeEye
  }

  /** The runner calls of the sweep's PCIe phase, if it has one. */
  ghost function PCIeTrace(w: World, st: State, targets: seq<Target>): seq<Invocation> {
    if PCIeRuns(w, st, targets)
    then Invocations(PCIeSweep(w, NetworkPhase(w, Begun(st), targets), targets).events)
    else []
  }

  lemma PCIeTraceShape(w: World, st: State, targets: seq<Target>)
    ensures PCIeTrace(w, st, targets) <= PCIeCalls(targets)
    ensures PCIeRuns(w, st, targets) && PCIeSweep(w, NetworkPhase(w, Begun(st), targets), targets).completed ==>
              PCIeTrace(w, st, targets) == PCIeCalls(targets)
  {
    var after := NetworkPhase(w, Begun(st), targets);
    var store := LastPublished(after.pcie);
    PCIeVisitCalls(w, after.cursor, targets, store, Seed(store, targets));
    if targets == [] {
      assert PCIeSweep(w, after, targets).events[1..] == [];
    }
  }

  lemma NetworkTraceShape(w: World, st: State, targets: seq<Target>)
    ensures var s := NetworkSweep(w, st, targets);
            && FollowsGrammar(w, st.cursor, s.events)
            && AttemptedTargets(s.events) <= targets
            && (s.completed ==> AttemptedTargets(s.events) == targets)
  {
    var store := LastPublished(st.net);
    if targets == [] {
      assert NetworkSweep(w, st, targets).events[1..] == [];
    } else {
      VisitGrammar(w, st.cursor, targets, store, Seed(store, targets));
      VisitInOrder(NO_DATA, NetworkCollector(w), true, st.cursor, targets, store, Seed(store, targets));
    }
  }

  /**
   The runner calls a sweep adds to the trace: the targets in order, each with a
   prefix of the staged queries extended exactly past a non-zero exit; then, when
   enabled and the network phase completed, one PCIe query per target in order,
   all of them unless that phase is cut short too. A failed discovery calls
   nothing and changes nothing.
   */
  lemma SweepTrace(w: World, st: State)
    ensures match w.host.discover(st.cursor.discoveries)
            case None => Sweep(w, st).trace == st.trace && Sweep(w, st).net == st.net && Sweep(w, st).pcie == st.pcie
            case Some(targets) =>
              var s := NetworkSweep(w, Begun(st), targets);
              && Sweep(w, st).trace == st.trace + Invocations(s.events) + PCIeTrace(w, st, targets)
              && FollowsGrammar(w, Begun(st).cursor, s.events)
              && AttemptedTargets(s.events) <= targets
              && (s.completed ==> AttemptedTargets(s.events) == targets)
              && PCIeTrace(w, st, targets) <= PCIeCalls(targets)
              && (PCIeRuns(w, st, targets) && PCIeSweep(w, NetworkPhase(w, Begun(st), targets), targets).completed ==>
                    PCIeTrace(w, st, targets) == PCIeCalls(targets))
              && (!PCIeRuns(w, st, targets) ==> PCIeTrace(w, st, targets) == [])
  {
    match w.host.discover(st.cursor.discoveries)
    case None =>
    case Some(targets) =>
      NetworkTraceShape(w, Begun(st), targets);
      PCIeTraceShape(w, st, targets);
  }

  lemma {:induction false} NeverCutShort<D>(zero: D, collect: Collector<D>, announce: bool, host: Host, c: Cursor,
                                            targets: seq<Target>, previous: Option<SnapshotMap<D>>, working: SnapshotMap<D>)
    requires Stops(collect, host) && host.cancelAt.None?
    ensures Visit(zero, collect, announce, c, targets, previous, working).completed
    decreases |targets|
  {
    if targets != [] {
      var t := targets[0];
      var a := collect(c, t);
      assert StopsWhenCancelled(a, host, c);
      var now := working[t.device := Fold(zero, StoreLookup(previous, t.device), t, a.outcome.value)];
      NeverCutShort(zero, collect, announce, host, a.cursor, targets[1..], previous, now);
    }
  }

  /** Without shutdown every target is queried in both phases, the second exactly once per target. */
  lemma UncancelledSweepTrace(w: World, st: State, targets: seq<Target>)
    requires w.host.cancelAt.None? && w.host.discover(st.cursor.discoveries) == Some(targets)
    ensures var s := NetworkSweep(w, Begun(st), targets);
            && AttemptedTargets(s.events) == targets
            && Sweep(w, st).trace
               == st.trace + Invocations(s.events) + (if w.showPCIeEye then PCIeCalls(targets) else [])
  {
    SweepTrace(w, st);
    CollectorsStop(w);
    var begun := Begun(st);
    var store := LastPublished(begun.net);
    NeverCutShort(NO_DATA, NetworkCollector(w), true, w.host, begun.cursor, targets, store, Seed(store, targets));
    var after := NetworkPhase(w, begun, targets);
    var links := LastPublished(after.pcie);
    NeverCutShort(NO_PCIE_EYE, PCIeCollector(w), false, w.host, after.cursor, targets, links, Seed(links, targets));
  }

  lemma {:induction false} GrammarBounds(w: World, c: Cursor, events: Log<PortData>)
    requires FollowsGrammar(w, c, events)
    ensures |Invocations(events)| <= 3 * |AttemptedTargets(events)|
    decreases |events|
  {
    hide CallGrammar, Past;
    if events != [] {
      var e := events[0];
      match e
      case Collected(_, calls, _, _) => GrammarBounds(w, Past(w, c.Read(), calls), events[1..]);
      case Abandoned(_, calls, _) => CallsBounded(w, c.Read(), calls);
      case _ => GrammarBounds(w, c, events[1..]);
    }
  }

  lemma CallsBounded(w: World, c: Cursor, calls: seq<Query>)
    requires CallGrammar(w, c, Stages(w.showEye), calls)
    ensures |calls| <= 3
  {
  }

  /** At most four runner calls per device and sweep. */
  lemma SweepCallBound(w: World, st: State, targets: seq<Target>)
    requires w.host.discover(st.cursor.discoveries) == Some(targets)
    ensures |Sweep(w, st).trace| <= |st.trace| + 4 * |targets|
  {
    SweepTrace(w, st);
    GrammarBounds(w, Begun(st).cursor, NetworkSweep(w, Begun(st), targets).events);
  }
}
