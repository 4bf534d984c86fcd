/** Which devices the store holds: exactly those of the latest successful discovery. */
module Domains {
  import opened Wrappers
  import opened Model
  import opened Journal
  import opened Runner
  import opened Attempts
  import opened Sweeps
  import opened Runs
  import History

  /** The store holds exactly the devices last discovered, and is nil before the first discovery. */
  ghost predicate DomainExact<D>(log: Log<D>) {
    match LastDiscovered(log)
    case None => LastPublished(log).None?
    case Some(targets) => LastPublished(log).Some? && forall d :: d in LastPublished(log).value <==> Among(d, targets)
  }

  ghost predicate NeverAbandons<D>(collect: Collector<D>) {
    forall c, t :: collect(c, t).outcome.Some?
  }

  lemma VisitEventsLast<D>(log: Log<D>, t: Target, a: Attempt<D>, now: SnapshotMap<D>, announce: bool)
    requires a.outcome.Some?
    ensures var after := log + VisitEvents(t, a, now, announce);
            LastPublished(after) == Some(now) && LastDiscovered(after) == LastDiscovered(log)
  {
    var one := log + [Collected(t, a.calls, a.errors, a.outcome.value)];
    var two := one + [Published(now)];
    LastDiscoveredSnoc(log, Collected(t, a.calls, a.errors, a.outcome.value));
    LastDiscoveredSnoc(one, Published(now));
    LastPublishedSnoc(one, Published(now));
    LastDiscoveredSnoc(two, Announced);
    LastPublishedSnoc(two, Announced);
    assert log + VisitEvents(t, a, now, announce) == if announce && a.outcome.value.Success? then two + [Announced] else two;
  }

  lemma {:induction false} VisitDomain<D>(zero: D, collect: Collector<D>, announce: bool, c: Cursor, targets: seq<Target>,
                                          previous: Option<SnapshotMap<D>>, working: SnapshotMap<D>, log: Log<D>)
    requires NeverAbandons(collect)
    requires targets != [] || LastPublished(log) == Some(working)
    ensures var s := Visit(zero, collect, announce, c, targets, previous, working);
            var after := log + s.events;
            && s.completed && LastDiscovered(after) == LastDiscovered(log) && LastPublished(after).Some?
            && forall d :: d in LastPublished(after).value <==> d in working || Among(d, targets)
    decreases |targets|
  {
    var s := Visit(zero, collect, announce, c, targets, previous, working);
    if targets == [] {
      assert log + s.events == log;
    } else {
      var t := targets[0];
      var a := collect(c, t);
      var now := working[t.device := Fold(zero, StoreLookup(previous, t.device), t, a.outcome.value)];
      var after := log + VisitEvents(t, a, now, announce);
      VisitEventsLast(log, t, a, now, announce);
      VisitDomain(zero, collect, announce, a.cursor, targets[1..], previous, now, after);
      var rest := Visit(zero, collect, announce, a.cursor, targets[1..], previous, now);
      assert log + s.events == after + rest.events;
      forall d ensures Among(d, targets) <==> d == t.device || Among(d, targets[1..]) {
        if x :| x in targets && x.device == d && d != t.device { assert x in targets[1..]; }
        if x :| x in targets[1..] && x.device == d { assert x in targets; }
      }
    }
  }

  lemma SweepDomain<D>(zero: D, collect: Collector<D>, announce: bool, c: Cursor, targets: seq<Target>, log: Log<D>)
    requires NeverAbandons(collect)
    ensures var s := SweepDevices(zero, collect, announce, c, targets, LastPublished(log));
            s.completed && DomainExact(log + [Discovered(targets)] + s.events)
  {
    var begun := log + [Discovered(targets)];
    LastDiscoveredSnoc(log, Discovered(targets));
    if targets == [] {
      LastDiscoveredSnoc(begun, Published(map[]));
      LastPublishedSnoc(begun, Published(map[]));
    } else {
      var store := LastPublished(log);
      VisitDomain(zero, collect, announce, c, targets, store, Seed(store, targets), begun);
      forall d ensures d in Seed(store, targets) ==> Among(d, targets) {
        assert Lookup(Seed(store, targets), d) == if Among(d, targets) then StoreLookup(store, d) else None;
      }
    }
  }

  lemma UncancelledCollectors(w: World)
    requires w.host.cancelAt.None?
    ensures NeverAbandons(NetworkCollector(w)) && NeverAbandons(PCIeCollector(w))
  {
    History.CollectorsStop(w);
    forall c, t
      ensures NetworkCollector(w)(c, t).outcome.Some? && PCIeCollector(w)(c, t).outcome.Some?
    {
      assert StopsWhenCancelled(NetworkCollector(w)(c, t), w.host, c);
      assert StopsWhenCancelled(PCIeCollector(w)(c, t), w.host, c);
    }
  }

  ghost predicate Exact(st: State) {
    DomainExact(st.net) && DomainExact(st.pcie)
  }

  lemma SweepExact(w: World, st: State)
    requires w.host.cancelAt.None? && Exact(st)
    ensures Exact(Sweep(w, st))
  {
    UncancelledCollectors(w);
    var found := w.host.discover(st.cursor.discoveries);
    if found.Some? {
      var begun := Begun(st);
      SweepDomain(NO_DATA, NetworkCollector(w), true, begun.cursor, found.value, begun.net);
      var after := NetworkPhase(w, begun, found.value);
      SweepDomain(NO_PCIE_EYE, PCIeCollector(w), false, after.cursor, found.value, after.pcie);
    }
  }

  /**
   Without shutdown, after any run the store's domain is exactly the targets of
   the last successful discovery: nothing removed lingers and nothing discovered
   is missing, in either phase.
   */
  lemma {:induction false} StoreDomain(w: World, turns: seq<Turn>)
    requires w.host.cancelAt.None?
    ensures Exact(RunAfter(w, turns).state)
  {
    if turns == [] {
      SweepExact(w, Look(INITIAL));
    } else {
      var r := RunAfter(w, turns[..|turns| - 1]);
      StoreDomain(w, turns[..|turns| - 1]);
      SweepExact(w, Look(r.state));
    }
  }

  // ----- readiness does not mean that something is published now -----

  /** The targets of the discovery that the latest published set belongs to. */
  ghost function StoreSource<D>(log: Log<D>): Option<seq<Target>> {
    if log == [] then None
    else
      var front := log[..|log| - 1];
      if log[|log| - 1].Published? then LastDiscovered(front) else StoreSource(front)
  }

  lemma StoreSourceSnoc<D>(log: Log<D>, e: Event<D>)
    ensures StoreSource(log + [e]) == if e.Published? then LastDiscovered(log) else StoreSource(log)
  {
    assert (log + [e])[..|log|] == log;
  }

  /** The store is empty exactly when its discovery was, and a ready poller has a store. */
  ghost predicate Backed<D>(log: Log<D>) {
    && (LastPublished(log).Some? ==>
          StoreSource(log).Some? && (LastPublished(log).value == map[] <==> StoreSource(log).value == []))
    && (Ready(log) ==> LastPublished(log).Some?)
  }

  /** Besides, that discovery is the last one unless the context is cancelled. */
  ghost predicate Sourced<D>(host: Host, c: Cursor, log: Log<D>) {
    Backed(log) && (StoreSource(log) == LastDiscovered(log) || host.Cancelled(c.samples))
  }

  lemma PublishSourced<D>(host: Host, c: Cursor, log: Log<D>, devices: SnapshotMap<D>)
    requires LastDiscovered(log).Some? && (devices == map[] <==> LastDiscovered(log).value == [])
    ensures Sourced(host, c, log + [Published(devices)])
  {
    StoreSourceSnoc(log, Published(devices));
    LastPublishedSnoc(log, Published(devices));
    LastDiscoveredSnoc(log, Published(devices));
  }

  lemma VisitEventsSourced<D>(host: Host, c: Cursor, log: Log<D>, t: Target, a: Attempt<D>, now: SnapshotMap<D>, announce: bool)
    requires a.outcome.Some? && t.device in now
    requires LastDiscovered(log).Some? && LastDiscovered(log).value != []
    ensures var after := log + VisitEvents(t, a, now, announce);
            Sourced(host, c, after) && LastDiscovered(after) == LastDiscovered(log)
  {
    hide LastDiscovered, LastPublished, StoreSource, Ready;
    var collected := Collected(t, a.calls, a.errors, a.outcome.value);
    var one := log + [collected];
    LastDiscoveredSnoc(log, collected);
    var two := one + [Published(now)];
    PublishSourced(host, c, one, now);
    LastDiscoveredSnoc(one, Published(now));
    LastPublishedSnoc(one, Published(now));
    LastDiscoveredSnoc(two, Announced);
    LastPublishedSnoc(two, Announced);
    StoreSourceSnoc(two, Announced);
    assert log + VisitEvents(t, a, now, announce) == if announce && a.outcome.value.Success? then two + [Announced] else two;
  }

  lemma CutShortSourced<D>(host: Host, c: Cursor, log: Log<D>, e: Event<D>)
    requires Backed(log) && e.Abandoned? && host.Cancelled(c.samples)
    ensures Sourced(host, c, log + [e])
  {
    StoreSourceSnoc(log, e);
    LastPublishedSnoc(log, e);
    ReadySnoc(log, e);
  }

  lemma {:induction false} VisitSourced<D>(zero: D, collect: Collector<D>, announce: bool, host: Host, c: Cursor,
                                           targets: seq<Target>, previous: Option<SnapshotMap<D>>, working: SnapshotMap<D>,
                                           log: Log<D>)
    requires Stops(collect, host) && LastDiscovered(log).Some? && LastDiscovered(log).value != []
    requires Backed(log) && (targets == [] ==> Sourced(host, c, log))
    ensures var s := Visit(zero, collect, announce, c, targets, previous, working);
            Sourced(host, s.cursor, log + s.events)
    decreases |targets|
  {
    hide Backed, VisitEvents, Fold, StoreLookup, LastDiscovered;
    var s := Visit(zero, collect, announce, c, targets, previous, working);
    if targets == [] {
      assert log + s.events == log;
    } else {
      var t := targets[0];
      var a := collect(c, t);
      assert StopsWhenCancelled(a, host, c);
      if a.outcome.None? {
        CutShortSourced(host, a.cursor, log, Abandoned(t, a.calls, a.errors));
      } else {
        var now := working[t.device := Fold(zero, StoreLookup(previous, t.device), t, a.outcome.value)];
        var after := log + VisitEvents(t, a, now, announce);
        VisitEventsSourced(host, a.cursor, log, t, a, now, announce);
        VisitSourced(zero, collect, announce, host, a.cursor, targets[1..], previous, now, after);
        assert log + s.events == after + Visit(zero, collect, announce, a.cursor, targets[1..], previous, now).events;
      }
    }
  }

  lemma NetworkPhaseSourced(w: World, st: State, targets: seq<Target>)
    requires Sourced(w.host, st.cursor, st.net)
    ensures Sourced(w.host, NetworkPhase(w, st, targets).cursor, NetworkPhase(w, st, targets).net)
  {
    History.CollectorsStop(w);
    var e: Event<PortData> := Discovered(targets);
    var begun := st.net + [e];
    StoreSourceSnoc(st.net, e);
    LastPublishedSnoc(st.net, e);
    LastDiscoveredSnoc(st.net, e);
    ReadySnoc(st.net, e);
    if targets == [] {
      PublishSourced(w.host, st.cursor, begun, map[]);
    } else {
      var store := LastPublished(st.net);
      VisitSourced(NO_DATA, NetworkCollector(w), true, w.host, st.cursor, targets, store, Seed(store, targets), begun);
    }
  }

  lemma SourcedLater<D>(host: Host, c: Cursor, later: Cursor, log: Log<D>)
    requires Sourced(host, c, log) && c.samples <= later.samples
    ensures Sourced(host, later, log)
  {
  }

  lemma SweepSourced(w: World, st: State)
    requires Sourced(w.host, st.cursor, st.net)
    ensures Sourced(w.host, Sweep(w, st).cursor, Sweep(w, st).net)
  {
    hide Sourced, NetworkPhase;
    var found := w.host.discover(st.cursor.discoveries);
    var begun := Begun(st);
    SourcedLater(w.host, st.cursor, begun.cursor, st.net);
    if found.Some? {
      var targets := found.value;
      NetworkPhaseSourced(w, begun, targets);
      var after := NetworkPhase(w, begun, targets);
      var links := LastPublished(after.pcie);
      History.CollectorsStop(w);
      History.VisitForward(NO_PCIE_EYE, PCIeCollector(w), false, w.host, after.cursor, targets, links, Seed(links, targets));
      SourcedLater(w.host, after.cursor, PCIePhase(w, after, targets).cursor, after.net);
    }
  }

  lemma {:induction false} RunSourced(w: World, turns: seq<Turn>)
    ensures Sourced(w.host, RunAfter(w, turns).state.cursor, RunAfter(w, turns).state.net)
  {
    hide Sweep;
    if turns == [] {
      SweepSourced(w, Look(INITIAL));
    } else {
      var r := RunAfter(w, turns[..|turns| - 1]);
      RunSourced(w, turns[..|turns| - 1]);
      var looked := Look(r.state);
      SourcedLater(w.host, r.state.cursor, looked.cursor, r.state.net);
      SweepSourced(w, looked);
      SourcedLater(w.host, Sweep(w, looked).cursor, Look(Sweep(w, looked)).cursor, Sweep(w, looked).net);
    }
  }

  /**
   A ready exporter always has a set to serve. It shows no device exactly when the
   discovery behind that set found none; and that is the last successful discovery
   unless a shutdown cut its sweep short before anything was published.
   */
  lemma ReadyShowsDevices(w: World, turns: seq<Turn>)
    requires Ready(RunAfter(w, turns).state.net)
    ensures var st := RunAfter(w, turns).state;
            && LastPublished(st.net).Some? && StoreSource(st.net).Some?
            && (LastPublished(st.net).value == map[] <==> StoreSource(st.net).value == [])
            && (StoreSource(st.net) == LastDiscovered(st.net) || w.host.Cancelled(st.cursor.samples))
  {
    RunSourced(w, turns);
  }

  /** The other half happens: one device collected, then none discovered, leaves a ready poller with an empty set. */
  lemma ReadyWithNothingPublished(w: World, t: Target, raw: Bytes, d: PortData)
    requires w.host.cancelAt.None? && !w.showEye && !w.showPCIeEye
    requires w.host.discover(0) == Some([t]) && w.host.discover(1) == Some([])
    requires w.host.network(0) == Ok(raw) && w.decode(raw) == Some(d)
    ensures var net := RunAfter(w, [Turn(1, false, 0, 0)]).state.net;
            Ready(net) && LastPublished(net) == Some(map[])
  {
    var turns := [Turn(1, false, 0, 0)];
    assert turns[..0] == [];
    var first := Begin(w).state;
    FirstSweepAnnounces(w, t, raw, d);
    var second := Look(first);
    assert RunAfter(w, turns).state == Sweep(w, second) || RunAfter(w, turns).state == Look(Sweep(w, second));
    var net := RunAfter(w, turns).state.net;
    assert net == first.net + [Discovered([])] + [Published(map[])];
    var i :| 0 <= i < |first.net| && first.net[i].Announced?;
    assert net[i].Announced?;
  }

  lemma FirstSweepAnnounces(w: World, t: Target, raw: Bytes, d: PortData)
    requires w.host.cancelAt.None? && !w.showEye && !w.showPCIeEye
    requires w.host.discover(0) == Some([t])
    requires w.host.network(0) == Ok(raw) && w.decode(raw) == Some(d)
    ensures Ready(Begin(w).state.net) && Begin(w).state.cursor.discoveries == 1
  {
    var c := Begun(Look(INITIAL)).cursor;
    var a := Collect(w, c, t);
    assert Try(w, c.Read(), t, Combined, w.host.clock(0)).Ended?;
    assert a.outcome.Some? && a.outcome.value.Success?;
    History.CollectorsStop(w);
    SweepFaithful(NO_DATA, NetworkCollector(w), true, w.host, c, [t], []);
    var events := NetworkSweep(w, Begun(Look(INITIAL)), [t]).events;
    assert events[2].Announced?;
    assert Begin(w).state.net == [Discovered([t])] + events;
    assert Begin(w).state.net[3].Announced?;
  }

  // ----- readiness does not mean that there is anything to measure now -----

  /** A network phase with a single device whose attempt completes. */
  lemma SinglePhase(w: World, st: State, t: Target)
    requires Collect(w, st.cursor, t).outcome.Some?
    ensures var a, store := Collect(w, st.cursor, t), LastPublished(st.net);
            var now := Seed(store, [t])[t.device := Fold(NO_DATA, StoreLookup(store, t.device), t, a.outcome.value)];
            && NetworkPhase(w, st, [t]).cursor == a.cursor
            && NetworkPhase(w, st, [t]).net == st.net + [Discovered([t])] + VisitEvents(t, a, now, true)
  {
    hide Collect, VisitEvents, Fold, StoreLookup, Seed;
    var a, store := Collect(w, st.cursor, t), LastPublished(st.net);
    var now := Seed(store, [t])[t.device := Fold(NO_DATA, StoreLookup(store, t.device), t, a.outcome.value)];
    var begun := st.net + [Discovered([t])];
    EndStep(NO_DATA, NetworkCollector(w), true, st.cursor, [t], store, Seed(store, [t]), begun, []);
    assert [t][1..] == [];
    EndOfNothing(NO_DATA, NetworkCollector(w), true, a.cursor, store, now,
                 begun + VisitEvents(t, a, now, true), CallsOn(a.calls, t.device));
    assert [] + CallsOn(a.calls, t.device) == CallsOn(a.calls, t.device);
  }

  lemma FirstSweepShows(w: World, t: Target, raw: Bytes, d: PortData)
    requires w.host.cancelAt.None? && !w.showEye && !w.showPCIeEye
    requires w.host.discover(0) == Some([t])
    requires w.host.network(0) == Ok(raw) && w.decode(raw) == Some(d)
    ensures var first := Begin(w).state;
            && first.cursor.networkCalls == 1 && first.cursor.discoveries == 1
            && LastPublished(first.net).Some? && LastPublished(first.net).value.Keys == {t.device}
            && Ready(first.net)
  {
    var st := Begun(Look(INITIAL));
    var a := Collect(w, st.cursor, t);
    assert Try(w, st.cursor.Read(), t, Combined, w.host.clock(0)).Ended?;
    assert a.outcome.Some?;
    StagedSource(w, st.cursor.Read(), t, Stages(false), w.host.clock(0));
    StagedStops(w, st.cursor.Read(), t, Stages(false), w.host.clock(0));
    FirstSweepAnnounces(w, t, raw, d);
    SinglePhase(w, st, t);
    var now := Seed(None, [t])[t.device := Fold(NO_DATA, None, t, a.outcome.value)];
    VisitEventsLast(st.net + [Discovered([t])], t, a, now, true);
    assert a.calls == [Combined];
  }

  /**
   Another run: the device that made the poller ready is gone and its successor
   times out. The set is not empty, yet holds no success.
   */
  lemma ReadyWithNothingCollected(w: World, t: Target, u: Target, raw: Bytes, d: PortData)
    requires w.host.cancelAt.None? && !w.showEye && !w.showPCIeEye && t.device != u.device
    requires w.host.discover(0) == Some([t]) && w.host.discover(1) == Some([u])
    requires w.host.network(0) == Ok(raw) && w.decode(raw) == Some(d)
    requires w.host.network(1) == Err(RunError(Timeout))
    ensures var net := RunAfter(w, [Turn(1, false, 0, 0)]).state.net;
            && Ready(net) && LastPublished(net).Some?
            && LastPublished(net).value.Keys == {u.device}
            && LastPublished(net).value[u.device].lastSuccess == None
  {
    var turns := [Turn(1, false, 0, 0)];
    assert turns[..0] == [];
    FirstSweepShows(w, t, raw, d);
    var first := Begin(w).state;
    var st := Begun(Look(first));
    var a := Collect(w, st.cursor, u);
    TimesOut(w, st.cursor, u);
    SinglePhase(w, st, u);
    assert RunAfter(w, turns).state == Sweep(w, Look(first)) || RunAfter(w, turns).state == Look(Sweep(w, Look(first)));
    var net := RunAfter(w, turns).state.net;
    var store := LastPublished(first.net);
    assert StoreLookup(store, u.device) == None;
    var now := Seed(store, [u])[u.device := Fold(NO_DATA, None, u, a.outcome.value)];
    assert net == first.net + [Discovered([u])] + VisitEvents(u, a, now, true);
    VisitEventsLast(first.net + [Discovered([u])], u, a, now, true);
    SeedOfStranger(store, u);
    var i :| 0 <= i < |first.net| && first.net[i].Announced?;
    assert net[i].Announced?;
  }

  lemma SeedOfStranger(store: Option<SnapshotMap<PortData>>, u: Target)
    requires StoreLookup(store, u.device) == None
    ensures Seed(store, [u]) == map[]
  {
    var seeded := Seed(store, [u]);
    forall d ensures d !in seeded {
      assert Lookup(seeded, d) == if Among(d, [u]) then StoreLookup(store, d) else None;
    }
  }

  lemma TimesOut(w: World, c: Cursor, u: Target)
    requires w.host.cancelAt.None? && !w.showEye && w.host.network(c.networkCalls) == Err(RunError(Timeout))
    ensures Collect(w, c, u).outcome.Some? && Collect(w, c, u).outcome.value.Failure?
  {
    assert Try(w, c.Read(), u, Combined, w.host.clock(c.readings)).Ended?;
  }
}
