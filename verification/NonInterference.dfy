/**
 PCIe Eye collection cannot disturb the network side: two unsuspended runs with
 the same discoveries and network answers publish the same network sets in the
 same order, whatever the PCIe phase or the clock does.
 */
module NonInterference {
  import opened Wrappers
  import opened Model
  import opened Journal
  import opened Attempts
  import opened Sweeps
  import opened Runs

  /** Equal except for times. */
  ghost predicate SameSnapshot<D>(a: Snapshot<D>, b: Snapshot<D>) {
    && a.target == b.target && a.data == b.data && a.lastError == b.lastError
    && (a.lastSuccess.Some? <==> b.lastSuccess.Some?)
  }

  ghost predicate SameSet<D>(a: SnapshotMap<D>, b: SnapshotMap<D>) {
    && a.Keys == b.Keys
    && forall d | d in a :: SameSnapshot(a[d], b[d])
  }

  ghost predicate SameStore<D>(a: Option<SnapshotMap<D>>, b: Option<SnapshotMap<D>>) {
    match (a, b)
    case (None, None) => true
    case (Some(x), Some(y)) => SameSet(x, y)
    case _ => false
  }

  ghost predicate SameEvent<D>(a: Event<D>, b: Event<D>) {
    match (a, b)
    case (Discovered(s), Discovered(t)) => s == t
    case (Collected(t, calls, errors, o), Collected(u, calls', errors', p)) =>
      t == u && calls == calls' && errors == errors' && SameOutcome(Some(o), Some(p))
    case (Abandoned(t, calls, errors), Abandoned(u, calls', errors')) => t == u && calls == calls' && errors == errors'
    case (Published(x), Published(y)) => SameSet(x, y)
    case (Announced, Announced) => true
    case _ => false
  }

  ghost predicate SameLog<D>(a: Log<D>, b: Log<D>) {
    |a| == |b| && forall i | 0 <= i < |a| :: SameEvent(a[i], b[i])
  }

  lemma SameConcat<D>(a: Log<D>, b: Log<D>, x: Log<D>, y: Log<D>)
    requires SameLog(a, b) && SameLog(x, y)
    ensures SameLog(a + x, b + y)
  {
  }

  lemma {:induction false} SameLastPublished<D>(a: Log<D>, b: Log<D>)
    requires SameLog(a, b)
    ensures SameStore(LastPublished(a), LastPublished(b))
  {
    if a != [] {
      var n := |a| - 1;
      assert SameEvent(a[n], b[n]);
      SameLastPublished(a[..n], b[..n]);
    }
  }

  lemma SameFold<D>(zero: D, p: Option<SnapshotMap<D>>, q: Option<SnapshotMap<D>>, t: Target, o: Outcome<D>, u: Outcome<D>)
    requires SameStore(p, q) && SameOutcome(Some(o), Some(u))
    ensures SameSnapshot(Fold(zero, StoreLookup(p, t.device), t, o), Fold(zero, StoreLookup(q, t.device), t, u))
  {
  }

  lemma CollectSame(w: World, v: World, c: Cursor, e: Cursor, t: Target)
    requires SameNetwork(w, v) && c.networkCalls == e.networkCalls && c.discoveries == e.discoveries
    ensures SameAttempt(NetworkCollector(w)(c, t), NetworkCollector(v)(e, t))
  {
    StagedSame(w, v, c.Read(), e.Read(), t, Stages(w.showEye), w.host.clock(c.readings), v.host.clock(e.readings));
  }

  ghost predicate SamePlace(c: Cursor, e: Cursor) {
    c.networkCalls == e.networkCalls && c.discoveries == e.discoveries
  }

  lemma SameVisitEvents<D>(t: Target, a: Attempt<D>, b: Attempt<D>, x: SnapshotMap<D>, y: SnapshotMap<D>)
    requires SameAttempt(a, b) && SameSet(x, y)
    ensures SameLog(VisitEvents(t, a, x, true), VisitEvents(t, b, y, true))
  {
  }

  lemma {:induction false} VisitSame(w: World, v: World, c: Cursor, e: Cursor, targets: seq<Target>,
                                     p: Option<SnapshotMap<PortData>>, q: Option<SnapshotMap<PortData>>,
                                     x: SnapshotMap<PortData>, y: SnapshotMap<PortData>)
    requires SameNetwork(w, v) && SamePlace(c, e) && SameStore(p, q) && SameSet(x, y)
    ensures var s := Visit(NO_DATA, NetworkCollector(w), true, c, targets, p, x);
            var r := Visit(NO_DATA, NetworkCollector(v), true, e, targets, q, y);
            SameLog(s.events, r.events) && SamePlace(s.cursor, r.cursor)
    decreases |targets|
  {
    if targets != [] {
      var t := targets[0];
      var a, b := NetworkCollector(w)(c, t), NetworkCollector(v)(e, t);
      CollectSame(w, v, c, e, t);
      SameFold(NO_DATA, p, q, t, a.outcome.value, b.outcome.value);
      var x' := x[t.device := Fold(NO_DATA, StoreLookup(p, t.device), t, a.outcome.value)];
      var y' := y[t.device := Fold(NO_DATA, StoreLookup(q, t.device), t, b.outcome.value)];
      assert SameSet(x', y');
      VisitSame(w, v, a.cursor, b.cursor, targets[1..], p, q, x', y');
      SameVisitEvents(t, a, b, x', y');
      SameConcat(VisitEvents(t, a, x', true), VisitEvents(t, b, y', true),
                 Visit(NO_DATA, NetworkCollector(w), true, a.cursor, targets[1..], p, x').events,
                 Visit(NO_DATA, NetworkCollector(v), true, b.cursor, targets[1..], q, y').events);
    }
  }

  lemma SameSeed<D>(p: Option<SnapshotMap<D>>, q: Option<SnapshotMap<D>>, targets: seq<Target>)
    requires SameStore(p, q)
    ensures SameSet(Seed(p, targets), Seed(q, targets))
  {
  }

  lemma PhaseSame(w: World, v: World, st: State, ut: State, targets: seq<Target>)
    requires SameNetwork(w, v) && SameSide(st, ut)
    ensures SameSide(NetworkPhase(w, st, targets), NetworkPhase(v, ut, targets))
  {
    SameLastPublished(st.net, ut.net);
    var p, q := LastPublished(st.net), LastPublished(ut.net);
    SameSeed(p, q, targets);
    VisitSame(w, v, st.cursor, ut.cursor, targets, p, q, Seed(p, targets), Seed(q, targets));
    var s, r := NetworkSweep(w, st, targets), NetworkSweep(v, ut, targets);
    var found: Log<PortData> := [Discovered(targets)];
    SameConcat(st.net, ut.net, found, found);
    SameConcat(st.net + found, ut.net + found, s.events, r.events);
  }

  /** The network sides match: same journal but for times, same place on the network and discovery tapes. */
  ghost predicate SameSide(st: State, ut: State) {
    SameLog(st.net, ut.net) && SamePlace(st.cursor, ut.cursor)
  }

  lemma {:induction false} PCIeVisitKeeps(w: World, c: Cursor, targets: seq<Target>,
                                          previous: Option<SnapshotMap<PCIeEye>>, working: SnapshotMap<PCIeEye>)
    ensures SamePlace(Visit(NO_PCIE_EYE, PCIeCollector(w), false, c, targets, previous, working).cursor, c)
    decreases |targets|
  {
    if targets != [] {
      var t := targets[0];
      var a := PCIeCollector(w)(c, t);
      if a.outcome.Some? {
        PCIeVisitKeeps(w, a.cursor, targets[1..], previous,
                       working[t.device := Fold(NO_PCIE_EYE, StoreLookup(previous, t.device), t, a.outcome.value)]);
      }
    }
  }

  /** The PCIe phase leaves the network side alone. */
  lemma PCIePhaseKeeps(w: World, st: State, targets: seq<Target>)
    ensures PCIePhase(w, st, targets).net == st.net && SamePlace(PCIePhase(w, st, targets).cursor, st.cursor)
  {
    var store := LastPublished(st.pcie);
    PCIeVisitKeeps(w, st.cursor, targets, store, Seed(store, targets));
  }

  lemma SweepSame(w: World, v: World, st: State, ut: State)
    requires SameNetwork(w, v) && SameSide(st, ut)
    ensures SameSide(Sweep(w, st), Sweep(v, ut))
  {
    var found := w.host.discover(st.cursor.discoveries);
    assert found == v.host.discover(ut.cursor.discoveries);
    if found.Some? {
      PhaseSame(w, v, Begun(st), Begun(ut), found.value);
      PCIePhaseKeeps(w, NetworkPhase(w, Begun(st), found.value), found.value);
      PCIePhaseKeeps(v, NetworkPhase(v, Begun(ut), found.value), found.value);
    }
  }

  /** The runs agree on everything but the PCIe phase and the clock. */
  ghost predicate SameRun(r: Run, s: Run) {
    && SameSide(r.state, s.state)
    && r.ticker == s.ticker && r.ended == s.ended && r.starts == s.starts && r.overlaps == s.overlaps
    && r.takenInShutdown == s.takenInShutdown && r.stopped == s.stopped
  }

  lemma StepSame(w: World, v: World, r: Run, s: Run, turn: Turn)
    requires SameNetwork(w, v) && SameRun(r, s)
    ensures SameRun(Step(w, r, turn), Step(v, s, turn))
  {
    var ticker := r.ticker.FireTimes(turn.wait);
    if !r.stopped && ticker.pending.Some? {
      SweepSame(w, v, Look(r.state), Look(s.state));
    }
  }

  /**
   Non-interference. Two uncancelled runs under the same schedule, with the same
   discoveries, network answers and Eye setting, publish the same network sets in
   the same order up to times, announce readiness at the same points and count the
   same errors and overlaps, whether PCIe Eye is on in one and off in the other,
   and whatever its queries answer.
   */
  lemma {:induction false} PCIeCannotInterfere(w: World, v: World, turns: seq<Turn>)
    requires SameNetwork(w, v)
    ensures SameRun(RunAfter(w, turns), RunAfter(v, turns))
    ensures Errors(RunAfter(w, turns).state.net) == Errors(RunAfter(v, turns).state.net)
    ensures Ready(RunAfter(w, turns).state.net) <==> Ready(RunAfter(v, turns).state.net)
  {
    if turns == [] {
      SweepSame(w, v, Look(INITIAL), Look(INITIAL));
    } else {
      var front := turns[..|turns| - 1];
      PCIeCannotInterfere(w, v, front);
      StepSame(w, v, RunAfter(w, front), RunAfter(v, front), turns[|turns| - 1]);
    }
    SameErrors(RunAfter(w, turns).state.net, RunAfter(v, turns).state.net);
    SameReady(RunAfter(w, turns).state.net, RunAfter(v, turns).state.net);
    SameReady(RunAfter(v, turns).state.net, RunAfter(w, turns).state.net);
  }

  lemma {:induction false} SameErrors<D>(a: Log<D>, b: Log<D>)
    requires SameLog(a, b)
    ensures Errors(a) == Errors(b)
  {
    if a != [] {
      var n := |a| - 1;
      assert SameEvent(a[n], b[n]);
      SameErrors(a[..n], b[..n]);
    }
  }

  lemma SameReady<D>(a: Log<D>, b: Log<D>)
    requires |a| == |b| && forall i | 0 <= i < |a| :: SameEvent(a[i], b[i]) || SameEvent(b[i], a[i])
    ensures Ready(a) ==> Ready(b)
  {
    if i :| 0 <= i < |a| && a[i].Announced? {
      assert b[i].Announced?;
    }
  }
}
