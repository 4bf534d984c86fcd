/**
 Which runner call a recorded success names: the call of that number in the run's
 trace was made for that device with that query.
 */
module CallNumbers {
  import opened Wrappers
  import opened Model
  import opened Journal
  import opened Attempts
  import opened Sweeps
  import opened Runs
  import History

  /** The calls of one phase: PCIe queries, or all the others. */
  ghost function CallsOf(trace: seq<Invocation>, pcie: bool): seq<Invocation> {
    if trace == [] then []
    else
      var last := trace[|trace| - 1];
      CallsOf(trace[..|trace| - 1], pcie) + (if last.query.PCIeQuery? == pcie then [last] else [])
  }

  function Count(c: Cursor, pcie: bool): nat { if pcie then c.pcieCalls else c.networkCalls }

  lemma {:induction false} CallsOfConcat(a: seq<Invocation>, b: seq<Invocation>, pcie: bool)
    ensures CallsOf(a + b, pcie) == CallsOf(a, pcie) + CallsOf(b, pcie)
  {
    if b == [] {
      assert a + b == a;
    } else {
      assert (a + b)[..|a + b| - 1] == a + b[..|b| - 1];
      CallsOfConcat(a, b[..|b| - 1], pcie);
    }
  }

  lemma {:induction false} CallsOfKind(calls: seq<Query>, device: string, pcie: bool)
    requires forall q | q in calls :: q.PCIeQuery? == pcie
    ensures CallsOf(CallsOn(calls, device), pcie) == CallsOn(calls, device)
    ensures CallsOf(CallsOn(calls, device), !pcie) == []
  {
    if calls != [] {
      var front, made := calls[..|calls| - 1], CallsOn(calls, device);
      assert made[..|made| - 1] == CallsOn(front, device);
      CallsOfKind(front, device, pcie);
      assert calls[|calls| - 1] in calls;
    }
  }

  /** An attempt's calls are of its phase, are counted there, and a success names the last of them. */
  ghost predicate AttemptNumbered<D>(a: Attempt<D>, c: Cursor, pcie: bool) {
    && (forall q | q in a.calls :: q.PCIeQuery? == pcie)
    && Count(a.cursor, pcie) == Count(c, pcie) + |a.calls|
    && Count(a.cursor, !pcie) == Count(c, !pcie)
    && (a.outcome.Some? && a.outcome.value.Success? ==>
          && a.calls != []
          && a.outcome.value.call == Count(c, pcie) + |a.calls| - 1
          && a.outcome.value.via == a.calls[|a.calls| - 1])
  }

  ghost predicate Numbers<D>(collect: Collector<D>, pcie: bool) {
    forall c, t :: AttemptNumbered(collect(c, t), c, pcie)
  }

  lemma CollectorsNumber(w: World)
    ensures Numbers(NetworkCollector(w), false) && Numbers(PCIeCollector(w), true)
  {
    forall c, t ensures AttemptNumbered(NetworkCollector(w)(c, t), c, false) {
      StagedSource(w, c.Read(), t, Stages(w.showEye), w.host.clock(c.readings));
    }
    forall c, t ensures AttemptNumbered(PCIeCollector(w)(c, t), c, true) {
      assert PCIeCollector(w)(c, t) == CollectPCIe(w, c, t);
    }
  }

  /** Every success in the journal names a call made for its device with its query. */
  ghost predicate Matched<D>(log: Log<D>, calls: seq<Invocation>) {
    forall i | 0 <= i < |log| :: EventMatched(log[i], calls)
  }

  ghost predicate EventMatched<D>(e: Event<D>, calls: seq<Invocation>) {
    e.Collected? && e.outcome.Success? ==>
      e.outcome.call < |calls| && calls[e.outcome.call] == Invocation(e.outcome.via, e.target.device)
  }

  lemma MatchedGrows<D>(log: Log<D>, calls: seq<Invocation>, more: seq<Invocation>)
    requires Matched(log, calls)
    ensures Matched(log, calls + more)
  {
    forall i | 0 <= i < |log| ensures EventMatched(log[i], calls + more) {
      assert EventMatched(log[i], calls);
    }
  }

  lemma MatchedConcat<D>(log: Log<D>, events: Log<D>, calls: seq<Invocation>)
    requires Matched(log, calls) && Matched(events, calls)
    ensures Matched(log + events, calls)
  {
  }

  /** One phase's journal and trace, in step with its place on the tape. */
  ghost predicate InStep<D>(log: Log<D>, trace: seq<Invocation>, c: Cursor, pcie: bool) {
    Matched(log, CallsOf(trace, pcie)) && |CallsOf(trace, pcie)| == Count(c, pcie)
  }

  lemma AttemptInStep<D>(log: Log<D>, trace: seq<Invocation>, c: Cursor, t: Target, a: Attempt<D>, pcie: bool, events: Log<D>)
    requires InStep(log, trace, c, pcie) && AttemptNumbered(a, c, pcie)
    requires forall e | e in events && e.Collected? :: a.outcome == Some(e.outcome) && e.target == t
    ensures InStep(log + events, trace + CallsOn(a.calls, t.device), a.cursor, pcie)
    ensures CallsOf(trace + CallsOn(a.calls, t.device), !pcie) == CallsOf(trace, !pcie)
  {
    var made := CallsOn(a.calls, t.device);
    var before, now := CallsOf(trace, pcie), CallsOf(trace + made, pcie);
    CallsOfConcat(trace, made, pcie);
    CallsOfConcat(trace, made, !pcie);
    CallsOfKind(a.calls, t.device, pcie);
    MatchedGrows(log, before, made);
    forall i | 0 <= i < |events| ensures EventMatched(events[i], now) {
      var e := events[i];
      assert e in events;
      if e.Collected? && e.outcome.Success? {
        assert now[e.outcome.call] == made[|made| - 1];
      }
    }
    MatchedConcat(log, events, now);
  }

  lemma {:induction false} VisitInStep<D>(zero: D, collect: Collector<D>, announce: bool, c: Cursor, targets: seq<Target>,
                                          previous: Option<SnapshotMap<D>>, working: SnapshotMap<D>,
                                          log: Log<D>, trace: seq<Invocation>, pcie: bool)
    requires Numbers(collect, pcie) && InStep(log, trace, c, pcie)
    ensures var end := EndOf(zero, collect, announce, c, targets, previous, working, log, trace);
            && InStep(end.log, end.trace, end.cursor, pcie)
            && CallsOf(end.trace, !pcie) == CallsOf(trace, !pcie)
            && Count(end.cursor, !pcie) == Count(c, !pcie)
    decreases |targets|
  {
    hide EndOf, InStep, CallsOf, VisitEvents, CallsOn, Fold, StoreLookup;
    if targets == [] {
      EndOfNothing(zero, collect, announce, c, previous, working, log, trace);
    } else {
      var t := targets[0];
      var a := collect(c, t);
      assert AttemptNumbered(a, c, pcie);
      EndStep(zero, collect, announce, c, targets, previous, working, log, trace);
      var made := trace + CallsOn(a.calls, t.device);
      if a.outcome.None? {
        AttemptInStep(log, trace, c, t, a, pcie, [Abandoned(t, a.calls, a.errors)]);
      } else {
        var now := working[t.device := Fold(zero, StoreLookup(previous, t.device), t, a.outcome.value)];
        VisitCollects(t, a, now, announce);
        AttemptInStep(log, trace, c, t, a, pcie, VisitEvents(t, a, now, announce));
        VisitInStep(zero, collect, announce, a.cursor, targets[1..], previous, now,
                    log + VisitEvents(t, a, now, announce), made, pcie);
      }
    }
  }

  lemma VisitCollects<D>(t: Target, a: Attempt<D>, now: SnapshotMap<D>, announce: bool)
    requires a.outcome.Some?
    ensures forall e | e in VisitEvents(t, a, now, announce) && e.Collected? :: a.outcome == Some(e.outcome) && e.target == t
  {
  }

  ghost predicate StateInStep(st: State) {
    InStep(st.net, st.trace, st.cursor, false) && InStep(st.pcie, st.trace, st.cursor, true)
  }

  lemma QuietInStep<D>(log: Log<D>, e: Event<D>, trace: seq<Invocation>, c: Cursor, pcie: bool)
    requires InStep(log, trace, c, pcie) && !e.Collected?
    ensures InStep(log + [e], trace, c, pcie)
  {
    MatchedConcat(log, [e], CallsOf(trace, pcie));
  }

  lemma PhaseInStep<D>(zero: D, collect: Collector<D>, announce: bool, c: Cursor, targets: seq<Target>,
                       log: Log<D>, trace: seq<Invocation>, pcie: bool)
    requires Numbers(collect, pcie) && InStep(log, trace, c, pcie)
    ensures var s := SweepDevices(zero, collect, announce, c, targets, LastPublished(log));
            var after := trace + Invocations(s.events);
            && InStep(log + [Discovered(targets)] + s.events, after, s.cursor, pcie)
            && CallsOf(after, !pcie) == CallsOf(trace, !pcie)
            && Count(s.cursor, !pcie) == Count(c, !pcie)
  {
    hide InStep, CallsOf;
    var store, begun := LastPublished(log), log + [Discovered(targets)];
    QuietInStep(log, Discovered(targets), trace, c, pcie);
    if targets == [] {
      var e: Log<D> := [Published(map[])];
      QuietInStep(begun, Published(map[]), trace, c, pcie);
      assert e[1..] == [] && Invocations(e) == [];
      assert trace + [] == trace;
    } else {
      VisitInStep(zero, collect, announce, c, targets, store, Seed(store, targets), begun, trace, pcie);
    }
  }

  lemma SweepInStep(w: World, st: State)
    requires StateInStep(st)
    ensures StateInStep(Sweep(w, st))
  {
    hide CallsOf, Matched;
    CollectorsNumber(w);
    var found := w.host.discover(st.cursor.discoveries);
    if found.Some? {
      var begun := Begun(st);
      PhaseInStep(NO_DATA, NetworkCollector(w), true, begun.cursor, found.value, begun.net, begun.trace, false);
      var after := NetworkPhase(w, begun, found.value);
      assert StateInStep(after);
      PhaseInStep(NO_PCIE_EYE, PCIeCollector(w), false, after.cursor, found.value, after.pcie, after.trace, true);
    }
  }

  lemma LookInStep(st: State)
    requires StateInStep(st)
    ensures StateInStep(Look(st))
  {
  }

  lemma {:induction false} RunInStep(w: World, turns: seq<Turn>)
    ensures StateInStep(RunAfter(w, turns).state)
  {
    hide StateInStep, Sweep;
    if turns == [] {
      NothingInStep();
      LookInStep(INITIAL);
      SweepInStep(w, Look(INITIAL));
    } else {
      var r := RunAfter(w, turns[..|turns| - 1]);
      RunInStep(w, turns[..|turns| - 1]);
      LookInStep(r.state);
      SweepInStep(w, Look(r.state));
      LookInStep(Sweep(w, Look(r.state)));
    }
  }

  lemma NothingInStep()
    ensures StateInStep(INITIAL)
  {
  }

  /**
   Over every run: the number a recorded success carries is the number of a call
   of its phase in the trace, and that call asked its device with its query.
   */
  lemma SuccessNamesItsCall(w: World, turns: seq<Turn>)
    ensures var st := RunAfter(w, turns).state;
            Matched(st.net, CallsOf(st.trace, false)) && Matched(st.pcie, CallsOf(st.trace, true))
  {
    RunInStep(w, turns);
  }

  /** The latest success on a device names a call that asked this device. */
  lemma LatestSuccessMatched<D>(log: Log<D>, i: nat, device: string, calls: seq<Invocation>)
    requires Matched(log, calls) && i <= |log|
    ensures LatestSuccess(log[..i], device).Some? ==>
              && LatestSuccess(log[..i], device).value.Success?
              && var o := LatestSuccess(log[..i], device).value;
              && o.call < |calls| && calls[o.call] == Invocation(o.via, device)
  {
    LatestIsSuccess(log[..i], device);
    LatestSuccessRecorded(log[..i], device);
    if LatestSuccess(log[..i], device).Some? {
      var o := LatestSuccess(log[..i], device).value;
      var k :| 0 <= k < i && log[..i][k].Collected? && log[..i][k].target.device == device && log[..i][k].outcome == o;
      assert EventMatched(log[k], calls);
    }
  }

  lemma {:induction false} LatestIsSuccess<D>(log: Log<D>, device: string)
    ensures LatestSuccess(log, device).Some? ==> LatestSuccess(log, device).value.Success?
  {
    if log != [] {
      LatestIsSuccess(log[..|log| - 1], device);
    }
  }
}
