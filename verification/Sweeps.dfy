/**
 One sweep over a phase's devices (sweepDevices in poller.go), for any way of
 collecting a device: what it appends to the phase's journal.
 */
module Sweeps {
  import opened Wrappers
  import opened Model
  import opened Journal
  import opened Attempts

  type Collector<!D> = (Cursor, Target) -> Attempt<D>

  datatype Swept<+D> = Swept(cursor: Cursor, events: Log<D>, completed: bool)

  /** The entries of the loaded set whose devices are still there. */
  function Seed<D>(store: Option<SnapshotMap<D>>, targets: seq<Target>): (seeded: SnapshotMap<D>)
    ensures forall d :: Lookup(seeded, d) == if Among(d, targets) then StoreLookup(store, d) else None
  {
    if store.None? then map[]
    else map d | d in store.value && Among(d, targets) :: store.value[d]
  }

  /** Collect, publish and, for a success of the announcing phase, announce; stop at an abandoned attempt. */
  ghost function Visit<D>(zero: D, collect: Collector<D>, announce: bool, c: Cursor, targets: seq<Target>,
                          previous: Option<SnapshotMap<D>>, working: SnapshotMap<D>): Swept<D>
    decreases |targets|
  {
    if targets == [] then Swept(c, [], true)
    else
      var t := targets[0];
      var a := collect(c, t);
      if a.outcome.None? then Swept(a.cursor, [Abandoned(t, a.calls, a.errors)], false)
      else
        var snapshot := Fold(zero, StoreLookup(previous, t.device), t, a.outcome.value);
        var now := working[t.device := snapshot];
        var rest := Visit(zero, collect, announce, a.cursor, targets[1..], previous, now);
        Swept(rest.cursor, VisitEvents(t, a, now, announce) + rest.events, rest.completed)
  }

  function VisitEvents<D>(t: Target, a: Attempt<D>, now: SnapshotMap<D>, announce: bool): Log<D>
    requires a.outcome.Some?
  {
    [Collected(t, a.calls, a.errors, a.outcome.value), Published(now)]
    + (if announce && a.outcome.value.Success? then [Announced] else [])
  }

  ghost function SweepDevices<D>(zero: D, collect: Collector<D>, announce: bool, c: Cursor, targets: seq<Target>,
                                 store: Option<SnapshotMap<D>>): Swept<D>
  {
    if targets == [] then Swept(c, [Published(map[])], true)
    else Visit(zero, collect, announce, c, targets, store, Seed(store, targets))
  }

  /** The runner calls of one visit are the attempt's. */
  lemma VisitInvocations<D>(t: Target, a: Attempt<D>, now: SnapshotMap<D>, announce: bool, rest: Log<D>)
    requires a.outcome.Some?
    ensures Invocations(VisitEvents(t, a, now, announce) + rest) == CallsOn(a.calls, t.device) + Invocations(rest)
  {
    var first := VisitEvents(t, a, now, announce);
    InvocationsConcat(first, rest);
    assert first[1..][1..] == if announce && a.outcome.value.Success? then [Announced] else [];
    if announce && a.outcome.value.Success? {
      assert first[1..][1..][1..] == [];
    }
    assert Invocations(first[1..][1..]) == [];
    assert Invocations(first[1..]) == [];
    assert Invocations(first) == CallsOn(a.calls, t.device) + [];
  }

  /** The counter, the sets ever stored and the readiness flag that a journal stands for. */
  ghost predicate Projects<D>(log: Log<D>, errors: multiset<ErrorKey>, contents: seq<SnapshotMap<D>>, ready: bool) {
    errors == Errors(log) && contents == PublishedSets(log) && ready == Ready(log)
  }

  lemma ProjectsSnoc<D>(log: Log<D>, e: Event<D>, errors: multiset<ErrorKey>, contents: seq<SnapshotMap<D>>, ready: bool)
    requires Projects(log, errors, contents, ready)
    ensures Projects(log + [e], errors + EventErrors(e),
                     contents + (if e.Published? then [e.devices] else []), ready || e.Announced?)
  {
    ErrorsSnoc(log, e);
    PublishedSetsSnoc(log, e);
    ReadySnoc(log, e);
  }

  /** The last set stored is the last one published. */
  lemma ProjectsLast<D>(log: Log<D>, errors: multiset<ErrorKey>, contents: seq<SnapshotMap<D>>, ready: bool)
    requires Projects(log, errors, contents, ready)
    ensures LastPublished(log) == if contents == [] then None else Some(contents[|contents| - 1])
  {
    LastOfPublished(log);
  }

  lemma ReadySnoc<D>(log: Log<D>, e: Event<D>)
    ensures Ready(log + [e]) <==> Ready(log) || e.Announced?
  {
    var after := log + [e];
    if i :| 0 <= i < |log| && log[i].Announced? { assert after[i].Announced?; }
    if i :| 0 <= i < |after| && after[i].Announced? && i < |log| { assert log[i].Announced?; }
    assert after[|log|] == e;
  }

  /** What one visit adds to the counter, the published sets and readiness. */
  lemma VisitProjects<D>(log: Log<D>, t: Target, a: Attempt<D>, now: SnapshotMap<D>, announce: bool,
                         errors: multiset<ErrorKey>, contents: seq<SnapshotMap<D>>, ready: bool)
    requires a.outcome.Some? && Projects(log, errors, contents, ready)
    ensures Projects(log + VisitEvents(t, a, now, announce), errors + a.errors,
                     contents + [now], ready || (announce && a.outcome.value.Success?))
  {
    hide Projects;
    var collected := Collected(t, a.calls, a.errors, a.outcome.value);
    var one := log + [collected];
    var two := one + [Published(now)];
    ProjectsSnoc(log, collected, errors, contents, ready);
    assert contents + [] == contents;
    ProjectsSnoc(one, Published(now), errors + a.errors, contents, ready);
    assert errors + a.errors + multiset{} == errors + a.errors;
    if announce && a.outcome.value.Success? {
      ProjectsSnoc(two, Announced, errors + a.errors, contents + [now], ready);
      assert contents + [now] + [] == contents + [now];
      assert log + VisitEvents(t, a, now, announce) == two + [Announced];
    } else {
      assert log + VisitEvents(t, a, now, announce) == two;
    }
  }

  // ----- the same, one device at a time -----

  /** Where the rest of a sweep ends, given what the journal and the trace hold already. */
  datatype End<+D> = End(cursor: Cursor, completed: bool, log: Log<D>, trace: seq<Invocation>)

  ghost function EndOf<D>(zero: D, collect: Collector<D>, announce: bool, c: Cursor, targets: seq<Target>,
                          previous: Option<SnapshotMap<D>>, working: SnapshotMap<D>,
                          log: Log<D>, trace: seq<Invocation>): End<D>
  {
    var s := Visit(zero, collect, announce, c, targets, previous, working);
    End(s.cursor, s.completed, log + s.events, trace + Invocations(s.events))
  }

  /** Visiting one device leaves the end of the sweep where it was. */
  lemma EndStep<D>(zero: D, collect: Collector<D>, announce: bool, c: Cursor, targets: seq<Target>,
                   previous: Option<SnapshotMap<D>>, working: SnapshotMap<D>, log: Log<D>, trace: seq<Invocation>)
    requires targets != []
    ensures var end := EndOf(zero, collect, announce, c, targets, previous, working, log, trace);
            var t := targets[0];
            var a := collect(c, t);
            var after := trace + CallsOn(a.calls, t.device);
            && (a.outcome.None? ==> end == End(a.cursor, false, log + [Abandoned(t, a.calls, a.errors)], after))
            && (a.outcome.Some? ==>
                  var now := working[t.device := Fold(zero, StoreLookup(previous, t.device), t, a.outcome.value)];
                  end == EndOf(zero, collect, announce, a.cursor, targets[1..], previous, now,
                               log + VisitEvents(t, a, now, announce), after))
  {
    hide VisitEvents, Invocations, CallsOn, Fold, StoreLookup;
    var t := targets[0];
    var a := collect(c, t);
    if a.outcome.Some? {
      var now := working[t.device := Fold(zero, StoreLookup(previous, t.device), t, a.outcome.value)];
      var rest := Visit(zero, collect, announce, a.cursor, targets[1..], previous, now).events;
      VisitInvocations(t, a, now, announce, rest);
      assert log + (VisitEvents(t, a, now, announce) + rest) == log + VisitEvents(t, a, now, announce) + rest;
    } else {
      var e: Log<D> := [Abandoned(t, a.calls, a.errors)];
      assert Visit(zero, collect, announce, c, targets, previous, working).events == e;
      AbandonedInvocations(t, a);
    }
  }

  lemma AbandonedInvocations<D>(t: Target, a: Attempt<D>)
    ensures var e: Log<D> := [Abandoned(t, a.calls, a.errors)]; Invocations(e) == CallsOn(a.calls, t.device)
  {
    var e: Log<D> := [Abandoned(t, a.calls, a.errors)];
    assert e[1..] == [] && CallsOn(a.calls, t.device) + [] == CallsOn(a.calls, t.device);
  }

  lemma EndOfNothing<D>(zero: D, collect: Collector<D>, announce: bool, c: Cursor, previous: Option<SnapshotMap<D>>,
                        working: SnapshotMap<D>, log: Log<D>, trace: seq<Invocation>)
    ensures EndOf(zero, collect, announce, c, [], previous, working, log, trace) == End(c, true, log, trace)
  {
  }

  // ----- every event comes from the collector -----

  ghost predicate Genuine<D>(collect: Collector<D>, e: Event<D>) {
    match e
    case Collected(t, calls, errors, o) => exists c :: IsAttempt(collect(c, t), calls, errors, Some(o))
    case Abandoned(t, calls, errors) => exists c :: IsAttempt(collect(c, t), calls, errors, None)
    case _ => true
  }

  ghost predicate IsAttempt<D>(a: Attempt<D>, calls: seq<Query>, errors: multiset<ErrorKey>, o: Option<Outcome<D>>) {
    a.calls == calls && a.errors == errors && a.outcome == o
  }

  ghost predicate AllGenuine<D>(collect: Collector<D>, log: Log<D>) {
    forall i | 0 <= i < |log| :: Genuine(collect, log[i])
  }

  lemma {:induction false} VisitGenuine<D>(zero: D, collect: Collector<D>, announce: bool, c: Cursor, targets: seq<Target>,
                                           previous: Option<SnapshotMap<D>>, working: SnapshotMap<D>)
    ensures AllGenuine(collect, Visit(zero, collect, announce, c, targets, previous, working).events)
    decreases |targets|
  {
    if targets != [] {
      var t := targets[0];
      var a := collect(c, t);
      assert IsAttempt(collect(c, t), a.calls, a.errors, a.outcome);
      if a.outcome.Some? {
        var now := working[t.device := Fold(zero, StoreLookup(previous, t.device), t, a.outcome.value)];
        VisitGenuine(zero, collect, announce, a.cursor, targets[1..], previous, now);
      }
    }
  }

  // ----- the shape of a sweep -----

  ghost function AttemptedTargets<D>(events: Log<D>): seq<Target> {
    if events == [] then []
    else (if events[0].Collected? || events[0].Abandoned? then [events[0].target] else []) + AttemptedTargets(events[1..])
  }

  lemma AttemptedVisit<D>(t: Target, a: Attempt<D>, now: SnapshotMap<D>, announce: bool, rest: Log<D>)
    requires a.outcome.Some?
    ensures AttemptedTargets(VisitEvents(t, a, now, announce) + rest) == [t] + AttemptedTargets(rest)
  {
    var events := VisitEvents(t, a, now, announce) + rest;
    assert events[1..][1..] == if announce && a.outcome.value.Success? then [Announced] + rest else rest;
    if announce && a.outcome.value.Success? {
      assert events[1..][1..][1..] == rest;
    }
  }

  /** The devices are attempted in order, all of them unless the sweep is cut short. */
  lemma {:induction false} VisitInOrder<D>(zero: D, collect: Collector<D>, announce: bool, c: Cursor, targets: seq<Target>,
                                           previous: Option<SnapshotMap<D>>, working: SnapshotMap<D>)
    ensures var s := Visit(zero, collect, announce, c, targets, previous, working);
            AttemptedTargets(s.events) <= targets && (s.completed ==> AttemptedTargets(s.events) == targets)
    decreases |targets|
  {
    if targets != [] {
      var t := targets[0];
      var a := collect(c, t);
      if a.outcome.Some? {
        var now := working[t.device := Fold(zero, StoreLookup(previous, t.device), t, a.outcome.value)];
        VisitInOrder(zero, collect, announce, a.cursor, targets[1..], previous, now);
        AttemptedVisit(t, a, now, announce, Visit(zero, collect, announce, a.cursor, targets[1..], previous, now).events);
      } else {
        assert Visit(zero, collect, announce, c, targets, previous, working).events[1..] == [];
      }
    }
  }

  // ----- what a scrape can see in the middle of a sweep -----

  /** This sweep's result for the device so far, if it has been visited. */
  ghost function VisitedIn<D>(events: Log<D>, device: string): Option<(Target, Outcome<D>)> {
    if events == [] then None
    else
      var last := events[|events| - 1];
      if last.Collected? && last.target.device == device then Some((last.target, last.outcome))
      else VisitedIn(events[..|events| - 1], device)
  }

  lemma {:induction false} VisitedInConcat<D>(a: Log<D>, b: Log<D>, device: string)
    ensures VisitedIn(a + b, device) == if VisitedIn(b, device).Some? then VisitedIn(b, device) else VisitedIn(a, device)
  {
    if b == [] {
      assert a + b == a;
    } else {
      assert (a + b)[..|a + b| - 1] == a + b[..|b| - 1];
      VisitedInConcat(a, b[..|b| - 1], device);
    }
  }

  /** A visited device shows this sweep's result on top of its old entry, the others their old entry. */
  ghost function MidSweep<D>(zero: D, previous: Option<SnapshotMap<D>>, working: SnapshotMap<D>, events: Log<D>, device: string):
    Option<Snapshot<D>>
  {
    match VisitedIn(events, device)
    case None => Lookup(working, device)
    case Some((t, o)) => Some(Fold(zero, StoreLookup(previous, device), t, o))
  }

  lemma {:induction false} VisitShows<D>(zero: D, collect: Collector<D>, announce: bool, c: Cursor, targets: seq<Target>,
                                         previous: Option<SnapshotMap<D>>, working: SnapshotMap<D>, i: nat, device: string)
    requires i < |Visit(zero, collect, announce, c, targets, previous, working).events|
    requires Visit(zero, collect, announce, c, targets, previous, working).events[i].Published?
    ensures var events := Visit(zero, collect, announce, c, targets, previous, working).events;
            Lookup(events[i].devices, device) == MidSweep(zero, previous, working, events[..i], device)
    decreases |targets|
  {
    var events := Visit(zero, collect, announce, c, targets, previous, working).events;
    var t := targets[0];
    var a := collect(c, t);
    var now := working[t.device := Fold(zero, StoreLookup(previous, t.device), t, a.outcome.value)];
    var rest := Visit(zero, collect, announce, a.cursor, targets[1..], previous, now).events;
    var first := VisitEvents(t, a, now, announce);
    assert events == first + rest;
    VisitedFirst(t, a, now, announce, device);
    if i < |first| {
      assert i == 1;
      assert events[..1] == first[..1];
    } else {
      var j := i - |first|;
      assert events[i] == rest[j] && events[..i] == first + rest[..j];
      VisitShows(zero, collect, announce, a.cursor, targets[1..], previous, now, j, device);
      VisitedInConcat(first, rest[..j], device);
    }
  }

  lemma VisitedFirst<D>(t: Target, a: Attempt<D>, now: SnapshotMap<D>, announce: bool, device: string)
    requires a.outcome.Some?
    ensures var first := VisitEvents(t, a, now, announce);
            var found := if device == t.device then Some((t, a.outcome.value)) else None;
            VisitedIn(first, device) == found && VisitedIn(first[..1], device) == found
  {
    var first := VisitEvents(t, a, now, announce);
    var one: Log<D> := [Collected(t, a.calls, a.errors, a.outcome.value)];
    var two := one + [Published(now)];
    assert one[..0] == [];
    var published: Log<D>, announced: Log<D> := [Published(now)], [Announced];
    VisitedInConcat(one, published, device);
    VisitedInConcat(two, announced, device);
    assert announced[..0] == [] && published[..0] == [];
    assert first[..1] == one;
    assert first == two || first == two + announced;
  }

  /**
   At any moment of a sweep a scrape that loads a set published by it sees this
   sweep's result for every device already visited, exactly the entry from before
   the sweep (or its absence) for every other discovered device, and no device
   discovery left out.
   */
  lemma MidSweepSets<D>(zero: D, collect: Collector<D>, announce: bool, c: Cursor, targets: seq<Target>,
                        store: Option<SnapshotMap<D>>, i: nat, device: string)
    requires i < |SweepDevices(zero, collect, announce, c, targets, store).events|
    requires SweepDevices(zero, collect, announce, c, targets, store).events[i].Published?
    ensures var events := SweepDevices(zero, collect, announce, c, targets, store).events;
            Lookup(events[i].devices, device) ==
              (match VisitedIn(events[..i], device)
               case Some((t, o)) => Some(Fold(zero, StoreLookup(store, device), t, o))
               case None => if Among(device, targets) then StoreLookup(store, device) else None)
    ensures var events := SweepDevices(zero, collect, announce, c, targets, store).events;
            VisitedIn(events[..i], device).Some? ==> Among(device, targets)
  {
    var events := SweepDevices(zero, collect, announce, c, targets, store).events;
    if targets != [] {
      VisitShows(zero, collect, announce, c, targets, store, Seed(store, targets), i, device);
      VisitInOrder(zero, collect, announce, c, targets, store, Seed(store, targets));
      VisitedAreAttempted(events, i, device);
    } else {
      assert events[..i] == [];
    }
  }

  lemma {:induction false} VisitedAreAttempted<D>(events: Log<D>, i: nat, device: string)
    requires i <= |events|
    ensures VisitedIn(events[..i], device).Some? ==>
              exists t | t in AttemptedTargets(events) :: t.device == device
  {
    if i > 0 {
      assert events[..i][..i - 1] == events[..i - 1];
      VisitedAreAttempted(events, i - 1, device);
      if events[i - 1].Collected? {
        AttemptedHas(events, i - 1);
      }
    }
  }

  lemma {:induction false} AttemptedHas<D>(events: Log<D>, k: nat)
    requires k < |events| && events[k].Collected?
    ensures events[k].target in AttemptedTargets(events)
  {
    if k > 0 {
      AttemptedHas(events[1..], k - 1);
    }
  }

  /** A device that was published and is still discovered is never absent from a later set of the sweep. */
  lemma NeverAGap<D>(zero: D, collect: Collector<D>, announce: bool, c: Cursor, targets: seq<Target>,
                     store: Option<SnapshotMap<D>>, i: nat, device: string)
    requires i < |SweepDevices(zero, collect, announce, c, targets, store).events|
    requires SweepDevices(zero, collect, announce, c, targets, store).events[i].Published?
    requires StoreLookup(store, device).Some? && Among(device, targets)
    ensures device in SweepDevices(zero, collect, announce, c, targets, store).events[i].devices
  {
    MidSweepSets(zero, collect, announce, c, targets, store, i, device);
  }

  // ----- published sets follow the history -----

  ghost predicate Stops<D>(collect: Collector<D>, host: Host) {
    forall c, t :: StopsWhenCancelled(collect(c, t), host, c)
  }

  /** The devices still to be visited show their entry from before the sweep. */
  ghost predicate Untouched<D>(previous: Option<SnapshotMap<D>>, working: SnapshotMap<D>, targets: seq<Target>) {
    forall t | t in targets :: Lookup(working, t.device) == StoreLookup(previous, t.device)
  }

  /** The journal after one device has been collected, published and perhaps announced. */
  lemma OneVisit<D>(zero: D, log: Log<D>, t: Target, a: Attempt<D>, announce: bool,
                    previous: Option<SnapshotMap<D>>, working: SnapshotMap<D>) returns (now: SnapshotMap<D>)
    requires a.outcome.Some? && Faithful(zero, log) && Agrees(zero, working, log) && AnnouncedAfterPublish(log)
    requires Lookup(working, t.device) == StoreLookup(previous, t.device)
    ensures now == working[t.device := Fold(zero, StoreLookup(previous, t.device), t, a.outcome.value)]
    ensures var after := log + VisitEvents(t, a, now, announce);
            && Faithful(zero, after) && Agrees(zero, now, after) && AnnouncedAfterPublish(after)
            && LastPublished(after) == Some(now)
  {
    var o := a.outcome.value;
    now := working[t.device := Fold(zero, StoreLookup(previous, t.device), t, o)];
    var collected := Collected(t, a.calls, a.errors, o);
    var one := log + [collected];
    var two := one + [Published(now)];
    forall d ensures Lookup(now, d) == Entry(zero, one, d) {
      EntrySnoc(zero, log, collected, d);
    }
    FaithfulSnoc(zero, log, collected);
    FaithfulSnoc(zero, one, Published(now));
    forall d ensures Lookup(now, d) == Entry(zero, two, d) {
      EntrySnoc(zero, one, Published(now), d);
    }
    LastPublishedSnoc(one, Published(now));
    assert AnnouncedAfterPublish(two) by {
      AnnouncedSnoc(log, collected);
      AnnouncedSnoc(one, Published(now));
    }
    if announce && o.Success? {
      var three := two + [Announced];
      FaithfulSnoc(zero, two, Announced);
      forall d ensures Lookup(now, d) == Entry(zero, three, d) {
        EntrySnoc(zero, two, Announced, d);
      }
      LastPublishedSnoc(two, Announced);
      assert two[|two| - 1] == Published(now) && two[|two| - 2] == collected;
      AnnouncedSnoc(two, Announced);
      assert log + VisitEvents(t, a, now, announce) == three;
    } else {
      assert log + VisitEvents(t, a, now, announce) == two;
    }
  }

  lemma AnnouncedSnoc<D>(log: Log<D>, e: Event<D>)
    requires AnnouncedAfterPublish(log)
    requires e.Announced? ==> AnnouncedAt(log + [e], |log|)
    ensures AnnouncedAfterPublish(log + [e])
  {
    var after := log + [e];
    forall i | 0 <= i < |after| && after[i].Announced? ensures AnnouncedAt(after, i) {
      if i < |log| {
        assert AnnouncedAt(log, i);
      }
    }
  }

  /**
   A sweep keeps every published set in agreement with the history; whenever it
   ends with the store out of step with the history, the context is cancelled.
   */
  lemma {:induction false} VisitFaithful<D>(zero: D, collect: Collector<D>, announce: bool, host: Host, c: Cursor,
                                            targets: seq<Target>, previous: Option<SnapshotMap<D>>,
                                            working: SnapshotMap<D>, log: Log<D>)
    requires Stops(collect, host) && DistinctDevices(targets)
    requires Faithful(zero, log) && AnnouncedAfterPublish(log)
    requires host.Cancelled(c.samples) || (Agrees(zero, working, log) && Untouched(previous, working, targets))
    requires targets == [] ==> InSync(zero, log)
    ensures var s := Visit(zero, collect, announce, c, targets, previous, working);
            && Faithful(zero, log + s.events) && AnnouncedAfterPublish(log + s.events)
            && c.samples <= s.cursor.samples && c.discoveries == s.cursor.discoveries
            && (if s.completed then InSync(zero, log + s.events) else host.Cancelled(s.cursor.samples))
    decreases |targets|
  {
    hide Faithful, AnnouncedAfterPublish, VisitEvents, Fold;
    var s := Visit(zero, collect, announce, c, targets, previous, working);
    if targets == [] {
      assert log + s.events == log;
    } else {
      var t := targets[0];
      var a := collect(c, t);
      assert StopsWhenCancelled(a, host, c);
      if a.outcome.None? {
        var e: Event<D> := Abandoned(t, a.calls, a.errors);
        FaithfulSnoc(zero, log, e);
        AnnouncedSnoc(log, e);
      } else {
        var now := OneVisit(zero, log, t, a, announce, previous, working);
        var after := log + VisitEvents(t, a, now, announce);
        assert Untouched(previous, now, targets[1..]);
        VisitFaithful(zero, collect, announce, host, a.cursor, targets[1..], previous, now, after);
        var rest := Visit(zero, collect, announce, a.cursor, targets[1..], previous, now);
        assert log + s.events == after + rest.events;
      }
    }
  }

  lemma EmptySweepFaithful<D>(zero: D, log: Log<D>)
    requires Faithful(zero, log) && AnnouncedAfterPublish(log)
    ensures var after := log + [Discovered([])] + [Published(map[])];
            Faithful(zero, after) && AnnouncedAfterPublish(after) && InSync(zero, after)
  {
    var found: Event<D> := Discovered([]);
    var begun := log + [found];
    var e: Event<D> := Published(map[]);
    var after := begun + [e];
    FaithfulSnoc(zero, log, found);
    AnnouncedSnoc(log, found);
    forall d ensures Entry(zero, begun, d) == None && Entry(zero, after, d) == None {
      EntrySnoc(zero, log, found, d);
      EntrySnoc(zero, begun, e, d);
    }
    FaithfulSnoc(zero, begun, e);
    AnnouncedSnoc(begun, e);
    LastPublishedSnoc(begun, e);
  }

  lemma SeedAgrees<D>(zero: D, log: Log<D>, targets: seq<Target>)
    requires InSync(zero, log)
    ensures Agrees(zero, Seed(LastPublished(log), targets), log + [Discovered(targets)])
    ensures Untouched(LastPublished(log), Seed(LastPublished(log), targets), targets)
  {
    var store := LastPublished(log);
    var working := Seed(store, targets);
    forall d ensures Lookup(working, d) == Entry(zero, log + [Discovered(targets)], d) {
      EntrySnoc(zero, log, Discovered(targets), d);
    }
    forall t | t in targets ensures Lookup(working, t.device) == StoreLookup(store, t.device) {
      assert Among(t.device, targets);
    }
  }

  /** The same for a whole sweep, from its discovery on. */
  lemma SweepFaithful<D>(zero: D, collect: Collector<D>, announce: bool, host: Host, c: Cursor, targets: seq<Target>, log: Log<D>)
    requires Stops(collect, host) && DistinctDevices(targets)
    requires Faithful(zero, log) && AnnouncedAfterPublish(log)
    requires InSync(zero, log) || host.Cancelled(c.samples)
    ensures var s := SweepDevices(zero, collect, announce, c, targets, LastPublished(log));
            var after := log + [Discovered(targets)] + s.events;
            && Faithful(zero, after) && AnnouncedAfterPublish(after)
            && c.samples <= s.cursor.samples && c.discoveries == s.cursor.discoveries
            && (if s.completed then InSync(zero, after) else host.Cancelled(s.cursor.samples))
  {
    var store := LastPublished(log);
    if targets == [] {
      EmptySweepFaithful(zero, log);
    } else {
      var begun := log + [Discovered(targets)];
      FaithfulSnoc(zero, log, Discovered(targets));
      AnnouncedSnoc(log, Discovered(targets));
      if InSync(zero, log) {
        SeedAgrees(zero, log, targets);
      }
      VisitFaithful(zero, collect, announce, host, c, targets, store, Seed(store, targets), begun);
    }
  }
}
