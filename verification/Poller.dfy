/**
 The poller itself (poller.go), as a heap object whose methods overwrite its
 fields, proved against the specification of sweeps and runs. The ghost
 journals record what it did; its real fields are determined by them.
 */
module Poller {
  import opened Wrappers
  import opened Model
  import opened Journal
  import opened Runner
  import opened Attempts
  import opened Sweeps
  import opened Runs
  import opened SnapshotStore
  import Decoder

  /** Discovery, the runner, the clock and the context, read off the host's tapes. */
  class Outside {
    const host: Host
    var cursor: Cursor
    /** Every runner call made, in order. */
    ghost var trace: seq<Invocation>

    constructor (host: Host)
      ensures this.host == host && cursor == ORIGIN && trace == []
    {
      this.host := host;
      cursor := ORIGIN;
      trace := [];
    }

    method Discover() returns (targets: Option<seq<Target>>)
      modifies this
      ensures targets == host.discover(old(cursor).discoveries)
      ensures cursor == old(cursor).(discoveries := old(cursor).discoveries + 1) && trace == old(trace)
    {
      targets := host.discover(cursor.discoveries);
      cursor := cursor.(discoveries := cursor.discoveries + 1);
    }

    method Now() returns (now: Time)
      modifies this
      ensures now == host.clock(old(cursor).readings) && cursor == old(cursor).Read() && trace == old(trace)
    {
      now := host.clock(cursor.readings);
      cursor := cursor.Read();
    }

    /** ctx.Err() != nil */
    method Cancelled() returns (cancelled: bool)
      modifies this
      ensures cancelled == host.Cancelled(old(cursor).samples) && cursor == old(cursor).Sampled() && trace == old(trace)
    {
      cancelled := host.Cancelled(cursor.samples);
      cursor := cursor.Sampled();
    }

    /** One of the three network queries. */
    method Query(q: Query, device: string) returns (r: Result<Bytes, RunError>)
      modifies this
      ensures r == host.network(old(cursor).networkCalls)
      ensures cursor == old(cursor).(networkCalls := old(cursor).networkCalls + 1)
      ensures trace == old(trace) + [Invocation(q, device)]
    {
      r := host.network(cursor.networkCalls);
      cursor := cursor.(networkCalls := cursor.networkCalls + 1);
      trace := trace + [Invocation(q, device)];
    }

    method QueryPCIe(device: string) returns (r: Result<Bytes, RunError>)
      modifies this
      ensures r == host.pcie(old(cursor).pcieCalls)
      ensures cursor == old(cursor).(pcieCalls := old(cursor).pcieCalls + 1)
      ensures trace == old(trace) + [Invocation(PCIeQuery, device)]
    {
      r := host.pcie(cursor.pcieCalls);
      cursor := cursor.(pcieCalls := cursor.pcieCalls + 1);
      trace := trace + [Invocation(PCIeQuery, device)];
    }
  }

  /** A ticker channel: it holds one tick, and ticks that find it full are lost. */
  class TickChannel {
    var slot: Option<nat>
    var fired: nat
    var coalesced: nat

    ghost function View(): Ticker
      reads this
    {
      Ticker(fired, slot, coalesced)
    }

    constructor ()
      ensures View() == Ticker(0, None, 0)
    {
      slot, fired, coalesced := None, 0, 0;
    }

    method Fire()
      modifies this
      ensures View() == old(View()).Fire()
    {
      if slot.None? { slot := Some(fired); } else { coalesced := coalesced + 1; }
      fired := fired + 1;
    }

    method FireTimes(n: nat)
      modifies this
      ensures View() == old(View()).FireTimes(n)
    {
      var left := n;
      while left > 0
        invariant View().FireTimes(left) == old(View()).FireTimes(n)
      {
        Fire();
        left := left - 1;
      }
    }

    /** A non-blocking receive. */
    method Receive() returns (tick: Option<nat>)
      modifies this
      ensures tick == old(View()).pending && View() == old(View()).Taken()
    {
      tick := slot;
      slot := None;
    }
  }

  class Poller {
    const sys: Outside
    const codec: Decoder.Codec
    const showEye: bool
    const showPCIeEye: bool
    /** The world this poller runs in, for the specification only. */
    ghost const w: World
    const store: Store<PortData>
    const pcieEyeStore: Store<PCIeEye>
    var errors: multiset<ErrorKey>
    var pcieEyeErrors: multiset<ErrorKey>
    var overlaps: nat
    var ready: bool
    ghost var net: Log<PortData>
    ghost var pcie: Log<PCIeEye>

    /** The world is this host, this configuration, and responses as the codec decodes them. */
    ghost predicate Wired() {
      && w.host == sys.host && w.showEye == showEye && w.showPCIeEye == showPCIeEye
      && (forall raw {:trigger Decoder.Decoded(codec, raw)} :: Decoder.Decoded(codec, raw) == w.decode(raw))
      && (forall raw {:trigger Decoder.DecodedPCIeEye(codec, raw)} ::
            Decoder.DecodedPCIeEye(codec, raw) == w.decodePCIe(raw))
    }

    ghost function View(): State
      reads this, sys
    {
      State(sys.cursor, net, pcie, sys.trace)
    }

    /** The real fields are what the journals say, and no published set has changed. */
    ghost predicate Valid()
      reads `errors, `pcieEyeErrors, `ready, `net, `pcie, store, store.Maps(), pcieEyeStore, pcieEyeStore.Maps()
    {
      && Wired()
      && store.Valid() && pcieEyeStore.Valid()
      && Projects(net, errors, store.contents, ready)
      && Projects(pcie, pcieEyeErrors, pcieEyeStore.contents, false)
    }

    constructor (host: Host, codec: Decoder.Codec, showEye: bool, showPCIeEye: bool)
      ensures Valid() && View() == INITIAL && overlaps == 0 && !ready
      ensures sys.host == host && this.codec == codec && this.showEye == showEye && this.showPCIeEye == showPCIeEye
      ensures fresh(sys) && fresh(store) && fresh(pcieEyeStore)
    {
      sys := new Outside(host);
      this.codec, this.showEye, this.showPCIeEye := codec, showEye, showPCIeEye;
      w := World(host, raw => Decoder.Decoded(codec, raw), raw => Decoder.DecodedPCIeEye(codec, raw), showEye, showPCIeEye);
      store := new Store();
      pcieEyeStore := new Store();
      errors, pcieEyeErrors, overlaps, ready := multiset{}, multiset{}, 0, false;
      net, pcie := [], [];
    }

    // ----- one attempt -----

    method Decode(raw: Bytes) returns (data: Option<PortData>)
      requires Wired()
      ensures data == w.decode(raw)
    {
      var r := Decoder.Decode(codec, raw);
      data := if r.Ok? then Some(r.value) else None;
    }

    method DecodePCIe(raw: Bytes) returns (data: Option<PCIeEye>)
      requires Wired()
      ensures data == w.decodePCIe(raw)
    {
      var r := Decoder.DecodePCIeEye(codec, raw);
      data := if r.Ok? then Some(r.value) else None;
    }

    method CountError(t: Target, reason: ErrorReason)
      modifies this`errors
      ensures errors == old(errors) + multiset{NetworkKey(t, reason)}
    {
      errors := errors + multiset{NetworkKey(t, reason)};
    }

    method RecordFailure(snapshot: Snapshot<PortData>, reason: ErrorReason) returns (s: Snapshot<PortData>)
      modifies this`errors
      ensures s == snapshot.(lastError := Some(reason))
      ensures errors == old(errors) + multiset{NetworkKey(snapshot.target, reason)}
    {
      s := snapshot.(lastError := Some(reason));
      CountError(s.target, reason);
    }

    /** A success is what the history makes of it, whatever was recorded before: nothing older survives. */
    method RecordSuccess(snapshot: Snapshot<PortData>, data: PortData, now: Time) returns (s: Snapshot<PortData>)
      ensures forall zero, previous, call, via ::
                s == Fold(zero, previous, snapshot.target, Success(call, via, data, now, snapshot.lastDuration))
    {
      s := snapshot.(data := data);
      s := s.(lastSuccess := Some(now));
      s := s.(lastError := None);
    }

    /** What an attempt makes of the snapshot it was handed. */
    ghost function Result<D>(snapshot: Snapshot<D>, a: Attempt<D>): Option<Snapshot<D>> {
      match a.outcome
      case None => None
      case Some(o) => Some(Fold(snapshot.data, Some(snapshot), snapshot.target, o))
    }

    /** The steps every network query shares: call, clock, context, decode, context. */
    method AskNetwork(q: Query, device: string) returns (x: Asked)
      requires Wired()
      modifies sys
      ensures x == Ask(w, old(sys.cursor)) && sys.cursor == x.cursor
      ensures sys.trace == old(sys.trace) + [Invocation(q, device)]
    {
      var raw := sys.Query(q, device);
      var now := sys.Now();
      var cancelled := sys.Cancelled();
      if cancelled { return Asked(Shutdown, sys.cursor, now); }
      if raw.Err? { return Asked(Refused(ReasonFromError(raw.error)), sys.cursor, now); }
      var data := Decode(raw.value);
      cancelled := sys.Cancelled();
      if cancelled { return Asked(Shutdown, sys.cursor, now); }
      if data.None? { return Asked(Undecodable, sys.cursor, now); }
      return Asked(Readable(data.value), sys.cursor, now);
    }

    /** Fold the answer of the last query asked into the snapshot. */
    method Conclude(q: Query, target: Target, snapshot: Snapshot<PortData>, ghost call: nat, ghost start: Time, x: Asked)
      returns (r: Option<Snapshot<PortData>>)
      requires snapshot.target == target && snapshot.lastDuration == x.now - start
      modifies this`errors
      ensures var a := EndedBy(target, q, call, x, start);
              errors == old(errors) + a.errors && r == Result(snapshot, a)
    {
      match x.answer
      case Shutdown => r := None;
      case Refused(reason) =>
        var s := RecordFailure(snapshot, reason);
        r := Some(s);
      case Undecodable =>
        var s := RecordFailure(snapshot, InvalidJSON);
        r := Some(s);
      case Readable(data) =>
        hide Authoritative;
        ghost var o := Success(call, q, Authoritative(q, data), x.now, snapshot.lastDuration);
        var s := RecordSuccess(snapshot, Authoritative(q, data), x.now);
        assert s == Fold(snapshot.data, Some(snapshot), target, o);
        r := Some(s);
    }

    /** The baseline retry, including the count for the combined query it follows. */
    method CollectBaseline(target: Target, snapshot: Snapshot<PortData>, start: Time)
      returns (r: Option<Snapshot<PortData>>)
      requires snapshot.target == target && Wired()
      modifies this`errors, sys
      ensures Performed(old(sys.cursor), old(sys.trace), old(errors), target, snapshot,
                FallenBack(w, target, Combined, BaselineAttempt(w, old(sys.cursor), target, start)),
                BaselineAttempt(w, old(sys.cursor), target, start).calls, r)
    {
      hide Ask, EndedBy, Decoder.Decoded, Decoder.DecodedPCIeEye;
      ghost var a := BaselineAttempt(w, sys.cursor, target, start);
      ghost var b := FallenBack(w, target, Combined, a);
      var cancelled := sys.Cancelled();
      if cancelled {
        assert CallsOn([], target.device) == [];
        return None;
      }
      ghost var call := sys.cursor.networkCalls;
      var x := AskNetwork(Baseline, target.device);
      EndedByShape(target, Baseline, call, x, start);
      assert a == EndedBy(target, Baseline, call, x, start);
      CallsOnFirst(Baseline, [], target.device);
      if x.answer.Shutdown? { return None; }
      assert b.errors == a.errors + multiset{NetworkKey(target, ExitError)} && b.outcome == a.outcome && b.cursor == x.cursor;
      CountError(target, ExitError);
      CountedInOrder(old(errors), NetworkKey(target, ExitError), a.errors);
      r := Conclude(Baseline, target, snapshot.(lastDuration := x.now - start), call, start, x);
    }

    ghost predicate Performed(c: Cursor, trace: seq<Invocation>, before: multiset<ErrorKey>, target: Target,
      snapshot: Snapshot<PortData>, a: Attempt<PortData>, calls: seq<Query>, r: Option<Snapshot<PortData>>)
      reads this, sys
    {
      && sys.cursor == a.cursor
      && sys.trace == trace + CallsOn(calls, target.device)
      && errors == before + a.errors
      && r == Result(snapshot, a)
    }

    method CollectCombined(target: Target, snapshot: Snapshot<PortData>, start: Time)
      returns (r: Option<Snapshot<PortData>>)
      requires snapshot.target == target && Wired()
      modifies this`errors, sys
      ensures var a := CombinedAttempt(w, old(sys.cursor), target, start);
              Performed(old(sys.cursor), old(sys.trace), old(errors), target, snapshot, a, a.calls, r)
    {
      hide Ask, EndedBy, BaselineAttempt, Decoder.Decoded, Decoder.DecodedPCIeEye;
      ghost var a := CombinedAttempt(w, sys.cursor, target, start);
      ghost var call := sys.cursor.networkCalls;
      var x := AskNetwork(Combined, target.device);
      var s := snapshot.(lastDuration := x.now - start);
      if x.answer.Refused? && x.answer.reason == ExitError {
        ghost var rest := BaselineAttempt(w, x.cursor, target, start);
        assert a == FallenBack(w, target, Combined, rest) && a.calls == [Combined] + rest.calls;
        CallsOnFirst(Combined, rest.calls, target.device);
        r := CollectBaseline(target, s, start);
        assert Result(s, a) == Result(snapshot, a);
      } else {
        EndedByShape(target, Combined, call, x, start);
        assert a == EndedBy(target, Combined, call, x, start) && a.calls == [Combined];
        CallsOnFirst(Combined, [], target.device);
        r := Conclude(Combined, target, s, call, start, x);
        assert Result(s, a) == Result(snapshot, a);
      }
    }

    /** The combined query stands in for the Eye query, which is counted only once that is over. */
    method FallBackFromEye(target: Target, snapshot: Snapshot<PortData>, start: Time)
      returns (r: Option<Snapshot<PortData>>)
      requires snapshot.target == target && Wired()
      modifies this`errors, sys
      ensures var a := CombinedAttempt(w, old(sys.cursor), target, start);
              Performed(old(sys.cursor), old(sys.trace), old(errors), target, snapshot,
                        FallenBack(w, target, WithEye, a), a.calls, r)
    {
      r := CollectCombined(target, snapshot, start);
      if r.None? { return; }
      var cancelled := sys.Cancelled();
      if cancelled { return None; }
      CountError(target, ExitError);
    }

    method CollectWithEye(target: Target, snapshot: Snapshot<PortData>, start: Time)
      returns (r: Option<Snapshot<PortData>>)
      requires snapshot.target == target && Wired()
      modifies this`errors, sys
      ensures var a := EyeAttempt(w, old(sys.cursor), target, start);
              Performed(old(sys.cursor), old(sys.trace), old(errors), target, snapshot, a, a.calls, r)
    {
      hide Ask, EndedBy, CombinedAttempt, Decoder.Decoded, Decoder.DecodedPCIeEye;
      ghost var a := EyeAttempt(w, sys.cursor, target, start);
      ghost var call := sys.cursor.networkCalls;
      var x := AskNetwork(WithEye, target.device);
      var s := snapshot.(lastDuration := x.now - start);
      if x.answer.Refused? && x.answer.reason == ExitError {
        ghost var rest := CombinedAttempt(w, x.cursor, target, start);
        assert a == FallenBack(w, target, WithEye, rest) && a.calls == [WithEye] + rest.calls;
        CallsOnFirst(WithEye, rest.calls, target.device);
        r := FallBackFromEye(target, s, start);
        assert Result(s, a) == Result(snapshot, a);
      } else {
        EndedByShape(target, WithEye, call, x, start);
        assert a == EndedBy(target, WithEye, call, x, start) && a.calls == [WithEye];
        CallsOnFirst(WithEye, [], target.device);
        r := Conclude(WithEye, target, s, call, start, x);
        assert Result(s, a) == Result(snapshot, a);
      }
    }

    method CollectDevice(target: Target, previous: Option<Snapshot<PortData>>) returns (r: Option<Snapshot<PortData>>)
      requires Wired()
      modifies this`errors, sys
      ensures var a := Collect(w, old(sys.cursor), target);
              && sys.cursor == a.cursor && errors == old(errors) + a.errors
              && sys.trace == old(sys.trace) + CallsOn(a.calls, target.device)
              && r == (if a.outcome.None? then None else Some(Fold(NO_DATA, previous, target, a.outcome.value)))
    {
      hide Ask, CombinedAttempt, EyeAttempt, Staged, Decoder.Decoded, Decoder.DecodedPCIeEye;
      var snapshot := if previous.Some? then previous.value else Snapshot(target, NO_DATA, None, None, 0);
      snapshot := snapshot.(target := target);
      var start := sys.Now();
      if showEye {
        EyeIsStaged(w, sys.cursor, target, start);
        r := CollectWithEye(target, snapshot, start);
      } else {
        CombinedIsStaged(w, sys.cursor, target, start);
        r := CollectCombined(target, snapshot, start);
      }
    }

    method CollectPCIeEye(target: Target, previous: Option<Snapshot<PCIeEye>>) returns (r: Option<Snapshot<PCIeEye>>)
      requires Wired()
      modifies this`pcieEyeErrors, sys
      ensures var a := CollectPCIe(w, old(sys.cursor), target);
              && sys.cursor == a.cursor && pcieEyeErrors == old(pcieEyeErrors) + a.errors
              && sys.trace == old(sys.trace) + CallsOn(a.calls, target.device)
              && r == (if a.outcome.None? then None else Some(Fold(NO_PCIE_EYE, previous, target, a.outcome.value)))
    {
      hide Decoder.Decoded, Decoder.DecodedPCIeEye;
      var snapshot := if previous.Some? then previous.value else Snapshot(target, NO_PCIE_EYE, None, None, 0);
      snapshot := snapshot.(target := target);
      var start := sys.Now();
      var raw := sys.QueryPCIe(target.device);
      var now := sys.Now();
      snapshot := snapshot.(lastDuration := now - start);
      assert CallsOn([PCIeQuery], target.device) == [Invocation(PCIeQuery, target.device)];
      var cancelled := sys.Cancelled();
      if cancelled { return None; }
      if raw.Err? {
        snapshot := RecordPCIeEyeFailure(snapshot, ReasonFromError(raw.error));
        return Some(snapshot);
      }
      var data := DecodePCIe(raw.value);
      cancelled := sys.Cancelled();
      if cancelled { return None; }
      if data.None? {
        snapshot := RecordPCIeEyeFailure(snapshot, InvalidJSON);
        return Some(snapshot);
      }
      snapshot := snapshot.(data := data.value, lastSuccess := Some(now), lastError := None);
      return Some(snapshot);
    }

    method RecordPCIeEyeFailure(snapshot: Snapshot<PCIeEye>, reason: ErrorReason) returns (s: Snapshot<PCIeEye>)
      modifies this`pcieEyeErrors
      ensures s == snapshot.(lastError := Some(reason))
      ensures pcieEyeErrors == old(pcieEyeErrors) + multiset{PCIeKey(snapshot.target, reason)}
    {
      s := snapshot.(lastError := Some(reason));
      pcieEyeErrors := pcieEyeErrors + multiset{PCIeKey(s.target, reason)};
    }

    // ----- one sweep -----

    /** Nothing a scrape may have loaded has changed, and readiness has not been withdrawn. */
    twostate predicate Kept()
      reads `ready, store, pcieEyeStore
    {
      && store.Grown() && pcieEyeStore.Grown()
      && (old(ready) ==> ready)
    }

    /** Put the device into the working map and publish a copy of it. Readiness is not touched. */
    method PublishNetwork(t: Target, snapshot: Snapshot<PortData>, working: GoMap<PortData>,
                          ghost before: multiset<ErrorKey>, ghost a: Attempt<PortData>)
      requires Wired() && store.Valid() && pcieEyeStore.Valid()
      requires Projects(net, before, store.contents, ready) && errors == before + a.errors
      requires Projects(pcie, pcieEyeErrors, pcieEyeStore.contents, false)
      requires a.outcome.Some? && working !in store.Maps()
      modifies this`net, store, working
      ensures Valid() && Kept()
      ensures working.entries == old(working.entries)[t.device := snapshot]
      ensures store.Loaded() == Some(working.entries)
      ensures net == old(net) + VisitEvents(t, a, working.entries, false)
    {
      hide Projects, VisitEvents, Decoder.Decoded, Decoder.DecodedPCIeEye;
      VisitProjects(net, t, a, working.entries[t.device := snapshot], false, before, store.contents, ready);
      working.Assign(t.device, snapshot);
      store.PublishCopy(working);
      net := net + VisitEvents(t, a, working.entries, false);
    }

    /** The onPublish callback: it may be called only once a scrape that loads the store finds this success. */
    method Announce(snapshot: Snapshot<PortData>)
      requires Valid()
      requires StoreLookup(store.Loaded(), snapshot.target.device) == Some(snapshot)
      requires snapshot.lastError == None && snapshot.lastSuccess.Some?
      modifies this`ready, this`net
      ensures Valid() && ready && net == old(net) + [Announced]
    {
      hide Projects, Decoder.Decoded, Decoder.DecodedPCIeEye;
      ProjectsSnoc(net, Announced, errors, store.contents, ready);
      assert errors + multiset{} == errors && store.contents + [] == store.contents;
      ready := true;
      net := net + [Announced];
    }

    /** Collect one device and publish the outcome, unless shutting down; a success then makes the poller ready. */
    method VisitNetwork(t: Target, previous: SnapshotSet?<PortData>, working: GoMap<PortData>) returns (ok: bool)
      requires Valid() && working !in store.Maps()
      modifies this`errors, this`ready, this`net, sys, store, working
      ensures Valid() && Kept()
      ensures var a := Collect(w, old(sys.cursor), t);
              && sys.cursor == a.cursor && ok == a.outcome.Some?
              && sys.trace == old(sys.trace) + CallsOn(a.calls, t.device)
              && (!ok ==> net == old(net) + [Abandoned(t, a.calls, a.errors)])
              && (ok ==>
                    && working.entries == old(working.entries)[t.device :=
                         Fold(NO_DATA, StoreLookup(old(ContentsOf(previous)), t.device), t, a.outcome.value)]
                    && net == old(net) + VisitEvents(t, a, working.entries, true))
    {
      hide Collect, Projects, VisitEvents, CallsOn, StoreLookup, Decoder.Decoded, Decoder.DecodedPCIeEye;
      ghost var a := Collect(w, sys.cursor, t);
      var before := LookupIn(previous, t.device);
      var snapshot := CollectDevice(t, before);
      if snapshot.None? {
        NoteAbandoned(t, a, old(errors));
        return false;
      }
      PublishNetwork(t, snapshot.value, working, old(errors), a);
      AnnouncedLast(t, a, working.entries);
      if snapshot.value.lastError == None {
        PublishedIsLoaded(store.Loaded(), working.entries, t.device);
        Announce(snapshot.value);
      }
      return true;
    }

    /** An abandoned attempt publishes nothing; the journal keeps what it counted. */
    ghost method NoteAbandoned(t: Target, a: Attempt<PortData>, before: multiset<ErrorKey>)
      requires Wired() && store.Valid() && pcieEyeStore.Valid()
      requires Projects(net, before, store.contents, ready) && errors == before + a.errors
      requires Projects(pcie, pcieEyeErrors, pcieEyeStore.contents, false)
      modifies this`net
      ensures Valid() && net == old(net) + [Abandoned(t, a.calls, a.errors)]
    {
      hide Projects, Decoder.Decoded, Decoder.DecodedPCIeEye;
      ProjectsSnoc(net, Abandoned(t, a.calls, a.errors), before, store.contents, ready);
      net := net + [Abandoned(t, a.calls, a.errors)];
      assert store.contents + [] == store.contents;
    }

    // ----- sweepDevices, for the network phase -----

    method SweepNetwork(targets: seq<Target>) returns (completed: bool)
      requires Valid()
      modifies this`errors, this`ready, this`net, sys, store
      ensures Valid() && Kept()
      ensures View() == NetworkPhase(w, old(View()), targets)
      ensures completed == NetworkSweep(w, old(View()), targets).completed
    {
      hide Projects, EndOf, Seed, NetworkPhase, NetworkSweep, Wired, Decoder.Decoded, Decoder.DecodedPCIeEye;
      ghost var st := View();
      NoteDiscovery(targets);
      if |targets| == 0 {
        PublishNoNetwork();
        EmptyPhase(w, st);
        return true;
      }
      PhaseEnd(w, st, targets);
      ghost var published := LastPublished(st.net);
      completed := SweepNetworkDevices(targets, published);
    }

    /** The loop of a sweep that has devices to visit. */
    method SweepNetworkDevices(targets: seq<Target>, ghost published: Option<SnapshotMap<PortData>>) returns (completed: bool)
      requires Valid() && published == store.Loaded()
      modifies this`errors, this`ready, this`net, sys, store
      ensures Valid() && Kept()
      ensures EndOf(NO_DATA, NetworkCollector(w), true, old(sys.cursor), targets, published, Seed(published, targets),
                    old(net), old(sys.trace))
           == End(sys.cursor, completed, net, sys.trace)
    {
      hide Valid, EndOf, Collect, VisitEvents, CallsOn, Fold, StoreLookup, Decoder.Decoded, Decoder.DecodedPCIeEye, Seed;
      ghost var end := EndOf(NO_DATA, NetworkCollector(w), true, sys.cursor, targets, published, Seed(published, targets),
                             net, sys.trace);
      StoreIsValid();
      var previous := store.Load();
      var working := SeedWorking(previous, targets);
      StillValid();
      for i := 0 to |targets|
        invariant Valid() && Kept() && fresh(working) && working !in store.Maps()
        invariant end == EndOf(NO_DATA, NetworkCollector(w), true, sys.cursor, targets[i..], published, working.entries,
                               net, sys.trace)
      {
        assert targets[i..][0] == targets[i] && targets[i..][1..] == targets[i + 1..];
        EndStep(NO_DATA, NetworkCollector(w), true, sys.cursor, targets[i..], published, working.entries, net, sys.trace);
        var ok := VisitNetwork(targets[i], previous, working);
        if !ok {
          return false;
        }
      }
      EndOfNothing(NO_DATA, NetworkCollector(w), true, sys.cursor, published, working.entries, net, sys.trace);
      return true;
    }

    /** The journal takes note of what was discovered. */
    ghost method NoteDiscovery(targets: seq<Target>)
      requires Valid()
      modifies this`net
      ensures Valid() && net == old(net) + [Discovered(targets)] && store.Loaded() == LastPublished(old(net))
    {
      hide Projects, Decoder.Decoded, Decoder.DecodedPCIeEye;
      ProjectsSnoc(net, Discovered(targets), errors, store.contents, ready);
      ProjectsLast(net, errors, store.contents, ready);
      net := net + [Discovered(targets)];
      assert errors + multiset{} == errors && store.contents + [] == store.contents;
    }

    /** An empty discovery replaces the published set by one without devices. */
    method PublishNoNetwork()
      requires Valid()
      modifies this`net, store
      ensures Valid() && Kept() && net == old(net) + [Published(map[])]
    {
      hide Projects, Decoder.Decoded, Decoder.DecodedPCIeEye;
      ProjectsSnoc(net, Published(map[]), errors, store.contents, ready);
      assert errors + multiset{} == errors;
      store.PublishEmpty();
      net := net + [Published(map[])];
    }

    // ----- sweepDevices again, for the PCIe phase, which announces nothing -----

    method PublishPCIe(t: Target, snapshot: Snapshot<PCIeEye>, working: GoMap<PCIeEye>,
                       ghost before: multiset<ErrorKey>, ghost a: Attempt<PCIeEye>)
      requires Wired() && store.Valid() && pcieEyeStore.Valid()
      requires Projects(pcie, before, pcieEyeStore.contents, false) && pcieEyeErrors == before + a.errors
      requires Projects(net, errors, store.contents, ready)
      requires a.outcome.Some? && working !in pcieEyeStore.Maps()
      modifies this`pcie, pcieEyeStore, working
      ensures Valid() && Kept()
      ensures working.entries == old(working.entries)[t.device := snapshot]
      ensures pcie == old(pcie) + VisitEvents(t, a, working.entries, false)
    {
      hide Projects, VisitEvents, Decoder.Decoded, Decoder.DecodedPCIeEye;
      VisitProjects(pcie, t, a, working.entries[t.device := snapshot], false, before, pcieEyeStore.contents, false);
      working.Assign(t.device, snapshot);
      pcieEyeStore.PublishCopy(working);
      pcie := pcie + VisitEvents(t, a, working.entries, false);
    }

    method VisitPCIe(t: Target, previous: SnapshotSet?<PCIeEye>, working: GoMap<PCIeEye>) returns (ok: bool)
      requires Valid() && working !in pcieEyeStore.Maps()
      modifies this`pcieEyeErrors, this`pcie, sys, pcieEyeStore, working
      ensures Valid() && Kept()
      ensures var a := CollectPCIe(w, old(sys.cursor), t);
              && sys.cursor == a.cursor && ok == a.outcome.Some?
              && sys.trace == old(sys.trace) + CallsOn(a.calls, t.device)
              && (!ok ==> pcie == old(pcie) + [Abandoned(t, a.calls, a.errors)])
              && (ok ==>
                    && working.entries == old(working.entries)[t.device :=
                         Fold(NO_PCIE_EYE, StoreLookup(old(ContentsOf(previous)), t.device), t, a.outcome.value)]
                    && pcie == old(pcie) + VisitEvents(t, a, working.entries, false))
    {
      hide CollectPCIe, Projects, VisitEvents, CallsOn, Fold, StoreLookup, Decoder.Decoded, Decoder.DecodedPCIeEye;
      ghost var a := CollectPCIe(w, sys.cursor, t);
      var before := LookupIn(previous, t.device);
      var snapshot := CollectPCIeEye(t, before);
      if snapshot.None? {
        ProjectsSnoc(pcie, Abandoned(t, a.calls, a.errors), old(pcieEyeErrors), pcieEyeStore.contents, false);
        pcie := pcie + [Abandoned(t, a.calls, a.errors)];
        assert pcieEyeStore.contents + [] == pcieEyeStore.contents;
        return false;
      }
      PublishPCIe(t, snapshot.value, working, old(pcieEyeErrors), a);
      return true;
    }

    method SweepPCIe(targets: seq<Target>)
      requires Valid()
      modifies this`pcieEyeErrors, this`pcie, sys, pcieEyeStore
      ensures Valid() && Kept()
      ensures View() == PCIePhase(w, old(View()), targets)
    {
      hide Projects, EndOf, Seed, PCIePhase, PCIeSweep, Wired, Decoder.Decoded, Decoder.DecodedPCIeEye;
      ghost var st := View();
      NotePCIeDiscovery(targets);
      if |targets| == 0 {
        PublishNoPCIe();
        EmptyPCIePhase(w, st);
        return;
      }
      PCIePhaseEnd(w, st, targets);
      ghost var published := LastPublished(st.pcie);
      SweepPCIeDevices(targets, published);
    }

    method SweepPCIeDevices(targets: seq<Target>, ghost published: Option<SnapshotMap<PCIeEye>>)
      requires Valid() && published == pcieEyeStore.Loaded()
      modifies this`pcieEyeErrors, this`pcie, sys, pcieEyeStore
      ensures Valid() && Kept()
      ensures var end := EndOf(NO_PCIE_EYE, PCIeCollector(w), false, old(sys.cursor), targets, published,
                               Seed(published, targets), old(pcie), old(sys.trace));
              end.cursor == sys.cursor && end.log == pcie && end.trace == sys.trace
    {
      hide Valid, EndOf, CollectPCIe, VisitEvents, CallsOn, Fold, StoreLookup, Decoder.Decoded, Decoder.DecodedPCIeEye, Seed;
      ghost var end := EndOf(NO_PCIE_EYE, PCIeCollector(w), false, sys.cursor, targets, published, Seed(published, targets),
                             pcie, sys.trace);
      StoreIsValid();
      var previous := pcieEyeStore.Load();
      var working := SeedWorking(previous, targets);
      StillValid();
      for i := 0 to |targets|
        invariant Valid() && Kept() && fresh(working) && working !in pcieEyeStore.Maps()
        invariant end == EndOf(NO_PCIE_EYE, PCIeCollector(w), false, sys.cursor, targets[i..], published, working.entries,
                               pcie, sys.trace)
      {
        assert targets[i..][0] == targets[i] && targets[i..][1..] == targets[i + 1..];
        EndStep(NO_PCIE_EYE, PCIeCollector(w), false, sys.cursor, targets[i..], published, working.entries, pcie, sys.trace);
        var ok := VisitPCIe(targets[i], previous, working);
        if !ok {
          return;
        }
      }
      EndOfNothing(NO_PCIE_EYE, PCIeCollector(w), false, sys.cursor, published, working.entries, pcie, sys.trace);
    }

    ghost method NotePCIeDiscovery(targets: seq<Target>)
      requires Valid()
      modifies this`pcie
      ensures Valid() && pcie == old(pcie) + [Discovered(targets)] && pcieEyeStore.Loaded() == LastPublished(old(pcie))
    {
      hide Projects, Decoder.Decoded, Decoder.DecodedPCIeEye;
      ProjectsSnoc(pcie, Discovered(targets), pcieEyeErrors, pcieEyeStore.contents, false);
      ProjectsLast(pcie, pcieEyeErrors, pcieEyeStore.contents, false);
      pcie := pcie + [Discovered(targets)];
      assert pcieEyeErrors + multiset{} == pcieEyeErrors && pcieEyeStore.contents + [] == pcieEyeStore.contents;
    }

    method PublishNoPCIe()
      requires Valid()
      modifies this`pcie, pcieEyeStore
      ensures Valid() && Kept() && pcie == old(pcie) + [Published(map[])]
    {
      hide Projects, Decoder.Decoded, Decoder.DecodedPCIeEye;
      ProjectsSnoc(pcie, Published(map[]), pcieEyeErrors, pcieEyeStore.contents, false);
      assert pcieEyeErrors + multiset{} == pcieEyeErrors;
      pcieEyeStore.PublishEmpty();
      pcie := pcie + [Published(map[])];
    }

    // ----- sweep, Run and drainTicks -----

    lemma StoreIsValid()
      requires Valid()
      ensures store.Valid() && pcieEyeStore.Valid()
    {
    }

    /** What the two stores hold, in terms of the journals. */
    lemma StoresHold()
      requires Valid()
      ensures store.Valid() && pcieEyeStore.Valid()
      ensures store.contents == PublishedSets(net) && pcieEyeStore.contents == PublishedSets(pcie)
      ensures w.host == sys.host
      ensures forall raw :: w.decode(raw) == Decoder.Decoded(codec, raw)
      ensures forall raw :: w.decodePCIe(raw) == Decoder.DecodedPCIeEye(codec, raw)
    {
      hide Decoder.Decoded, Decoder.DecodedPCIeEye;
    }

    lemma ValidIsWired()
      requires Valid()
      ensures Wired()
    {
    }

    /** The clock, the context and the ticker are no part of what Valid is about. */
    twostate lemma StillValid()
      requires old(Valid())
      requires unchanged(`errors) && unchanged(`pcieEyeErrors) && unchanged(`ready) && unchanged(`net) && unchanged(`pcie)
      requires unchanged(store) && unchanged(pcieEyeStore) && unchanged(store.Maps()) && unchanged(pcieEyeStore.Maps())
      ensures Valid()
    {
    }

    /** Discover, sweep the network ports and then, if that was not cut short, the PCIe links. */
    method Sweep()
      requires Valid()
      modifies this`errors, this`ready, this`net, this`pcieEyeErrors, this`pcie, sys, store, pcieEyeStore
      ensures Valid() && Kept()
      ensures View() == Runs.Sweep(w, old(View()))
    {
      hide Projects, NetworkPhase, NetworkSweep, PCIePhase, Decoder.Decoded, Decoder.DecodedPCIeEye;
      var targets := sys.Discover();
      if targets.None? { return; }
      var completed := SweepNetwork(targets.value);
      if !completed { return; }
      if showPCIeEye {
        SweepPCIe(targets.value);
      }
    }

    /** The poller and its ticker are where this run of the specification is. */
    ghost predicate At(r: Run, t: TickChannel)
      reads this, sys, t
    {
      View() == r.state && overlaps == r.overlaps && t.View() == r.ticker
    }

    /** Take at most one pending tick; a live context makes it an overlap. */
    method DrainTicks(t: TickChannel, late: nat, ghost r: Run)
      requires At(r, t)
      requires Wired()
      modifies this`overlaps, sys, t
      ensures At(Drain(w, r, late), t)
    {
      hide Ticker.FireTimes, Decoder.Decoded, Decoder.DecodedPCIeEye;
      t.FireTimes(late);
      var tick := t.Receive();
      if tick.Some? {
        var cancelled := sys.Cancelled();
        if cancelled { return; }
        overlaps := overlaps + 1;
      }
    }

    /** A tick was received: sweep, and then drain. */
    method SweepAndDrain(t: TickChannel, turn: Turn, ghost r: Run)
      requires Valid() && r.ticker.pending.Some?
      requires View() == r.state && overlaps == r.overlaps && t.View() == r.ticker.Taken()
      modifies this, sys, store, pcieEyeStore, t
      ensures Valid() && Kept() && At(Drain(w, TickSweep(w, r, turn.during), turn.late), t)
    {
      hide Valid, Runs.Sweep, Drain, Ticker.FireTimes, Decoder.Decoded, Decoder.DecodedPCIeEye;
      ValidIsWired();
      Sweep();
      label swept:
      t.FireTimes(turn.during);
      DrainTicks(t, turn.late, TickSweep(w, r, turn.during));
      StillValid@swept();
    }

    /** One turn of the select loop; "turn" says how the tick and the shutdown race. */
    method Select(t: TickChannel, turn: Turn, ghost r: Run) returns (stopped: bool)
      requires Valid() && At(r, t) && !r.stopped
      modifies this, sys, store, pcieEyeStore, t
      ensures Valid() && Kept() && At(Step(w, r, turn), t) && stopped == Step(w, r, turn).stopped
    {
      hide Valid, Wired, TickSweep, Drain, Ticker.FireTimes, Decoder.Decoded, Decoder.DecodedPCIeEye;
      ValidIsWired();
      assert w.host == sys.host by { SameHost(); }
      t.FireTimes(turn.wait);
      var cancelled := sys.Cancelled();
      StillValid();
      if cancelled && (turn.done || t.slot.None?) {
        return true;
      }
      ghost var looked := r.(state := Look(r.state), ticker := r.ticker.FireTimes(turn.wait));
      var tick := t.Receive();
      StillValid();
      if tick.None? {
        return false;
      }
      StillRunning(w, looked, turn);
      SweepAndDrain(t, turn, looked);
      return false;
    }

    lemma SameHost()
      requires Wired()
      ensures w.host == sys.host
    {
    }

    /** Sweep at once and then on every tick, until the context is done or the schedule ends. */
    method Run(turns: seq<Turn>) returns (t: TickChannel, stopped: bool)
      requires Valid() && View() == INITIAL && overlaps == 0
      modifies this, sys, store, pcieEyeStore
      ensures Valid() && Kept() && At(RunAfter(w, turns), t) && stopped == RunAfter(w, turns).stopped
    {
      hide Valid, Wired, Runs.Sweep, Step, Decoder.Decoded, Decoder.DecodedPCIeEye;
      ValidIsWired();
      SameHost();
      t := new TickChannel();
      var cancelled := sys.Cancelled();
      StillValid();
      if cancelled {
        StoppedStays(w, turns, 0);
        return t, true;
      }
      Sweep();
      for i := 0 to |turns|
        invariant Valid() && Kept() && fresh(t) && At(RunAfter(w, turns[..i]), t) && !RunAfter(w, turns[..i]).stopped
      {
        assert turns[..i + 1][..i] == turns[..i];
        var over := Select(t, turns[i], RunAfter(w, turns[..i]));
        if over {
          StoppedStays(w, turns, i + 1);
          return t, true;
        }
      }
      assert turns[..|turns|] == turns;
      return t, false;
    }
  }

  lemma EmptyPCIePhase(w: World, st: State)
    ensures PCIePhase(w, st, []) == st.(pcie := st.pcie + [Discovered([])] + [Published(map[])])
  {
    var events := PCIeSweep(w, st, []).events;
    assert events[1..] == [];
  }

  lemma PCIePhaseEnd(w: World, st: State, targets: seq<Target>)
    requires targets != []
    ensures var store := LastPublished(st.pcie);
            var end := EndOf(NO_PCIE_EYE, PCIeCollector(w), false, st.cursor, targets, store, Seed(store, targets),
                             st.pcie + [Discovered(targets)], st.trace);
            PCIePhase(w, st, targets) == State(end.cursor, st.net, end.log, end.trace)
  {
  }

  lemma AnnouncedLast(t: Target, a: Attempt<PortData>, now: SnapshotMap<PortData>)
    requires a.outcome.Some?
    ensures VisitEvents(t, a, now, true)
         == VisitEvents(t, a, now, false) + (if a.outcome.value.Success? then [Announced] else [])
  {
  }

  lemma PublishedIsLoaded(loaded: Option<SnapshotMap<PortData>>, now: SnapshotMap<PortData>, device: string)
    requires loaded == Some(now) && device in now
    ensures StoreLookup(loaded, device) == Some(now[device])
  {
  }

  lemma StillRunning(w: World, r: Runs.Run, turn: Turn)
    requires r.ticker.pending.Some?
    ensures Drain(w, TickSweep(w, r, turn.during), turn.late).stopped == r.stopped
  {
  }

  lemma {:induction false} StoppedStays(w: World, turns: seq<Turn>, i: nat)
    requires i <= |turns| && RunAfter(w, turns[..i]).stopped
    ensures RunAfter(w, turns) == RunAfter(w, turns[..i])
  {
    if i == |turns| {
      assert turns[..i] == turns;
    } else {
      assert turns[..|turns| - 1][..i] == turns[..i];
      StoppedStays(w, turns[..|turns| - 1], i);
    }
  }

  lemma EmptyPhase(w: World, st: State)
    ensures NetworkPhase(w, st, []) == st.(net := st.net + [Discovered([])] + [Published(map[])])
    ensures NetworkSweep(w, st, []).completed
  {
    var events := NetworkSweep(w, st, []).events;
    assert events[1..] == [];
  }

  lemma PhaseEnd(w: World, st: State, targets: seq<Target>)
    requires targets != []
    ensures var store := LastPublished(st.net);
            var end := EndOf(NO_DATA, NetworkCollector(w), true, st.cursor, targets, store, Seed(store, targets),
                             st.net + [Discovered(targets)], st.trace);
            && NetworkPhase(w, st, targets) == State(end.cursor, end.log, st.pcie, end.trace)
            && NetworkSweep(w, st, targets).completed == end.completed
  {
  }

  /** Counting first or last makes no difference to a counter. */
  lemma CountedInOrder(before: multiset<ErrorKey>, k: ErrorKey, more: multiset<ErrorKey>)
    ensures before + multiset{k} + more == before + (more + multiset{k})
    ensures before + multiset{} == before
  {
  }

  lemma CallsOnFirst(q: Query, rest: seq<Query>, device: string)
    ensures CallsOn([q] + rest, device) == [Invocation(q, device)] + CallsOn(rest, device)
    ensures CallsOn([q], device) == [Invocation(q, device)]
  {
  }
}
