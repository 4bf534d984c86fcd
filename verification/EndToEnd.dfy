/**
 From the bytes a command wrote to the series a scrape exports: theorems over
 every run, every moment of it, every iteration order of a published set and
 every time of scrape.
 */
module EndToEnd {
  import opened Wrappers
  import opened Model
  import opened Journal
  import opened Runner
  import opened Attempts
  import opened Sweeps
  import opened Runs
  import opened Metrics
  import opened SnapshotStore
  import History
  import Domains
  import Decoder
  import Collector
  import PCIeEyeCollector
  import Poller
  import opened CallNumbers

  /** The world decodes responses the way decoder.go does. */
  ghost predicate Decodes(w: World, codec: Decoder.Codec) {
    && (forall raw :: w.decode(raw) == Decoder.Decoded(codec, raw))
    && (forall raw :: w.decodePCIe(raw) == Decoder.DecodedPCIeEye(codec, raw))
  }

  /** Every query is one process, judged as runner.go does; os/exec issues no empty writes. */
  ghost predicate Executes(w: World, processes: nat -> Process, links: nat -> Process) {
    && (forall n :: w.host.network(n) == RunOutcome(processes(n)) && forall b | b in processes(n).writes :: b != [])
    && (forall n :: w.host.pcie(n) == RunOutcome(links(n)) && forall b | b in links(n).writes :: b != [])
  }

  /** The process ended cleanly, uncancelled and within the limit. */
  predicate EndedWell(p: Process) {
    !p.parentCancelled && p.failure.None? && |Concat(p.writes)| <= 4194304
  }

  // ----- no series twice -----

  lemma AuthoritativeWellFormed(via: Query, d: PortData)
    requires Decoder.WellFormed(d)
    ensures Decoder.WellFormed(Authoritative(via, d))
  {
  }

  lemma NetworkSetWellFormed(w: World, codec: Decoder.Codec, log: Log<PortData>, i: nat, device: string)
    requires Decodes(w, codec) && Faithful(NO_DATA, log) && AllGenuine(NetworkCollector(w), log)
    requires i < |log| && log[i].Published? && device in log[i].devices
    ensures log[i].devices[device].target.device == device && Decoder.WellFormed(log[i].devices[device].data)
  {
    hide Decoder.WellFormed;
    History.PublishedSource(NO_DATA, NetworkCollector(w), log, i, device);
    match LatestSuccess(log[..i], device)
    case None => NothingWellFormed();
    case Some(o) =>
      History.NetworkOutcomeSourced(w, device, o);
      var raw := w.host.network(o.call).value;
      Decoder.DecodedIsWellFormed(codec, raw);
      AuthoritativeWellFormed(o.via, Decoder.Decoded(codec, raw).value);
  }

  lemma NothingWellFormed()
    ensures Decoder.WellFormed(NO_DATA) && Decoder.PCIeWellFormed(NO_PCIE_EYE)
  {
  }

  lemma PCIeOutcomeSourced(w: World, device: string, o: Outcome<PCIeEye>)
    requires o.Success? && History.FromCollector(PCIeCollector(w), device, o)
    ensures PCIeSourced(w, o)
  {
    var c, t: Target :| t.device == device && PCIeCollector(w)(c, t).outcome == Some(o);
    assert CollectPCIe(w, c, t).outcome == Some(o);
  }

  lemma PCIeSetWellFormed(w: World, codec: Decoder.Codec, log: Log<PCIeEye>, i: nat, device: string)
    requires Decodes(w, codec) && Faithful(NO_PCIE_EYE, log) && AllGenuine(PCIeCollector(w), log)
    requires i < |log| && log[i].Published? && device in log[i].devices
    ensures log[i].devices[device].target.device == device && Decoder.PCIeWellFormed(log[i].devices[device].data)
  {
    hide Decoder.PCIeWellFormed;
    History.PublishedSource(NO_PCIE_EYE, PCIeCollector(w), log, i, device);
    match LatestSuccess(log[..i], device)
    case None => NothingWellFormed();
    case Some(o) =>
      PCIeOutcomeSourced(w, device, o);
      Decoder.DecodedIsWellFormed(codec, w.host.pcie(o.call).value);
  }

  /** A set that was published was published at some point of the journal. */
  lemma {:induction false} PublishedWhen<D>(log: Log<D>, devices: SnapshotMap<D>) returns (i: nat)
    requires devices in PublishedSets(log)
    ensures i < |log| && log[i].Published? && log[i].devices == devices
  {
    var last := log[|log| - 1];
    if last.Published? && last.devices == devices {
      i := |log| - 1;
    } else {
      i := PublishedWhen(log[..|log| - 1], devices);
    }
  }

  /**
   Whatever the responses said, no scrape of any set published in any run emits
   the same family with the same label values twice.
   */
  lemma NoDuplicateSeries(w: World, codec: Decoder.Codec, turns: seq<Turn>, devices: SnapshotMap<PortData>,
                          order: seq<string>, now: Time, staleAfter: int)
    requires History.DistinctDiscovery(w) && Decodes(w, codec)
    requires devices in PublishedSets(RunAfter(w, turns).state.net) && Iterates(order, devices)
    ensures NoDuplicates(Scrape(devices, order, s => PortMetrics(s, now, staleAfter)))
  {
    hide Decoder.WellFormed;
    History.EveryRunSound(w, turns);
    History.EveryRunGenuine(w, turns);
    var net := RunAfter(w, turns).state.net;
    var i := PublishedWhen(net, devices);
    forall d | d in devices ensures devices[d].target.device == d && Decoder.WellFormed(devices[d].data) {
      NetworkSetWellFormed(w, codec, net, i, d);
    }
    PortScrapeDistinct(devices, order, now, staleAfter);
  }

  lemma NoDuplicatePCIeSeries(w: World, codec: Decoder.Codec, turns: seq<Turn>, devices: SnapshotMap<PCIeEye>,
                              order: seq<string>, now: Time, staleAfter: int)
    requires History.DistinctDiscovery(w) && Decodes(w, codec)
    requires devices in PublishedSets(RunAfter(w, turns).state.pcie) && Iterates(order, devices)
    ensures NoDuplicates(Scrape(devices, order, s => PCIeMetrics(s, now, staleAfter)))
  {
    hide Decoder.PCIeWellFormed;
    History.EveryRunSound(w, turns);
    History.EveryRunGenuine(w, turns);
    var pcie := RunAfter(w, turns).state.pcie;
    var i := PublishedWhen(pcie, devices);
    forall d | d in devices ensures devices[d].target.device == d && Decoder.PCIeWellFormed(devices[d].data) {
      PCIeSetWellFormed(w, codec, pcie, i, d);
    }
    PCIeScrapeDistinct(devices, order, now, staleAfter);
  }

  // ----- provenance, freshness and up -----

  lemma {:induction false} SuccessIsLatest<D>(log: Log<D>, device: string)
    ensures LatestAttempt(log, device).Some? && LatestAttempt(log, device).value.1.Success? ==>
              LatestSuccess(log, device) == Some(LatestAttempt(log, device).value.1)
  {
    if log != [] {
      SuccessIsLatest(log[..|log| - 1], device);
    }
  }

  /** The measurement comes from the complete output of a process that ended well, decoded, and not too old. */
  ghost predicate Traced(codec: Decoder.Codec, p: Process, o: Outcome<PortData>, t: Target, m: Metric, now: Time, staleAfter: int)
    requires o.Success?
  {
    && EndedWell(p) && Decoder.Decoded(codec, Concat(p.writes)).Some?
    && now - o.at <= staleAfter
    && exists x | x in DataSamples(Authoritative(o.via, Decoder.Decoded(codec, Concat(p.writes)).value), m.family) ::
         m.labels == PortLabels(t) + x.suffix && m.value == x.value
  }

  /** The call the outcome names was made, and asked this device with this query. */
  ghost predicate AskedFor<D>(calls: seq<Invocation>, o: Outcome<D>, device: string)
    requires o.Success?
  {
    o.call < |calls| && calls[o.call] == Invocation(o.via, device)
  }

  lemma SourceIsComplete(w: World, codec: Decoder.Codec, p: Process, o: Outcome<PortData>)
    requires Decodes(w, codec) && o.Success? && NetworkSourced(w, o)
    requires w.host.network(o.call) == RunOutcome(p) && forall b | b in p.writes :: b != []
    ensures EndedWell(p) && Decoder.Decoded(codec, Concat(p.writes)).Some?
    ensures o.data == Authoritative(o.via, Decoder.Decoded(codec, Concat(p.writes)).value)
  {
    hide RunOutcome, Concat, Decoder.Decoded, Authoritative, ReasonFromError;
    assert forall i | 0 <= i < |p.writes| :: p.writes[i] in p.writes;
    AcceptedOutputIsComplete(p);
  }

  lemma PCIeSourceIsComplete(w: World, codec: Decoder.Codec, p: Process, o: Outcome<PCIeEye>)
    requires Decodes(w, codec) && o.Success? && PCIeSourced(w, o)
    requires w.host.pcie(o.call) == RunOutcome(p) && forall b | b in p.writes :: b != []
    ensures EndedWell(p) && Decoder.DecodedPCIeEye(codec, Concat(p.writes)) == Some(o.data)
  {
    hide RunOutcome, Concat, Decoder.DecodedPCIeEye, ReasonFromError;
    assert forall i | 0 <= i < |p.writes| :: p.writes[i] in p.writes;
    AcceptedOutputIsComplete(p);
  }

  /**
   Every measurement a scrape can export, in any run and from any set ever
   published, is a sample of the authoritative part of one response: the latest
   successful one for the device, no older than staleAfter, decoded from the
   complete output of a process that ended cleanly. That process is the run's
   network call of the recorded number, which asked this very device with the
   recorded query; and the labels are those of the latest attempt's target.
   */
  lemma Provenance(w: World, codec: Decoder.Codec, processes: nat -> Process, links: nat -> Process,
                   turns: seq<Turn>, i: nat, device: string, m: Metric, now: Time, staleAfter: int)
    requires History.DistinctDiscovery(w) && Decodes(w, codec) && Executes(w, processes, links)
    requires var net := RunAfter(w, turns).state.net;
             && i < |net| && net[i].Published? && device in net[i].devices
             && m in PortMetrics(net[i].devices[device], now, staleAfter)
             && m.family in MEASUREMENT_FAMILIES
    ensures var st := RunAfter(w, turns).state;
            var source, latest := LatestSuccess(st.net[..i], device), LatestAttempt(st.net[..i], device);
            && source.Some? && source.value.Success? && latest.Some?
            && AskedFor(CallsOf(st.trace, false), source.value, device)
            && Traced(codec, processes(source.value.call), source.value, latest.value.0, m, now, staleAfter)
  {
    hide Decodes, DataSamples, RunOutcome, Concat, CallsOf, Matched;
    History.EveryRunSound(w, turns);
    History.EveryRunGenuine(w, turns);
    SuccessNamesItsCall(w, turns);
    var st := RunAfter(w, turns).state;
    var net := st.net;
    var s := net[i].devices[device];
    History.PublishedSource(NO_DATA, NetworkCollector(w), net, i, device);
    assert Lookup(net[i].devices, device) == Entry(NO_DATA, net[..i], device);
    EntryFields(NO_DATA, net[..i], device);
    LatestSuccessMatched(net, i, device, CallsOf(st.trace, false));
    MeasurementSampled(s, m, now, staleAfter);
    var o := LatestSuccess(net[..i], device).value;
    History.NetworkOutcomeSourced(w, device, o);
    SourceIsComplete(w, codec, processes(o.call), o);
  }

  /** A measurement is exported exactly when the snapshot holds it and is fresh. */
  lemma MeasurementSampled(s: Snapshot<PortData>, m: Metric, now: Time, staleAfter: int)
    requires m.family in MEASUREMENT_FAMILIES
    ensures m in PortMetrics(s, now, staleAfter)
       <==> && s.lastSuccess.Some? && now - s.lastSuccess.value <= staleAfter
            && exists x | x in DataSamples(s.data, m.family) :: m.labels == PortLabels(s.target) + x.suffix && m.value == x.value
  {
    hide DataSamples, Emit;
    EmitMembers(PortLabels(s.target), f => PortSamples(s, f), PortFamilies(s, now, staleAfter), m);
    MeasurementsAreNotSelf(m.family);
  }

  lemma MeasurementsAreNotSelf(f: Family)
    requires f in MEASUREMENT_FAMILIES
    ensures f !in SELF_FAMILIES && f != Up && f != CollectionDuration && f != LastSuccess
  {
  }

  // ----- which responses can become successes -----

  /**
   No success in any run, and so no published data, comes from a response with a
   non-zero status or without an output: every success was accepted as a document.
   */
  lemma SuccessesAccepted(w: World, codec: Decoder.Codec, turns: seq<Turn>, i: nat)
    requires Decodes(w, codec)
    ensures var net := RunAfter(w, turns).state.net;
            i < |net| && net[i].Collected? && net[i].outcome.Success? ==>
              var answer := w.host.network(net[i].outcome.call);
              answer.Ok? && Decoder.Acceptable(codec.parse(answer.value))
    ensures var pcie := RunAfter(w, turns).state.pcie;
            i < |pcie| && pcie[i].Collected? && pcie[i].outcome.Success? ==>
              var answer := w.host.pcie(pcie[i].outcome.call);
              answer.Ok? && Decoder.Acceptable(codec.parse(answer.value))
  {
    hide Decoder.Decoded, Decoder.DecodedPCIeEye, Decoder.Acceptable, Collect, CollectPCIe;
    History.EveryRunGenuine(w, turns);
    var st := RunAfter(w, turns).state;
    if i < |st.net| && st.net[i].Collected? && st.net[i].outcome.Success? {
      var e := st.net[i];
      assert Genuine(NetworkCollector(w), e);
      var c :| IsAttempt(NetworkCollector(w)(c, e.target), e.calls, e.errors, Some(e.outcome));
      CollectKeeps(w, c, e.target);
      Decoder.AcceptedExactly(codec, w.host.network(e.outcome.call).value);
    }
    if i < |st.pcie| && st.pcie[i].Collected? && st.pcie[i].outcome.Success? {
      var e := st.pcie[i];
      assert Genuine(PCIeCollector(w), e);
      var c :| IsAttempt(PCIeCollector(w)(c, e.target), e.calls, e.errors, Some(e.outcome));
      assert History.FromCollector(PCIeCollector(w), e.target.device, e.outcome) by {
        assert PCIeCollector(w)(c, e.target).outcome == Some(e.outcome);
      }
      PCIeOutcomeSourced(w, e.target.device, e.outcome);
      Decoder.AcceptedExactly(codec, w.host.pcie(e.outcome.call).value);
    }
  }

  // ----- when there is data to scrape -----

  ghost predicate HasMeasurement(ms: seq<Metric>) {
    exists m :: m in ms && m.family in MEASUREMENT_FAMILIES
  }

  /** The response has at least one sample to export. */
  ghost predicate Exportable(d: PortData) {
    exists f :: f in MEASUREMENT_FAMILIES && DataSamples(d, f) != []
  }

  lemma DeviceMeasured(s: Snapshot<PortData>, now: Time, staleAfter: int)
    ensures HasMeasurement(PortMetrics(s, now, staleAfter))
       <==> s.lastSuccess.Some? && now - s.lastSuccess.value <= staleAfter && Exportable(s.data)
  {
    hide PortMetrics, DataSamples;
    if HasMeasurement(PortMetrics(s, now, staleAfter)) {
      var m :| m in PortMetrics(s, now, staleAfter) && m.family in MEASUREMENT_FAMILIES;
      MeasurementSampled(s, m, now, staleAfter);
      assert DataSamples(s.data, m.family) != [];
    }
    if s.lastSuccess.Some? && now - s.lastSuccess.value <= staleAfter && Exportable(s.data) {
      var f :| f in MEASUREMENT_FAMILIES && DataSamples(s.data, f) != [];
      var x := DataSamples(s.data, f)[0];
      var m := Metric(f, PortLabels(s.target) + x.suffix, x.value);
      assert x in DataSamples(s.data, f);
      MeasurementSampled(s, m, now, staleAfter);
    }
  }

  /** Success k supplies the device up to point j, is fresh at the time of the scrape and has something to export. */
  ghost predicate Feeds(net: Log<PortData>, j: nat, device: string, k: nat, now: Time, staleAfter: int)
    requires j <= |net|
  {
    Supplies(net, j, device, k) && now - net[k].outcome.at <= staleAfter && Exportable(net[k].outcome.data)
  }

  lemma DeviceFed(net: Log<PortData>, j: nat, device: string, now: Time, staleAfter: int)
    requires Faithful(NO_DATA, net) && j < |net| && net[j].Published?
    ensures device in net[j].devices && HasMeasurement(PortMetrics(net[j].devices[device], now, staleAfter))
       <==> exists k: nat :: Feeds(net, j, device, k, now, staleAfter)
  {
    hide PortMetrics, Exportable, HasMeasurement, Supplies;
    assert Lookup(net[j].devices, device) == Entry(NO_DATA, net[..j], device);
    EntryFields(NO_DATA, net[..j], device);
    LatestSuccessExactly(net, j, device);
    if device in net[j].devices && HasMeasurement(PortMetrics(net[j].devices[device], now, staleAfter)) {
      DeviceMeasured(net[j].devices[device], now, staleAfter);
      var k: nat :| Supplies(net, j, device, k);
      SuppliesLatest(net, j, device, k);
      assert Feeds(net, j, device, k, now, staleAfter);
    }
    if k: nat :| Feeds(net, j, device, k, now, staleAfter) {
      SuppliesLatest(net, j, device, k);
      DeviceMeasured(net[j].devices[device], now, staleAfter);
    }
  }

  /**
   Data to scrape, exactly. In every run, whatever set a scrape loads and in
   whatever order it visits it, some measurement is exported if and only if some
   device's latest success is fresh and has something to export, and every
   discovery since that success has reported the device. Readiness plays no part.
   */
  lemma DataToScrape(w: World, turns: seq<Turn>, j: nat, order: seq<string>, now: Time, staleAfter: int)
    requires History.DistinctDiscovery(w)
    requires var net := RunAfter(w, turns).state.net;
             j < |net| && net[j].Published? && Iterates(order, net[j].devices)
    ensures var net := RunAfter(w, turns).state.net;
            HasMeasurement(Scrape(net[j].devices, order, s => PortMetrics(s, now, staleAfter)))
            <==> exists device, k: nat :: Feeds(net, j, device, k, now, staleAfter)
  {
    hide PortMetrics, Feeds, Scrape;
    History.EveryRunSound(w, turns);
    var net := RunAfter(w, turns).state.net;
    var devices, all := net[j].devices, Scrape(net[j].devices, order, s => PortMetrics(s, now, staleAfter));
    if HasMeasurement(all) {
      var m :| m in all && m.family in MEASUREMENT_FAMILIES;
      ScrapeMembers(devices, order, s => PortMetrics(s, now, staleAfter), m);
      var d :| d in order && m in PortMetrics(devices[d], now, staleAfter);
      assert HasMeasurement(PortMetrics(devices[d], now, staleAfter));
      DeviceFed(net, j, d, now, staleAfter);
    }
    if device, k: nat :| Feeds(net, j, device, k, now, staleAfter) {
      DeviceFed(net, j, device, now, staleAfter);
      var m :| m in PortMetrics(devices[device], now, staleAfter) && m.family in MEASUREMENT_FAMILIES;
      ScrapeMembers(devices, order, s => PortMetrics(s, now, staleAfter), m);
    }
  }

  /** A ready poller whose set holds a device and still gives no measurement, at any time and for any bound on age. */
  lemma ReadyWithNothingToScrape(w: World, t: Target, u: Target, raw: Bytes, d: PortData,
                                 order: seq<string>, now: Time, staleAfter: int)
    requires w.host.cancelAt.None? && !w.showEye && !w.showPCIeEye && t.device != u.device
    requires w.host.discover(0) == Some([t]) && w.host.discover(1) == Some([u])
    requires w.host.network(0) == Ok(raw) && w.decode(raw) == Some(d)
    requires w.host.network(1) == Err(RunError(Timeout))
    ensures var net := RunAfter(w, [Turn(1, false, 0, 0)]).state.net;
            && Ready(net) && LastPublished(net).Some? && LastPublished(net).value.Keys == {u.device}
            && (Iterates(order, LastPublished(net).value) ==>
                  !HasMeasurement(Scrape(LastPublished(net).value, order, s => PortMetrics(s, now, staleAfter))))
  {
    hide PortMetrics, RunAfter, Exportable;
    Domains.ReadyWithNothingCollected(w, t, u, raw, d);
    var devices := LastPublished(RunAfter(w, [Turn(1, false, 0, 0)]).state.net).value;
    if Iterates(order, devices) {
      var all := Scrape(devices, order, s => PortMetrics(s, now, staleAfter));
      if m :| m in all && m.family in MEASUREMENT_FAMILIES {
        ScrapeMembers(devices, order, s => PortMetrics(s, now, staleAfter), m);
        var e :| e in order && m in PortMetrics(devices[e], now, staleAfter);
        assert e in devices.Keys;
        DeviceMeasured(devices[e], now, staleAfter);
      }
    }
  }

  /** A scrape always says whether a published device is up, and it is exactly when its latest attempt succeeded. */
  lemma UpIffLatestSucceeded(w: World, turns: seq<Turn>, i: nat, device: string, value: real, now: Time, staleAfter: int)
    requires History.DistinctDiscovery(w)
    requires var net := RunAfter(w, turns).state.net;
             i < |net| && net[i].Published? && device in net[i].devices
    ensures var net := RunAfter(w, turns).state.net;
            var latest := LatestAttempt(net[..i], device);
            && latest.Some?
            && (Metric(Up, PortLabels(latest.value.0), value) in PortMetrics(net[i].devices[device], now, staleAfter)
                <==> value == if latest.value.1.Success? then 1.0 else 0.0)
  {
    History.EveryRunSound(w, turns);
    var net := RunAfter(w, turns).state.net;
    var s := net[i].devices[device];
    assert Lookup(net[i].devices, device) == Entry(NO_DATA, net[..i], device);
    EntryFields(NO_DATA, net[..i], device);
    SuccessIsLatest(net[..i], device);
    UpSampled(s, value, now, staleAfter);
  }

  lemma UpSampled(s: Snapshot<PortData>, value: real, now: Time, staleAfter: int)
    ensures Metric(Up, PortLabels(s.target), value) in PortMetrics(s, now, staleAfter)
       <==> value == if IsUp(s) then 1.0 else 0.0
  {
    var m := Metric(Up, PortLabels(s.target), value);
    var base := PortLabels(s.target);
    EmitMembers(base, f => PortSamples(s, f), PortFamilies(s, now, staleAfter), m);
    assert PortSamples(s, Up) == UpSamples(s);
    assert base + [] == base;
    assert UpSamples(s)[0] in UpSamples(s);
  }

  /** The score is one of the decoded response's, under the target's labels. */
  ghost predicate PCIeTraced(codec: Decoder.Codec, p: Process, o: Outcome<PCIeEye>, t: Target, m: Metric,
                             now: Time, staleAfter: int)
    requires o.Success?
  {
    && EndedWell(p) && Decoder.DecodedPCIeEye(codec, Concat(p.writes)).Some?
    && now - o.at <= staleAfter
    && var data := Decoder.DecodedPCIeEye(codec, Concat(p.writes)).value;
    exists x | x in LabelledSamples(data.initialFOM, "initial") + LabelledSamples(data.lastFOM, "last") ::
      m.labels == PCIeLabels(t) + x.suffix && m.value == x.value
  }

  lemma ScoreSampled(s: Snapshot<PCIeEye>, m: Metric, now: Time, staleAfter: int)
    requires m.family == PCIeFOM
    ensures m in PCIeMetrics(s, now, staleAfter)
       <==> && s.lastSuccess.Some? && now - s.lastSuccess.value <= staleAfter
            && exists x | x in LabelledSamples(s.data.initialFOM, "initial") + LabelledSamples(s.data.lastFOM, "last") ::
                 m.labels == PCIeLabels(s.target) + x.suffix && m.value == x.value
  {
    hide LabelledSamples, Emit;
    EmitMembers(PCIeLabels(s.target), f => PCIeSamples(s, f), PCIeFamilies(s, now, staleAfter), m);
  }

  /** The same for the PCIe phase and its own calls. */
  lemma PCIeProvenance(w: World, codec: Decoder.Codec, processes: nat -> Process, links: nat -> Process,
                       turns: seq<Turn>, i: nat, device: string, m: Metric, now: Time, staleAfter: int)
    requires History.DistinctDiscovery(w) && Decodes(w, codec) && Executes(w, processes, links)
    requires var pcie := RunAfter(w, turns).state.pcie;
             && i < |pcie| && pcie[i].Published? && device in pcie[i].devices
             && m in PCIeMetrics(pcie[i].devices[device], now, staleAfter)
             && m.family == PCIeFOM
    ensures var st := RunAfter(w, turns).state;
            var source, latest := LatestSuccess(st.pcie[..i], device), LatestAttempt(st.pcie[..i], device);
            && source.Some? && source.value.Success? && latest.Some?
            && AskedFor(CallsOf(st.trace, true), source.value, device)
            && PCIeTraced(codec, links(source.value.call), source.value, latest.value.0, m, now, staleAfter)
  {
    hide Decodes, LabelledSamples, RunOutcome, Concat, CallsOf, Matched;
    History.EveryRunSound(w, turns);
    History.EveryRunGenuine(w, turns);
    SuccessNamesItsCall(w, turns);
    var st := RunAfter(w, turns).state;
    var pcie := st.pcie;
    var s := pcie[i].devices[device];
    History.PublishedSource(NO_PCIE_EYE, PCIeCollector(w), pcie, i, device);
    assert Lookup(pcie[i].devices, device) == Entry(NO_PCIE_EYE, pcie[..i], device);
    EntryFields(NO_PCIE_EYE, pcie[..i], device);
    LatestSuccessMatched(pcie, i, device, CallsOf(st.trace, true));
    ScoreSampled(s, m, now, staleAfter);
    var o := LatestSuccess(pcie[..i], device).value;
    PCIeOutcomeSourced(w, device, o);
    PCIeSourceIsComplete(w, codec, links(o.call), o);
  }

  // ----- the poller and both collectors together -----

  lemma PortRank(s: Snapshot<PortData>, now: Time, staleAfter: int, m: Metric)
    requires m in PortMetrics(s, now, staleAfter)
    ensures Rank(m.family) < 30
  {
    hide Rank, PortSamples;
    EmitMembers(PortLabels(s.target), f => PortSamples(s, f), PortFamilies(s, now, staleAfter), m);
    PortRanks();
    var families := SELF_FAMILIES + MEASUREMENT_FAMILIES;
    assert m.family in families;
    PortFamiliesConsecutive();
  }

  /** The two collectors export different families, so their scrapes can be served together. */
  lemma PortScrapeRanks(devices: SnapshotMap<PortData>, order: seq<string>, now: Time, staleAfter: int)
    requires Iterates(order, devices)
    ensures forall m | m in Scrape(devices, order, s => PortMetrics(s, now, staleAfter)) :: Rank(m.family) < 30
  {
    hide PortMetrics, Scrape, Rank;
    forall m | m in Scrape(devices, order, s => PortMetrics(s, now, staleAfter)) ensures Rank(m.family) < 30 {
      ScrapeMembers(devices, order, s => PortMetrics(s, now, staleAfter), m);
      var d :| d in order && m in PortMetrics(devices[d], now, staleAfter);
      PortRank(devices[d], now, staleAfter, m);
    }
  }

  lemma PCIeScrapeRanks(devices: SnapshotMap<PCIeEye>, order: seq<string>, now: Time, staleAfter: int)
    requires Iterates(order, devices)
    ensures forall m | m in Scrape(devices, order, s => PCIeMetrics(s, now, staleAfter)) :: Rank(m.family) >= 30
  {
    hide PCIeMetrics, Scrape, Rank;
    forall m | m in Scrape(devices, order, s => PCIeMetrics(s, now, staleAfter)) ensures Rank(m.family) >= 30 {
      ScrapeMembers(devices, order, s => PCIeMetrics(s, now, staleAfter), m);
      var d :| d in order && m in PCIeMetrics(devices[d], now, staleAfter);
      PCIeRank(devices[d], now, staleAfter, m);
    }
  }

  lemma PCIeRank(s: Snapshot<PCIeEye>, now: Time, staleAfter: int, m: Metric)
    requires m in PCIeMetrics(s, now, staleAfter)
    ensures Rank(m.family) >= 30
  {
    hide PCIeSamples;
    EmitMembers(PCIeLabels(s.target), f => PCIeSamples(s, f), PCIeFamilies(s, now, staleAfter), m);
  }

  method ScrapePorts(source: Store<PortData>, staleAfter: int, now: Time, ghost w: World, ghost codec: Decoder.Codec,
                     ghost turns: seq<Turn>)
    returns (ch: Collector.MetricChannel)
    requires History.DistinctDiscovery(w) && Decodes(w, codec)
    requires source.Valid() && source.contents == PublishedSets(RunAfter(w, turns).state.net)
    ensures NoDuplicates(ch.sent) && forall m | m in ch.sent :: Rank(m.family) < 30
  {
    hide Scrape, RunAfter, Decodes, PortMetrics, PublishedSets, Rank;
    ch := new Collector.MetricChannel();
    var collector := new Collector.Collector(source, staleAfter);
    ghost var order := collector.Collect(ch, now);
    if source.Loaded().Some? {
      NoDuplicateSeries(w, codec, turns, source.Loaded().value, order, now, staleAfter);
      PortScrapeRanks(source.Loaded().value, order, now, staleAfter);
      assert [] + Scrape(source.Loaded().value, order, s => PortMetrics(s, now, staleAfter)) == ch.sent;
    }
  }

  method ScrapeLinks(source: Store<PCIeEye>, staleAfter: int, now: Time, ghost w: World, ghost codec: Decoder.Codec,
                     ghost turns: seq<Turn>)
    returns (ch: Collector.MetricChannel)
    requires History.DistinctDiscovery(w) && Decodes(w, codec)
    requires source.Valid() && source.contents == PublishedSets(RunAfter(w, turns).state.pcie)
    ensures NoDuplicates(ch.sent) && forall m | m in ch.sent :: Rank(m.family) >= 30
  {
    hide Scrape, RunAfter, Decodes, PCIeMetrics, PublishedSets, Rank;
    ch := new Collector.MetricChannel();
    var collector := new PCIeEyeCollector.PCIeEyeCollector(source, staleAfter);
    ghost var order := collector.Collect(ch, now);
    if source.Loaded().Some? {
      NoDuplicatePCIeSeries(w, codec, turns, source.Loaded().value, order, now, staleAfter);
      PCIeScrapeRanks(source.Loaded().value, order, now, staleAfter);
      assert [] + Scrape(source.Loaded().value, order, s => PCIeMetrics(s, now, staleAfter)) == ch.sent;
    }
  }

  /** Run the exporter for any schedule, then scrape it: no series appears twice. */
  method RunAndScrape(host: Host, codec: Decoder.Codec, showEye: bool, showPCIeEye: bool, staleAfter: int,
                      turns: seq<Turn>, now: Time)
    returns (ports: Collector.MetricChannel, links: Collector.MetricChannel)
    requires forall n :: host.discover(n).Some? ==> DistinctDevices(host.discover(n).value)
    ensures NoDuplicates(ports.sent + links.sent)
  {
    hide NoDuplicates, RunAfter, Rank, Poller.Poller.Valid, Poller.Poller.Kept, Decoder.Decoded, Decoder.DecodedPCIeEye;
    var poller := new Poller.Poller(host, codec, showEye, showPCIeEye);
    var ticker, stopped := poller.Run(turns);
    poller.StoresHold();
    ports := ScrapePorts(poller.store, staleAfter, now, poller.w, codec, turns);
    links := ScrapeLinks(poller.pcieEyeStore, staleAfter, now, poller.w, codec, turns);
    JoinDistinct(ports.sent, links.sent);
  }
}
