/** The scrape side (collector.go): push the metrics of a loaded set onto a channel, one by one. */
module Collector {
  import opened Wrappers
  import opened Model
  import opened Text
  import opened Journal
  import opened Metrics
  import opened SnapshotStore

  /** The channel a scrape hands to Collect. */
  class MetricChannel {
    var sent: seq<Metric>

    constructor ()
      ensures sent == []
    {
      sent := [];
    }

    method Send(m: Metric)
      modifies this
      ensures sent == old(sent) + [m]
    {
      sent := sent + [m];
    }
  }

  // ----- one family -----

  /** Drops a value the decoder could not read. */
  method SendValue(ch: MetricChannel, f: Family, value: Option<real>, labels: seq<string>)
    modifies ch
    ensures value.None? ==> ch.sent == old(ch.sent)
    ensures value.Some? ==> ch.sent == old(ch.sent) + [Metric(f, labels, value.value)]
    ensures ch.sent == old(ch.sent) + Group(labels, f, ValueSamples(value))
  {
    if value.None? { return; }
    ch.Send(Metric(f, labels, value.value));
    assert labels + [] == labels;
  }

  method SendLanes(ch: MetricChannel, f: Family, lanes: seq<LaneValue>, labels: seq<string>)
    modifies ch
    ensures ch.sent == old(ch.sent) + Group(labels, f, LaneSamples(lanes))
  {
    for i := 0 to |lanes|
      invariant ch.sent == old(ch.sent) + Group(labels, f, LaneSamples(lanes))[..i]
    {
      ch.Send(Metric(f, labels + [Decimal(lanes[i].lane)], lanes[i].value));
    }
  }

  method SendLanesWithLabel(ch: MetricChannel, f: Family, lanes: seq<LaneValue>, labels: seq<string>, extra: string)
    modifies ch
    ensures ch.sent == old(ch.sent) + Group(labels, f, LabelledSamples(lanes, extra))
  {
    for i := 0 to |lanes|
      invariant ch.sent == old(ch.sent) + Group(labels, f, LabelledSamples(lanes, extra))[..i]
    {
      ch.Send(Metric(f, labels + [Decimal(lanes[i].lane), extra], lanes[i].value));
    }
  }

  method AnyNonEmpty(values: seq<string>) returns (any: bool)
    ensures any <==> exists v | v in values :: v != ""
  {
    for i := 0 to |values|
      invariant forall v | v in values[..i] :: v == ""
    {
      assert values[..i + 1] == values[..i] + [values[i]];
      if values[i] != "" {
        assert values[i] in values;
        return true;
      }
    }
    assert values[..|values|] == values;
    return false;
  }

  method SendInfo(ch: MetricChannel, f: Family, values: seq<string>, labels: seq<string>)
    modifies ch
    ensures ch.sent == old(ch.sent) + Group(labels, f, InfoSamples(values))
  {
    var any := AnyNonEmpty(values);
    if !any { return; }
    ch.Send(Metric(f, labels + values, 1.0));
  }

  // ----- one section -----

  /** What has been sent since "before" is the first k families' samples. */
  ghost predicate UpTo(before: seq<Metric>, sent: seq<Metric>, base: seq<string>, series: Series,
                       families: seq<Family>, k: nat) {
    k <= |families| && sent == before + Emit(base, series, families[..k])
  }

  lemma Start(before: seq<Metric>, base: seq<string>, series: Series, families: seq<Family>)
    ensures UpTo(before, before, base, series, families, 0)
  {
    assert families[..0] == [];
  }

  /** Sending the next family's samples brings the emission one family further. */
  lemma Next(before: seq<Metric>, sent: seq<Metric>, base: seq<string>, series: Series,
             families: seq<Family>, k: nat, samples: seq<Sample>)
    requires UpTo(before, sent, base, series, families, k) && k < |families| && samples == series(families[k])
    ensures UpTo(before, sent + Group(base, families[k], samples), base, series, families, k + 1)
  {
    assert families[..k + 1] == families[..k] + [families[k]];
    EmitSnoc(base, series, families[..k], families[k]);
  }

  lemma Finish(before: seq<Metric>, sent: seq<Metric>, base: seq<string>, series: Series, families: seq<Family>)
    requires UpTo(before, sent, base, series, families, |families|)
    ensures sent == before + Emit(base, series, families)
  {
    assert families[..|families|] == families;
  }

  function DataSeries(d: PortData): Series { f => DataSamples(d, f) }

  method CollectLink(ch: MetricChannel, l: LinkInfo, labels: seq<string>)
    modifies ch
    ensures ch.sent == old(ch.sent) + Emit(labels, DataSeries(NO_DATA.(link := l)), LINK_FAMILIES)
  {
    hide UpTo, Emit, Group, InfoSamples;
    ghost var before, series, all := ch.sent, DataSeries(NO_DATA.(link := l)), LINK_FAMILIES;
    Start(before, labels, series, all);
    Next(before, ch.sent, labels, series, all, 0, InfoSamples(LinkLabels(l)));
    SendInfo(ch, LinkAttributes, LinkLabels(l), labels);
    Finish(before, ch.sent, labels, series, all);
  }

  method CollectCounters(ch: MetricChannel, c: Counters, labels: seq<string>)
    modifies ch
    ensures ch.sent == old(ch.sent) + Emit(labels, DataSeries(NO_DATA.(counters := c)), COUNTER_FAMILIES)
  {
    hide UpTo, Emit, Group, ValueSamples, LaneSamples;
    ghost var before, series, all := ch.sent, DataSeries(NO_DATA.(counters := c)), COUNTER_FAMILIES;
    Start(before, labels, series, all);
    Next(before, ch.sent, labels, series, all, 0, ValueSamples(c.effectivePhysicalErrors));
    SendValue(ch, EffectivePhysicalErrors, c.effectivePhysicalErrors, labels);
    Next(before, ch.sent, labels, series, all, 1, ValueSamples(c.linkDown));
    SendValue(ch, LinkDown, c.linkDown, labels);
    Next(before, ch.sent, labels, series, all, 2, ValueSamples(c.linkErrorRecovery));
    SendValue(ch, LinkErrorRecovery, c.linkErrorRecovery, labels);
    Next(before, ch.sent, labels, series, all, 3, ValueSamples(c.effectiveBER));
    SendValue(ch, EffectiveBER, c.effectiveBER, labels);
    Next(before, ch.sent, labels, series, all, 4, ValueSamples(c.rawBER));
    SendValue(ch, RawBER, c.rawBER, labels);
    Next(before, ch.sent, labels, series, all, 5, LaneSamples(c.rawPhysicalErrorsLane));
    SendLanes(ch, RawPhysicalErrorsPerLane, c.rawPhysicalErrorsLane, labels);
    Next(before, ch.sent, labels, series, all, 6, LaneSamples(c.rawBERLane));
    SendLanes(ch, RawBERPerLane, c.rawBERLane, labels);
    Finish(before, ch.sent, labels, series, all);
  }

  lemma ModuleSeries(m: ModuleData)
    ensures var series := DataSeries(NO_DATA.(moduleData := m));
            && series(ModuleTemperature) == ValueSamples(m.temperatureCelsius)
            && series(ModuleVoltage) == ValueSamples(m.voltageVolts)
            && series(ModuleFWFault) == ValueSamples(m.moduleFWFault)
            && series(DatapathFWFault) == ValueSamples(m.datapathFWFault)
            && series(ModuleBiasCurrent) == LaneSamples(m.biasCurrentAmperes)
            && series(ModuleRxPower) == LaneSamples(m.rxPowerDBm)
            && series(ModuleTxPower) == LaneSamples(m.txPowerDBm)
            && series(TxFault) == LaneSamples(m.txFault)
            && series(TxLOS) == LaneSamples(m.txLOS)
            && series(RxLOS) == LaneSamples(m.rxLOS)
            && series(TxCDRLossOfLock) == LaneSamples(m.txCDRLOL)
            && series(RxCDRLossOfLock) == LaneSamples(m.rxCDRLOL)
            && series(DatapathActive) == LaneSamples(m.datapathActive)
            && series(ModuleInventory) == InfoSamples(InventoryLabels(m.info))
  {
    hide ValueSamples, LaneSamples, LabelledSamples, BinSamples, TapSamples, InfoSamples;
  }

  method CollectModule(ch: MetricChannel, m: ModuleData, labels: seq<string>)
    modifies ch
    ensures ch.sent == old(ch.sent) + Emit(labels, DataSeries(NO_DATA.(moduleData := m)), MODULE_FAMILIES)
  {
    hide UpTo, Emit, DataSeries;
    ghost var before, series := ch.sent, DataSeries(NO_DATA.(moduleData := m));
    Start(before, labels, series, MODULE_FAMILIES);
    CollectDiagnostics(ch, m, labels, before);
    CollectFaultsAndInfo(ch, m, labels, before);
    Finish(before, ch.sent, labels, series, MODULE_FAMILIES);
  }

  /** The first half of collectModule. */
  method CollectDiagnostics(ch: MetricChannel, m: ModuleData, labels: seq<string>, ghost before: seq<Metric>)
    requires UpTo(before, ch.sent, labels, DataSeries(NO_DATA.(moduleData := m)), MODULE_FAMILIES, 0)
    modifies ch
    ensures UpTo(before, ch.sent, labels, DataSeries(NO_DATA.(moduleData := m)), MODULE_FAMILIES, 7)
  {
    hide UpTo, Emit, Group, ValueSamples, LaneSamples, InfoSamples, DataSeries, DataSamples;
    ghost var series, all := DataSeries(NO_DATA.(moduleData := m)), MODULE_FAMILIES;
    ModuleSeries(m);
    Next(before, ch.sent, labels, series, all, 0, ValueSamples(m.temperatureCelsius));
    SendValue(ch, ModuleTemperature, m.temperatureCelsius, labels);
    Next(before, ch.sent, labels, series, all, 1, ValueSamples(m.voltageVolts));
    SendValue(ch, ModuleVoltage, m.voltageVolts, labels);
    Next(before, ch.sent, labels, series, all, 2, ValueSamples(m.moduleFWFault));
    SendValue(ch, ModuleFWFault, m.moduleFWFault, labels);
    Next(before, ch.sent, labels, series, all, 3, ValueSamples(m.datapathFWFault));
    SendValue(ch, DatapathFWFault, m.datapathFWFault, labels);
    Next(before, ch.sent, labels, series, all, 4, LaneSamples(m.biasCurrentAmperes));
    SendLanes(ch, ModuleBiasCurrent, m.biasCurrentAmperes, labels);
    Next(before, ch.sent, labels, series, all, 5, LaneSamples(m.rxPowerDBm));
    SendLanes(ch, ModuleRxPower, m.rxPowerDBm, labels);
    Next(before, ch.sent, labels, series, all, 6, LaneSamples(m.txPowerDBm));
    SendLanes(ch, ModuleTxPower, m.txPowerDBm, labels);
  }

  /** The second half of collectModule. */
  method CollectFaultsAndInfo(ch: MetricChannel, m: ModuleData, labels: seq<string>, ghost before: seq<Metric>)
    requires UpTo(before, ch.sent, labels, DataSeries(NO_DATA.(moduleData := m)), MODULE_FAMILIES, 7)
    modifies ch
    ensures UpTo(before, ch.sent, labels, DataSeries(NO_DATA.(moduleData := m)), MODULE_FAMILIES, 14)
  {
    hide UpTo, Emit, Group, ValueSamples, LaneSamples, InfoSamples, DataSeries, DataSamples;
    ghost var series, all := DataSeries(NO_DATA.(moduleData := m)), MODULE_FAMILIES;
    ModuleSeries(m);
    Next(before, ch.sent, labels, series, all, 7, LaneSamples(m.txFault));
    SendLanes(ch, TxFault, m.txFault, labels);
    Next(before, ch.sent, labels, series, all, 8, LaneSamples(m.txLOS));
    SendLanes(ch, TxLOS, m.txLOS, labels);
    Next(before, ch.sent, labels, series, all, 9, LaneSamples(m.rxLOS));
    SendLanes(ch, RxLOS, m.rxLOS, labels);
    Next(before, ch.sent, labels, series, all, 10, LaneSamples(m.txCDRLOL));
    SendLanes(ch, TxCDRLossOfLock, m.txCDRLOL, labels);
    Next(before, ch.sent, labels, series, all, 11, LaneSamples(m.rxCDRLOL));
    SendLanes(ch, RxCDRLossOfLock, m.rxCDRLOL, labels);
    Next(before, ch.sent, labels, series, all, 12, LaneSamples(m.datapathActive));
    SendLanes(ch, DatapathActive, m.datapathActive, labels);
    Next(before, ch.sent, labels, series, all, 13, InfoSamples(InventoryLabels(m.info)));
    SendInfo(ch, ModuleInventory, InventoryLabels(m.info), labels);
  }

  method CollectFECHistogram(ch: MetricChannel, bins: seq<FECBin>, labels: seq<string>)
    modifies ch
    ensures ch.sent == old(ch.sent) + Emit(labels, DataSeries(NO_DATA.(fecHistogram := bins)), FEC_FAMILIES)
  {
    hide UpTo, Emit, Decimal;
    ghost var before, series, all := ch.sent, DataSeries(NO_DATA.(fecHistogram := bins)), FEC_FAMILIES;
    Start(before, labels, series, all);
    Next(before, ch.sent, labels, series, all, 0, BinSamples(bins));
    for i := 0 to |bins|
      invariant ch.sent == before + Group(labels, RxFECCodewords, BinSamples(bins))[..i]
    {
      var b := bins[i];
      var values := [Decimal(b.bin), Decimal(b.errorCountMin), Decimal(b.errorCountMax)];
      ch.Send(Metric(RxFECCodewords, labels + values, b.occurrences as real));
    }
    assert ch.sent == before + Group(labels, RxFECCodewords, BinSamples(bins));
    Finish(before, ch.sent, labels, series, all);
  }

  method SendTaps(ch: MetricChannel, taps: seq<FIRCoefficient>, labels: seq<string>)
    modifies ch
    ensures ch.sent == old(ch.sent) + Group(labels, SerDesTXFIR, TapSamples(taps))
  {
    for i := 0 to |taps|
      invariant ch.sent == old(ch.sent) + Group(labels, SerDesTXFIR, TapSamples(taps))[..i]
    {
      ch.Send(Metric(SerDesTXFIR, labels + [Decimal(taps[i].lane), taps[i].tap], taps[i].value));
    }
  }

  method CollectSerDesTX(ch: MetricChannel, t: SerDesTX, labels: seq<string>)
    modifies ch
    ensures ch.sent == old(ch.sent) + Emit(labels, DataSeries(NO_DATA.(serDesTX := t)), SERDES_FAMILIES)
  {
    hide UpTo, Emit, Group, TapSamples, LaneSamples;
    ghost var before, series, all := ch.sent, DataSeries(NO_DATA.(serDesTX := t)), SERDES_FAMILIES;
    Start(before, labels, series, all);
    Next(before, ch.sent, labels, series, all, 0, TapSamples(t.firCoefficients));
    SendTaps(ch, t.firCoefficients, labels);
    Next(before, ch.sent, labels, series, all, 1, LaneSamples(t.driveAmplitude));
    SendLanes(ch, SerDesTXDrive, t.driveAmplitude, labels);
    Finish(before, ch.sent, labels, series, all);
  }

  method CollectEye(ch: MetricChannel, e: Eye, labels: seq<string>)
    modifies ch
    ensures ch.sent == old(ch.sent) + Emit(labels, DataSeries(NO_DATA.(eye := e)), EYE_FAMILIES)
  {
    hide UpTo, Emit, Group, LabelledSamples;
    ghost var before, series, all := ch.sent, DataSeries(NO_DATA.(eye := e)), EYE_FAMILIES;
    ghost var initial, last := LabelledSamples(e.initialFOM, "initial"), LabelledSamples(e.lastFOM, "last");
    ghost var upper, mid := LabelledSamples(e.upperGrade, "upper"), LabelledSamples(e.midGrade, "mid");
    ghost var lower := LabelledSamples(e.lowerGrade, "lower");
    Start(before, labels, series, all);
    Next(before, ch.sent, labels, series, all, 0, initial + last);
    GroupConcat(labels, EyeFOM, initial, last);
    SendLanesWithLabel(ch, EyeFOM, e.initialFOM, labels, "initial");
    SendLanesWithLabel(ch, EyeFOM, e.lastFOM, labels, "last");
    assert ch.sent == before + (Group(labels, EyeFOM, initial) + Group(labels, EyeFOM, last));
    ghost var between := ch.sent;
    Next(before, between, labels, series, all, 1, upper + mid + lower);
    GroupConcat(labels, EyeGrade, upper, mid);
    GroupConcat(labels, EyeGrade, upper + mid, lower);
    SendLanesWithLabel(ch, EyeGrade, e.upperGrade, labels, "upper");
    SendLanesWithLabel(ch, EyeGrade, e.midGrade, labels, "mid");
    SendLanesWithLabel(ch, EyeGrade, e.lowerGrade, labels, "lower");
    assert ch.sent == between
                      + (Group(labels, EyeGrade, upper) + Group(labels, EyeGrade, mid) + Group(labels, EyeGrade, lower));
    Finish(before, ch.sent, labels, series, all);
  }

  // ----- one device -----

  method SendSelf(ch: MetricChannel, s: Snapshot<PortData>, labels: seq<string>)
    modifies ch
    ensures ch.sent == old(ch.sent) + Emit(labels, f => PortSamples(s, f), SELF_FAMILIES)
  {
    hide UpTo, Emit;
    ghost var before, series: Series, all := ch.sent, (f => PortSamples(s, f)), SELF_FAMILIES;
    var up := 0.0;
    if s.lastError.None? && s.lastSuccess.Some? { up := 1.0; }
    assert labels + [] == labels;
    Start(before, labels, series, all);
    Next(before, ch.sent, labels, series, all, 0, UpSamples(s));
    ch.Send(Metric(Up, labels, up));
    assert ch.sent == before + Group(labels, Up, UpSamples(s));
    ghost var one := ch.sent;
    Next(before, one, labels, series, all, 1, [Sample([], Seconds(s.lastDuration))]);
    ch.Send(Metric(CollectionDuration, labels, Seconds(s.lastDuration)));
    assert ch.sent == one + Group(labels, CollectionDuration, [Sample([], Seconds(s.lastDuration))]);
    ghost var two := ch.sent;
    Next(before, two, labels, series, all, 2, TimestampSamples(s.lastSuccess));
    if s.lastSuccess.Some? {
      ch.Send(Metric(LastSuccess, labels, Seconds(s.lastSuccess.value)));
    }
    assert ch.sent == two + Group(labels, LastSuccess, TimestampSamples(s.lastSuccess));
    Finish(before, ch.sent, labels, series, all);
  }

  method CollectDevice(ch: MetricChannel, s: Snapshot<PortData>, now: Time, staleAfter: int)
    modifies ch
    ensures ch.sent == old(ch.sent) + PortMetrics(s, now, staleAfter)
  {
    hide Emit, DataSamples;
    var labels := [s.target.device, s.target.port, s.target.pciAddr];
    SendSelf(ch, s, labels);
    if Stale(s, now, staleAfter) { return; }
    CollectMeasurements(ch, s.data, labels);
    MeasurementsAgree(s, labels);
    EmitConcat(labels, f => PortSamples(s, f), SELF_FAMILIES, MEASUREMENT_FAMILIES);
  }

  /** The six sections, in order. */
  method CollectMeasurements(ch: MetricChannel, d: PortData, labels: seq<string>)
    modifies ch
    ensures ch.sent == old(ch.sent) + Emit(labels, DataSeries(d), MEASUREMENT_FAMILIES)
  {
    hide Emit, DataSamples, DataSeries;
    ghost var before, series := ch.sent, DataSeries(d);
    SectionsAgree(d, labels);
    CollectLink(ch, d.link, labels);
    CollectCounters(ch, d.counters, labels);
    EmitConcat(labels, series, LINK_FAMILIES, COUNTER_FAMILIES);
    assert ch.sent == before + Emit(labels, series, LINK_FAMILIES + COUNTER_FAMILIES);
    CollectModule(ch, d.moduleData, labels);
    EmitConcat(labels, series, LINK_FAMILIES + COUNTER_FAMILIES, MODULE_FAMILIES);
    assert ch.sent == before + Emit(labels, series, LINK_FAMILIES + COUNTER_FAMILIES + MODULE_FAMILIES);
    CollectFECHistogram(ch, d.fecHistogram, labels);
    EmitConcat(labels, series, LINK_FAMILIES + COUNTER_FAMILIES + MODULE_FAMILIES, FEC_FAMILIES);
    assert ch.sent == before + Emit(labels, series, LINK_FAMILIES + COUNTER_FAMILIES + MODULE_FAMILIES + FEC_FAMILIES);
    CollectSerDesTX(ch, d.serDesTX, labels);
    EmitConcat(labels, series, LINK_FAMILIES + COUNTER_FAMILIES + MODULE_FAMILIES + FEC_FAMILIES, SERDES_FAMILIES);
    CollectEye(ch, d.eye, labels);
    EmitConcat(labels, series,
               LINK_FAMILIES + COUNTER_FAMILIES + MODULE_FAMILIES + FEC_FAMILIES + SERDES_FAMILIES, EYE_FAMILIES);
  }

  lemma MeasurementsAgree(s: Snapshot<PortData>, labels: seq<string>)
    ensures Emit(labels, DataSeries(s.data), MEASUREMENT_FAMILIES)
         == Emit(labels, f => PortSamples(s, f), MEASUREMENT_FAMILIES)
  {
    hide DataSamples, Rank;
    forall f | f in MEASUREMENT_FAMILIES ensures DataSamples(s.data, f) == PortSamples(s, f) {
      assert f != Up && f != CollectionDuration && f != LastSuccess;
    }
    EmitAgrees(labels, DataSeries(s.data), f => PortSamples(s, f), MEASUREMENT_FAMILIES);
  }

  /** A section's families depend on that section alone. */
  lemma SectionsAgree(d: PortData, labels: seq<string>)
    ensures Emit(labels, DataSeries(NO_DATA.(link := d.link)), LINK_FAMILIES) == Emit(labels, DataSeries(d), LINK_FAMILIES)
    ensures Emit(labels, DataSeries(NO_DATA.(counters := d.counters)), COUNTER_FAMILIES)
         == Emit(labels, DataSeries(d), COUNTER_FAMILIES)
    ensures Emit(labels, DataSeries(NO_DATA.(moduleData := d.moduleData)), MODULE_FAMILIES)
         == Emit(labels, DataSeries(d), MODULE_FAMILIES)
    ensures Emit(labels, DataSeries(NO_DATA.(fecHistogram := d.fecHistogram)), FEC_FAMILIES)
         == Emit(labels, DataSeries(d), FEC_FAMILIES)
    ensures Emit(labels, DataSeries(NO_DATA.(serDesTX := d.serDesTX)), SERDES_FAMILIES)
         == Emit(labels, DataSeries(d), SERDES_FAMILIES)
    ensures Emit(labels, DataSeries(NO_DATA.(eye := d.eye)), EYE_FAMILIES)
         == Emit(labels, DataSeries(d), EYE_FAMILIES)
  {
    hide Emit, DataSeries;
    LinkAgrees(d, labels);
    CountersAgree(d, labels);
    ModuleAgrees(d, labels);
    FECAgrees(d, labels);
    SerDesAgrees(d, labels);
    EyeAgrees(d, labels);
  }

  lemma LinkAgrees(d: PortData, labels: seq<string>)
    ensures Emit(labels, DataSeries(NO_DATA.(link := d.link)), LINK_FAMILIES)
         == Emit(labels, DataSeries(d), LINK_FAMILIES)
  {
    EmitAgrees(labels, DataSeries(NO_DATA.(link := d.link)), DataSeries(d), LINK_FAMILIES);
  }

  lemma FECAgrees(d: PortData, labels: seq<string>)
    ensures Emit(labels, DataSeries(NO_DATA.(fecHistogram := d.fecHistogram)), FEC_FAMILIES)
         == Emit(labels, DataSeries(d), FEC_FAMILIES)
  {
    EmitAgrees(labels, DataSeries(NO_DATA.(fecHistogram := d.fecHistogram)), DataSeries(d), FEC_FAMILIES);
  }

  lemma SerDesAgrees(d: PortData, labels: seq<string>)
    ensures Emit(labels, DataSeries(NO_DATA.(serDesTX := d.serDesTX)), SERDES_FAMILIES)
         == Emit(labels, DataSeries(d), SERDES_FAMILIES)
  {
    EmitAgrees(labels, DataSeries(NO_DATA.(serDesTX := d.serDesTX)), DataSeries(d), SERDES_FAMILIES);
  }

  lemma EyeAgrees(d: PortData, labels: seq<string>)
    ensures Emit(labels, DataSeries(NO_DATA.(eye := d.eye)), EYE_FAMILIES)
         == Emit(labels, DataSeries(d), EYE_FAMILIES)
  {
    EmitAgrees(labels, DataSeries(NO_DATA.(eye := d.eye)), DataSeries(d), EYE_FAMILIES);
  }

  lemma CountersAgree(d: PortData, labels: seq<string>)
    ensures Emit(labels, DataSeries(NO_DATA.(counters := d.counters)), COUNTER_FAMILIES)
         == Emit(labels, DataSeries(d), COUNTER_FAMILIES)
  {
    hide Emit, ValueSamples, LaneSamples, LabelledSamples, BinSamples, TapSamples, InfoSamples;
    EmitAgrees(labels, DataSeries(NO_DATA.(counters := d.counters)), DataSeries(d), COUNTER_FAMILIES);
  }

  lemma ModuleAgrees(d: PortData, labels: seq<string>)
    ensures Emit(labels, DataSeries(NO_DATA.(moduleData := d.moduleData)), MODULE_FAMILIES)
         == Emit(labels, DataSeries(d), MODULE_FAMILIES)
  {
    hide Emit, ValueSamples, LaneSamples, LabelledSamples, BinSamples, TapSamples, InfoSamples;
    EmitAgrees(labels, DataSeries(NO_DATA.(moduleData := d.moduleData)), DataSeries(d), MODULE_FAMILIES);
  }

  // ----- a scrape -----

  class Collector {
    /** The poller's store, loaded without a lock. */
    const source: Store<PortData>
    const staleAfter: int

    constructor (source: Store<PortData>, staleAfter: int)
      ensures this.source == source && this.staleAfter == staleAfter
    {
      this.source, this.staleAfter := source, staleAfter;
    }

    /** Export the loaded set, device by device in whatever order its map is iterated. */
    method Collect(ch: MetricChannel, now: Time) returns (ghost order: seq<string>)
      requires source.Valid()
      modifies ch
      ensures source.Loaded().None? ==> ch.sent == old(ch.sent)
      ensures source.Loaded().Some? ==>
                && Iterates(order, source.Loaded().value)
                && ch.sent == old(ch.sent)
                              + Scrape(source.Loaded().value, order, s => PortMetrics(s, now, staleAfter))
    {
      hide PortMetrics, Scrape;
      order := [];
      ScrapeNothing<PortData>(s => PortMetrics(s, now, staleAfter));
      var loaded := source.Load();
      if loaded == null { return; }
      ghost var devices := source.Loaded().value;
      if loaded.byDevice == null { return; }
      var entries := loaded.byDevice.entries;
      var left := entries.Keys;
      while left != {}
        invariant Midway(order, left, entries)
        invariant ch.sent == old(ch.sent) + Scrape(entries, order, s => PortMetrics(s, now, staleAfter))
        decreases left
      {
        var device :| device in left;
        CollectDevice(ch, entries[device], now, staleAfter);
        ScrapeSnoc(entries, order, s => PortMetrics(s, now, staleAfter), device);
        MidwayStep(order, left, entries, device);
        left := left - {device};
        order := order + [device];
      }
    }
  }

  /** Some devices are still to be visited, the others have been, once each. */
  ghost predicate Midway<D>(order: seq<string>, left: set<string>, devices: SnapshotMap<D>) {
    && (forall d :: d in devices <==> d in left || d in order)
    && (forall d | d in left :: d !in order)
    && (forall i, j | 0 <= i < j < |order| :: order[i] != order[j])
  }

  lemma MidwayStep<D>(order: seq<string>, left: set<string>, devices: SnapshotMap<D>, device: string)
    requires Midway(order, left, devices) && device in left
    ensures Midway(order + [device], left - {device}, devices)
  {
    assert forall i | 0 <= i < |order| :: order[i] in order;
  }

  lemma ScrapeNothing<D>(render: Snapshot<D> -> seq<Metric>)
    ensures forall devices: SnapshotMap<D> :: Scrape(devices, [], render) == []
  {
  }

  lemma ScrapeSnoc<D>(devices: SnapshotMap<D>, order: seq<string>, render: Snapshot<D> -> seq<Metric>, device: string)
    requires device in devices && forall d | d in order :: d in devices
    ensures Scrape(devices, order + [device], render) == Scrape(devices, order, render) + render(devices[device])
  {
    assert (order + [device])[..|order|] == order;
  }
}
