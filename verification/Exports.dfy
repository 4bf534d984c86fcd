/**
 What a scrape exports, series by series: every family with the field it comes
 from, its labels and its unit spelled out (collector.go, pcie_eye_collector.go).
 */
module Exports {
  import opened Wrappers
  import opened Model
  import opened Text
  import opened Journal
  import opened Metrics

  // ----- the shapes a family can have -----

  /** One series without further labels, there exactly when the value is. */
  ghost predicate ByValue(v: Option<real>, base: seq<string>, m: Metric) {
    v == Some(m.value) && m.labels == base
  }

  /** One series per lane, labelled by its number. */
  ghost predicate ByLane(lanes: seq<LaneValue>, base: seq<string>, m: Metric) {
    exists l | l in lanes :: m.labels == base + [Decimal(l.lane)] && m.value == l.value
  }

  /** The same with a fixed second label. */
  ghost predicate ByStage(lanes: seq<LaneValue>, stage: string, base: seq<string>, m: Metric) {
    exists l | l in lanes :: m.labels == base + [Decimal(l.lane), stage] && m.value == l.value
  }

  ghost predicate ByBin(bins: seq<FECBin>, base: seq<string>, m: Metric) {
    exists b | b in bins ::
      && m.labels == base + [Decimal(b.bin), Decimal(b.errorCountMin), Decimal(b.errorCountMax)]
      && m.value == b.occurrences as real
  }

  ghost predicate ByTap(taps: seq<FIRCoefficient>, base: seq<string>, m: Metric) {
    exists k | k in taps :: m.labels == base + [Decimal(k.lane), k.tap] && m.value == k.value
  }

  /** A constant 1 under the attributes, unless they are all empty. */
  ghost predicate ByAttributes(values: seq<string>, base: seq<string>, m: Metric) {
    m.value == 1.0 && m.labels == base + values && exists v | v in values :: v != ""
  }

  /** The series whose family and labels and value these samples give. */
  ghost predicate SampledBy(samples: seq<Sample>, base: seq<string>, m: Metric) {
    exists x | x in samples :: m.labels == base + x.suffix && m.value == x.value
  }

  lemma ValueAmong(v: Option<real>, base: seq<string>, m: Metric)
    ensures SampledBy(ValueSamples(v), base, m) <==> ByValue(v, base, m)
  {
    assert base + [] == base;
    if v.Some? { assert ValueSamples(v)[0] in ValueSamples(v); }
  }

  lemma LanesAmong(lanes: seq<LaneValue>, base: seq<string>, m: Metric)
    ensures SampledBy(LaneSamples(lanes), base, m) <==> ByLane(lanes, base, m)
  {
    var samples := LaneSamples(lanes);
    forall i | 0 <= i < |lanes| ensures samples[i] in samples && lanes[i] in lanes {}
    if ByLane(lanes, base, m) {
      var l :| l in lanes && m.labels == base + [Decimal(l.lane)] && m.value == l.value;
      var i :| 0 <= i < |lanes| && lanes[i] == l;
      assert m.labels == base + samples[i].suffix && m.value == samples[i].value;
    }
  }

  lemma StageAmong(lanes: seq<LaneValue>, stage: string, base: seq<string>, m: Metric)
    ensures SampledBy(LabelledSamples(lanes, stage), base, m) <==> ByStage(lanes, stage, base, m)
  {
    var samples := LabelledSamples(lanes, stage);
    forall i | 0 <= i < |lanes| ensures samples[i] in samples && lanes[i] in lanes {}
    if ByStage(lanes, stage, base, m) {
      var l :| l in lanes && m.labels == base + [Decimal(l.lane), stage] && m.value == l.value;
      var i :| 0 <= i < |lanes| && lanes[i] == l;
      assert m.labels == base + samples[i].suffix && m.value == samples[i].value;
    }
  }

  lemma BinsAmong(bins: seq<FECBin>, base: seq<string>, m: Metric)
    ensures SampledBy(BinSamples(bins), base, m) <==> ByBin(bins, base, m)
  {
    var samples := BinSamples(bins);
    forall i | 0 <= i < |bins| ensures samples[i] in samples && bins[i] in bins {}
    if ByBin(bins, base, m) {
      var b :| b in bins && m.labels == base + [Decimal(b.bin), Decimal(b.errorCountMin), Decimal(b.errorCountMax)]
               && m.value == b.occurrences as real;
      var i :| 0 <= i < |bins| && bins[i] == b;
      assert m.labels == base + samples[i].suffix && m.value == samples[i].value;
    }
  }

  lemma TapsAmong(taps: seq<FIRCoefficient>, base: seq<string>, m: Metric)
    ensures SampledBy(TapSamples(taps), base, m) <==> ByTap(taps, base, m)
  {
    var samples := TapSamples(taps);
    forall i | 0 <= i < |taps| ensures samples[i] in samples && taps[i] in taps {}
    if ByTap(taps, base, m) {
      var k :| k in taps && m.labels == base + [Decimal(k.lane), k.tap] && m.value == k.value;
      var i :| 0 <= i < |taps| && taps[i] == k;
      assert m.labels == base + samples[i].suffix && m.value == samples[i].value;
    }
  }

  lemma AttributesAmong(values: seq<string>, base: seq<string>, m: Metric)
    ensures SampledBy(InfoSamples(values), base, m) <==> ByAttributes(values, base, m)
  {
    if exists v | v in values :: v != "" {
      assert InfoSamples(values)[0] == Sample(values, 1.0);
      assert InfoSamples(values)[0] in InfoSamples(values);
    }
  }

  lemma OneAmong(x: Sample, base: seq<string>, m: Metric)
    ensures SampledBy([x], base, m) <==> m.labels == base + x.suffix && m.value == x.value
  {
    assert [x][0] in [x];
  }

  lemma JoinAmong(a: seq<Sample>, b: seq<Sample>, base: seq<string>, m: Metric)
    ensures SampledBy(a + b, base, m) <==> SampledBy(a, base, m) || SampledBy(b, base, m)
  {
  }

  // ----- the network families -----

  /** Where each measurement comes from. */
  ghost predicate Measured(d: PortData, base: seq<string>, m: Metric) {
    match m.family
    case LinkAttributes =>
      ByAttributes([d.link.state, d.link.physicalState, d.link.speed, d.link.width, d.link.fec, d.link.autoNegotiation], base, m)
    case EffectivePhysicalErrors => ByValue(d.counters.effectivePhysicalErrors, base, m)
    case LinkDown => ByValue(d.counters.linkDown, base, m)
    case LinkErrorRecovery => ByValue(d.counters.linkErrorRecovery, base, m)
    case EffectiveBER => ByValue(d.counters.effectiveBER, base, m)
    case RawBER => ByValue(d.counters.rawBER, base, m)
    case RawPhysicalErrorsPerLane => ByLane(d.counters.rawPhysicalErrorsLane, base, m)
    case RawBERPerLane => ByLane(d.counters.rawBERLane, base, m)
    case ModuleTemperature => ByValue(d.moduleData.temperatureCelsius, base, m)
    case ModuleVoltage => ByValue(d.moduleData.voltageVolts, base, m)
    case ModuleFWFault => ByValue(d.moduleData.moduleFWFault, base, m)
    case DatapathFWFault => ByValue(d.moduleData.datapathFWFault, base, m)
    case ModuleBiasCurrent => ByLane(d.moduleData.biasCurrentAmperes, base, m)
    case ModuleRxPower => ByLane(d.moduleData.rxPowerDBm, base, m)
    case ModuleTxPower => ByLane(d.moduleData.txPowerDBm, base, m)
    case TxFault => ByLane(d.moduleData.txFault, base, m)
    case TxLOS => ByLane(d.moduleData.txLOS, base, m)
    case RxLOS => ByLane(d.moduleData.rxLOS, base, m)
    case TxCDRLossOfLock => ByLane(d.moduleData.txCDRLOL, base, m)
    case RxCDRLossOfLock => ByLane(d.moduleData.rxCDRLOL, base, m)
    case DatapathActive => ByLane(d.moduleData.datapathActive, base, m)
    case ModuleInventory =>
      var i := d.moduleData.info;
      ByAttributes([i.identifier, i.vendor, i.partNumber, i.serialNumber, i.revision, i.firmwareVersion,
                    i.activeHostCompliance, i.activeMediaCompliance, i.cableType], base, m)
    case RxFECCodewords => ByBin(d.fecHistogram, base, m)
    case SerDesTXFIR => ByTap(d.serDesTX.firCoefficients, base, m)
    case SerDesTXDrive => ByLane(d.serDesTX.driveAmplitude, base, m)
    case EyeFOM => ByStage(d.eye.initialFOM, "initial", base, m) || ByStage(d.eye.lastFOM, "last", base, m)
    case EyeGrade =>
      || ByStage(d.eye.upperGrade, "upper", base, m) || ByStage(d.eye.midGrade, "mid", base, m)
      || ByStage(d.eye.lowerGrade, "lower", base, m)
    case _ => false
  }

  /** Everything a scrape exports for a device, in seconds where it is a time. */
  ghost predicate Exported(s: Snapshot<PortData>, m: Metric, now: Time, staleAfter: int) {
    var base := [s.target.device, s.target.port, s.target.pciAddr];
    match m.family
    case Up => m.labels == base && m.value == if s.lastError == None && s.lastSuccess != None then 1.0 else 0.0
    case CollectionDuration => m.labels == base && m.value == s.lastDuration as real / 1000000000.0
    case LastSuccess =>
      s.lastSuccess.Some? && m.labels == base && m.value == s.lastSuccess.value as real / 1000000000.0
    case _ => s.lastSuccess.Some? && now - s.lastSuccess.value <= staleAfter && Measured(s.data, base, m)
  }

  lemma MeasuredAmong(d: PortData, base: seq<string>, m: Metric)
    ensures SampledBy(DataSamples(d, m.family), base, m) <==> Measured(d, base, m)
  {
    hide SampledBy, ValueSamples, LaneSamples, LabelledSamples, BinSamples, TapSamples, InfoSamples,
      ByValue, ByLane, ByStage, ByBin, ByTap, ByAttributes;
    match m.family
    case LinkAttributes => AttributesAmong(LinkLabels(d.link), base, m);
    case EffectivePhysicalErrors => ValueAmong(d.counters.effectivePhysicalErrors, base, m);
    case LinkDown => ValueAmong(d.counters.linkDown, base, m);
    case LinkErrorRecovery => ValueAmong(d.counters.linkErrorRecovery, base, m);
    case EffectiveBER => ValueAmong(d.counters.effectiveBER, base, m);
    case RawBER => ValueAmong(d.counters.rawBER, base, m);
    case RawPhysicalErrorsPerLane => LanesAmong(d.counters.rawPhysicalErrorsLane, base, m);
    case RawBERPerLane => LanesAmong(d.counters.rawBERLane, base, m);
    case ModuleTemperature => ValueAmong(d.moduleData.temperatureCelsius, base, m);
    case ModuleVoltage => ValueAmong(d.moduleData.voltageVolts, base, m);
    case ModuleFWFault => ValueAmong(d.moduleData.moduleFWFault, base, m);
    case DatapathFWFault => ValueAmong(d.moduleData.datapathFWFault, base, m);
    case ModuleBiasCurrent => LanesAmong(d.moduleData.biasCurrentAmperes, base, m);
    case ModuleRxPower => LanesAmong(d.moduleData.rxPowerDBm, base, m);
    case ModuleTxPower => LanesAmong(d.moduleData.txPowerDBm, base, m);
    case TxFault => LanesAmong(d.moduleData.txFault, base, m);
    case TxLOS => LanesAmong(d.moduleData.txLOS, base, m);
    case RxLOS => LanesAmong(d.moduleData.rxLOS, base, m);
    case TxCDRLossOfLock => LanesAmong(d.moduleData.txCDRLOL, base, m);
    case RxCDRLossOfLock => LanesAmong(d.moduleData.rxCDRLOL, base, m);
    case DatapathActive => LanesAmong(d.moduleData.datapathActive, base, m);
    case ModuleInventory => AttributesAmong(InventoryLabels(d.moduleData.info), base, m);
    case RxFECCodewords => BinsAmong(d.fecHistogram, base, m);
    case SerDesTXFIR => TapsAmong(d.serDesTX.firCoefficients, base, m);
    case SerDesTXDrive => LanesAmong(d.serDesTX.driveAmplitude, base, m);
    case EyeFOM => FOMAmong(d.eye.initialFOM, d.eye.lastFOM, base, m);
    case EyeGrade =>
      JoinAmong(LabelledSamples(d.eye.upperGrade, "upper") + LabelledSamples(d.eye.midGrade, "mid"),
                LabelledSamples(d.eye.lowerGrade, "lower"), base, m);
      JoinAmong(LabelledSamples(d.eye.upperGrade, "upper"), LabelledSamples(d.eye.midGrade, "mid"), base, m);
      StageAmong(d.eye.upperGrade, "upper", base, m);
      StageAmong(d.eye.midGrade, "mid", base, m);
      StageAmong(d.eye.lowerGrade, "lower", base, m);
    case _ => NoneAmong(base, m);
  }

  lemma NoneAmong(base: seq<string>, m: Metric)
    ensures !SampledBy([], base, m)
  {
  }

  lemma FOMAmong(initial: seq<LaneValue>, last: seq<LaneValue>, base: seq<string>, m: Metric)
    ensures SampledBy(LabelledSamples(initial, "initial") + LabelledSamples(last, "last"), base, m)
       <==> ByStage(initial, "initial", base, m) || ByStage(last, "last", base, m)
  {
    hide SampledBy, LabelledSamples, ByStage;
    JoinAmong(LabelledSamples(initial, "initial"), LabelledSamples(last, "last"), base, m);
    StageAmong(initial, "initial", base, m);
    StageAmong(last, "last", base, m);
  }

  /** The measurement families are all but the self-monitoring ones and those of the PCIe collector. */
  lemma MeasurementFamily(f: Family)
    ensures f in MEASUREMENT_FAMILIES
       <==> f !in {Up, CollectionDuration, LastSuccess, PCIeUp, PCIeDuration, PCIeLastSuccess, PCIeFOM}
    ensures f in SELF_FAMILIES <==> f in {Up, CollectionDuration, LastSuccess}
  {
    PortRanks();
    if f !in {Up, CollectionDuration, LastSuccess, PCIeUp, PCIeDuration, PCIeLastSuccess, PCIeFOM} {
      PortFamiliesConsecutive();
      var all := SELF_FAMILIES + MEASUREMENT_FAMILIES;
      RankDecides(f, all[Rank(f)]);
      assert all[Rank(f)] == MEASUREMENT_FAMILIES[Rank(f) - 3];
    }
  }

  lemma RankDecides(f: Family, g: Family)
    requires Rank(f) == Rank(g)
    ensures f == g
  {
  }

  /**
   A scrape exports, for a device, exactly the series listed above: nothing from a
   field that was not read, nothing from another field, and no measurement of a
   stale snapshot.
   */
  lemma ExportsExactly(s: Snapshot<PortData>, m: Metric, now: Time, staleAfter: int)
    ensures m in PortMetrics(s, now, staleAfter) <==> Exported(s, m, now, staleAfter)
  {
    hide Emit, DataSamples, Measured, Rank;
    var base := [s.target.device, s.target.port, s.target.pciAddr];
    EmitMembers(base, f => PortSamples(s, f), PortFamilies(s, now, staleAfter), m);
    assert m in PortMetrics(s, now, staleAfter)
      <==> m.family in PortFamilies(s, now, staleAfter) && SampledBy(PortSamples(s, m.family), base, m);
    MeasurementFamily(m.family);
    SelfAmong(s, base, m);
    MeasuredAmong(s.data, base, m);
    OnlyNetwork(s.data, base, m);
  }

  lemma SelfAmong(s: Snapshot<PortData>, base: seq<string>, m: Metric)
    ensures m.family == Up ==>
              (SampledBy(PortSamples(s, Up), base, m)
               <==> m.labels == base && m.value == if s.lastError == None && s.lastSuccess != None then 1.0 else 0.0)
    ensures m.family == CollectionDuration ==>
              (SampledBy(PortSamples(s, CollectionDuration), base, m)
               <==> m.labels == base && m.value == s.lastDuration as real / 1000000000.0)
    ensures m.family == LastSuccess ==>
              (SampledBy(PortSamples(s, LastSuccess), base, m)
               <==> s.lastSuccess.Some? && m.labels == base && m.value == s.lastSuccess.value as real / 1000000000.0)
  {
    hide SampledBy;
    assert base + [] == base;
    OneAmong(Sample([], if IsUp(s) then 1.0 else 0.0), base, m);
    OneAmong(Sample([], Seconds(s.lastDuration)), base, m);
    NoneAmong(base, m);
    if s.lastSuccess.Some? {
      OneAmong(Sample([], Seconds(s.lastSuccess.value)), base, m);
    }
  }

  lemma OnlyNetwork(d: PortData, base: seq<string>, m: Metric)
    ensures m.family in {PCIeUp, PCIeDuration, PCIeLastSuccess, PCIeFOM} ==> !Measured(d, base, m)
  {
  }

  // ----- the PCIe families -----

  ghost predicate PCIeExported(s: Snapshot<PCIeEye>, m: Metric, now: Time, staleAfter: int) {
    var base := [s.target.device, s.target.pciAddr];
    match m.family
    case PCIeUp => m.labels == base && m.value == if s.lastError == None && s.lastSuccess != None then 1.0 else 0.0
    case PCIeDuration => m.labels == base && m.value == s.lastDuration as real / 1000000000.0
    case PCIeLastSuccess =>
      s.lastSuccess.Some? && m.labels == base && m.value == s.lastSuccess.value as real / 1000000000.0
    case PCIeFOM =>
      && s.lastSuccess.Some? && now - s.lastSuccess.value <= staleAfter
      && (ByStage(s.data.initialFOM, "initial", base, m) || ByStage(s.data.lastFOM, "last", base, m))
    case _ => false
  }

  /** The same for the PCIe collector, whose labels have no port. */
  lemma PCIeExportsExactly(s: Snapshot<PCIeEye>, m: Metric, now: Time, staleAfter: int)
    ensures m in PCIeMetrics(s, now, staleAfter) <==> PCIeExported(s, m, now, staleAfter)
  {
    hide Emit, LabelledSamples, ByStage;
    var base := [s.target.device, s.target.pciAddr];
    EmitMembers(base, f => PCIeSamples(s, f), PCIeFamilies(s, now, staleAfter), m);
    assert m in PCIeMetrics(s, now, staleAfter)
      <==> m.family in PCIeFamilies(s, now, staleAfter) && SampledBy(PCIeSamples(s, m.family), base, m);
    assert base + [] == base;
    hide SampledBy;
    OneAmong(Sample([], if IsUp(s) then 1.0 else 0.0), base, m);
    OneAmong(Sample([], Seconds(s.lastDuration)), base, m);
    NoneAmong(base, m);
    if s.lastSuccess.Some? {
      OneAmong(Sample([], Seconds(s.lastSuccess.value)), base, m);
    }
    FOMAmong(s.data.initialFOM, s.data.lastFOM, base, m);
  }
}
