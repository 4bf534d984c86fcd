/**
 What one scrape emits (collector.go, pcie_eye_collector.go): a metric is a
 family, its label values in order and a value. For every family a snapshot
 determines a list of samples; an emission is those lists, family by family.
 */
module Metrics {
  import opened Wrappers
  import opened Model
  import opened Text
  import opened Journal
  import Decoder
  import SerDes

  datatype Family =
    | Up | CollectionDuration | LastSuccess
    | LinkAttributes
    | EffectivePhysicalErrors | LinkDown | LinkErrorRecovery | EffectiveBER | RawBER
    | RawPhysicalErrorsPerLane | RawBERPerLane
    | ModuleTemperature | ModuleVoltage | ModuleFWFault | DatapathFWFault
    | ModuleBiasCurrent | ModuleRxPower | ModuleTxPower
    | TxFault | TxLOS | RxLOS | TxCDRLossOfLock | RxCDRLossOfLock | DatapathActive
    | ModuleInventory
    | RxFECCodewords
    | SerDesTXFIR | SerDesTXDrive
    | EyeFOM | EyeGrade
    | PCIeUp | PCIeDuration | PCIeLastSuccess | PCIeFOM

  datatype Metric = Metric(family: Family, labels: seq<string>, value: real)

  /** Label values beyond those that identify the target. */
  datatype Sample = Sample(suffix: seq<string>, value: real)

  type Series = Family -> seq<Sample>

  const SELF_FAMILIES := [Up, CollectionDuration, LastSuccess]
  const LINK_FAMILIES := [LinkAttributes]
  const COUNTER_FAMILIES :=
    [EffectivePhysicalErrors, LinkDown, LinkErrorRecovery, EffectiveBER, RawBER, RawPhysicalErrorsPerLane, RawBERPerLane]
  const MODULE_FAMILIES :=
    [ModuleTemperature, ModuleVoltage, ModuleFWFault, DatapathFWFault, ModuleBiasCurrent, ModuleRxPower, ModuleTxPower,
     TxFault, TxLOS, RxLOS, TxCDRLossOfLock, RxCDRLossOfLock, DatapathActive, ModuleInventory]
  const FEC_FAMILIES := [RxFECCodewords]
  const SERDES_FAMILIES := [SerDesTXFIR, SerDesTXDrive]
  const EYE_FAMILIES := [EyeFOM, EyeGrade]

  const MEASUREMENT_FAMILIES :=
    LINK_FAMILIES + COUNTER_FAMILIES + MODULE_FAMILIES + FEC_FAMILIES + SERDES_FAMILIES + EYE_FAMILIES

  const PCIE_SELF_FAMILIES := [PCIeUp, PCIeDuration, PCIeLastSuccess]
  const PCIE_FAMILIES := [PCIeFOM]

  const NANOS_PER_SECOND := 1000000000.0

  function Seconds(nanos: int): real { nanos as real / NANOS_PER_SECOND }

  // ----- the samples of each family -----

  function ValueSamples(v: Option<real>): seq<Sample> {
    if v.None? then [] else [Sample([], v.value)]
  }

  function LaneSamples(lanes: seq<LaneValue>): seq<Sample> {
    seq(|lanes|, i requires 0 <= i < |lanes| => Sample([Decimal(lanes[i].lane)], lanes[i].value))
  }

  function LabelledSamples(lanes: seq<LaneValue>, stage: string): seq<Sample> {
    seq(|lanes|, i requires 0 <= i < |lanes| => Sample([Decimal(lanes[i].lane), stage], lanes[i].value))
  }

  function BinSamples(bins: seq<FECBin>): seq<Sample> {
    seq(|bins|, i requires 0 <= i < |bins| =>
          Sample([Decimal(bins[i].bin), Decimal(bins[i].errorCountMin), Decimal(bins[i].errorCountMax)],
                 bins[i].occurrences as real))
  }

  function TapSamples(taps: seq<FIRCoefficient>): seq<Sample> {
    seq(|taps|, i requires 0 <= i < |taps| => Sample([Decimal(taps[i].lane), taps[i].tap], taps[i].value))
  }

  /** An info family has one sample of 1, unless every attribute is empty. */
  function InfoSamples(values: seq<string>): seq<Sample> {
    if forall v | v in values :: v == "" then [] else [Sample(values, 1.0)]
  }

  function LinkLabels(l: LinkInfo): seq<string> {
    [l.state, l.physicalState, l.speed, l.width, l.fec, l.autoNegotiation]
  }

  function InventoryLabels(i: ModuleInfo): seq<string> {
    [i.identifier, i.vendor, i.partNumber, i.serialNumber, i.revision,
     i.firmwareVersion, i.activeHostCompliance, i.activeMediaCompliance, i.cableType]
  }

  /** Which part of the port data each measurement family exports. */
  function DataSamples(d: PortData, f: Family): seq<Sample> {
    match f
    case LinkAttributes => InfoSamples(LinkLabels(d.link))
    case EffectivePhysicalErrors => ValueSamples(d.counters.effectivePhysicalErrors)
    case LinkDown => ValueSamples(d.counters.linkDown)
    case LinkErrorRecovery => ValueSamples(d.counters.linkErrorRecovery)
    case EffectiveBER => ValueSamples(d.counters.effectiveBER)
    case RawBER => ValueSamples(d.counters.rawBER)
    case RawPhysicalErrorsPerLane => LaneSamples(d.counters.rawPhysicalErrorsLane)
    case RawBERPerLane => LaneSamples(d.counters.rawBERLane)
    case ModuleTemperature => ValueSamples(d.moduleData.temperatureCelsius)
    case ModuleVoltage => ValueSamples(d.moduleData.voltageVolts)
    case ModuleFWFault => ValueSamples(d.moduleData.moduleFWFault)
    case DatapathFWFault => ValueSamples(d.moduleData.datapathFWFault)
    case ModuleBiasCurrent => LaneSamples(d.moduleData.biasCurrentAmperes)
    case ModuleRxPower => LaneSamples(d.moduleData.rxPowerDBm)
    case ModuleTxPower => LaneSamples(d.moduleData.txPowerDBm)
    case TxFault => LaneSamples(d.moduleData.txFault)
    case TxLOS => LaneSamples(d.moduleData.txLOS)
    case RxLOS => LaneSamples(d.moduleData.rxLOS)
    case TxCDRLossOfLock => LaneSamples(d.moduleData.txCDRLOL)
    case RxCDRLossOfLock => LaneSamples(d.moduleData.rxCDRLOL)
    case DatapathActive => LaneSamples(d.moduleData.datapathActive)
    case ModuleInventory => InfoSamples(InventoryLabels(d.moduleData.info))
    case RxFECCodewords => BinSamples(d.fecHistogram)
    case SerDesTXFIR => TapSamples(d.serDesTX.firCoefficients)
    case SerDesTXDrive => LaneSamples(d.serDesTX.driveAmplitude)
    case EyeFOM => LabelledSamples(d.eye.initialFOM, "initial") + LabelledSamples(d.eye.lastFOM, "last")
    case EyeGrade =>
      LabelledSamples(d.eye.upperGrade, "upper") + LabelledSamples(d.eye.midGrade, "mid")
      + LabelledSamples(d.eye.lowerGrade, "lower")
    case _ => []
  }

  /** Up exactly when the latest attempt succeeded. */
  function IsUp<D>(s: Snapshot<D>): bool { s.lastError.None? && s.lastSuccess.Some? }

  function TimestampSamples(at: Option<Time>): seq<Sample> {
    if at.None? then [] else [Sample([], Seconds(at.value))]
  }

  function UpSamples<D>(s: Snapshot<D>): seq<Sample> { [Sample([], if IsUp(s) then 1.0 else 0.0)] }

  /** Too old to export; a snapshot without any success always is. */
  predicate Stale<D>(s: Snapshot<D>, now: Time, staleAfter: int) {
    s.lastSuccess.None? || now - s.lastSuccess.value > staleAfter
  }

  function PortSamples(s: Snapshot<PortData>, f: Family): seq<Sample> {
    match f
    case Up => UpSamples(s)
    case CollectionDuration => [Sample([], Seconds(s.lastDuration))]
    case LastSuccess => TimestampSamples(s.lastSuccess)
    case _ => DataSamples(s.data, f)
  }

  function PCIeSamples(s: Snapshot<PCIeEye>, f: Family): seq<Sample> {
    match f
    case PCIeUp => UpSamples(s)
    case PCIeDuration => [Sample([], Seconds(s.lastDuration))]
    case PCIeLastSuccess => TimestampSamples(s.lastSuccess)
    case PCIeFOM => LabelledSamples(s.data.initialFOM, "initial") + LabelledSamples(s.data.lastFOM, "last")
    case _ => []
  }

  // ----- emissions -----

  function Group(base: seq<string>, f: Family, samples: seq<Sample>): seq<Metric> {
    seq(|samples|, i requires 0 <= i < |samples| => Metric(f, base + samples[i].suffix, samples[i].value))
  }

  function Emit(base: seq<string>, series: Series, families: seq<Family>): seq<Metric> {
    if families == [] then []
    else
      var f := families[|families| - 1];
      Emit(base, series, families[..|families| - 1]) + Group(base, f, series(f))
  }

  lemma EmitSnoc(base: seq<string>, series: Series, families: seq<Family>, f: Family)
    ensures Emit(base, series, families + [f]) == Emit(base, series, families) + Group(base, f, series(f))
  {
    assert (families + [f])[..|families|] == families;
  }

  lemma {:induction false} EmitConcat(base: seq<string>, series: Series, a: seq<Family>, b: seq<Family>)
    ensures Emit(base, series, a + b) == Emit(base, series, a) + Emit(base, series, b)
  {
    hide Emit, Group;
    if b == [] {
      assert a + b == a;
      EmitNothing(base, series);
    } else {
      var front, f := b[..|b| - 1], b[|b| - 1];
      assert a + b == a + front + [f];
      assert b == front + [f];
      EmitConcat(base, series, a, front);
      EmitSnoc(base, series, a + front, f);
      EmitSnoc(base, series, front, f);
      Associative(Emit(base, series, a), Emit(base, series, front), Group(base, f, series(f)));
    }
  }

  lemma EmitNothing(base: seq<string>, series: Series)
    ensures Emit(base, series, []) == []
  {
  }

  lemma Associative(a: seq<Metric>, b: seq<Metric>, c: seq<Metric>)
    ensures a + (b + c) == a + b + c
  {
  }

  lemma {:induction false} EmitAgrees(base: seq<string>, a: Series, b: Series, families: seq<Family>)
    requires forall f | f in families :: a(f) == b(f)
    ensures Emit(base, a, families) == Emit(base, b, families)
  {
    if families != [] {
      EmitAgrees(base, a, b, families[..|families| - 1]);
    }
  }

  lemma GroupConcat(base: seq<string>, f: Family, a: seq<Sample>, b: seq<Sample>)
    ensures Group(base, f, a + b) == Group(base, f, a) + Group(base, f, b)
  {
  }

  /** A metric is emitted exactly when it is one of its family's samples, under the target's labels. */
  ghost predicate Sampled(base: seq<string>, series: Series, families: seq<Family>, m: Metric) {
    && m.family in families
    && exists x | x in series(m.family) :: m.labels == base + x.suffix && m.value == x.value
  }

  lemma {:induction false} EmitMembers(base: seq<string>, series: Series, families: seq<Family>, m: Metric)
    ensures m in Emit(base, series, families) <==> Sampled(base, series, families, m)
  {
    if families != [] {
      var front, f := families[..|families| - 1], families[|families| - 1];
      EmitMembers(base, series, front, m);
      GroupMembers(base, f, series(f), m);
      assert families == front + [f];
    }
  }

  lemma GroupMembers(base: seq<string>, f: Family, samples: seq<Sample>, m: Metric)
    ensures m in Group(base, f, samples)
       <==> m.family == f && exists x | x in samples :: m.labels == base + x.suffix && m.value == x.value
  {
    var g := Group(base, f, samples);
    if m in g {
      var i :| 0 <= i < |g| && g[i] == m;
      assert samples[i] in samples;
    }
    if m.family == f && exists x | x in samples :: m.labels == base + x.suffix && m.value == x.value {
      var x :| x in samples && m.labels == base + x.suffix && m.value == x.value;
      var i :| 0 <= i < |samples| && samples[i] == x;
      assert g[i] == m;
    }
  }

  // ----- no series twice -----

  predicate SameSeries(a: Metric, b: Metric) { a.family == b.family && a.labels == b.labels }

  predicate NoDuplicates(ms: seq<Metric>) {
    forall i, j | 0 <= i < j < |ms| :: !SameSeries(ms[i], ms[j])
  }

  predicate DistinctSuffixes(samples: seq<Sample>) {
    forall i, j | 0 <= i < j < |samples| :: samples[i].suffix != samples[j].suffix
  }

  predicate DistinctFamilies(families: seq<Family>) {
    forall i, j | 0 <= i < j < |families| :: families[i] != families[j]
  }

  lemma GroupDistinct(base: seq<string>, f: Family, samples: seq<Sample>)
    requires DistinctSuffixes(samples)
    ensures NoDuplicates(Group(base, f, samples))
  {
    var g := Group(base, f, samples);
    forall i, j | 0 <= i < j < |g| ensures !SameSeries(g[i], g[j]) {
      assert g[i].labels[|base|..] == samples[i].suffix && g[j].labels[|base|..] == samples[j].suffix;
    }
  }

  lemma JoinDistinct(a: seq<Metric>, b: seq<Metric>)
    requires NoDuplicates(a) && NoDuplicates(b)
    requires forall x, y | x in a && y in b :: !SameSeries(x, y)
    ensures NoDuplicates(a + b)
  {
  }

  /** Families that differ and samples that differ within each family never share a series. */
  lemma {:induction false} EmitDistinct(base: seq<string>, series: Series, families: seq<Family>)
    requires DistinctFamilies(families) && forall f | f in families :: DistinctSuffixes(series(f))
    ensures NoDuplicates(Emit(base, series, families))
  {
    if families != [] {
      var front, f := families[..|families| - 1], families[|families| - 1];
      EmitDistinct(base, series, front);
      GroupDistinct(base, f, series(f));
      forall x, y | x in Emit(base, series, front) && y in Group(base, f, series(f)) ensures !SameSeries(x, y) {
        EmitMembers(base, series, front, x);
        GroupMembers(base, f, series(f), y);
      }
      JoinDistinct(Emit(base, series, front), Group(base, f, series(f)));
    }
  }

  lemma LanesDistinct(lanes: seq<LaneValue>)
    requires LanesIncreasing(lanes)
    ensures DistinctSuffixes(LaneSamples(lanes))
  {
    forall i, j | 0 <= i < j < |lanes| ensures LaneSamples(lanes)[i].suffix != LaneSamples(lanes)[j].suffix {
      if LaneSamples(lanes)[i].suffix[0] == LaneSamples(lanes)[j].suffix[0] {
        DecimalInjective(lanes[i].lane, lanes[j].lane);
      }
    }
  }

  lemma LabelledDistinct(lanes: seq<LaneValue>, stage: string)
    requires LanesIncreasing(lanes)
    ensures DistinctSuffixes(LabelledSamples(lanes, stage))
    ensures forall x | x in LabelledSamples(lanes, stage) :: |x.suffix| == 2 && x.suffix[1] == stage
  {
    forall i, j | 0 <= i < j < |lanes|
      ensures LabelledSamples(lanes, stage)[i].suffix != LabelledSamples(lanes, stage)[j].suffix
    {
      if LabelledSamples(lanes, stage)[i].suffix[0] == LabelledSamples(lanes, stage)[j].suffix[0] {
        DecimalInjective(lanes[i].lane, lanes[j].lane);
      }
    }
  }

  /** Two stages of one family stay apart because their label differs. */
  lemma StagesDistinct(a: seq<Sample>, b: seq<Sample>)
    requires DistinctSuffixes(a) && DistinctSuffixes(b)
    requires forall x, y | x in a && y in b :: |x.suffix| == 2 && |y.suffix| == 2 && x.suffix[1] != y.suffix[1]
    ensures DistinctSuffixes(a + b)
  {
    var c := a + b;
    forall i, j | 0 <= i < j < |c| ensures c[i].suffix != c[j].suffix {
      if i < |a| <= j {
        assert a[i] in a && b[j - |a|] in b;
        assert a[i].suffix[1] != b[j - |a|].suffix[1];
      }
    }
  }

  lemma BinsDistinct(bins: seq<FECBin>)
    requires Decoder.BinsWellFormed(bins)
    ensures DistinctSuffixes(BinSamples(bins))
  {
    forall i, j | 0 <= i < j < |bins| ensures BinSamples(bins)[i].suffix != BinSamples(bins)[j].suffix {
      if BinSamples(bins)[i].suffix[0] == BinSamples(bins)[j].suffix[0] {
        DecimalInjective(bins[i].bin, bins[j].bin);
      }
    }
  }

  lemma TapsDistinct(t: SerDesTX)
    requires Decoder.TuningWellFormed(t)
    ensures DistinctSuffixes(TapSamples(t.firCoefficients))
  {
    var taps := t.firCoefficients;
    forall i, j | 0 <= i < j < |taps| ensures TapSamples(taps)[i].suffix != TapSamples(taps)[j].suffix {
      assert SerDes.FIRLess(taps[i], taps[j]);
      if TapSamples(taps)[i].suffix == TapSamples(taps)[j].suffix {
        assert TapSamples(taps)[i].suffix[0] == TapSamples(taps)[j].suffix[0];
        assert TapSamples(taps)[i].suffix[1] == TapSamples(taps)[j].suffix[1];
        DecimalInjective(taps[i].lane, taps[j].lane);
        LessTrichotomy(taps[i].tap, taps[j].tap);
      }
    }
  }

  lemma EyeDistinct(e: Eye)
    requires Decoder.EyeWellFormed(e)
    ensures DistinctSuffixes(LabelledSamples(e.initialFOM, "initial") + LabelledSamples(e.lastFOM, "last"))
    ensures DistinctSuffixes(LabelledSamples(e.upperGrade, "upper") + LabelledSamples(e.midGrade, "mid")
                             + LabelledSamples(e.lowerGrade, "lower"))
  {
    FOMDistinct(e.initialFOM, e.lastFOM);
    LabelledDistinct(e.upperGrade, "upper");
    LabelledDistinct(e.midGrade, "mid");
    LabelledDistinct(e.lowerGrade, "lower");
    assert "upper"[0] != "mid"[0] && "upper"[0] != "lower"[0] && "mid"[0] != "lower"[0];
    StagesDistinct(LabelledSamples(e.upperGrade, "upper"), LabelledSamples(e.midGrade, "mid"));
    StagesDistinct(LabelledSamples(e.upperGrade, "upper") + LabelledSamples(e.midGrade, "mid"),
                   LabelledSamples(e.lowerGrade, "lower"));
  }

  lemma FOMDistinct(initial: seq<LaneValue>, last: seq<LaneValue>)
    requires LanesIncreasing(initial) && LanesIncreasing(last)
    ensures DistinctSuffixes(LabelledSamples(initial, "initial") + LabelledSamples(last, "last"))
  {
    LabelledDistinct(initial, "initial");
    LabelledDistinct(last, "last");
    assert "initial"[0] != "last"[0];
    StagesDistinct(LabelledSamples(initial, "initial"), LabelledSamples(last, "last"));
  }

  lemma PortSamplesDistinct(s: Snapshot<PortData>, f: Family)
    requires Decoder.WellFormed(s.data)
    ensures DistinctSuffixes(PortSamples(s, f))
  {
    hide LaneSamples, LabelledSamples, TapSamples, BinSamples, DistinctSuffixes;
    var d := s.data;
    match f
    case RawPhysicalErrorsPerLane => LanesDistinct(d.counters.rawPhysicalErrorsLane);
    case RawBERPerLane => LanesDistinct(d.counters.rawBERLane);
    case ModuleBiasCurrent => LanesDistinct(d.moduleData.biasCurrentAmperes);
    case ModuleRxPower => LanesDistinct(d.moduleData.rxPowerDBm);
    case ModuleTxPower => LanesDistinct(d.moduleData.txPowerDBm);
    case TxFault => LanesDistinct(d.moduleData.txFault);
    case TxLOS => LanesDistinct(d.moduleData.txLOS);
    case RxLOS => LanesDistinct(d.moduleData.rxLOS);
    case TxCDRLossOfLock => LanesDistinct(d.moduleData.txCDRLOL);
    case RxCDRLossOfLock => LanesDistinct(d.moduleData.rxCDRLOL);
    case DatapathActive => LanesDistinct(d.moduleData.datapathActive);
    case RxFECCodewords => BinsDistinct(d.fecHistogram);
    case SerDesTXFIR => TapsDistinct(d.serDesTX);
    case SerDesTXDrive => LanesDistinct(d.serDesTX.driveAmplitude);
    case EyeFOM => EyeDistinct(d.eye);
    case EyeGrade => EyeDistinct(d.eye);
    case _ => FewDistinct(PortSamples(s, f));
  }

  lemma FewDistinct(samples: seq<Sample>)
    requires |samples| <= 1
    ensures DistinctSuffixes(samples)
  {
  }

  lemma PCIeSamplesDistinct(s: Snapshot<PCIeEye>, f: Family)
    requires Decoder.PCIeWellFormed(s.data)
    ensures DistinctSuffixes(PCIeSamples(s, f))
  {
    FOMDistinct(s.data.initialFOM, s.data.lastFOM);
  }

  // ----- the order of the families -----

  /** A family's place in the emission. */
  function Rank(f: Family): nat {
    match f
    case Up => 0 case CollectionDuration => 1 case LastSuccess => 2
    case LinkAttributes => 3
    case EffectivePhysicalErrors => 4 case LinkDown => 5 case LinkErrorRecovery => 6 case EffectiveBER => 7 case RawBER => 8
    case RawPhysicalErrorsPerLane => 9 case RawBERPerLane => 10
    case ModuleTemperature => 11 case ModuleVoltage => 12 case ModuleFWFault => 13 case DatapathFWFault => 14
    case ModuleBiasCurrent => 15 case ModuleRxPower => 16 case ModuleTxPower => 17
    case TxFault => 18 case TxLOS => 19 case RxLOS => 20 case TxCDRLossOfLock => 21 case RxCDRLossOfLock => 22
    case DatapathActive => 23
    case ModuleInventory => 24
    case RxFECCodewords => 25
    case SerDesTXFIR => 26 case SerDesTXDrive => 27
    case EyeFOM => 28 case EyeGrade => 29
    case PCIeUp => 30 case PCIeDuration => 31 case PCIeLastSuccess => 32 case PCIeFOM => 33
  }

  /** The families hold the ranks lo, lo + 1, and so on. */
  predicate Consecutive(families: seq<Family>, lo: nat) {
    forall i | 0 <= i < |families| :: Rank(families[i]) == lo + i
  }

  lemma ConsecutiveConcat(a: seq<Family>, b: seq<Family>, lo: nat)
    requires Consecutive(a, lo) && Consecutive(b, lo + |a|)
    ensures Consecutive(a + b, lo)
  {
  }

  lemma ConsecutiveDistinct(families: seq<Family>, lo: nat)
    requires Consecutive(families, lo)
    ensures DistinctFamilies(families)
  {
  }

  lemma PortFamiliesConsecutive()
    ensures Consecutive(SELF_FAMILIES, 0) && Consecutive(SELF_FAMILIES + MEASUREMENT_FAMILIES, 0)
  {
    hide Rank;
    PortRanks();
    ConsecutiveConcat(LINK_FAMILIES, COUNTER_FAMILIES, 3);
    ConsecutiveConcat(LINK_FAMILIES + COUNTER_FAMILIES, MODULE_FAMILIES, 3);
    ConsecutiveConcat(LINK_FAMILIES + COUNTER_FAMILIES + MODULE_FAMILIES, FEC_FAMILIES, 3);
    ConsecutiveConcat(LINK_FAMILIES + COUNTER_FAMILIES + MODULE_FAMILIES + FEC_FAMILIES, SERDES_FAMILIES, 3);
    ConsecutiveConcat(LINK_FAMILIES + COUNTER_FAMILIES + MODULE_FAMILIES + FEC_FAMILIES + SERDES_FAMILIES, EYE_FAMILIES, 3);
    ConsecutiveConcat(SELF_FAMILIES, MEASUREMENT_FAMILIES, 0);
  }

  /** No family is emitted twice for a device. */
  lemma PortFamiliesDistinct()
    ensures DistinctFamilies(SELF_FAMILIES) && DistinctFamilies(SELF_FAMILIES + MEASUREMENT_FAMILIES)
  {
    PortFamiliesConsecutive();
    ConsecutiveDistinct(SELF_FAMILIES, 0);
    ConsecutiveDistinct(SELF_FAMILIES + MEASUREMENT_FAMILIES, 0);
  }

  lemma PortRanks()
    ensures Consecutive(SELF_FAMILIES, 0) && Consecutive(LINK_FAMILIES, 3) && Consecutive(COUNTER_FAMILIES, 4)
    ensures Consecutive(MODULE_FAMILIES, 11) && Consecutive(FEC_FAMILIES, 25) && Consecutive(SERDES_FAMILIES, 26)
    ensures Consecutive(EYE_FAMILIES, 28)
  {
    forall i | 0 <= i < |COUNTER_FAMILIES| ensures Rank(COUNTER_FAMILIES[i]) == 4 + i {
      CounterRanks(i);
    }
    forall i | 0 <= i < |MODULE_FAMILIES| ensures Rank(MODULE_FAMILIES[i]) == 11 + i {
      ModuleRanks(i);
    }
  }

  lemma CounterRanks(i: nat)
    requires i < |COUNTER_FAMILIES|
    ensures Rank(COUNTER_FAMILIES[i]) == 4 + i
  {
  }

  lemma ModuleRanks(i: nat)
    requires i < |MODULE_FAMILIES|
    ensures Rank(MODULE_FAMILIES[i]) == 11 + i
  {
  }

  // ----- whole scrapes -----

  /** The families a device exports: self monitoring only when its data is stale. */
  function PortFamilies(s: Snapshot<PortData>, now: Time, staleAfter: int): seq<Family> {
    if Stale(s, now, staleAfter) then SELF_FAMILIES else SELF_FAMILIES + MEASUREMENT_FAMILIES
  }

  function PCIeFamilies(s: Snapshot<PCIeEye>, now: Time, staleAfter: int): seq<Family> {
    if Stale(s, now, staleAfter) then PCIE_SELF_FAMILIES else PCIE_SELF_FAMILIES + PCIE_FAMILIES
  }

  function PortLabels(t: Target): seq<string> { [t.device, t.port, t.pciAddr] }

  function PCIeLabels(t: Target): seq<string> { [t.device, t.pciAddr] }

  function PortMetrics(s: Snapshot<PortData>, now: Time, staleAfter: int): seq<Metric> {
    Emit(PortLabels(s.target), f => PortSamples(s, f), PortFamilies(s, now, staleAfter))
  }

  function PCIeMetrics(s: Snapshot<PCIeEye>, now: Time, staleAfter: int): seq<Metric> {
    Emit(PCIeLabels(s.target), f => PCIeSamples(s, f), PCIeFamilies(s, now, staleAfter))
  }

  /** One pass over a set of snapshots, in the order its map happens to be iterated. */
  function Scrape<D>(devices: SnapshotMap<D>, order: seq<string>, render: Snapshot<D> -> seq<Metric>): seq<Metric>
    requires forall d | d in order :: d in devices
  {
    if order == [] then []
    else
      assert order[|order| - 1] in order;
      Scrape(devices, order[..|order| - 1], render) + render(devices[order[|order| - 1]])
  }

  /** Every key once, in some order. */
  ghost predicate Iterates<D>(order: seq<string>, devices: SnapshotMap<D>) {
    && (forall d :: d in order <==> d in devices)
    && (forall i, j | 0 <= i < j < |order| :: order[i] != order[j])
  }

  lemma {:induction false} ScrapeMembers<D>(devices: SnapshotMap<D>, order: seq<string>,
                                            render: Snapshot<D> -> seq<Metric>, m: Metric)
    requires forall d | d in order :: d in devices
    ensures m in Scrape(devices, order, render) <==> exists d | d in order :: m in render(devices[d])
  {
    if order != [] {
      var front, last := order[..|order| - 1], order[|order| - 1];
      ScrapeMembers(devices, front, render, m);
      assert order == front + [last];
    }
  }

  /** Devices keep apart when each one's metrics carry its own name first. */
  lemma {:induction false} ScrapeDistinct<D>(devices: SnapshotMap<D>, order: seq<string>, render: Snapshot<D> -> seq<Metric>)
    requires forall d | d in order :: d in devices
    requires forall i, j | 0 <= i < j < |order| :: order[i] != order[j]
    requires forall d | d in order :: NoDuplicates(render(devices[d]))
    requires forall d, m | d in order && m in render(devices[d]) :: |m.labels| > 0 && m.labels[0] == d
    ensures NoDuplicates(Scrape(devices, order, render))
  {
    if order != [] {
      var front, last := order[..|order| - 1], order[|order| - 1];
      assert forall d | d in front :: d in order;
      ScrapeDistinct(devices, front, render);
      forall x, y | x in Scrape(devices, front, render) && y in render(devices[last]) ensures !SameSeries(x, y) {
        ScrapeMembers(devices, front, render, x);
        var d :| d in front && x in render(devices[d]);
        assert d != last;
      }
      JoinDistinct(Scrape(devices, front, render), render(devices[last]));
    }
  }

  lemma PortMetricsDistinct(s: Snapshot<PortData>, now: Time, staleAfter: int)
    requires Decoder.WellFormed(s.data)
    ensures NoDuplicates(PortMetrics(s, now, staleAfter))
    ensures forall m | m in PortMetrics(s, now, staleAfter) :: |m.labels| > 0 && m.labels[0] == s.target.device
  {
    hide PortSamples;
    var base, series, families := PortLabels(s.target), (f => PortSamples(s, f)), PortFamilies(s, now, staleAfter);
    PortFamiliesDistinct();
    forall f | f in families ensures DistinctSuffixes(series(f)) { PortSamplesDistinct(s, f); }
    EmitDistinct(base, series, families);
    forall m | m in PortMetrics(s, now, staleAfter) ensures |m.labels| > 0 && m.labels[0] == s.target.device {
      EmitMembers(base, series, families, m);
    }
  }

  lemma PCIeMetricsDistinct(s: Snapshot<PCIeEye>, now: Time, staleAfter: int)
    requires Decoder.PCIeWellFormed(s.data)
    ensures NoDuplicates(PCIeMetrics(s, now, staleAfter))
    ensures forall m | m in PCIeMetrics(s, now, staleAfter) :: |m.labels| > 0 && m.labels[0] == s.target.device
  {
    hide PCIeSamples;
    var base, series, families := PCIeLabels(s.target), (f => PCIeSamples(s, f)), PCIeFamilies(s, now, staleAfter);
    forall f | f in families ensures DistinctSuffixes(series(f)) { PCIeSamplesDistinct(s, f); }
    EmitDistinct(base, series, families);
    forall m | m in PCIeMetrics(s, now, staleAfter) ensures |m.labels| > 0 && m.labels[0] == s.target.device {
      EmitMembers(base, series, families, m);
    }
  }

  /** Unambiguous responses give a scrape without a repeated series, for every iteration order of the set. */
  lemma PortScrapeDistinct(devices: SnapshotMap<PortData>, order: seq<string>, now: Time, staleAfter: int)
    requires Iterates(order, devices)
    requires forall d | d in devices :: devices[d].target.device == d && Decoder.WellFormed(devices[d].data)
    ensures NoDuplicates(Scrape(devices, order, s => PortMetrics(s, now, staleAfter)))
  {
    hide PortMetrics;
    forall d | d in order
      ensures NoDuplicates(PortMetrics(devices[d], now, staleAfter))
      ensures forall m | m in PortMetrics(devices[d], now, staleAfter) :: |m.labels| > 0 && m.labels[0] == d
    {
      PortMetricsDistinct(devices[d], now, staleAfter);
    }
    ScrapeDistinct(devices, order, s => PortMetrics(s, now, staleAfter));
  }

  lemma PCIeScrapeDistinct(devices: SnapshotMap<PCIeEye>, order: seq<string>, now: Time, staleAfter: int)
    requires Iterates(order, devices)
    requires forall d | d in devices :: devices[d].target.device == d && Decoder.PCIeWellFormed(devices[d].data)
    ensures NoDuplicates(Scrape(devices, order, s => PCIeMetrics(s, now, staleAfter)))
  {
    hide PCIeMetrics;
    forall d | d in order
      ensures NoDuplicates(PCIeMetrics(devices[d], now, staleAfter))
      ensures forall m | m in PCIeMetrics(devices[d], now, staleAfter) :: |m.labels| > 0 && m.labels[0] == d
    {
      PCIeMetricsDistinct(devices[d], now, staleAfter);
    }
    ScrapeDistinct(devices, order, s => PCIeMetrics(s, now, staleAfter));
  }
}
