/** From a raw response to port data (decoder.go). */
module Decoder {
  import opened Wrappers
  import opened Model
  import opened Envelope
  import opened LaneReadings
  import FECHistogram
  import SerDes
  import EyeLanes
  import Ordering

  /** How text becomes JSON and how digits become a float: any two functions will do. */
  datatype Codec = Codec(parse: Bytes -> Option<Document>, float: FloatReader)

  const SECTION_MODULE := "Module Info"
  const SECTION_OPERATIONAL := "Operational Info"
  const SECTION_COUNTERS := "Physical Counters and BER Info"
  const SECTION_FEC := "Histogram of FEC Errors"
  const SECTION_SERDES := "Serdes Tuning Transmitter Info"
  const SECTION_EYE := "EYE Opening Info"
  const SECTION_PCIE_EYE := "EYE Opening Info (PCIe)"

  const EYE_FIELDS := ["Initial FOM", "Last FOM", "Upper Grades", "Mid Grades", "Lower Grades"]
  const PCIE_EYE_FIELDS := ["Initial FOM", "Last FOM"]

  const MILLIS_PER_UNIT := 1000.0
  const DATAPATH_ACTIVATED := "DPActivated"

  // ----- the section decoders -----

  function LinkOf(sec: Option<Section>): LinkInfo {
    LinkInfo(
      StringField(sec, "State"), StringField(sec, "Physical state"), StringField(sec, "Speed"),
      StringField(sec, "Width"), StringField(sec, "FEC"), StringField(sec, "Auto Negotiation"))
  }

  function ScalarField(float: FloatReader, sec: Option<Section>, key: string): Option<real> {
    ParseFloatSafe(float, StringField(sec, key))
  }

  function CountersOf(float: FloatReader, sec: Option<Section>): Counters {
    Counters(
      ScalarField(float, sec, "Effective Physical Errors"),
      ScalarField(float, sec, "Link Down Counter"),
      ScalarField(float, sec, "Link Error Recovery Counter"),
      ScalarField(float, sec, "Effective Physical BER"),
      ScalarField(float, sec, "Raw Physical BER"),
      ReadableLanes(float, ValuesField(sec, "Raw Physical Errors Per Lane"), 1.0),
      ReadableLanes(float, ValuesField(sec, "Raw Physical BER Per Lane"), 1.0))
  }

  method DecodeCounters(float: FloatReader, sec: Option<Section>) returns (c: Counters)
    ensures c == CountersOf(float, sec)
  {
    var errors := LaneValues(float, ValuesField(sec, "Raw Physical Errors Per Lane"), 1.0);
    var ber := LaneValues(float, ValuesField(sec, "Raw Physical BER Per Lane"), 1.0);
    c := Counters(
      ScalarField(float, sec, "Effective Physical Errors"),
      ScalarField(float, sec, "Link Down Counter"),
      ScalarField(float, sec, "Link Error Recovery Counter"),
      ScalarField(float, sec, "Effective Physical BER"),
      ScalarField(float, sec, "Raw Physical BER"),
      errors, ber);
  }

  function InfoOf(sec: Option<Section>): ModuleInfo {
    ModuleInfo(
      StringField(sec, "Identifier"), StringField(sec, "Vendor Name"), StringField(sec, "Vendor Part Number"),
      StringField(sec, "Vendor Serial Number"), StringField(sec, "Rev"), StringField(sec, "FW Version"),
      StringField(sec, "Active Set Host Compliance Code"), StringField(sec, "Active Set Media Compliance Code"),
      StringField(sec, "Cable Type"))
  }

  function ModuleOf(float: FloatReader, sec: Option<Section>): ModuleData {
    ModuleData(
      ScalarField(float, sec, "Temperature [C]"),
      DivideValue(ScalarField(float, sec, "Voltage [mV]"), MILLIS_PER_UNIT),
      CommaLanes(float, StringField(sec, "Bias Current [mA]"), MILLIS_PER_UNIT),
      CommaLanes(float, StringField(sec, "Rx Power Current [dBm]"), 1.0),
      CommaLanes(float, StringField(sec, "Tx Power Current [dBm]"), 1.0),
      ParseFlag(StringField(sec, "Module FW Fault")),
      ParseFlag(StringField(sec, "DataPath FW Fault")),
      FlagLanes(ValuesField(sec, "Tx Fault [per lane]")),
      FlagLanes(ValuesField(sec, "Tx LOS [per lane]")),
      FlagLanes(ValuesField(sec, "Rx LOS [per lane]")),
      FlagLanes(ValuesField(sec, "Tx CDR LOL [per lane]")),
      FlagLanes(ValuesField(sec, "Rx CDR LOL [per lane]")),
      StateLanes(ValuesField(sec, "DataPath state [per lane]"), DATAPATH_ACTIVATED),
      InfoOf(sec))
  }

  method DecodeModule(float: FloatReader, sec: Option<Section>) returns (m: ModuleData)
    ensures m == ModuleOf(float, sec)
  {
    var bias := CommaLaneValues(float, StringField(sec, "Bias Current [mA]"), MILLIS_PER_UNIT);
    var rx := CommaLaneValues(float, StringField(sec, "Rx Power Current [dBm]"), 1.0);
    var tx := CommaLaneValues(float, StringField(sec, "Tx Power Current [dBm]"), 1.0);
    var txFault := LaneFlags(ValuesField(sec, "Tx Fault [per lane]"));
    var txLOS := LaneFlags(ValuesField(sec, "Tx LOS [per lane]"));
    var rxLOS := LaneFlags(ValuesField(sec, "Rx LOS [per lane]"));
    var txCDR := LaneFlags(ValuesField(sec, "Tx CDR LOL [per lane]"));
    var rxCDR := LaneFlags(ValuesField(sec, "Rx CDR LOL [per lane]"));
    var active := LaneStates(ValuesField(sec, "DataPath state [per lane]"), DATAPATH_ACTIVATED);
    m := ModuleData(
      ScalarField(float, sec, "Temperature [C]"),
      DivideValue(ScalarField(float, sec, "Voltage [mV]"), MILLIS_PER_UNIT),
      bias, rx, tx,
      ParseFlag(StringField(sec, "Module FW Fault")),
      ParseFlag(StringField(sec, "DataPath FW Fault")),
      txFault, txLOS, rxLOS, txCDR, rxCDR, active,
      InfoOf(sec));
  }

  ghost function TuningOf(float: FloatReader, sec: Option<Section>): (r: SerDesTX)
    ensures SerDes.IsTuning(float, sec, r) || r == NO_SERDES
  {
    if exists r :: SerDes.IsTuning(float, sec, r) then var r :| SerDes.IsTuning(float, sec, r); r else NO_SERDES
  }

  ghost function OpeningOf(float: FloatReader, sec: Option<Section>, fields: seq<string>): (r: Option<seq<seq<LaneValue>>>)
    ensures r.Some? ==> EyeLanes.IsOpening(float, EyeLanes.GridOf(sec, fields), |fields|, r)
  {
    var grid := EyeLanes.GridOf(sec, fields);
    if exists r :: EyeLanes.IsOpening(float, grid, |fields|, r)
    then var r :| EyeLanes.IsOpening(float, grid, |fields|, r); r
    else None
  }

  function EyeFrom(r: Option<seq<seq<LaneValue>>>): Eye
    requires r.Some? ==> |r.value| == |EYE_FIELDS|
  {
    match r
    case None => NO_EYE
    case Some(v) => Eye(v[0], v[1], v[2], v[3], v[4])
  }

  function PCIeEyeFrom(r: Option<seq<seq<LaneValue>>>): PCIeEye
    requires r.Some? ==> |r.value| == |PCIE_EYE_FIELDS|
  {
    match r
    case None => NO_PCIE_EYE
    case Some(v) => PCIeEye(v[0], v[1])
  }

  // ----- whole responses -----

  /** What the sections of an accepted response mean. */
  ghost function PortDataOf(float: FloatReader, output: map<string, RawSection>): PortData {
    PortData(
      LinkOf(SectionOf(output, SECTION_OPERATIONAL)),
      CountersOf(float, SectionOf(output, SECTION_COUNTERS)),
      ModuleOf(float, SectionOf(output, SECTION_MODULE)),
      FECHistogram.HistogramOf(SectionOf(output, SECTION_FEC)),
      TuningOf(float, SectionOf(output, SECTION_SERDES)),
      EyeFrom(OpeningOf(float, SectionOf(output, SECTION_EYE), EYE_FIELDS)))
  }

  ghost function PCIeEyeOf(float: FloatReader, output: map<string, RawSection>): PCIeEye {
    PCIeEyeFrom(OpeningOf(float, SectionOf(output, SECTION_PCIE_EYE), PCIE_EYE_FIELDS))
  }

  ghost function Decoded(codec: Codec, raw: Bytes): Option<PortData> {
    match DecodeOutput(codec.parse(raw))
    case Err(_) => None
    case Ok(output) => Some(PortDataOf(codec.float, output))
  }

  ghost function DecodedPCIeEye(codec: Codec, raw: Bytes): Option<PCIeEye> {
    match DecodeOutput(codec.parse(raw))
    case Err(_) => None
    case Ok(output) => Some(PCIeEyeOf(codec.float, output))
  }

  /** The text is JSON, the status is absent or zero, and result.output is there. */
  predicate Acceptable(doc: Option<Document>) {
    doc.Some? && (doc.value.statusCode.None? || doc.value.statusCode.value == 0) && doc.value.result.Output?
  }

  lemma AcceptsDocument(doc: Option<Document>)
    ensures DecodeOutput(doc).Ok? <==> Acceptable(doc)
  {
  }

  method Decode(codec: Codec, raw: Bytes) returns (r: Result<PortData, DecodeError>)
    ensures r.Ok? <==> Acceptable(codec.parse(raw))
    ensures r.Ok? <==> Decoded(codec, raw).Some?
    ensures r.Ok? ==> Decoded(codec, raw) == Some(r.value)
    ensures r.Err? ==> DecodeOutput(codec.parse(raw)) == Err(r.error)
  {
    hide DecodeOutput, Acceptable;
    AcceptsDocument(codec.parse(raw));
    var out := DecodeOutput(codec.parse(raw));
    if out.Err? { return Err(out.error); }
    var output, float := out.value, codec.float;
    var counters := DecodeCounters(float, SectionOf(output, SECTION_COUNTERS));
    var moduleData := DecodeModule(float, SectionOf(output, SECTION_MODULE));
    var histogram := FECHistogram.DecodeFECHistogram(SectionOf(output, SECTION_FEC));
    var tuning := SerDes.DecodeSerDesTX(float, SectionOf(output, SECTION_SERDES));
    SerDes.TuningUnique(float, SectionOf(output, SECTION_SERDES), tuning,
                        TuningOf(float, SectionOf(output, SECTION_SERDES)));
    var eye := EyeOpening(float, SectionOf(output, SECTION_EYE), EYE_FIELDS);
    return Ok(PortData(LinkOf(SectionOf(output, SECTION_OPERATIONAL)), counters, moduleData, histogram, tuning, EyeFrom(eye)));
  }

  method DecodePCIeEye(codec: Codec, raw: Bytes) returns (r: Result<PCIeEye, DecodeError>)
    ensures r.Ok? <==> Acceptable(codec.parse(raw))
    ensures r.Ok? <==> DecodedPCIeEye(codec, raw).Some?
    ensures r.Ok? ==> DecodedPCIeEye(codec, raw) == Some(r.value)
    ensures r.Err? ==> DecodeOutput(codec.parse(raw)) == Err(r.error)
  {
    hide DecodeOutput, Acceptable;
    AcceptsDocument(codec.parse(raw));
    var out := DecodeOutput(codec.parse(raw));
    if out.Err? { return Err(out.error); }
    var eye := EyeOpening(codec.float, SectionOf(out.value, SECTION_PCIE_EYE), PCIE_EYE_FIELDS);
    return Ok(PCIeEyeFrom(eye));
  }

  method EyeOpening(float: FloatReader, sec: Option<Section>, fields: seq<string>) returns (r: Option<seq<seq<LaneValue>>>)
    ensures r == OpeningOf(float, sec, fields)
    ensures r.Some? ==> |r.value| == |fields|
  {
    r := EyeLanes.DecodeEyeLaneValues(float, sec, fields);
    EyeLanes.OpeningUnique(float, EyeLanes.GridOf(sec, fields), |fields|, r, OpeningOf(float, sec, fields));
  }

  // ----- what every accepted response guarantees -----

  ghost predicate CountersWellFormed(c: Counters) {
    LanesIncreasing(c.rawPhysicalErrorsLane) && LanesIncreasing(c.rawBERLane)
  }

  ghost predicate ModuleWellFormed(m: ModuleData) {
    && LanesIncreasing(m.biasCurrentAmperes) && LanesIncreasing(m.rxPowerDBm) && LanesIncreasing(m.txPowerDBm)
    && LanesIncreasing(m.txFault) && LanesIncreasing(m.txLOS) && LanesIncreasing(m.rxLOS)
    && LanesIncreasing(m.txCDRLOL) && LanesIncreasing(m.rxCDRLOL) && LanesIncreasing(m.datapathActive)
  }

  ghost predicate BinsWellFormed(bins: seq<FECBin>) {
    forall i | 0 <= i < |bins| :: bins[i].bin == i
  }

  ghost predicate TuningWellFormed(t: SerDesTX) {
    && (forall i, j | 0 <= i < j < |t.firCoefficients| :: SerDes.FIRLess(t.firCoefficients[i], t.firCoefficients[j]))
    && LanesIncreasing(t.driveAmplitude)
  }

  ghost predicate EyeWellFormed(e: Eye) {
    && LanesIncreasing(e.initialFOM) && LanesIncreasing(e.lastFOM)
    && LanesIncreasing(e.upperGrade) && LanesIncreasing(e.midGrade) && LanesIncreasing(e.lowerGrade)
  }

  /** Unique lanes, bins and (lane, tap) pairs in every family. */
  ghost predicate WellFormed(d: PortData) {
    && CountersWellFormed(d.counters) && ModuleWellFormed(d.moduleData) && BinsWellFormed(d.fecHistogram)
    && TuningWellFormed(d.serDesTX) && EyeWellFormed(d.eye)
  }

  ghost predicate PCIeWellFormed(d: PCIeEye) {
    LanesIncreasing(d.initialFOM) && LanesIncreasing(d.lastFOM)
  }

  lemma FamilyIncreasing(float: FloatReader, grid: EyeLanes.Grid, r: seq<seq<LaneValue>>, f: nat)
    requires EyeLanes.ValidGrid(grid, |r|) && f < |r|
    requires EyeLanes.IsOpening(float, Some(grid), |r|, Some(r))
    ensures LanesIncreasing(r[f])
  {
    assert EyeLanes.IsFamily(float, grid, f, r[f]);
    assert forall i, j | 0 <= i < j < |r[f]| :: LaneLess(r[f][i], r[f][j]);
  }

  lemma OpeningIncreasing(float: FloatReader, sec: Option<Section>, fields: seq<string>)
    ensures OpeningOf(float, sec, fields).Some? ==>
              forall f | 0 <= f < |OpeningOf(float, sec, fields).value| :: LanesIncreasing(OpeningOf(float, sec, fields).value[f])
  {
    var r := OpeningOf(float, sec, fields);
    if r.Some? {
      var grid := EyeLanes.GridOf(sec, fields);
      forall f | 0 <= f < |r.value| ensures LanesIncreasing(r.value[f]) {
        FamilyIncreasing(float, grid.value, r.value, f);
      }
    }
  }

  lemma TuningIncreasing(float: FloatReader, sec: Option<Section>)
    ensures TuningWellFormed(TuningOf(float, sec))
  {
    var r := TuningOf(float, sec);
    if r != NO_SERDES {
      assert Ordering.Increasing(SerDes.FIRLess, r.firCoefficients);
      assert Ordering.Increasing(LaneLess, r.driveAmplitude);
      assert forall i, j | 0 <= i < j < |r.driveAmplitude| :: LaneLess(r.driveAmplitude[i], r.driveAmplitude[j]);
    }
  }

  lemma EyeIncreasing(float: FloatReader, sec: Option<Section>)
    ensures EyeWellFormed(EyeFrom(OpeningOf(float, sec, EYE_FIELDS)))
    ensures PCIeWellFormed(PCIeEyeFrom(OpeningOf(float, sec, PCIE_EYE_FIELDS)))
  {
    OpeningIncreasing(float, sec, EYE_FIELDS);
    OpeningIncreasing(float, sec, PCIE_EYE_FIELDS);
  }

  lemma ModuleIncreasing(float: FloatReader, sec: Option<Section>)
    ensures ModuleWellFormed(ModuleOf(float, sec))
  {
    ListFamiliesAllOrNothing(ValuesField(sec, "DataPath state [per lane]"), DATAPATH_ACTIVATED);
    ListFamiliesAllOrNothing(ValuesField(sec, "Tx Fault [per lane]"), "");
    ListFamiliesAllOrNothing(ValuesField(sec, "Tx LOS [per lane]"), "");
    ListFamiliesAllOrNothing(ValuesField(sec, "Rx LOS [per lane]"), "");
    ListFamiliesAllOrNothing(ValuesField(sec, "Tx CDR LOL [per lane]"), "");
    ListFamiliesAllOrNothing(ValuesField(sec, "Rx CDR LOL [per lane]"), "");
  }

  lemma PortDataWellFormed(float: FloatReader, output: map<string, RawSection>)
    ensures WellFormed(PortDataOf(float, output))
  {
    hide ModuleOf;
    ModuleIncreasing(float, SectionOf(output, SECTION_MODULE));
    TuningIncreasing(float, SectionOf(output, SECTION_SERDES));
    EyeIncreasing(float, SectionOf(output, SECTION_EYE));
  }

  /** Whatever the bytes, an accepted response never repeats a lane, bin or tap. */
  lemma DecodedIsWellFormed(codec: Codec, raw: Bytes)
    ensures Decoded(codec, raw).Some? ==> WellFormed(Decoded(codec, raw).value)
    ensures DecodedPCIeEye(codec, raw).Some? ==> PCIeWellFormed(DecodedPCIeEye(codec, raw).value)
  {
    match DecodeOutput(codec.parse(raw))
    case Err(_) =>
    case Ok(output) =>
      PortDataWellFormed(codec.float, output);
      EyeIncreasing(codec.float, SectionOf(output, SECTION_PCIE_EYE));
  }

  // ----- which responses are accepted, and what is read from where -----

  /**
   Both decoders accept exactly those responses. A non-zero status is reported as
   such whatever the shape of the result, and each other refusal by its own cause.
   */
  lemma AcceptedExactly(codec: Codec, raw: Bytes)
    ensures Decoded(codec, raw).Some? <==> Acceptable(codec.parse(raw))
    ensures DecodedPCIeEye(codec, raw).Some? <==> Acceptable(codec.parse(raw))
    ensures var doc, out := codec.parse(raw), DecodeOutput(codec.parse(raw));
            && (doc.None? ==> out == Err(BadText))
            && (doc.Some? && doc.value.statusCode.Some? && doc.value.statusCode.value != 0 ==>
                  out == Err(BadStatus(doc.value.statusCode.value)))
            && (doc.Some? && (doc.value.statusCode.None? || doc.value.statusCode.value == 0) ==>
                  && (doc.value.result.Malformed? ==> out == Err(BadResult))
                  && (doc.value.result.NoOutput? ==> out == Err(MissingOutput))
                  && (doc.value.result.Output? ==> out == Ok(doc.value.result.sections)))
  {
    hide PortDataOf, PCIeEyeOf;
  }

  /** Each part of the data is what the section of that name holds, and no other section matters. */
  lemma SectionsByName(codec: Codec, raw: Bytes)
    requires Acceptable(codec.parse(raw))
    ensures var o, float := codec.parse(raw).value.result.sections, codec.float;
            var d := Decoded(codec, raw).value;
            && d.link == LinkOf(SectionOf(o, "Operational Info"))
            && d.counters == CountersOf(float, SectionOf(o, "Physical Counters and BER Info"))
            && d.moduleData == ModuleOf(float, SectionOf(o, "Module Info"))
            && d.fecHistogram == FECHistogram.HistogramOf(SectionOf(o, "Histogram of FEC Errors"))
            && (forall t | SerDes.IsTuning(float, SectionOf(o, "Serdes Tuning Transmitter Info"), t) :: d.serDesTX == t)
            && (forall e | IsEye(float, SectionOf(o, "EYE Opening Info"), e) :: d.eye == e)
            && (forall e | IsPCIeEye(float, SectionOf(o, "EYE Opening Info (PCIe)"), e) :: DecodedPCIeEye(codec, raw).value == e)
  {
    hide LinkOf, CountersOf, ModuleOf, FECHistogram.HistogramOf, SerDes.IsTuning, IsEye, IsPCIeEye, TuningOf, OpeningOf,
      EyeFrom, PCIeEyeFrom, SectionOf;
    var o, float := codec.parse(raw).value.result.sections, codec.float;
    forall t | SerDes.IsTuning(float, SectionOf(o, "Serdes Tuning Transmitter Info"), t)
      ensures TuningOf(float, SectionOf(o, "Serdes Tuning Transmitter Info")) == t
    {
      TuningHolds(float, SectionOf(o, "Serdes Tuning Transmitter Info"), t);
    }
    forall e | IsEye(float, SectionOf(o, "EYE Opening Info"), e)
      ensures EyeFrom(OpeningOf(float, SectionOf(o, "EYE Opening Info"), EYE_FIELDS)) == e
    {
      EyeHolds(float, SectionOf(o, "EYE Opening Info"), e);
    }
    forall e | IsPCIeEye(float, SectionOf(o, "EYE Opening Info (PCIe)"), e)
      ensures PCIeEyeFrom(OpeningOf(float, SectionOf(o, "EYE Opening Info (PCIe)"), PCIE_EYE_FIELDS)) == e
    {
      PCIeEyeHolds(float, SectionOf(o, "EYE Opening Info (PCIe)"), e);
    }
  }

  lemma TuningHolds(float: FloatReader, sec: Option<Section>, t: SerDesTX)
    requires SerDes.IsTuning(float, sec, t)
    ensures TuningOf(float, sec) == t
  {
    hide SerDes.IsTuning;
    SerDes.TuningUnique(float, sec, TuningOf(float, sec), t);
  }

  lemma OpeningHolds(float: FloatReader, sec: Option<Section>, fields: seq<string>, r: Option<seq<seq<LaneValue>>>)
    requires EyeLanes.IsOpening(float, EyeLanes.GridOf(sec, fields), |fields|, r)
    ensures OpeningOf(float, sec, fields) == r
  {
    hide EyeLanes.IsOpening, EyeLanes.GridOf;
    EyeLanes.OpeningUnique(float, EyeLanes.GridOf(sec, fields), |fields|, OpeningOf(float, sec, fields), r);
  }

  lemma EyeHolds(float: FloatReader, sec: Option<Section>, e: Eye)
    requires IsEye(float, sec, e)
    ensures EyeFrom(OpeningOf(float, sec, EYE_FIELDS)) == e
  {
    hide EyeLanes.GridOf, OpeningOf;
    if EyeLanes.GridOf(sec, EYE_FIELDS).None? {
      OpeningHolds(float, sec, EYE_FIELDS, None);
    } else {
      OpeningHolds(float, sec, EYE_FIELDS, Some([e.initialFOM, e.lastFOM, e.upperGrade, e.midGrade, e.lowerGrade]));
    }
  }

  lemma PCIeEyeHolds(float: FloatReader, sec: Option<Section>, e: PCIeEye)
    requires IsPCIeEye(float, sec, e)
    ensures PCIeEyeFrom(OpeningOf(float, sec, PCIE_EYE_FIELDS)) == e
  {
    hide EyeLanes.GridOf, OpeningOf;
    if EyeLanes.GridOf(sec, PCIE_EYE_FIELDS).None? {
      OpeningHolds(float, sec, PCIE_EYE_FIELDS, None);
    } else {
      OpeningHolds(float, sec, PCIE_EYE_FIELDS, Some([e.initialFOM, e.lastFOM]));
    }
  }

  /** The five families of the network Eye, by the vendor's field names; all empty when the section is unusable. */
  ghost predicate IsEye(float: FloatReader, sec: Option<Section>, e: Eye) {
    var fields := ["Initial FOM", "Last FOM", "Upper Grades", "Mid Grades", "Lower Grades"];
    var grid := EyeLanes.GridOf(sec, fields);
    if grid.None? then e == Eye([], [], [], [], [])
    else EyeLanes.IsOpening(float, grid, 5, Some([e.initialFOM, e.lastFOM, e.upperGrade, e.midGrade, e.lowerGrade]))
  }

  ghost predicate IsPCIeEye(float: FloatReader, sec: Option<Section>, e: PCIeEye) {
    var grid := EyeLanes.GridOf(sec, ["Initial FOM", "Last FOM"]);
    if grid.None? then e == PCIeEye([], [])
    else EyeLanes.IsOpening(float, grid, 2, Some([e.initialFOM, e.lastFOM]))
  }
}
