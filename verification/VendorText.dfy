/**
 The counters and module sections as the vendor writes them (decoder.go): from
 numbers and flags to text and back.
 */
module VendorText {
  import opened Wrappers
  import opened Model
  import opened Text
  import opened Envelope
  import opened LaneReadings
  import opened Decoder
  import FECHistogram
  import EyeLanes

  /** The printer's text for x: plain, available, and read back as x. */
  ghost predicate Prints(float: FloatReader, show: real -> string, x: real) {
    var t := show(x);
    && ']' !in t && '[' !in t && ',' !in t
    && TrimSpace(t) != "" && TrimSpace(t) !in NOT_AVAILABLE && float(TrimSpace(t)) == Some(x)
  }

  /** The vendor's ways of saying that there is no reading. */
  predicate Unavailable(text: string) {
    TrimSpace(text) == "" || TrimSpace(text) in NOT_AVAILABLE
  }

  /** One reading with any padding. */
  ghost predicate EncodesReading(float: FloatReader, show: real -> string, text: string, v: Option<real>) {
    match v
    case Some(x) => Prints(float, show, x) && TrimSpace(text) == TrimSpace(show(x))
    case None => Unavailable(text)
  }

  lemma ReadingReads(float: FloatReader, show: real -> string, text: string, v: Option<real>)
    requires EncodesReading(float, show, text, v)
    ensures ParseFloatSafe(float, text) == v
  {
    hide TrimSpace;
    NotAvailableExactly(TrimSpace(text));
    match v
    case Some(x) =>
      BracketFreeUncut(show(x));
      assert TrimRangeSuffix(text) == TrimRangeSuffix(show(x));
    case None =>
      if TrimSpace(text) != "" {
        assert TrimSpace(text)[|TrimSpace(text)| - 1] != ']';
      }
  }

  function FieldAt(sec: Section, key: string): Option<Field> {
    if key in sec then Some(sec[key]) else None
  }

  /** A scalar field: the reading and perhaps its bounds, or anything that is not a reading. */
  ghost predicate EncodesScalar(float: FloatReader, show: real -> string, field: Option<Field>, v: Option<real>) {
    match v
    case Some(x) =>
      && field.Some? && field.value.Text? && Prints(float, show, x)
      && exists bounds :: Bounded(bounds) && TrimSpace(field.value.text) == TrimSpace(show(x) + RangeSuffix(bounds))
    case None => field.None? || !field.value.Text? || Unavailable(field.value.text)
  }

  predicate Bounded(bounds: Option<string>) {
    bounds.Some? ==> '[' !in bounds.value && ',' !in bounds.value
  }

  lemma EmptyUnread(float: FloatReader)
    ensures ParseFloatSafe(float, "") == None
  {
  }

  lemma ScalarReads(float: FloatReader, show: real -> string, sec: Section, key: string, v: Option<real>)
    requires EncodesScalar(float, show, FieldAt(sec, key), v)
    ensures ScalarField(float, Some(sec), key) == v
  {
    hide TrimSpace, LastIndex, TrimRangeSuffix, IsNotAvailable;
    EmptyUnread(float);
    if key in sec && sec[key].Text? {
      var text := sec[key].text;
      TrimTwice(text);
      match v
      case Some(x) =>
        NotAvailableExactly(TrimSpace(show(x)));
        var bounds :| Bounded(bounds) && TrimSpace(text) == TrimSpace(show(x) + RangeSuffix(bounds));
        SuffixUnread(show(x), bounds);
        TrimTwice(show(x) + RangeSuffix(bounds));
        assert TrimRangeSuffix(TrimSpace(text)) == TrimRangeSuffix(show(x) + RangeSuffix(bounds));
      case None =>
        ReadingReads(float, show, text, None);
        assert TrimRangeSuffix(TrimSpace(text)) == TrimRangeSuffix(text);
    }
  }

  lemma SuffixUnread(s: string, bounds: Option<string>)
    requires ']' !in s && TrimSpace(s) != "" && Bounded(bounds)
    ensures TrimRangeSuffix(s + RangeSuffix(bounds)) == TrimSpace(s)
  {
    hide TrimSpace, TrimRangeSuffix, Blank;
    match bounds
    case None =>
      assert s + RangeSuffix(bounds) == s;
      BracketFreeUncut(s);
    case Some(b) =>
      assert s + RangeSuffix(bounds) == s + " [" + b + "]";
      if Blank(s) { TrimBlank(s); }
      SuffixCut(s, b);
  }

  // ----- lists of readings -----

  /** A value in base units, in the vendor's unit. */
  function InVendorUnit(x: real, divisor: real): real { x * divisor }

  function Scaled(v: Option<real>, divisor: real): Option<real> {
    match v case None => None case Some(x) => Some(InVendorUnit(x, divisor))
  }

  /** The readings there are, each under its position. */
  function Numbered(readings: seq<Option<real>>): seq<LaneValue> {
    if readings == [] then []
    else
      var n := |readings| - 1;
      Numbered(readings[..n]) + (if readings[n].None? then [] else [LaneValue(n, readings[n].value)])
  }

  /** The texts print the readings in the vendor's unit. */
  ghost predicate EncodesReadings(float: FloatReader, show: real -> string, texts: seq<string>,
                                  readings: seq<Option<real>>, divisor: real) {
    && |texts| == |readings|
    && forall i | 0 <= i < |texts| :: EncodesReading(float, show, texts[i], Scaled(readings[i], divisor))
  }

  lemma {:induction false} ReadingsRead(float: FloatReader, show: real -> string, texts: seq<string>,
                                        readings: seq<Option<real>>, divisor: real)
    requires EncodesReadings(float, show, texts, readings, divisor) && divisor != 0.0
    ensures ReadableLanes(float, texts, divisor) == Numbered(readings)
  {
    hide EncodesReading, ParseFloatSafe;
    if texts != [] {
      var n := |texts| - 1;
      ReadingsRead(float, show, texts[..n], readings[..n], divisor);
      ReadingReads(float, show, texts[n], Scaled(readings[n], divisor));
      assert ReadableLanes(float, texts[..n], divisor) == Numbered(readings[..n]);
      UnscaledReading(readings[n], divisor);
    }
  }

  lemma UnscaledReading(v: Option<real>, divisor: real)
    requires divisor != 0.0
    ensures DivideValue(Scaled(v, divisor), divisor) == v
  {
    match v
    case Some(x) => UnitUndone(x, divisor);
    case None =>
  }

  lemma UnitUndone(x: real, divisor: real)
    requires divisor != 0.0
    ensures InVendorUnit(x, divisor) / divisor == x
  {
  }

  /** The list form; a missing family is any field without a list. */
  ghost predicate EncodesList(float: FloatReader, show: real -> string, field: Option<Field>, readings: seq<Option<real>>) {
    if field.Some? && field.value.Values? then EncodesReadings(float, show, field.value.items, readings, 1.0)
    else readings == []
  }

  lemma ListReads(float: FloatReader, show: real -> string, sec: Section, key: string, readings: seq<Option<real>>)
    requires EncodesList(float, show, FieldAt(sec, key), readings)
    ensures ReadableLanes(float, ValuesField(Some(sec), key), 1.0) == Numbered(readings)
  {
    if key in sec && sec[key].Values? {
      ReadingsRead(float, show, sec[key].items, readings, 1.0);
    }
  }

  /** The comma form, perhaps with bounds after it; a missing family is a field without text. */
  ghost predicate EncodesComma(float: FloatReader, show: real -> string, field: Option<Field>,
                               readings: seq<Option<real>>, divisor: real) {
    if field.Some? && field.value.Text? then
      exists texts, bounds :: JoinsTo(float, show, texts, bounds, field.value.text, readings, divisor)
    else readings == []
  }

  ghost predicate JoinsTo(float: FloatReader, show: real -> string, texts: seq<string>, bounds: Option<string>, text: string,
                          readings: seq<Option<real>>, divisor: real) {
    && texts != [] && EncodesReadings(float, show, texts, readings, divisor) && Bounded(bounds)
    && (forall t | t in texts :: ',' !in t && '[' !in t && ']' !in t)
    && TrimSpace(text) == TrimSpace(Join(texts, ',') + RangeSuffix(bounds))
  }

  lemma CommaReads(float: FloatReader, show: real -> string, sec: Section, key: string,
                   readings: seq<Option<real>>, divisor: real)
    requires EncodesComma(float, show, FieldAt(sec, key), readings, divisor) && divisor != 0.0
    requires forall t | '[' in t :: float(t).None?
    ensures CommaLanes(float, StringField(Some(sec), key), divisor) == Numbered(readings)
  {
    hide TrimSpace, LastIndex, ReadableLanes, Split, Join;
    TrimTight("");
    if key in sec && sec[key].Text? {
      var texts, bounds :| JoinsTo(float, show, texts, bounds, sec[key].text, readings, divisor);
      CommaLaneRoundTrip(float, texts, bounds, divisor);
      ReadingsRead(float, show, texts, readings, divisor);
    }
  }

  // ----- flags and states -----

  function FlagText(on: bool): string { if on then "1" else "0" }

  function FlagValue(on: bool): real { if on then 1.0 else 0.0 }

  function FlagReading(v: Option<bool>): Option<real> {
    match v case None => None case Some(on) => Some(FlagValue(on))
  }

  /** A flag with any padding; no flag is any text but 0 and 1. */
  predicate EncodesFlag(field: Option<Field>, v: Option<bool>) {
    match v
    case Some(on) => field.Some? && field.value.Text? && TrimSpace(field.value.text) == FlagText(on)
    case None => field.None? || !field.value.Text? || TrimSpace(field.value.text) !in {"0", "1"}
  }

  lemma FlagReads(sec: Section, key: string, v: Option<bool>)
    requires EncodesFlag(FieldAt(sec, key), v)
    ensures ParseFlag(StringField(Some(sec), key)) == FlagReading(v)
  {
    hide TrimSpace;
    TrimTight("");
    assert "0"[0] != "1"[0];
    var text := StringField(Some(sec), key);
    if key in sec && sec[key].Text? {
      var l, r := TrimSplits(sec[key].text);
      TrimTight(text);
    } else {
      assert TrimSpace(text) == "";
    }
  }

  function FlagLaneValues(flags: seq<bool>): seq<LaneValue> {
    seq(|flags|, i requires 0 <= i < |flags| => LaneValue(i, FlagValue(flags[i])))
  }

  predicate EncodesFlags(field: Option<Field>, flags: seq<bool>) {
    if field.Some? && field.value.Values? then
      && |field.value.items| == |flags|
      && forall i | 0 <= i < |flags| :: TrimSpace(field.value.items[i]) == FlagText(flags[i])
    else flags == []
  }

  lemma FlagsRead(sec: Section, key: string, flags: seq<bool>)
    requires EncodesFlags(FieldAt(sec, key), flags)
    ensures FlagLanes(ValuesField(Some(sec), key)) == FlagLaneValues(flags)
  {
    hide TrimSpace;
    assert "0"[0] != "1"[0];
    var values := ValuesField(Some(sec), key);
    forall i | 0 <= i < |values| ensures ParseFlag(values[i]) == Some(FlagValue(flags[i])) {
      assert TrimSpace(values[i]) == FlagText(flags[i]);
    }
  }

  /** A state per lane: the one active state, or any other that is a state at all. */
  predicate EncodesStates(field: Option<Field>, active: seq<bool>) {
    if field.Some? && field.value.Values? then
      && |field.value.items| == |active|
      && forall i | 0 <= i < |active| ::
           && TrimSpace(field.value.items[i]) != "" && TrimSpace(field.value.items[i]) !in NOT_AVAILABLE
           && (active[i] <==> TrimSpace(field.value.items[i]) == "DPActivated")
    else active == []
  }

  lemma StatesRead(sec: Section, key: string, active: seq<bool>)
    requires EncodesStates(FieldAt(sec, key), active)
    ensures StateLanes(ValuesField(Some(sec), key), DATAPATH_ACTIVATED) == FlagLaneValues(active)
  {
    hide TrimSpace;
    var values := ValuesField(Some(sec), key);
    forall i | 0 <= i < |values| ensures HasState(values[i]) {
      NotAvailableExactly(TrimSpace(values[i]));
    }
  }

  // ----- the sections -----

  datatype CounterTable = CounterTable(
    effectivePhysicalErrors: Option<real>,
    linkDown: Option<real>,
    linkErrorRecovery: Option<real>,
    effectiveBER: Option<real>,
    rawBER: Option<real>,
    errorsPerLane: seq<Option<real>>,
    berPerLane: seq<Option<real>>)

  /** A counters section for the table; every field may be missing, padded or unavailable on its own. */
  ghost predicate EncodesCounters(float: FloatReader, show: real -> string, sec: Section, t: CounterTable) {
    && EncodesScalar(float, show, FieldAt(sec, "Effective Physical Errors"), t.effectivePhysicalErrors)
    && EncodesScalar(float, show, FieldAt(sec, "Link Down Counter"), t.linkDown)
    && EncodesScalar(float, show, FieldAt(sec, "Link Error Recovery Counter"), t.linkErrorRecovery)
    && EncodesScalar(float, show, FieldAt(sec, "Effective Physical BER"), t.effectiveBER)
    && EncodesScalar(float, show, FieldAt(sec, "Raw Physical BER"), t.rawBER)
    && EncodesList(float, show, FieldAt(sec, "Raw Physical Errors Per Lane"), t.errorsPerLane)
    && EncodesList(float, show, FieldAt(sec, "Raw Physical BER Per Lane"), t.berPerLane)
  }

  /** Any section written for some counters decodes to exactly those counters. */
  lemma CountersRoundTrip(float: FloatReader, show: real -> string, sec: Section, t: CounterTable)
    requires EncodesCounters(float, show, sec, t)
    ensures CountersOf(float, Some(sec))
         == Counters(t.effectivePhysicalErrors, t.linkDown, t.linkErrorRecovery, t.effectiveBER, t.rawBER,
                     Numbered(t.errorsPerLane), Numbered(t.berPerLane))
  {
    hide EncodesScalar, EncodesList, ScalarField, ReadableLanes, ValuesField, FieldAt;
    ScalarReads(float, show, sec, "Effective Physical Errors", t.effectivePhysicalErrors);
    ScalarReads(float, show, sec, "Link Down Counter", t.linkDown);
    ScalarReads(float, show, sec, "Link Error Recovery Counter", t.linkErrorRecovery);
    ScalarReads(float, show, sec, "Effective Physical BER", t.effectiveBER);
    ScalarReads(float, show, sec, "Raw Physical BER", t.rawBER);
    ListReads(float, show, sec, "Raw Physical Errors Per Lane", t.errorsPerLane);
    ListReads(float, show, sec, "Raw Physical BER Per Lane", t.berPerLane);
  }

  /** Volts and amperes, which the vendor writes in thousandths; flags as truth values. */
  datatype ModuleTable = ModuleTable(
    temperature: Option<real>,
    volts: Option<real>,
    biasAmperes: seq<Option<real>>,
    rxPower: seq<Option<real>>,
    txPower: seq<Option<real>>,
    moduleFault: Option<bool>,
    datapathFault: Option<bool>,
    txFault: seq<bool>,
    txLOS: seq<bool>,
    rxLOS: seq<bool>,
    txCDRLOL: seq<bool>,
    rxCDRLOL: seq<bool>,
    active: seq<bool>,
    info: ModuleInfo)

  ghost predicate EncodesModule(float: FloatReader, show: real -> string, sec: Section, t: ModuleTable) {
    && EncodesScalar(float, show, FieldAt(sec, "Temperature [C]"), t.temperature)
    && EncodesScalar(float, show, FieldAt(sec, "Voltage [mV]"), Scaled(t.volts, 1000.0))
    && EncodesComma(float, show, FieldAt(sec, "Bias Current [mA]"), t.biasAmperes, 1000.0)
    && EncodesComma(float, show, FieldAt(sec, "Rx Power Current [dBm]"), t.rxPower, 1.0)
    && EncodesComma(float, show, FieldAt(sec, "Tx Power Current [dBm]"), t.txPower, 1.0)
    && EncodesFlag(FieldAt(sec, "Module FW Fault"), t.moduleFault)
    && EncodesFlag(FieldAt(sec, "DataPath FW Fault"), t.datapathFault)
    && EncodesFlags(FieldAt(sec, "Tx Fault [per lane]"), t.txFault)
    && EncodesFlags(FieldAt(sec, "Tx LOS [per lane]"), t.txLOS)
    && EncodesFlags(FieldAt(sec, "Rx LOS [per lane]"), t.rxLOS)
    && EncodesFlags(FieldAt(sec, "Tx CDR LOL [per lane]"), t.txCDRLOL)
    && EncodesFlags(FieldAt(sec, "Rx CDR LOL [per lane]"), t.rxCDRLOL)
    && EncodesStates(FieldAt(sec, "DataPath state [per lane]"), t.active)
    && EncodesInventory(sec, t.info)
  }

  /** An attribute with any padding; an empty one may be missing. */
  predicate EncodesText(field: Option<Field>, v: string) {
    if field.Some? && field.value.Text? then TrimSpace(field.value.text) == v else v == ""
  }

  lemma TextReads(sec: Section, key: string, v: string)
    requires EncodesText(FieldAt(sec, key), v)
    ensures StringField(Some(sec), key) == v
  {
  }

  predicate EncodesInventory(sec: Section, i: ModuleInfo) {
    && EncodesText(FieldAt(sec, "Identifier"), i.identifier)
    && EncodesText(FieldAt(sec, "Vendor Name"), i.vendor)
    && EncodesText(FieldAt(sec, "Vendor Part Number"), i.partNumber)
    && EncodesText(FieldAt(sec, "Vendor Serial Number"), i.serialNumber)
    && EncodesText(FieldAt(sec, "Rev"), i.revision)
    && EncodesText(FieldAt(sec, "FW Version"), i.firmwareVersion)
    && EncodesText(FieldAt(sec, "Active Set Host Compliance Code"), i.activeHostCompliance)
    && EncodesText(FieldAt(sec, "Active Set Media Compliance Code"), i.activeMediaCompliance)
    && EncodesText(FieldAt(sec, "Cable Type"), i.cableType)
  }

  lemma InventoryRoundTrip(sec: Section, i: ModuleInfo)
    requires EncodesInventory(sec, i)
    ensures InfoOf(Some(sec)) == i
  {
    hide EncodesText, StringField, FieldAt;
    TextReads(sec, "Identifier", i.identifier);
    TextReads(sec, "Vendor Name", i.vendor);
    TextReads(sec, "Vendor Part Number", i.partNumber);
    TextReads(sec, "Vendor Serial Number", i.serialNumber);
    TextReads(sec, "Rev", i.revision);
    TextReads(sec, "FW Version", i.firmwareVersion);
    TextReads(sec, "Active Set Host Compliance Code", i.activeHostCompliance);
    TextReads(sec, "Active Set Media Compliance Code", i.activeMediaCompliance);
    TextReads(sec, "Cable Type", i.cableType);
  }

  predicate EncodesLink(sec: Section, l: LinkInfo) {
    && EncodesText(FieldAt(sec, "State"), l.state)
    && EncodesText(FieldAt(sec, "Physical state"), l.physicalState)
    && EncodesText(FieldAt(sec, "Speed"), l.speed)
    && EncodesText(FieldAt(sec, "Width"), l.width)
    && EncodesText(FieldAt(sec, "FEC"), l.fec)
    && EncodesText(FieldAt(sec, "Auto Negotiation"), l.autoNegotiation)
  }

  /** Any section written for some link attributes decodes to exactly those. */
  lemma LinkRoundTrip(sec: Section, l: LinkInfo)
    requires EncodesLink(sec, l)
    ensures LinkOf(Some(sec)) == l
  {
    hide EncodesText, StringField, FieldAt;
    TextReads(sec, "State", l.state);
    TextReads(sec, "Physical state", l.physicalState);
    TextReads(sec, "Speed", l.speed);
    TextReads(sec, "Width", l.width);
    TextReads(sec, "FEC", l.fec);
    TextReads(sec, "Auto Negotiation", l.autoNegotiation);
  }

  /** Any section written for some diagnostics and inventory decodes to exactly those, in base units. */
  lemma ModuleRoundTrip(float: FloatReader, show: real -> string, sec: Section, t: ModuleTable)
    requires EncodesModule(float, show, sec, t) && forall text | '[' in text :: float(text).None?
    ensures ModuleOf(float, Some(sec))
         == ModuleData(t.temperature, t.volts,
                       Numbered(t.biasAmperes), Numbered(t.rxPower), Numbered(t.txPower),
                       FlagReading(t.moduleFault), FlagReading(t.datapathFault),
                       FlagLaneValues(t.txFault), FlagLaneValues(t.txLOS), FlagLaneValues(t.rxLOS),
                       FlagLaneValues(t.txCDRLOL), FlagLaneValues(t.rxCDRLOL), FlagLaneValues(t.active),
                       t.info)
  {
    hide EncodesInventory, EncodesScalar, EncodesComma, EncodesFlag, EncodesFlags, EncodesStates, ScalarField, CommaLanes, ParseFlag, FlagLanes,
      StateLanes, ValuesField, StringField, FieldAt, InfoOf;
    ScalarReads(float, show, sec, "Temperature [C]", t.temperature);
    ScalarReads(float, show, sec, "Voltage [mV]", Scaled(t.volts, 1000.0));
    UnscaledReading(t.volts, 1000.0);
    CommaReads(float, show, sec, "Bias Current [mA]", t.biasAmperes, 1000.0);
    CommaReads(float, show, sec, "Rx Power Current [dBm]", t.rxPower, 1.0);
    CommaReads(float, show, sec, "Tx Power Current [dBm]", t.txPower, 1.0);
    FlagReads(sec, "Module FW Fault", t.moduleFault);
    FlagReads(sec, "DataPath FW Fault", t.datapathFault);
    FlagsRead(sec, "Tx Fault [per lane]", t.txFault);
    FlagsRead(sec, "Tx LOS [per lane]", t.txLOS);
    FlagsRead(sec, "Rx LOS [per lane]", t.rxLOS);
    FlagsRead(sec, "Tx CDR LOL [per lane]", t.txCDRLOL);
    FlagsRead(sec, "Rx CDR LOL [per lane]", t.rxCDRLOL);
    StatesRead(sec, "DataPath state [per lane]", t.active);
    InventoryRoundTrip(sec, t.info);
  }

  // ----- the Eye sections -----

  /** Any Eye section written for some lanes and scores decodes to exactly their listing, family by family. */
  lemma EyeRoundTrip(float: FloatReader, show: real -> string, sec: Section, lanes: seq<nat>,
                     scores: seq<seq<Option<real>>>, e: Eye)
    requires lanes != []
    requires EyeLanes.EncodesScores(float, show, sec,
               ["Initial FOM", "Last FOM", "Upper Grades", "Mid Grades", "Lower Grades"], lanes, scores)
    requires EyeLanes.ListsFamily(lanes, scores, 0, e.initialFOM) && EyeLanes.ListsFamily(lanes, scores, 1, e.lastFOM)
    requires EyeLanes.ListsFamily(lanes, scores, 2, e.upperGrade) && EyeLanes.ListsFamily(lanes, scores, 3, e.midGrade)
    requires EyeLanes.ListsFamily(lanes, scores, 4, e.lowerGrade)
    ensures EyeFrom(OpeningOf(float, Some(sec), EYE_FIELDS)) == e
  {
    hide EyeLanes.ListsFamily, EyeLanes.EncodesScores, OpeningOf;
    var r := [e.initialFOM, e.lastFOM, e.upperGrade, e.midGrade, e.lowerGrade];
    EyeLanes.ScoresRoundTrip(float, show, sec, EYE_FIELDS, lanes, scores, Some(r));
    OpeningHolds(float, Some(sec), EYE_FIELDS, Some(r));
  }

  lemma PCIeEyeRoundTrip(float: FloatReader, show: real -> string, sec: Section, lanes: seq<nat>,
                         scores: seq<seq<Option<real>>>, e: PCIeEye)
    requires lanes != [] && EyeLanes.EncodesScores(float, show, sec, ["Initial FOM", "Last FOM"], lanes, scores)
    requires EyeLanes.ListsFamily(lanes, scores, 0, e.initialFOM) && EyeLanes.ListsFamily(lanes, scores, 1, e.lastFOM)
    ensures PCIeEyeFrom(OpeningOf(float, Some(sec), PCIE_EYE_FIELDS)) == e
  {
    hide EyeLanes.ListsFamily, EyeLanes.EncodesScores, OpeningOf;
    var r := [e.initialFOM, e.lastFOM];
    EyeLanes.ScoresRoundTrip(float, show, sec, PCIE_EYE_FIELDS, lanes, scores, Some(r));
    OpeningHolds(float, Some(sec), PCIE_EYE_FIELDS, Some(r));
  }

  // ----- one section cannot cost another -----

  /** A response without a section decodes as with it, less that section's data. */
  lemma MissingSectionsIsolated(float: FloatReader, output: map<string, RawSection>)
    ensures PortDataOf(float, output - {SECTION_OPERATIONAL}) == PortDataOf(float, output).(link := NO_LINK)
    ensures PortDataOf(float, output - {SECTION_COUNTERS}) == PortDataOf(float, output).(counters := NO_COUNTERS)
    ensures PortDataOf(float, output - {SECTION_MODULE}) == PortDataOf(float, output).(moduleData := NO_MODULE)
    ensures PortDataOf(float, output - {SECTION_FEC}) == PortDataOf(float, output).(fecHistogram := [])
    ensures PortDataOf(float, output - {SECTION_SERDES}) == PortDataOf(float, output).(serDesTX := NO_SERDES)
    ensures PortDataOf(float, output - {SECTION_EYE}) == PortDataOf(float, output).(eye := NO_EYE)
  {
    hide LinkOf, CountersOf, ModuleOf, FECHistogram.HistogramOf, TuningOf, OpeningOf, EyeFrom, SectionOf;
    NothingDecodes(float);
    OtherSectionsKept(output, SECTION_OPERATIONAL);
    OtherSectionsKept(output, SECTION_COUNTERS);
    OtherSectionsKept(output, SECTION_MODULE);
    OtherSectionsKept(output, SECTION_FEC);
    OtherSectionsKept(output, SECTION_SERDES);
    OtherSectionsKept(output, SECTION_EYE);
  }

  lemma OtherSectionsKept(output: map<string, RawSection>, name: string)
    ensures SectionOf(output - {name}, name) == None
    ensures forall other :: other != name ==> SectionOf(output - {name}, other) == SectionOf(output, other)
    ensures SECTION_OPERATIONAL[0] == 'O' && SECTION_COUNTERS[0] == 'P' && SECTION_MODULE[0] == 'M'
    ensures SECTION_FEC[0] == 'H' && SECTION_SERDES[0] == 'S' && SECTION_EYE[0] == 'E'
  {
  }

  lemma NothingDecodes(float: FloatReader)
    ensures LinkOf(None) == NO_LINK && CountersOf(float, None) == NO_COUNTERS && ModuleOf(float, None) == NO_MODULE
    ensures FECHistogram.HistogramOf(None) == [] && TuningOf(float, None) == NO_SERDES
    ensures EyeFrom(OpeningOf(float, None, EYE_FIELDS)) == NO_EYE
  {
  }
}
