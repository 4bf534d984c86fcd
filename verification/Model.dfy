/** The values that travel from mlxlink output to exported series (model.go). */
module Model {
  import opened Wrappers

  /** Nanoseconds on the poller's clock; durations are differences of these. */
  type Time = int

  type Bytes = seq<bv8>

  datatype ErrorReason =
    | Timeout
    | CommandNotFound
    | PermissionDenied
    | ExitError
    | InvalidJSON
    | OutputTooLarge
    | Unknown

  datatype Target = Target(device: string, port: string, pciAddr: string, netDev: string)

  datatype LaneValue = LaneValue(lane: nat, value: real)

  datatype FECBin = FECBin(bin: nat, errorCountMin: nat, errorCountMax: nat, occurrences: nat)

  datatype FIRCoefficient = FIRCoefficient(lane: nat, tap: string, value: real)

  datatype SerDesTX = SerDesTX(firCoefficients: seq<FIRCoefficient>, driveAmplitude: seq<LaneValue>)

  datatype Eye = Eye(
    initialFOM: seq<LaneValue>,
    lastFOM: seq<LaneValue>,
    upperGrade: seq<LaneValue>,
    midGrade: seq<LaneValue>,
    lowerGrade: seq<LaneValue>)

  datatype PCIeEye = PCIeEye(initialFOM: seq<LaneValue>, lastFOM: seq<LaneValue>)

  datatype LinkInfo = LinkInfo(
    state: string, physicalState: string, speed: string,
    width: string, fec: string, autoNegotiation: string)

  datatype Counters = Counters(
    effectivePhysicalErrors: Option<real>,
    linkDown: Option<real>,
    linkErrorRecovery: Option<real>,
    effectiveBER: Option<real>,
    rawBER: Option<real>,
    rawPhysicalErrorsLane: seq<LaneValue>,
    rawBERLane: seq<LaneValue>)

  datatype ModuleInfo = ModuleInfo(
    identifier: string, vendor: string, partNumber: string, serialNumber: string, revision: string,
    firmwareVersion: string, activeHostCompliance: string, activeMediaCompliance: string, cableType: string)

  datatype ModuleData = ModuleData(
    temperatureCelsius: Option<real>,
    voltageVolts: Option<real>,
    biasCurrentAmperes: seq<LaneValue>,
    rxPowerDBm: seq<LaneValue>,
    txPowerDBm: seq<LaneValue>,
    moduleFWFault: Option<real>,
    datapathFWFault: Option<real>,
    txFault: seq<LaneValue>,
    txLOS: seq<LaneValue>,
    rxLOS: seq<LaneValue>,
    txCDRLOL: seq<LaneValue>,
    rxCDRLOL: seq<LaneValue>,
    datapathActive: seq<LaneValue>,
    info: ModuleInfo)

  datatype PortData = PortData(
    link: LinkInfo,
    counters: Counters,
    moduleData: ModuleData,
    fecHistogram: seq<FECBin>,
    serDesTX: SerDesTX,
    eye: Eye)

  const NO_EYE := Eye([], [], [], [], [])
  const NO_PCIE_EYE := PCIeEye([], [])
  const NO_SERDES := SerDesTX([], [])
  const NO_LINK := LinkInfo("", "", "", "", "", "")
  const NO_COUNTERS := Counters(None, None, None, None, None, [], [])
  const NO_INFO := ModuleInfo("", "", "", "", "", "", "", "", "")
  const NO_MODULE := ModuleData(None, None, [], [], [], None, None, [], [], [], [], [], [], NO_INFO)
  const NO_DATA := PortData(NO_LINK, NO_COUNTERS, NO_MODULE, [], NO_SERDES, NO_EYE)

  // ----- what the decoders promise about lane and bin numbering -----

  predicate LaneLess(a: LaneValue, b: LaneValue) { a.lane < b.lane }

  /** Lane numbers strictly increase, so no lane appears twice. */
  predicate LanesIncreasing(lanes: seq<LaneValue>) {
    forall i, j | 0 <= i < j < |lanes| :: lanes[i].lane < lanes[j].lane
  }
}
