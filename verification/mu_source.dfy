/**
 * The upstream event (StMuDst together with its StMuEvent, primary vertex, TOF header,
 * run info and trigger detectors) as the builder sees it: an immutable record of the
 * values its getters return. Getters that take a side, a plane or a channel become
 * functions; objects the builder tests for presence become options.
 */
module MuSource {
  import opened CxxInt

  datatype Option<T> = None | Some(value: T)

  /** The beam direction argument of the detector getters. */
  datatype Side = East | West

  /** The two readings of a VPD channel: VPD.ADC and VPD.TDC. */
  datatype VpdKind = Adc | Tdc

  /** The plane argument of zdcSmd: 0 is vertical, 1 is horizontal. */
  datatype SmdPlane = Vertical | Horizontal

  /** The charge argument of the reference-multiplicity utilities: 0 is negative, 1 positive. */
  datatype Charge = Negative | Positive

  /** A point or per-axis error in the detector frame. */
  datatype Vec3 = Vec3(x: real, y: real, z: real)

  /** StMuPrimaryVertex: the quality fields of the selected vertex. */
  datatype PrimaryVertex = PrimaryVertex(ranking: real, nBEMCMatch: int, nBTOFMatch: int)

  /** StBTofHeader. `vpdVzScaled` is the VPD vertex z multiplied by 100 and
      `vpdVzRounded` is TMath::Nint of that product. */
  datatype BTofHeader = BTofHeader(
    nVpdHitsEast: int,
    nVpdHitsWest: int,
    nTzero: int,
    vpdVzScaled: real,
    vpdVzRounded: int
  )

  /** StRunInfo: fill number and the run-level rates, copied through as opaque reals. */
  datatype RunInfo = RunInfo(
    beamFillNumber: int,
    zdcCoincidenceRate: real,
    bbcCoincidenceRate: real,
    backgroundRate: real,
    bbcBlueBackgroundRate: real,
    bbcYellowBackgroundRate: real,
    bbcEastRate: real,
    bbcWestRate: real,
    zdcEastRate: real,
    zdcWestRate: real,
    spaceCharge: real
  )

  datatype MuDst = MuDst(
    runNumber: int,
    eventNumber: int,
    magneticField: real,
    primaryVertexPosition: Vec3,
    primaryVertexErrors: Vec3,
    /** muDst.primaryVertex(), null when no vertex object exists */
    primaryVertex: Option<PrimaryVertex>,
    /** triggerIdCollection().nominal().triggerIds() */
    triggerIds: seq<UInt32>,
    refMultFtpcEast: int,
    refMultFtpcWest: int,
    refMultNeg: int,
    refMultPos: int,
    /** StPicoUtilities::refMult2 and refMultHalf, external estimators */
    refMult2: (Charge, Side) -> int,
    refMultHalf: (Charge, Side) -> int,
    grefmult: int,
    numberOfGlobalTracks: int,
    btofTrayMultiplicity: int,
    numberOfPxlInnerHits: int,
    numberOfPxlOuterHits: int,
    numberOfIstHits: int,
    numberOfSsdHits: int,
    /** muDst.btofHeader(), null when there is no TOF header */
    btofHeader: Option<BTofHeader>,
    zdcAdcSum: Side -> int,
    /** ZDC.zdcSmd(side, plane, strip) for strips 1..8 */
    zdcSmd: (Side, SmdPlane, int) -> int,
    /** VPD.ADC(side, channel) and VPD.TDC(side, channel) */
    vpd: (Side, VpdKind, int) -> int,
    runInfo: RunInfo,
    /** bbc.adc(i) for i below bbc.numberOfPMTs() */
    bbcAdc: seq<int>
  )
}
