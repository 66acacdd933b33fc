/**
 * The flat StPicoEvent record, its default-constructed value and the three accessors
 * computed from it: year(), day() and isTrigger().
 */
module PicoRecord {
  import opened CxxInt
  import opened MuSource

  const VpdSlotCount: nat := 64
  const SmdStripCount: nat := 8
  const BbcPmtsPerSide: nat := 24
  const HftLayerCount: nat := 4

  /** The vertex position of the default record and of a degenerate vertex. */
  const SentinelVertex: Vec3 := Vec3(-999.0, -999.0, -999.0)

  /** An all-zero array of n slots, as a value-initialised C array. */
  function Zeros(n: nat): (z: seq<int>)
    ensures |z| == n
    ensures forall k :: 0 <= k < n ==> z[k] == 0
  {
    seq(n, _ => 0)
  }

  /** The reference multiplicities, each narrowed to UShort_t. */
  datatype RefMults = RefMults(
    ftpcEast: int, ftpcWest: int, neg: int, pos: int,
    mult2NegEast: int, mult2PosEast: int, mult2NegWest: int, mult2PosWest: int,
    halfNegEast: int, halfPosEast: int, halfNegWest: int, halfPosWest: int
  )

  /** The run-level rates and space charge. */
  datatype RunRates = RunRates(
    zdcX: real, bbcX: real,
    backgroundRate: real, bbcBlueBackgroundRate: real, bbcYellowBackgroundRate: real,
    bbcEastRate: real, bbcWestRate: real, zdcEastRate: real, zdcWestRate: real,
    spaceCharge: real
  )

  /** The four 8-strip ZDC shower-maximum arrays. */
  datatype ZdcSmdArrays = ZdcSmdArrays(
    eastVertical: seq<int>, eastHorizontal: seq<int>,
    westVertical: seq<int>, westHorizontal: seq<int>
  ) {
    /** The array holding the strips of one side and plane. */
    function Plane(side: Side, plane: SmdPlane): seq<int>
    {
      match (side, plane)
      case (East, Vertical) => eastVertical
      case (East, Horizontal) => eastHorizontal
      case (West, Vertical) => westVertical
      case (West, Horizontal) => westHorizontal
    }

    predicate Sized()
    {
      && |eastVertical| == SmdStripCount && |eastHorizontal| == SmdStripCount
      && |westVertical| == SmdStripCount && |westHorizontal| == SmdStripCount
    }
  }

  /** The BBC photomultiplier ADCs, 24 per side. */
  datatype BbcAdc = BbcAdc(east: seq<int>, west: seq<int>) {
    predicate Sized()
    {
      |east| == BbcPmtsPerSide && |west| == BbcPmtsPerSide
    }
  }

  datatype PicoEvent = PicoEvent(
    runId: int,
    eventId: int,
    fillId: int,
    bField: real,
    primaryVertex: Vec3,
    primaryVertexError: Vec3,
    ranking: real,
    nBEMCMatch: int,
    nBTOFMatch: int,
    triggerIds: seq<UInt32>,
    refMult: RefMults,
    gRefMult: int,
    numberOfGlobalTracks: int,
    bTofTrayMultiplicity: int,
    nHitsHFT: seq<int>,
    nVpdHitsEast: int,
    nVpdHitsWest: int,
    nT0: int,
    vzVpd: int,
    rates: RunRates,
    vpd: seq<int>,
    zdcSumAdcEast: int,
    zdcSumAdcWest: int,
    zdcSmd: ZdcSmdArrays,
    bbcAdc: BbcAdc
  ) {

    /** year(): the leading digits of the run number count years since 1999. */
    function Year(): int
    {
      Quot(runId, 1000000) - 1 + 2000
    }

    /** day(): digits three to five of the run number from the right. */
    function Day(): int
    {
      Quot(Rem(runId, 1000000), 1000)
    }

    /** isTrigger(id): the argument is converted to unsigned int, and std::find over the
        stored trigger ids reaches an element. */
    predicate IsTrigger(id: int)
    {
      Find(triggerIds, UInt(id)) < |triggerIds|
    }
  }

  /** std::find: the index of the first occurrence of `id`, or |s| (the end) when absent. */
  function Find(s: seq<int>, id: int): (k: nat)
    ensures k <= |s|
    ensures k < |s| ==> s[k] == id
    ensures forall j :: 0 <= j < k ==> s[j] != id
  {
    if |s| == 0 then 0
    else if s[0] == id then 0
    else 1 + Find(s[1..], id)
  }

  /** The scalar fields the builder narrows to UShort_t. */
  function UShortCounters(e: PicoEvent): seq<int>
  {
    var m := e.refMult;
    [m.ftpcEast, m.ftpcWest, m.neg, m.pos,
     m.mult2NegEast, m.mult2PosEast, m.mult2NegWest, m.mult2PosWest,
     m.halfNegEast, m.halfPosEast, m.halfNegWest, m.halfPosWest,
     e.gRefMult, e.nT0, e.zdcSumAdcEast, e.zdcSumAdcWest]
  }

  /** Every element of an array holds a UShort_t value. */
  predicate AllUShort(a: seq<int>)
  {
    forall k :: 0 <= k < |a| ==> 0 <= a[k] < 65536
  }

  /** Every scalar field narrowed to UShort_t, UChar_t or Short_t holds a value of that width. */
  predicate ScalarsFit(e: PicoEvent)
  {
    && AllUShort(UShortCounters(e))
    && 0 <= e.nVpdHitsEast < 256
    && 0 <= e.nVpdHitsWest < 256
    && ShortMin <= e.vzVpd <= ShortMax
  }

  /** Every fixed-size array has its declared length, and the narrowed ones hold UShort_t
      values. */
  predicate ArraysFit(e: PicoEvent)
  {
    && |e.nHitsHFT| == HftLayerCount && AllUShort(e.nHitsHFT)
    && |e.vpd| == VpdSlotCount && AllUShort(e.vpd)
    && e.zdcSmd.Sized()
    && AllUShort(e.zdcSmd.eastVertical) && AllUShort(e.zdcSmd.eastHorizontal)
    && AllUShort(e.zdcSmd.westVertical) && AllUShort(e.zdcSmd.westHorizontal)
    && e.bbcAdc.Sized()
  }

  /** The record invariant: every narrowed field fits its C++ width and every array has its
      declared length. */
  predicate WellFormed(e: PicoEvent)
  {
    ScalarsFit(e) && ArraysFit(e)
  }

  /** StPicoEvent(): every counter zero, every array zeroed, the vertex position and error at
      the -999 sentinel, ranking -999, no trigger ids, and mVzVpd at the largest short as the
      "no VPD vertex" marker. */
  function Default(): (e: PicoEvent)
    ensures WellFormed(e)
    ensures e.primaryVertex == SentinelVertex && e.primaryVertexError == SentinelVertex
    ensures e.ranking == -999.0 && e.nBEMCMatch == 0 && e.nBTOFMatch == 0
    ensures e.vzVpd == ShortMax && e.nVpdHitsEast == 0 && e.nVpdHitsWest == 0 && e.nT0 == 0
    ensures e.triggerIds == []
    ensures forall k :: 0 <= k < |e.vpd| ==> e.vpd[k] == 0
    ensures forall side, plane, k :: 0 <= k < |e.zdcSmd.Plane(side, plane)| ==>
              e.zdcSmd.Plane(side, plane)[k] == 0
    ensures forall k :: 0 <= k < BbcPmtsPerSide ==> e.bbcAdc.east[k] == 0 && e.bbcAdc.west[k] == 0
    ensures forall k :: 0 <= k < |e.nHitsHFT| ==> e.nHitsHFT[k] == 0
  {
    PicoEvent(
      runId := 0, eventId := 0, fillId := 0, bField := 0.0,
      primaryVertex := SentinelVertex,
      primaryVertexError := SentinelVertex,
      ranking := -999.0, nBEMCMatch := 0, nBTOFMatch := 0,
      triggerIds := [],
      refMult := RefMults(0, 0, 0, 0, 0, 0, 0, 0, 0, 0, 0, 0),
      gRefMult := 0, numberOfGlobalTracks := 0, bTofTrayMultiplicity := 0,
      nHitsHFT := Zeros(HftLayerCount),
      nVpdHitsEast := 0, nVpdHitsWest := 0, nT0 := 0,
      vzVpd := ShortMax,
      rates := RunRates(0.0, 0.0, 0.0, 0.0, 0.0, 0.0, 0.0, 0.0, 0.0, 0.0),
      vpd := Zeros(VpdSlotCount),
      zdcSumAdcEast := 0, zdcSumAdcWest := 0,
      zdcSmd := ZdcSmdArrays(Zeros(SmdStripCount), Zeros(SmdStripCount),
                             Zeros(SmdStripCount), Zeros(SmdStripCount)),
      bbcAdc := BbcAdc(Zeros(BbcPmtsPerSide), Zeros(BbcPmtsPerSide))
    )
  }

  /** isTrigger(id) holds exactly when id, as an unsigned int, is one of the stored trigger
      ids; an id already in the unsigned range is looked up as it is, and nothing is found
      in an empty list. */
  lemma IsTriggerIffMember(e: PicoEvent, id: int)
    ensures e.IsTrigger(id) <==> UInt(id) in e.triggerIds
    ensures 0 <= id < UIntModulus ==> (e.IsTrigger(id) <==> id in e.triggerIds)
    ensures e.triggerIds == [] ==> !e.IsTrigger(id)
  {
    var u := UInt(id);
    var k := Find(e.triggerIds, u);
    if u in e.triggerIds {
      var j :| 0 <= j < |e.triggerIds| && e.triggerIds[j] == u;
      assert k <= j;
    }
  }

  /** Arguments that agree modulo 2^32 are the same unsigned int: isTrigger(-1) looks up
      4294967295. */
  lemma IsTriggerWraps(e: PicoEvent, id: int)
    ensures e.IsTrigger(id) <==> e.IsTrigger(id + UIntModulus)
    ensures e.IsTrigger(-1) <==> UIntModulus - 1 in e.triggerIds
  {
    IsTriggerIffMember(e, id);
    IsTriggerIffMember(e, id + UIntModulus);
    IsTriggerIffMember(e, -1);
  }

  /** The run number a run-numbering scheme assigns to run `serial` on day `day` of `year`. */
  function RunNumber(year: int, day: int, serial: int): int
  {
    (year - 1999) * 1000000 + day * 1000 + serial
  }

  /** year() and day() decode the run-numbering scheme: they recover the year and day that
      the run number was formed from. */
  lemma YearDayDecode(e: PicoEvent, year: int, day: int, serial: int)
    requires year >= 1999 && 0 <= day < 1000 && 0 <= serial < 1000
    requires e.runId == RunNumber(year, day, serial)
    ensures e.Year() == year
    ensures e.Day() == day
  {
    var r := e.runId;
    var low := day * 1000 + serial;
    assert 0 <= low < 1000000;
    assert r == (year - 1999) * 1000000 + low;
    EuclideanUnique(r, 1000000, year - 1999);
    QuotRemOfNatural(r, 1000000);
    assert Rem(r, 1000000) == low;
    EuclideanUnique(low, 1000, day);
    QuotRemOfNatural(low, 1000);
  }

  /** Conversely every nonnegative run number is the encoding of its year(), its day() and
      its last three digits. */
  lemma YearDayEncode(e: PicoEvent)
    requires e.runId >= 0
    ensures e.Year() >= 1999
    ensures 0 <= e.Day() < 1000
    ensures e.runId == RunNumber(e.Year(), e.Day(), e.runId % 1000)
  {
    var r := e.runId;
    QuotRemOfNatural(r, 1000000);
    var low := r % 1000000;
    QuotRemOfNatural(low, 1000);
    assert r == (r / 1000000) * 1000000 + low;
    assert low == (low / 1000) * 1000 + low % 1000;
    assert low % 1000 == r % 1000 by {
      assert r == (r / 1000000 * 1000) * 1000 + low;
      EuclideanUnique(r, 1000, r / 1000000 * 1000 + low / 1000);
    }
  }

  /** For a nonnegative run number, year() is runId/1000000 - 1 + 2000 and day() is
      (runId%1000000)/1000 with the usual nonnegative division. */
  lemma YearDayOfNatural(e: PicoEvent)
    requires e.runId >= 0
    ensures e.Year() == e.runId / 1000000 - 1 + 2000
    ensures e.Day() == (e.runId % 1000000) / 1000
  {
    QuotRemOfNatural(e.runId, 1000000);
    QuotRemOfNatural(e.runId % 1000000, 1000);
  }

  /** day() never leaves -999..999; for the nonnegative run numbers the experiment issues it
      lies in 0..999. */
  lemma DayRange(e: PicoEvent)
    ensures -999 <= e.Day() <= 999
    ensures e.runId >= 0 ==> 0 <= e.Day() <= 999
  {
    var low := Rem(e.runId, 1000000);
    if low < 0 {
      assert Quot(low, 1000) == -((-low) / 1000);
    }
  }

  /** Example: run 20123456 was taken on day 123 of 2019. */
  lemma YearDayExample(e: PicoEvent)
    requires e.runId == 20123456
    ensures e.Year() == 2019 && e.Day() == 123
  {
    YearDayDecode(e, 2019, 123, 456);
  }

  /** A negative run number is decoded with truncating division, as C++ does: run -1 gives
      year 1999 and day 0, where Euclidean division would give 1998 and 999. */
  lemma NegativeRunNumber(e: PicoEvent)
    requires e.runId == -1
    ensures e.Year() == 1999 && e.Day() == 0
    ensures (e.runId / 1000000) - 1 + 2000 == 1998 && (e.runId % 1000000) / 1000 == 999
  {
  }
}
