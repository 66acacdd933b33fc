/**
 * StPicoEvent(const StMuDst&): one pass over the upstream event that starts from the
 * default record and overwrites it field by field.
 */
module PicoBuilder {
  import opened CxxInt
  import opened MuSource
  import opened PicoRecord
  import opened PicoChannels

  /** The error stored with a degenerate vertex. */
  const ZeroVector: Vec3 := Vec3(0.0, 0.0, 0.0)

  /** The upstream marks "no reconstructed vertex" by three equal coordinates. */
  predicate IsDegenerate(v: Vec3)
  {
    v.x == v.y && v.y == v.z
  }

  /** The mVzVpd assignment for a present TOF header. `scaled` is the VPD vertex z times 100
      and `rounded` its TMath::Nint. A magnitude of `scaled` beyond `shortMax`
      (Pico::SHORTMAX) stores +shortMax whatever the sign; otherwise the rounded value
      passes through UShort_t into the short field. */
  function VzVpd(scaled: real, rounded: int, shortMax: int): (v: int)
    ensures ShortMin <= v <= ShortMax
    ensures FAbs(scaled) > shortMax as real && ShortMin <= shortMax <= ShortMax ==> v == shortMax
    ensures FAbs(scaled) <= shortMax as real ==> v == Short(rounded)
    ensures FAbs(scaled) <= shortMax as real && shortMax <= ShortMax && IsNearest(rounded, scaled) ==>
              v == rounded
  {
    ShortOfUShort(rounded);
    NearestFitsShort(scaled, rounded, shortMax);
    Short(if FAbs(scaled) > shortMax as real then shortMax else UShort(rounded))
  }

  /** The nearest integer to a value of magnitude at most shortMax has magnitude at most
      shortMax, so it is a short. */
  lemma NearestFitsShort(scaled: real, rounded: int, shortMax: int)
    ensures IsNearest(rounded, scaled) && FAbs(scaled) <= shortMax as real ==>
              -shortMax <= rounded <= shortMax
  {
    if IsNearest(rounded, scaled) && FAbs(scaled) <= shortMax as real {
      assert (rounded as real) < (shortMax + 1) as real;
      assert (rounded as real) > (-shortMax - 1) as real;
    }
  }

  /** With Pico::SHORTMAX at the largest short: 400 cm scales to 40000 and stores 32767, as
      does -400 cm; -5 cm is stored as -500 although it passes through UShort_t. A vertex at
      -327.673 cm stores +32767: its magnitude exceeds SHORTMAX before rounding, although its
      rounded value -32767 would fit. */
  lemma VzVpdExamples()
    ensures VzVpd(40000.0, 40000, ShortMax) == ShortMax
    ensures VzVpd(-40000.0, -40000, ShortMax) == ShortMax
    ensures VzVpd(-500.0, -500, ShortMax) == -500
    ensures VzVpd(-32767.3, -32767, ShortMax) == ShortMax && Short(-32767) == -32767
  {
  }

  /** The run-level block copied from the run info. */
  function Rates(info: RunInfo): RunRates
  {
    RunRates(
      zdcX := info.zdcCoincidenceRate, bbcX := info.bbcCoincidenceRate,
      backgroundRate := info.backgroundRate,
      bbcBlueBackgroundRate := info.bbcBlueBackgroundRate,
      bbcYellowBackgroundRate := info.bbcYellowBackgroundRate,
      bbcEastRate := info.bbcEastRate, bbcWestRate := info.bbcWestRate,
      zdcEastRate := info.zdcEastRate, zdcWestRate := info.zdcWestRate,
      spaceCharge := info.spaceCharge)
  }

  /** The upstream values the builder narrows to UShort_t, in the order of UShortCounters. */
  function SourceCounters(src: MuDst): seq<int>
  {
    [src.refMultFtpcEast, src.refMultFtpcWest, src.refMultNeg, src.refMultPos,
     src.refMult2(Negative, East), src.refMult2(Positive, East),
     src.refMult2(Negative, West), src.refMult2(Positive, West),
     src.refMultHalf(Negative, East), src.refMultHalf(Positive, East),
     src.refMultHalf(Negative, West), src.refMultHalf(Positive, West),
     src.grefmult,
     if src.btofHeader.Some? then src.btofHeader.value.nTzero else 0,
     src.zdcAdcSum(East), src.zdcAdcSum(West)]
  }

  /** StPicoEvent(const StMuDst&), with Pico::SHORTMAX as `shortMax`. */
  function Build(src: MuDst, shortMax: int): (e: PicoEvent)
    ensures e.triggerIds == src.triggerIds
    ensures e.runId == src.runNumber && e.eventId == src.eventNumber
  {
    // Fields the constructor leaves untouched keep the value of the default record `d`.
    var d := Default();
    var degenerate := IsDegenerate(src.primaryVertexPosition);
    var pv := src.primaryVertex;
    var tof := src.btofHeader;
    PicoEvent(
      runId := src.runNumber,
      eventId := src.eventNumber,
      fillId := src.runInfo.beamFillNumber,
      bField := src.magneticField,
      primaryVertex := if degenerate then SentinelVertex else src.primaryVertexPosition,
      primaryVertexError := if degenerate then ZeroVector else src.primaryVertexErrors,
      ranking := if pv.Some? then pv.value.ranking else d.ranking,
      nBEMCMatch := if pv.Some? then pv.value.nBEMCMatch else d.nBEMCMatch,
      nBTOFMatch := if pv.Some? then pv.value.nBTOFMatch else d.nBTOFMatch,
      triggerIds := src.triggerIds,
      refMult := RefMults(
        UShort(src.refMultFtpcEast), UShort(src.refMultFtpcWest),
        UShort(src.refMultNeg), UShort(src.refMultPos),
        UShort(src.refMult2(Negative, East)), UShort(src.refMult2(Positive, East)),
        UShort(src.refMult2(Negative, West)), UShort(src.refMult2(Positive, West)),
        UShort(src.refMultHalf(Negative, East)), UShort(src.refMultHalf(Positive, East)),
        UShort(src.refMultHalf(Negative, West)), UShort(src.refMultHalf(Positive, West))),
      gRefMult := UShort(src.grefmult),
      numberOfGlobalTracks := src.numberOfGlobalTracks,
      bTofTrayMultiplicity := src.btofTrayMultiplicity,
      nHitsHFT := [UShort(src.numberOfPxlInnerHits), UShort(src.numberOfPxlOuterHits),
                   UShort(src.numberOfIstHits), UShort(src.numberOfSsdHits)],
      nVpdHitsEast := if tof.Some? then UChar(tof.value.nVpdHitsEast) else d.nVpdHitsEast,
      nVpdHitsWest := if tof.Some? then UChar(tof.value.nVpdHitsWest) else d.nVpdHitsWest,
      nT0 := if tof.Some? then UShort(tof.value.nTzero) else d.nT0,
      vzVpd := if tof.Some? then VzVpd(tof.value.vpdVzScaled, tof.value.vpdVzRounded, shortMax) else d.vzVpd,
      rates := Rates(src.runInfo),
      vpd := VpdLoop(src.vpd, 16),
      zdcSumAdcEast := UShort(src.zdcAdcSum(East)),
      zdcSumAdcWest := UShort(src.zdcAdcSum(West)),
      zdcSmd := SmdLoop(src.zdcSmd, SmdStripCount),
      bbcAdc := BbcLoop(src.bbcAdc, |src.bbcAdc|))
  }

  /** The scalar fields of the built record fit their C++ widths. */
  lemma BuildScalarsFit(src: MuDst, shortMax: int)
    ensures ScalarsFit(Build(src, shortMax))
  {
  }

  /** The arrays of the built record have their declared lengths and hold UShort_t values. */
  lemma BuildArraysFit(src: MuDst, shortMax: int)
    ensures ArraysFit(Build(src, shortMax))
  {
    var e := Build(src, shortMax);
    assert AllUShort(e.vpd) by {
      VpdLoopFits(src.vpd);
    }
    SmdLoopFits(src.zdcSmd);
  }

  /** Building preserves the record invariant the default record starts from. */
  lemma BuildWellFormed(src: MuDst, shortMax: int)
    ensures WellFormed(Default())
    ensures WellFormed(Build(src, shortMax))
  {
    BuildScalarsFit(src, shortMax);
    BuildArraysFit(src, shortMax);
  }

  /** The degenerate-vertex rule: three equal coordinates store the -999 sentinel with a zero
      error; anything else is stored unchanged. The sentinel is stored exactly when the
      source vertex is degenerate. */
  lemma BuildVertexRule(src: MuDst, shortMax: int)
    ensures IsDegenerate(src.primaryVertexPosition) ==>
              Build(src, shortMax).primaryVertex == SentinelVertex &&
              Build(src, shortMax).primaryVertexError == ZeroVector
    ensures !IsDegenerate(src.primaryVertexPosition) ==>
              Build(src, shortMax).primaryVertex == src.primaryVertexPosition &&
              Build(src, shortMax).primaryVertexError == src.primaryVertexErrors
    ensures Build(src, shortMax).primaryVertex == SentinelVertex <==> IsDegenerate(src.primaryVertexPosition)
  {
  }

  /** Ranking and the BEMC/BTOF match counts come from the primary-vertex object when there is
      one and otherwise keep their defaults -999, 0 and 0. */
  lemma BuildPrimaryVertexGuard(src: MuDst, shortMax: int)
    ensures src.primaryVertex.Some? ==>
              var pv := src.primaryVertex.value;
              Build(src, shortMax).ranking == pv.ranking &&
              Build(src, shortMax).nBEMCMatch == pv.nBEMCMatch &&
              Build(src, shortMax).nBTOFMatch == pv.nBTOFMatch
    ensures src.primaryVertex.None? ==>
              Build(src, shortMax).ranking == -999.0 == Default().ranking &&
              Build(src, shortMax).nBEMCMatch == 0 == Default().nBEMCMatch &&
              Build(src, shortMax).nBTOFMatch == 0 == Default().nBTOFMatch
  {
  }

  /** The TOF-header block is filled only from a present header; without one mVzVpd keeps the
      largest short and the VPD hit and T0 counts stay zero. */
  lemma BuildTofHeaderGuard(src: MuDst, shortMax: int)
    ensures src.btofHeader.None? ==>
              Build(src, shortMax).vzVpd == ShortMax == Default().vzVpd &&
              Build(src, shortMax).nVpdHitsEast == 0 && Build(src, shortMax).nVpdHitsWest == 0 &&
              Build(src, shortMax).nT0 == 0
    ensures src.btofHeader.Some? ==>
              var h := src.btofHeader.value;
              Build(src, shortMax).nVpdHitsEast == UChar(h.nVpdHitsEast) &&
              Build(src, shortMax).nVpdHitsWest == UChar(h.nVpdHitsWest) &&
              Build(src, shortMax).nT0 == UShort(h.nTzero) &&
              Build(src, shortMax).vzVpd == VzVpd(h.vpdVzScaled, h.vpdVzRounded, shortMax)
  {
  }

  /** The narrowed counters are the upstream values modulo 2^16; values that fit in 16 bits
      are stored unchanged. */
  lemma BuildNarrowsCounters(src: MuDst, shortMax: int)
    ensures |UShortCounters(Build(src, shortMax))| == |SourceCounters(src)|
    ensures forall k :: 0 <= k < |SourceCounters(src)| ==>
              UShortCounters(Build(src, shortMax))[k] == UShort(SourceCounters(src)[k])
    ensures (forall v :: v in SourceCounters(src) ==> 0 <= v < 65536) ==>
              UShortCounters(Build(src, shortMax)) == SourceCounters(src)
  {
    var e := Build(src, shortMax);
    var a := UShortCounters(e);
    var b := SourceCounters(src);
    assert forall k :: 0 <= k < |b| ==> a[k] == UShort(b[k]);
    if forall v :: v in b ==> 0 <= v < 65536 {
      forall k | 0 <= k < |b|
        ensures a[k] == b[k]
      {
        assert b[k] in b;
      }
    }
  }

  /** The stored trigger ids are the nominal ones, so isTrigger(id) holds exactly when id is
      one of them. */
  lemma BuildIsTrigger(src: MuDst, shortMax: int, id: int)
    ensures Build(src, shortMax).IsTrigger(id) <==> UInt(id) in src.triggerIds
    ensures 0 <= id < UIntModulus ==> (Build(src, shortMax).IsTrigger(id) <==> id in src.triggerIds)
  {
    IsTriggerIffMember(Build(src, shortMax), id);
  }

  /** The detector arrays of the built record: every VPD reading sits in its layout slot, the
      ZDC SMD arrays are a plain copy of strips 1..8, and a full BBC readout of 48 PMTs is
      split 24/24 index for index. */
  lemma BuildDetectorArrays(src: MuDst, shortMax: int)
    ensures forall side, kind, channel :: 1 <= channel <= 16 ==>
              Build(src, shortMax).vpd[VpdSlot(side, kind, channel)] == UShort(src.vpd(side, kind, channel))
    ensures Build(src, shortMax).zdcSmd == SmdCopy(src.zdcSmd)
    ensures |src.bbcAdc| == 2 * BbcPmtsPerSide ==>
              Build(src, shortMax).bbcAdc == BbcAdc(src.bbcAdc[..24], src.bbcAdc[24..48])
  {
    forall side, kind, channel | 1 <= channel <= 16
      ensures Build(src, shortMax).vpd[VpdSlot(side, kind, channel)] == UShort(src.vpd(side, kind, channel))
    {
      VpdReadingsRecoverable(src.vpd, side, kind, channel);
    }
    SmdLoopIsCopy(src.zdcSmd);
    if |src.bbcAdc| == 2 * BbcPmtsPerSide {
      BbcFullSplit(src.bbcAdc);
    }
  }
}
