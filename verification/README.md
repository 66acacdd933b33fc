# StPicoEvent — the event record of the picoDst format

`StPicoEvent` is the per-event header of the STAR picoDst: a flat record of run and event
identifiers, the primary vertex, trigger ids, multiplicities, TOF/VPD, ZDC and BBC detector
readings and run-level rates. It is filled in one pass from the upstream `StMuDst` event by
its constructor and offers three accessors: `year()`, `day()` and `isTrigger(id)`.

This project models that builder in Dafny as pure functions:

- `cxx_int.dfy` (`CxxInt`): the C++ integer conversions the builder uses. `(UShort_t)` and
  `(UChar_t)` become reduction modulo 2^16 and 2^8, the `unsigned int` argument of
  `isTrigger` reduction modulo 2^32, and storage into a `short` the two's-complement
  reading. C++ `/` and `%` truncate toward zero; they become `Quot` and `Rem`, which differ
  from Dafny's Euclidean operators for negative dividends.
- `mu_source.dfy` (`MuSource`): the upstream event as an immutable record. Getters taking a
  side, plane or channel become functions. The primary-vertex object and the TOF header
  become options.
- `pico_record.dfy` (`PicoRecord`): the output record, its default value, its invariant
  (`WellFormed`), and the accessors `Year`, `Day` and `IsTrigger`.
- `pico_channels.dfy` (`PicoChannels`): the VPD, BBC and ZDC-SMD loops. Each one is modelled
  as the state of its arrays after the first n iterations, with the iteration body as the
  constructor writes it. Each is proved equal to a plain index map: the VPD slot layout, the
  24/24 BBC split, and the unconditional strip copy.
- `pico_builder.dfy` (`PicoBuilder`): the constructor `Build` and the properties of the
  record it returns.

Two behaviours of the constructor worth noting:

- Only `mVzVpd` is clamped. Every other narrowed field wraps modulo its width, as a C++
  integer conversion does; it is not clamped.
- The `mVzVpd` clamp tests the magnitude of the scaled vertex before rounding and always
  stores +SHORTMAX. A vertex at -327.673 cm therefore stores +32767, although its rounded
  value -32767 would fit (`VzVpdExamples`).
- The BBC loop writes PMT `i >= 24` to `west[i % 24]`. For the 48 PMTs of a full readout
  that is PMT 24 + k in slot k. A readout with more PMTs would overwrite west slots;
  `BbcLoopPartial` states which PMT wins.

## Model

| member | source | states |
|---|---|---|
| PicoRecord.Default | StPicoDstMaker/StPicoEvent.cxx:20-38 | The default record has vertex position and error (-999,-999,-999), ranking -999, zero match counts, zero VPD hit and T0 counts, mVzVpd at the largest short, no trigger ids and every array zeroed; it satisfies the record invariant |
| PicoBuilder.BuildWellFormed | StPicoDstMaker/StPicoEvent.cxx:40-154 | The default record and every built record satisfy the record invariant: narrowed fields fit their C++ widths and every array has its declared length |
| PicoBuilder.BuildScalarsFit | StPicoDstMaker/StPicoEvent.cxx:66-98 | Every field the constructor narrows to UShort_t or UChar_t, and mVzVpd, holds a value of its width |
| PicoBuilder.BuildArraysFit | StPicoDstMaker/StPicoEvent.cxx:82-151 | The HFT, VPD, ZDC-SMD and BBC arrays of a built record have lengths 4, 64, 8 and 24 and the narrowed ones hold UShort_t values |
| PicoBuilder.Build | StPicoDstMaker/StPicoEvent.cxx:40-154 | The built record carries the source's run number, event number and nominal trigger ids, in order and with duplicates |
| PicoBuilder.BuildVertexRule | StPicoDstMaker/StPicoEvent.cxx:49-55 | A source vertex with x == y == z stores position (-999,-999,-999) and error (0,0,0); any other vertex and its error are stored unchanged; the sentinel is stored exactly when the source vertex is degenerate |
| PicoBuilder.BuildPrimaryVertexGuard | StPicoDstMaker/StPicoEvent.cxx:57-62 | Ranking, nBEMCMatch and nBTOFMatch come from the primary-vertex object when it exists and otherwise keep the defaults -999, 0 and 0 |
| PicoBuilder.BuildTofHeaderGuard | StPicoDstMaker/StPicoEvent.cxx:87-93 | Without a TOF header mVzVpd keeps the largest short and the VPD hit and T0 counts stay 0; with one they are the header values narrowed to UChar_t, UShort_t and the clamped mVzVpd |
| PicoBuilder.VzVpd | StPicoDstMaker/StPicoEvent.cxx:92 | The stored VPD vertex z is always a short; a scaled value whose magnitude, before rounding, is beyond SHORTMAX stores exactly +SHORTMAX, whatever its sign; otherwise the rounded value is stored through UShort_t, and a nearest integer is stored unchanged, negative ones included |
| PicoBuilder.NearestFitsShort | StPicoDstMaker/StPicoEvent.cxx:92 | The nearest integer to a scaled value of magnitude at most SHORTMAX has magnitude at most SHORTMAX, so the unclamped branch never wraps |
| PicoBuilder.VzVpdExamples | StPicoDstMaker/StPicoEvent.cxx:92 | With SHORTMAX 32767, scaled values 40000 and -40000 both store 32767, -500 stores -500, and -32767.3 (rounded -32767) stores +32767 |
| CxxInt.UShort | StPicoDstMaker/StPicoEvent.cxx:66-98 | The (UShort_t) cast: a value in 0..65535 congruent to the argument modulo 2^16, the argument itself when it fits |
| CxxInt.UChar | StPicoDstMaker/StPicoEvent.cxx:89-90 | The (UChar_t) cast: a value in 0..255 congruent to the argument modulo 2^8, the argument itself when it fits |
| CxxInt.Short | StPicoDstMaker/StPicoEvent.cxx:92 | Storing into the short mVzVpd: a value in -32768..32767 congruent to the argument modulo 2^16, the argument itself when it fits |
| CxxInt.FAbs | StPicoDstMaker/StPicoEvent.cxx:92 | fabs: a nonnegative value equal to the argument or to its negation |
| CxxInt.ShortOfUShort | StPicoDstMaker/StPicoEvent.cxx:92 | Passing a value through UShort_t before storing it in a short changes nothing; every short survives the round trip |
| PicoBuilder.BuildNarrowsCounters | StPicoDstMaker/StPicoEvent.cxx:66-98 | Each UShort_t-narrowed counter (reference multiplicities, gRefMult, nT0, ZDC ADC sums) is its source value modulo 2^16, so a source value below 2^16 is stored unchanged |
| PicoBuilder.BuildIsTrigger | StPicoDstMaker/StPicoEvent.cxx:64 | isTrigger(id) on a built record holds exactly when id, converted to unsigned int, is one of the source's nominal trigger ids; an id in the unsigned range is looked up unchanged |
| PicoBuilder.BuildDetectorArrays | StPicoDstMaker/StPicoEvent.cxx:96-151 | In a built record every VPD reading (side, kind, channel 1..16) sits narrowed in its layout slot, the ZDC SMD arrays are the unconditional copy of strips 1..8, and a 48-PMT BBC readout is split into PMTs 0-23 (east) and 24-47 (west) index for index |
| PicoRecord.Find | StPicoDstMaker/StPicoEvent.cxx:171 | std::find returns the index of the first occurrence of the id, or the end position when there is none |
| PicoRecord.IsTriggerIffMember | StPicoDstMaker/StPicoEvent.cxx:169-172 | isTrigger(id) holds if and only if id, converted to unsigned int, occurs in the stored trigger ids; an id in 0..2^32-1 is looked up unchanged; it never holds for an empty list |
| PicoRecord.IsTriggerWraps | StPicoDstMaker/StPicoEvent.cxx:169-172 | Arguments that agree modulo 2^32 give the same answer; isTrigger(-1) holds exactly when 4294967295 is stored |
| CxxInt.UInt | StPicoDstMaker/StPicoEvent.cxx:169 | The unsigned int parameter: the argument modulo 2^32, in 0..2^32-1, unchanged when already in range |
| PicoRecord.YearDayDecode | StPicoDstMaker/StPicoEvent.cxx:159-167 | For a run number formed as (year-1999)*1000000 + day*1000 + serial, with day and serial in 0..999, year() returns that year and day() that day |
| PicoRecord.YearDayEncode | StPicoDstMaker/StPicoEvent.cxx:159-167 | Every nonnegative run number equals the encoding of its year(), its day() and its last three digits; year() is at least 1999 and day() lies in 0..999 |
| PicoRecord.YearDayOfNatural | StPicoDstMaker/StPicoEvent.cxx:159-167 | For a nonnegative run number, year() is runId/1000000 - 1 + 2000 and day() is (runId mod 1000000)/1000 |
| PicoRecord.DayRange | StPicoDstMaker/StPicoEvent.cxx:164-167 | day() lies in -999..999 for every run number and in 0..999 for nonnegative ones |
| PicoRecord.YearDayExample | StPicoDstMaker/StPicoEvent.cxx:159-167 | Run 20123456 gives year 2019 and day 123 |
| PicoRecord.NegativeRunNumber | StPicoDstMaker/StPicoEvent.cxx:159-167 | Run -1 gives year 1999 and day 0 under C++ truncating division, where Euclidean division would give 1998 and 999 |
| CxxInt.Quot | StPicoDstMaker/StPicoEvent.cxx:161 | C++ integer division: the remainder a - q*b lies in 0..b-1 for a nonnegative dividend and in -(b-1)..0 for a negative one |
| CxxInt.Rem | StPicoDstMaker/StPicoEvent.cxx:166 | C++ remainder: quotient times divisor plus remainder gives back the dividend, and the remainder takes the dividend's sign |
| CxxInt.QuotOfNegative | StPicoDstMaker/StPicoEvent.cxx:159-167 | For a negative dividend that the divisor does not divide, the C++ quotient is the Euclidean one plus 1 and the remainder is the Euclidean one minus the divisor |
| CxxInt.QuotRemOfNatural | StPicoDstMaker/StPicoEvent.cxx:159-167 | For a nonnegative dividend, C++ division and remainder agree with Euclidean division |
| PicoChannels.VpdChannelsReadOnce | StPicoDstMaker/StPicoEvent.cxx:113-129 | The channel read by VPD iteration i (8-i for i<8, 32-(i+8) for 8<=i<16) is a bijection from iterations 0..15 onto channels 1..16, so each channel is read exactly once per side and kind |
| PicoChannels.VpdSlot | StPicoDstMaker/StPicoEvent.cxx:113-129 | The layout places every reading (side, kind, channel 1..16) in a slot in 0..63 |
| PicoChannels.VpdSlotReading | StPicoDstMaker/StPicoEvent.cxx:113-129 | Every slot 0..63 holds a reading with channel in 1..16 that the layout maps back to that slot |
| PicoChannels.VpdSlotInjective | StPicoDstMaker/StPicoEvent.cxx:113-129 | Mapping a reading to its slot and back recovers the reading, so no two readings share a slot |
| PicoChannels.VpdSlotWrittenOnce | StPicoDstMaker/StPicoEvent.cxx:113-129 | Every slot 0..63 is among the slots written by exactly one iteration: {i, i+8, i+32, i+40} for i<8 and {i+8, i+16, i+40, i+48} for 8<=i<16 |
| PicoChannels.VpdStepEffect | StPicoDstMaker/StPicoEvent.cxx:116-128 | One VPD iteration stores the narrowed reading in each slot it writes and leaves every other slot unchanged |
| PicoChannels.VpdLoopPartial | StPicoDstMaker/StPicoEvent.cxx:113-129 | After n iterations a slot holds its narrowed reading if its owning iteration is below n, and 0 otherwise |
| PicoChannels.VpdLoopIsLayout | StPicoDstMaker/StPicoEvent.cxx:113-129 | The finished VPD loop equals the layout filled with the narrowed readings |
| PicoChannels.VpdReadingsRecoverable | StPicoDstMaker/StPicoEvent.cxx:113-129 | Every reading can be read back from its slot of the finished array; a reading below 2^16 comes back exactly |
| PicoChannels.VpdLoopFits | StPicoDstMaker/StPicoEvent.cxx:117-126 | Every slot of the finished VPD array holds a UShort_t value |
| PicoChannels.LastWestPmt | StPicoDstMaker/StPicoEvent.cxx:144-151 | Among the first n PMTs, the last one at or above 24 with index k modulo 24 |
| PicoChannels.BbcLoopPartial | StPicoDstMaker/StPicoEvent.cxx:143-151 | After n PMTs, east[k] is PMT k if it was read and 0 otherwise; west[k] is the last PMT at or above 24 congruent to k modulo 24 if one was read and 0 otherwise |
| PicoChannels.BbcFullSplit | StPicoDstMaker/StPicoEvent.cxx:143-151 | With 48 PMTs, east is PMTs 0-23 and west is PMTs 24-47, index for index |
| PicoChannels.SmdWriteEffect | StPicoDstMaker/StPicoEvent.cxx:101-108 | A guarded strip write never touches another slot, and on a zero slot it has the effect of an unconditional write of the narrowed reading |
| PicoChannels.SmdLoopPartial | StPicoDstMaker/StPicoEvent.cxx:99-109 | After strips 1..n, slot k of each side and plane holds strip k+1 narrowed if k < n and 0 otherwise, zero readings included |
| PicoChannels.SmdPlaneIsCopy | StPicoDstMaker/StPicoEvent.cxx:99-109 | For each side and plane, the guarded strip loop yields the unconditional copy of strips 1..8 |
| PicoChannels.SmdLoopIsCopy | StPicoDstMaker/StPicoEvent.cxx:99-109 | The guarded strip loop equals the unconditional copy of all four arrays |
| PicoChannels.SmdLoopFits | StPicoDstMaker/StPicoEvent.cxx:99-109 | Every slot of the finished SMD arrays holds a UShort_t value |

## Left out

- The upstream getters of `StMuDst`, `StMuEvent`, `StBTofHeader`, `StRunInfo` and the trigger detectors are not modelled. Their headers are not part of this model, so their results are the fields of `MuSource.MuDst`.
- `StPicoUtilities::refMult2` and `refMultHalf` are not modelled. They are external estimators, so they appear only as uninterpreted input functions of (charge, side).
- Floating point is not modelled. The product `vpdVz()*100.` is taken as an exact real, and `TMath::Nint` of it is an input of the TOF header, because TMath is not part of this model.
- PicoBuilder.VzVpd: the stored value equals the rounded one only when the input is a nearest integer to the scaled value (`IsNearest`). How `TMath::Nint` breaks ties is not stated, since it does not affect the clamp.
- Vertex coordinates, errors, ranking, magnetic field, rates and space charge are reals. NaN and the float equality of the degenerate-vertex test are not modelled.
- The `(UInt_t)` conversion of the ZDC and BBC coincidence rates is not modelled. Those rates are stored as the source reals.
- Getters that return floating values and are cast to integers (`zdcSmd`, `adcSum`, `beamFillNumber`) are taken as integer-valued.
- Implicit conversions into fields whose width is declared only in `StPicoEvent.h` are not modelled: `mFillId`, `mNumberOfGlobalTracks`, `mbTofTrayMultiplicity`, the match counts and the BBC ADC arrays. `StPicoEvent.h` is not part of this model.
- `mVzVpd` is assumed to be a `short`, because its default is `std::numeric_limits<short>::max()`.
- The trigger ids are assumed to be `unsigned int`, the parameter type of `isTrigger`, because the declaration of `mTriggerIds` is in `StPicoEvent.h`.
- `Pico::SHORTMAX` is a parameter of `Build`, because `StPicoConstants.h` is not part of this model. The clamp properties are stated for values up to the largest short.
- The trigger-threshold arrays `mHT_Th` and `mJP_Th` are left out. The default constructor zeroes them and the builder never writes them, but their lengths are declared in the header, which is not part of this model.
- `ClassImp`, the destructor and ROOT persistence are left out; they carry no behaviour of the builder.
