/**
 * The three detector loops of the builder. Each loop is modelled as the state of its
 * destination arrays after the first n iterations, with the iteration body written as the
 * constructor writes it, and is proved equal to a plain index map.
 */
module PicoChannels {
  import opened CxxInt
  import opened MuSource
  import opened PicoRecord

  // ---------------------------------------------------------------- VPD

  /** The channel iteration i of the VPD loop reads: 8..1 for i in 0..7 and 16..9 for
      i in 8..15. */
  function VpdSourceChannel(i: int): int
  {
    if i < 8 then 8 - i else 32 - (i + 8)
  }

  /** The iteration that reads a channel: the inverse of VpdSourceChannel. */
  function VpdLoopIndex(channel: int): int
  {
    if channel <= 8 then 8 - channel else 24 - channel
  }

  /** Each channel 1..16 is read by exactly one iteration 0..15 (for every side and kind). */
  lemma VpdChannelsReadOnce(i: int, channel: int)
    ensures 0 <= i < 16 ==> 1 <= VpdSourceChannel(i) <= 16 && VpdLoopIndex(VpdSourceChannel(i)) == i
    ensures 1 <= channel <= 16 ==> 0 <= VpdLoopIndex(channel) < 16 && VpdSourceChannel(VpdLoopIndex(channel)) == channel
  {
  }

  /** The reference layout of the 64 VPD slots: eight blocks of eight, east before west,
      channels 1-8 before 9-16, ADC before TDC; inside a block the channels run downwards. */
  function VpdSlot(side: Side, kind: VpdKind, channel: int): (slot: int)
    requires 1 <= channel <= 16
    ensures 0 <= slot < VpdSlotCount
  {
    var block := (if side == West then 4 else 0)
               + (if channel > 8 then 2 else 0)
               + (if kind == Tdc then 1 else 0);
    var offset := if channel <= 8 then 8 - channel else 16 - channel;
    8 * block + offset
  }

  /** A VPD reading: one kind on one channel of one side. */
  datatype VpdChannel = VpdChannel(side: Side, kind: VpdKind, channel: int)

  /** The reading a slot holds under the reference layout. */
  function VpdSlotReading(slot: int): (c: VpdChannel)
    requires 0 <= slot < VpdSlotCount
    ensures 1 <= c.channel <= 16
    ensures VpdSlot(c.side, c.kind, c.channel) == slot
  {
    var block := slot / 8;
    var offset := slot % 8;
    VpdChannel(if block >= 4 then West else East,
               if block % 2 == 1 then Tdc else Adc,
               if block % 4 >= 2 then 16 - offset else 8 - offset)
  }

  /** The reference layout is one-to-one: no two readings share a slot, so with the
      postcondition of VpdSlotReading it is a bijection onto 0..63. */
  lemma VpdSlotInjective(side: Side, kind: VpdKind, channel: int)
    requires 1 <= channel <= 16
    ensures VpdSlotReading(VpdSlot(side, kind, channel)) == VpdChannel(side, kind, channel)
  {
  }

  /** The slots iteration i writes, exactly as the constructor lists them. */
  function VpdStepSlots(i: int): set<int>
  {
    if 0 <= i < 8 then {i, i + 8, i + 32, i + 40}
    else if 8 <= i < 16 then {i + 8, i + 16, i + 40, i + 48}
    else {}
  }

  /** Iteration i writes the slots of the four readings of channel VpdSourceChannel(i), so
      every slot 0..63 is written by exactly one iteration. */
  lemma VpdSlotWrittenOnce(slot: int)
    requires 0 <= slot < VpdSlotCount
    ensures var owner := VpdLoopIndex(VpdSlotReading(slot).channel);
            0 <= owner < 16 && slot in VpdStepSlots(owner)
    ensures forall i :: slot in VpdStepSlots(i) ==> i == VpdLoopIndex(VpdSlotReading(slot).channel)
  {
  }

  /** Iteration i of the VPD loop: the four readings of channel VpdSourceChannel(i). */
  function VpdStep(vpd: seq<int>, read: (Side, VpdKind, int) -> int, i: int): (r: seq<int>)
    requires |vpd| == VpdSlotCount && 0 <= i < 16
    ensures |r| == VpdSlotCount
  {
    var ch := VpdSourceChannel(i);
    var v :=
      if 0 <= i < 8 then
        vpd[i := UShort(read(East, Adc, ch))]
           [i + 8 := UShort(read(East, Tdc, ch))]
           [i + 32 := UShort(read(West, Adc, ch))]
           [i + 40 := UShort(read(West, Tdc, ch))]
      else vpd;
    if 8 <= i < 16 then
      v[i + 8 := UShort(read(East, Adc, ch))]
       [i + 16 := UShort(read(East, Tdc, ch))]
       [i + 40 := UShort(read(West, Adc, ch))]
       [i + 48 := UShort(read(West, Tdc, ch))]
    else v
  }

  /** The VPD array after the first n iterations of the loop, starting from zero. */
  function VpdLoop(read: (Side, VpdKind, int) -> int, n: nat): (vpd: seq<int>)
    requires n <= 16
    ensures |vpd| == VpdSlotCount
  {
    if n == 0 then Zeros(VpdSlotCount) else VpdStep(VpdLoop(read, n - 1), read, n - 1)
  }

  /** The narrowed reading the reference layout puts in a slot. */
  function VpdSlotValue(read: (Side, VpdKind, int) -> int, slot: int): int
    requires 0 <= slot < VpdSlotCount
  {
    var c := VpdSlotReading(slot);
    UShort(read(c.side, c.kind, c.channel))
  }

  /** One iteration writes the narrowed reading into exactly the slots whose channel it reads
      and leaves every other slot unchanged. */
  lemma VpdStepEffect(vpd: seq<int>, read: (Side, VpdKind, int) -> int, i: int, slot: int)
    requires |vpd| == VpdSlotCount && 0 <= i < 16 && 0 <= slot < VpdSlotCount
    ensures slot in VpdStepSlots(i) ==> VpdStep(vpd, read, i)[slot] == VpdSlotValue(read, slot)
    ensures slot !in VpdStepSlots(i) ==> VpdStep(vpd, read, i)[slot] == vpd[slot]
  {
  }

  /** After n iterations a slot holds its reading when its owning iteration has run, and zero
      otherwise. */
  lemma {:induction false} VpdLoopPartial(read: (Side, VpdKind, int) -> int, n: nat, slot: int)
    requires n <= 16 && 0 <= slot < VpdSlotCount
    ensures VpdLoop(read, n)[slot] ==
      if VpdLoopIndex(VpdSlotReading(slot).channel) < n then VpdSlotValue(read, slot) else 0
  {
    if n > 0 {
      VpdLoopPartial(read, n - 1, slot);
      VpdStepEffect(VpdLoop(read, n - 1), read, n - 1, slot);
      VpdSlotWrittenOnce(slot);
    }
  }

  /** The whole loop equals the reference layout filled with the narrowed readings. */
  lemma VpdLoopIsLayout(read: (Side, VpdKind, int) -> int)
    ensures VpdLoop(read, 16) == seq(VpdSlotCount, slot requires 0 <= slot < VpdSlotCount => VpdSlotValue(read, slot))
  {
    forall slot | 0 <= slot < VpdSlotCount
      ensures VpdLoop(read, 16)[slot] == VpdSlotValue(read, slot)
    {
      VpdLoopPartial(read, 16, slot);
      VpdSlotWrittenOnce(slot);
    }
  }

  /** Every reading of every side, kind and channel 1..16 can be read back from its slot;
      readings that fit in 16 bits come back unchanged. */
  lemma VpdReadingsRecoverable(read: (Side, VpdKind, int) -> int, side: Side, kind: VpdKind, channel: int)
    requires 1 <= channel <= 16
    ensures VpdLoop(read, 16)[VpdSlot(side, kind, channel)] == UShort(read(side, kind, channel))
    ensures 0 <= read(side, kind, channel) < 65536 ==>
              VpdLoop(read, 16)[VpdSlot(side, kind, channel)] == read(side, kind, channel)
  {
    var slot := VpdSlot(side, kind, channel);
    VpdLoopIsLayout(read);
    VpdSlotInjective(side, kind, channel);
    assert VpdLoop(read, 16)[slot] == VpdSlotValue(read, slot);
  }

  /** Every slot of the finished VPD array holds a UShort_t value. */
  lemma VpdLoopFits(read: (Side, VpdKind, int) -> int)
    ensures AllUShort(VpdLoop(read, 16))
  {
    VpdLoopIsLayout(read);
  }

  // ---------------------------------------------------------------- BBC

  /** Iteration i of the BBC loop: PMTs 0-23 are east, 24-47 west, slot i % 24. */
  function BbcStep(b: BbcAdc, adc: seq<int>, i: int): (r: BbcAdc)
    requires b.Sized() && 0 <= i < |adc|
    ensures r.Sized()
  {
    var eastWest := if i < 24 then 0 else 1;
    var pmtId := i % 24;
    if eastWest == 0 then b.(east := b.east[pmtId := adc[i]])
    else b.(west := b.west[pmtId := adc[i]])
  }

  /** The BBC arrays after the first n PMTs, starting from zero. */
  function BbcLoop(adc: seq<int>, n: nat): (b: BbcAdc)
    requires n <= |adc|
    ensures b.Sized()
  {
    if n == 0 then BbcAdc(Zeros(BbcPmtsPerSide), Zeros(BbcPmtsPerSide))
    else BbcStep(BbcLoop(adc, n - 1), adc, n - 1)
  }

  /** Of the first n PMTs, the last west PMT that lands in slot k. */
  function LastWestPmt(n: int, k: int): (j: int)
    requires 0 <= k < BbcPmtsPerSide && 24 + k < n
    ensures 24 <= j < n && j % 24 == k
    ensures forall j' :: j < j' < n ==> j' % 24 != k
  {
    24 + k + 24 * ((n - 25 - k) / 24)
  }

  /** After n PMTs, east slot k holds PMT k if it has been read, and west slot k holds the
      last west PMT with index k modulo 24; unread slots stay zero. */
  lemma {:induction false} BbcLoopPartial(adc: seq<int>, n: nat, k: int)
    requires n <= |adc| && 0 <= k < BbcPmtsPerSide
    ensures BbcLoop(adc, n).east[k] == if k < n then adc[k] else 0
    ensures BbcLoop(adc, n).west[k] == if 24 + k < n then adc[LastWestPmt(n, k)] else 0
  {
    if n > 0 {
      BbcLoopPartial(adc, n - 1, k);
      var i := n - 1;
      if i >= 24 && i % 24 == k {
        assert LastWestPmt(n, k) == i;
      } else if 24 + k < i {
        var j := LastWestPmt(i, k);
        assert LastWestPmt(n, k) == j by {
          var j2 := LastWestPmt(n, k);
          assert j2 < i || j2 == i;
          if j2 < i {
            assert j2 <= j;
          }
        }
      }
    }
  }

  /** With the full 48 PMTs the loop is a plain split: east = PMTs 0-23, west = PMTs 24-47,
      index for index. */
  lemma BbcFullSplit(adc: seq<int>)
    requires |adc| == 2 * BbcPmtsPerSide
    ensures BbcLoop(adc, |adc|) == BbcAdc(adc[..24], adc[24..48])
  {
    var b := BbcLoop(adc, 48);
    forall k | 0 <= k < BbcPmtsPerSide
      ensures b.east[k] == adc[k] && b.west[k] == adc[k + 24]
    {
      BbcLoopPartial(adc, 48, k);
    }
  }

  // ---------------------------------------------------------------- ZDC SMD

  /** The guarded strip write for one side and plane: a nonzero reading is narrowed to
      UShort_t and stored in slot strip-1; a zero reading leaves the array as it was. */
  function SmdWrite(a: seq<int>, reading: int, strip: int): (r: seq<int>)
    requires |a| == SmdStripCount && 1 <= strip <= SmdStripCount
    ensures |r| == SmdStripCount
  {
    if reading != 0 then a[strip - 1 := UShort(reading)] else a
  }

  /** One iteration of the strip loop, in the order of the constructor: east horizontal,
      east vertical, west horizontal, west vertical. */
  function SmdStep(z: ZdcSmdArrays, smd: (Side, SmdPlane, int) -> int, strip: int): (r: ZdcSmdArrays)
    requires z.Sized() && 1 <= strip <= SmdStripCount
    ensures r.Sized()
  {
    z.(eastHorizontal := SmdWrite(z.eastHorizontal, smd(East, Horizontal, strip), strip))
     .(eastVertical := SmdWrite(z.eastVertical, smd(East, Vertical, strip), strip))
     .(westHorizontal := SmdWrite(z.westHorizontal, smd(West, Horizontal, strip), strip))
     .(westVertical := SmdWrite(z.westVertical, smd(West, Vertical, strip), strip))
  }

  /** The SMD arrays after strips 1..n, starting from zero. */
  function SmdLoop(smd: (Side, SmdPlane, int) -> int, n: nat): (z: ZdcSmdArrays)
    requires n <= SmdStripCount
    ensures z.Sized()
  {
    if n == 0 then
      ZdcSmdArrays(Zeros(SmdStripCount), Zeros(SmdStripCount), Zeros(SmdStripCount), Zeros(SmdStripCount))
    else SmdStep(SmdLoop(smd, n - 1), smd, n)
  }

  /** Strips 1..8 of one side and plane, narrowed, in slots 0..7. */
  function SmdCopyPlane(smd: (Side, SmdPlane, int) -> int, side: Side, plane: SmdPlane): (a: seq<int>)
    ensures |a| == SmdStripCount
    ensures forall k :: 0 <= k < SmdStripCount ==> a[k] == UShort(smd(side, plane, k + 1))
  {
    seq(SmdStripCount, k => UShort(smd(side, plane, k + 1)))
  }

  /** The unconditional copy of every strip into every array. */
  function SmdCopy(smd: (Side, SmdPlane, int) -> int): (z: ZdcSmdArrays)
    ensures z.Sized()
  {
    ZdcSmdArrays(SmdCopyPlane(smd, East, Vertical), SmdCopyPlane(smd, East, Horizontal),
                 SmdCopyPlane(smd, West, Vertical), SmdCopyPlane(smd, West, Horizontal))
  }

  /** A guarded write onto a zero slot has the effect of an unconditional write, and it never
      touches another slot. */
  lemma SmdWriteEffect(a: seq<int>, reading: int, strip: int, k: int)
    requires |a| == SmdStripCount && 1 <= strip <= SmdStripCount && 0 <= k < SmdStripCount
    ensures k != strip - 1 ==> SmdWrite(a, reading, strip)[k] == a[k]
    ensures a[strip - 1] == 0 ==> SmdWrite(a, reading, strip)[strip - 1] == UShort(reading)
  {
  }

  /** After strips 1..n, slot k holds strip k + 1 if that strip has been visited and zero
      otherwise: skipping zero readings loses nothing against the zero default. */
  lemma {:induction false} SmdLoopPartial(smd: (Side, SmdPlane, int) -> int, n: nat, side: Side, plane: SmdPlane, k: int)
    requires n <= SmdStripCount && 0 <= k < SmdStripCount
    ensures SmdLoop(smd, n).Plane(side, plane)[k] == if k < n then UShort(smd(side, plane, k + 1)) else 0
  {
    if n > 0 {
      var z := SmdLoop(smd, n - 1);
      SmdLoopPartial(smd, n - 1, side, plane, k);
      SmdLoopPartial(smd, n - 1, side, plane, n - 1);
      assert SmdLoop(smd, n).Plane(side, plane) == SmdWrite(z.Plane(side, plane), smd(side, plane, n), n);
      SmdWriteEffect(z.Plane(side, plane), smd(side, plane, n), n, k);
    }
  }

  /** For one side and plane, the guarded strip loop equals the unconditional copy. */
  lemma SmdPlaneIsCopy(smd: (Side, SmdPlane, int) -> int, side: Side, plane: SmdPlane)
    ensures SmdLoop(smd, SmdStripCount).Plane(side, plane) == SmdCopyPlane(smd, side, plane)
  {
    forall k | 0 <= k < SmdStripCount
      ensures SmdLoop(smd, SmdStripCount).Plane(side, plane)[k] == SmdCopyPlane(smd, side, plane)[k]
    {
      SmdLoopPartial(smd, SmdStripCount, side, plane, k);
    }
  }

  /** The guarded strip loop equals the unconditional copy. */
  lemma SmdLoopIsCopy(smd: (Side, SmdPlane, int) -> int)
    ensures SmdLoop(smd, SmdStripCount) == SmdCopy(smd)
  {
    SmdPlaneIsCopy(smd, East, Vertical);
    SmdPlaneIsCopy(smd, East, Horizontal);
    SmdPlaneIsCopy(smd, West, Vertical);
    SmdPlaneIsCopy(smd, West, Horizontal);
  }

  /** Every slot of the finished SMD arrays holds a UShort_t value. */
  lemma SmdLoopFits(smd: (Side, SmdPlane, int) -> int)
    ensures var z := SmdLoop(smd, SmdStripCount);
            AllUShort(z.eastVertical) && AllUShort(z.eastHorizontal) &&
            AllUShort(z.westVertical) && AllUShort(z.westHorizontal)
  {
    SmdLoopIsCopy(smd);
  }
}
