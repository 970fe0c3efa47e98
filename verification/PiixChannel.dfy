/**
 The driver of one PIIX channel and the controller object it shares with the other one:
 selecting a drive's timings, keeping the shadow registers and writing them out.
 */
module PiixChannel {
  import opened Wrappers
  import opened PiixTiming
  import opened PciConfig

  // The controller both channels write through, one locked access at a time.
  class PciRoot {
    const config: array<bv8>
    var locked: bool

    ghost predicate Valid()
      reads this
    {
      config.Length == SIZE && !locked
    }

    ghost function TheSpace(): Space
      requires Valid()
      reads this, config
    {
      config[..]
    }

    constructor (registers: seq<bv8>)
      requires |registers| == SIZE
      ensures Valid() && fresh(config) && TheSpace() == registers
    {
      config := new bv8[SIZE](i requires 0 <= i < SIZE => registers[i]);
      locked := false;
      new;
      assert config[..] == registers;
    }

    method PciConfigWrite8(offset: nat, data: bv8, mask: bv8)
      requires Valid() && offset < SIZE
      modifies this`locked, config
      ensures Valid() && TheSpace() == Apply(old(TheSpace()), W8(offset, data, mask))
    {
      hide Merge8;
      locked := true;
      config[offset] := Merge8(config[offset], data, mask);
      locked := false;
    }

    method PciConfigWrite16(offset: nat, data: bv16, mask: bv16 := 0xffff)
      requires Valid() && offset + 1 < SIZE
      modifies this`locked, config
      ensures Valid() && TheSpace() == Apply(old(TheSpace()), W16(offset, data, mask))
    {
      hide Word, Low, High, Merge16;
      locked := true;
      var u16 := Merge16(Word(config[offset], config[offset + 1]), data, mask);
      config[offset], config[offset + 1] := Low(u16), High(u16);
      locked := false;
    }
  }

  // ---------------------------------------------------------------------------------
  // What the driver computes, as functions of its shadow

  // Both computations for one drive.
  function Recompute(r: Shadow, ch: Channel, unit: nat, shared: bool, sel: Selection): (t: Shadow)
    requires unit < 2 && |r.idetim| == 2 && ValidSelection(sel)
    ensures |t.idetim| == 2
  {
    ComputeUdma(ComputeTiming(r, ch, unit, shared, sel.pio, sel.dma), ch, unit, sel.udma)
  }

  // What writeTimingRegisters writes: with shared drive timings, one drive's IDETIM only.
  function TimingWrites(ch: Channel, shared: bool, r: Shadow, unit: nat): (ops: seq<Op>)
    requires unit < 2 && |r.idetim| == 2
    ensures AllInSpace(ops)
  {
    if shared then [W16(IdetimOffset(ch), r.idetim[unit], 0xffff)] else WriteSequence(ch, r)
  }

  // Bit 4 of IDECONFIG reports the cable of the primary channel's drive 0; the bits of
  // drive 1 and of the secondary channel follow.
  function CableMask(ch: Channel, unit: nat): bv16 {
    match ch
    case Primary => if unit == 1 then 0x0020 else 0x0010
    case Secondary => if unit == 1 then 0x0080 else 0x0040
  }

  // It is the bit four places above the drive's clock bit, and outside every mask that is written.
  lemma CableBitsOfDrives(ch: Channel, unit: nat, ch': Channel)
    requires unit < 2
    ensures CableMask(ch, unit) == (ClockBits(ch, unit) & 0x000f) << 4
    ensures CableMask(ch, unit) & CABLE_BITS == CableMask(ch, unit)
    ensures CableMask(ch, unit) & IdeConfigMask(ch') == 0
  {
  }

  predicate CableSeen(x: bv16, ch: Channel, unit: nat) { CableMask(ch, unit) & x != 0 }

  // Modes above 2 are capped only on a parallel channel that reports no such cable.
  predicate Uncapped(parallel: bool, ch: Channel, unit: nat, r: Shadow) {
    !parallel || CableSeen(r.ideConfig, ch, unit)
  }

  const SLOWEST := Selection(0, None, None)

  predicate SameCables(x: bv16, y: bv16) { x & CABLE_BITS == y & CABLE_BITS }

  // The clock bits of a drive are neither WR_PP_EN nor a cable-report bit.
  lemma ClockBitsElsewhere(x: bv16, y: bv16, ch: Channel, unit: nat)
    requires unit < 2 && Same16(x, y, ClockBits(ch, unit))
    ensures Enables(x) ==> Enables(y)
    ensures SameCables(x, y)
  {
  }

  lemma EnablingKeepsCables(x: bv16)
    ensures SameCables(x, x | WR_PP_EN) && SameCables(x, x) && Enables(x | WR_PP_EN)
  {
  }

  lemma UdmaKeepsCables(r: Shadow, ch: Channel, unit: nat, udma: Option<nat>)
    requires unit < 2 && (udma.Some? ==> udma.value < |UDMA|)
    ensures var t := ComputeUdma(r, ch, unit, udma);
            && t.idetim == r.idetim && t.sidetim == r.sidetim
            && SameCables(r.ideConfig, t.ideConfig)
            && (Enables(r.ideConfig) ==> Enables(t.ideConfig))
  {
    hide ComputeUdma, Same8, Same16, On8, Shows16, EnableBit, CycleBits, ClockBits, CycleOf, ClockOf, SameCables, Enables;
    UdmaBitsOfOneDrive(r, ch, unit, udma);
    ClockBitsElsewhere(r.ideConfig, ComputeUdma(r, ch, unit, udma).ideConfig, ch, unit);
  }

  lemma TimingKeepsCables(r: Shadow, ch: Channel, unit: nat, shared: bool, sel: Selection)
    requires unit < 2 && |r.idetim| == 2 && ValidSelection(sel)
    ensures var t := ComputeTiming(r, ch, unit, shared, sel.pio, sel.dma);
            SameCables(r.ideConfig, t.ideConfig) && (!shared ==> Enables(t.ideConfig))
  {
    hide IdetimValue, SidetimValue, SameCables, Enables;
    EnablingKeepsCables(r.ideConfig);
  }

  lemma ComputedIsReady(r: Shadow, ch: Channel, unit: nat, shared: bool, sel: Selection)
    requires unit < 2 && |r.idetim| == 2 && ValidSelection(sel)
    ensures !shared ==> Ready(Recompute(r, ch, unit, shared, sel))
  {
    var mid := ComputeTiming(r, ch, unit, shared, sel.pio, sel.dma);
    hide ComputeTiming, ComputeUdma;
    TimingKeepsCables(r, ch, unit, shared, sel);
    UdmaKeepsCables(mid, ch, unit, sel.udma);
  }

  lemma SameReport(x: bv16, y: bv16, z: bv16, ch: Channel, unit: nat)
    requires SameCables(x, y) && SameCables(y, z)
    ensures CableSeen(x, ch, unit) <==> CableSeen(z, ch, unit)
  {
  }

  // Computing timings never changes what the shadow says about the cables.
  lemma CableReportKept(r: Shadow, ch: Channel, unit: nat, shared: bool, sel: Selection, parallel: bool, unit': nat)
    requires unit < 2 && |r.idetim| == 2 && ValidSelection(sel)
    ensures Uncapped(parallel, ch, unit', Recompute(r, ch, unit, shared, sel)) == Uncapped(parallel, ch, unit', r)
  {
    hide ComputeTiming, ComputeUdma, CableSeen, SameCables, Enables;
    var mid := ComputeTiming(r, ch, unit, shared, sel.pio, sel.dma);
    TimingKeepsCables(r, ch, unit, shared, sel);
    UdmaKeepsCables(mid, ch, unit, sel.udma);
    SameReport(r.ideConfig, mid.ideConfig, Recompute(r, ch, unit, shared, sel).ideConfig, ch, unit');
  }

  lemma RecomputeAgain(r: Shadow, ch: Channel, unit: nat, shared: bool, sel: Selection)
    requires unit < 2 && |r.idetim| == 2 && ValidSelection(sel)
    ensures var t := Recompute(r, ch, unit, shared, sel);
            Recompute(t, ch, unit, shared, sel) == t
  {
    var mid := ComputeTiming(r, ch, unit, shared, sel.pio, sel.dma);
    var t := Recompute(r, ch, unit, shared, sel);
    hide ComputeTiming, ComputeUdma, SameCables, Enables;
    ComputedIsReady(r, ch, unit, shared, sel);
    UdmaKeepsCables(mid, ch, unit, sel.udma);
    TimingAgainUnchanged(r, ch, unit, shared, sel.pio, sel.dma, t);
    UdmaAgainUnchanged(mid, ch, unit, sel.udma);
  }

  // ---------------------------------------------------------------------------------
  // What the registers tell the hardware

  // The cycle time, in ns, of a drive's PIO and multiword DMA transfers; 600 without fast timing.
  function CommandCycle(s: Space, ch: Channel, unit: nat): nat
    requires unit < 2
  {
    var x := Read16(s, if ch == Primary then 0x40 else 0x42);
    if !Fast(x, unit) then 600
    else if unit == 0 then 30 * (SamplePoint(x) + Recovery(x))
    else 30 * (SlaveSamplePoint(s[0x44], ch) + SlaveRecovery(s[0x44], ch))
  }

  predicate UltraOn(s: Space, ch: Channel, unit: nat)
    requires unit < 2
  {
    On8(s[0x48], EnableBit(ch, unit))
  }

  // The cycle time of a drive's Ultra transfers, from its two fields.
  function UltraCycle(cycleField: bv16, clockField: bv16, ch: Channel, unit: nat): nat
    requires unit < 2
  {
    if clockField & 0xf000 != 0 then 20
    else
      var clocks := if cycleField == CycleBits(ch, unit) & 0x1111 then 3
                    else if cycleField == CycleBits(ch, unit) & 0x2222 then 2 else 4;
      clocks * if clockField != 0 then 15 else 30
  }

  function CycleField(s: Space, ch: Channel, unit: nat): bv16
    requires unit < 2
  {
    Cut16(Read16(s, 0x4a), CycleBits(ch, unit))
  }

  function ClockField(s: Space, ch: Channel, unit: nat): bv16
    requires unit < 2
  {
    Cut16(Read16(s, 0x54), ClockBits(ch, unit))
  }

  // The registers make the hardware treat a drive as it was selected to be.
  ghost predicate DriveShows(s: Space, ch: Channel, unit: nat, sel: Selection)
    requires unit < 2 && ValidSelection(sel)
  {
    var t := InForce(sel.pio, sel.dma);
    && CommandCycle(s, ch, unit) == (if t.cycleTime <= 240 then t.cycleTime else 600)
    && (UltraOn(s, ch, unit) <==> sel.udma.Some?)
    && (sel.udma.Some? ==> UltraCycle(CycleField(s, ch, unit), ClockField(s, ch, unit), ch, unit) == UDMA[sel.udma.value].cycle)
  }

  // Two register contents that are alike for a drive.
  ghost predicate AlikeFor(s: Space, t: Space, ch: Channel, unit: nat)
    requires unit < 2
  {
    && CommandCycle(s, ch, unit) == CommandCycle(t, ch, unit)
    && UltraOn(s, ch, unit) == UltraOn(t, ch, unit)
    && CycleField(s, ch, unit) == CycleField(t, ch, unit)
    && ClockField(s, ch, unit) == ClockField(t, ch, unit)
  }

  // A drive's IDETIM value: none yet, or a row of its table.
  function RowOrNone(i: nat, unit: nat): bv16
    requires i <= 4 && unit < 2
  {
    if i == 0 then 0 else IdetimRow(false, i, unit)
  }

  predicate IsRow(x: bv16, unit: nat)
    requires unit < 2
  {
    exists i :: 0 <= i <= 4 && x == RowOrNone(i, unit)
  }

  predicate Rows(idetim: seq<bv16>) {
    |idetim| == 2 && IsRow(idetim[0], 0) && IsRow(idetim[1], 1)
  }

  // Rows of the two drives do not disturb each other in the one register.
  lemma RowsReadApart(i: nat, j: nat)
    requires i <= 4 && j <= 4
    ensures var x := Set16(RowOrNone(i, 0), RowOrNone(j, 1));
            && (Fast(x, 0) <==> Fast(RowOrNone(i, 0), 0)) && (Fast(x, 1) <==> Fast(RowOrNone(j, 1), 1))
            && SamplePoint(x) == SamplePoint(RowOrNone(i, 0)) && Recovery(x) == Recovery(RowOrNone(i, 0))
  {
  }

  lemma BothRowsRead(r: Shadow)
    requires |r.idetim| == 2 && Rows(r.idetim)
    ensures (Fast(BothDrives(r), 0) <==> Fast(r.idetim[0], 0)) && (Fast(BothDrives(r), 1) <==> Fast(r.idetim[1], 1))
    ensures SamplePoint(BothDrives(r)) == SamplePoint(r.idetim[0]) && Recovery(BothDrives(r)) == Recovery(r.idetim[0])
  {
    hide Fast, SamplePoint, Recovery, RowOrNone, Set16;
    var i :| 0 <= i <= 4 && r.idetim[0] == RowOrNone(i, 0);
    var j :| 0 <= j <= 4 && r.idetim[1] == RowOrNone(j, 1);
    RowsReadApart(i, j);
  }

  // Registers that a channel's masks pick out show its drives what the shadow says, and
  // show the other channel's drives what they showed before.
  lemma SlaveTimingWritten(x: bv8, v: bv8, ch: Channel, ch': Channel)
    ensures var y := Merge8(x, v, SidetimMask(ch));
            && SlaveSamplePoint(y, ch') == SlaveSamplePoint(if ch' == ch then v else x, ch')
            && SlaveRecovery(y, ch') == SlaveRecovery(if ch' == ch then v else x, ch')
  {
  }

  lemma EnableWritten(x: bv8, v: bv8, ch: Channel, ch': Channel, unit: nat)
    requires unit < 2
    ensures On8(Merge8(x, v, UdmactlMask(ch)), EnableBit(ch', unit)) <==> On8(if ch' == ch then v else x, EnableBit(ch', unit))
  {
  }

  lemma CycleWritten(x: bv16, v: bv16, ch: Channel, ch': Channel, unit: nat)
    requires unit < 2
    ensures Cut16(Merge16(x, v, UdmatimMask(ch)), CycleBits(ch', unit)) == Cut16(if ch' == ch then v else x, CycleBits(ch', unit))
  {
  }

  lemma ClockWritten(x: bv16, v: bv16, ch: Channel, ch': Channel, unit: nat)
    requires unit < 2
    ensures Cut16(Merge16(x, v, IdeConfigMask(ch)), ClockBits(ch', unit)) == Cut16(if ch' == ch then v else x, ClockBits(ch', unit))
  {
  }

  // What a drive's cycle times are according to a shadow.
  function ShadowCycle(r: Shadow, ch: Channel, unit: nat): nat
    requires unit < 2 && |r.idetim| == 2
  {
    if !Fast(r.idetim[unit], unit) then 600
    else if unit == 0 then 30 * (SamplePoint(r.idetim[0]) + Recovery(r.idetim[0]))
    else 30 * (SlaveSamplePoint(r.sidetim, ch) + SlaveRecovery(r.sidetim, ch))
  }

  // The registers show a drive what the shadow says.
  ghost predicate ShadowShown(s: Space, ch: Channel, r: Shadow, unit: nat)
    requires unit < 2 && |r.idetim| == 2
  {
    && CommandCycle(s, ch, unit) == ShadowCycle(r, ch, unit)
    && (UltraOn(s, ch, unit) <==> On8(r.udmactl, EnableBit(ch, unit)))
    && CycleField(s, ch, unit) == Cut16(r.udmatim, CycleBits(ch, unit))
    && ClockField(s, ch, unit) == Cut16(r.ideConfig, ClockBits(ch, unit))
  }

  lemma SequenceShowsOwn(s: Space, ch: Channel, r: Shadow, unit: nat)
    requires unit < 2 && |r.idetim| == 2 && Rows(r.idetim)
    ensures ShadowShown(ApplyAll(s, WriteSequence(ch, r)), ch, r, unit)
  {
    hide Merge8, Merge16, Read16, BothDrives, ApplyAll, WriteSequence, SidetimMask, UdmactlMask, UdmatimMask, IdeConfigMask,
         Fast, SamplePoint, Recovery, SlaveSamplePoint, SlaveRecovery, On8, Cut16, EnableBit, CycleBits, ClockBits, Rows;
    SequenceRegisters(s, ch, r);
    BothRowsRead(r);
    SlaveTimingWritten(s[0x44], r.sidetim, ch, ch);
    EnableWritten(s[0x48], r.udmactl, ch, ch, unit);
    CycleWritten(Read16(s, 0x4a), r.udmatim, ch, ch, unit);
    ClockWritten(Read16(s, 0x54), r.ideConfig, ch, ch, unit);
  }

  lemma SequenceKeepsOther(s: Space, ch: Channel, r: Shadow, unit: nat)
    requires unit < 2 && |r.idetim| == 2
    ensures AlikeFor(s, ApplyAll(s, WriteSequence(ch, r)), OtherChannel(ch), unit)
  {
    hide Merge8, Merge16, Read16, BothDrives, ApplyAll, WriteSequence, SidetimMask, UdmactlMask, UdmatimMask, IdeConfigMask,
         Fast, SamplePoint, Recovery, SlaveSamplePoint, SlaveRecovery, On8, Cut16, EnableBit, CycleBits, ClockBits, Rows;
    var other := OtherChannel(ch);
    SequenceRegisters(s, ch, r);
    SlaveTimingWritten(s[0x44], r.sidetim, ch, other);
    EnableWritten(s[0x48], r.udmactl, ch, other, unit);
    CycleWritten(Read16(s, 0x4a), r.udmatim, ch, other, unit);
    ClockWritten(Read16(s, 0x54), r.ideConfig, ch, other, unit);
  }

  // WRITTEN TO THE HARDWARE. After a write sequence the registers show both drives of the
  // channel what the shadow says, and both drives of the other channel what they did before.
  lemma SequenceShowsDrives(s: Space, ch: Channel, r: Shadow)
    requires |r.idetim| == 2 && Rows(r.idetim)
    ensures var after := ApplyAll(s, WriteSequence(ch, r));
            && ShadowShown(after, ch, r, 0) && ShadowShown(after, ch, r, 1)
            && AlikeFor(s, after, OtherChannel(ch), 0) && AlikeFor(s, after, OtherChannel(ch), 1)
  {
    hide ShadowShown, AlikeFor, ApplyAll, WriteSequence, Rows;
    SequenceShowsOwn(s, ch, r, 0);
    SequenceShowsOwn(s, ch, r, 1);
    SequenceKeepsOther(s, ch, r, 0);
    SequenceKeepsOther(s, ch, r, 1);
  }

  // The drive's own row in the register makes its cycle time.
  lemma RowCycle(x: bv16, y: bv8, t: Timing, ch: Channel, unit: nat)
    requires unit < 2 && (t in PIO || t in DMA) && 1 <= t.registerIndex <= 4
    requires x == IdetimRow(false, t.registerIndex, unit)
    requires unit == 1 ==> Shows8(y, SidetimRow(0, ch), SidetimRow(t.registerIndex, ch))
    ensures (if !Fast(x, unit) then 600
             else if unit == 0 then 30 * (SamplePoint(x) + Recovery(x))
             else 30 * (SlaveSamplePoint(y, ch) + SlaveRecovery(y, ch))) == if t.cycleTime <= 240 then t.cycleTime else 600
  {
    RowsGiveCycleTimes(t, ch);
    if unit == 1 { SlaveShows(y, t.registerIndex, ch); }
    hide Fast, SamplePoint, Recovery, SlaveSamplePoint, SlaveRecovery, IdetimRow, SidetimRow, Shows8;
  }

  lemma SlaveShows(y: bv8, index: nat, ch: Channel)
    requires index <= 4 && Shows8(y, SidetimRow(0, ch), SidetimRow(index, ch))
    ensures SlaveSamplePoint(y, ch) == SlaveSamplePoint(SidetimRow(index, ch), ch)
    ensures SlaveRecovery(y, ch) == SlaveRecovery(SidetimRow(index, ch), ch)
  {
  }

  lemma InForceInTables(sel: Selection)
    requires ValidSelection(sel)
    ensures var t := InForce(sel.pio, sel.dma);
            (t in PIO || t in DMA) && 1 <= t.registerIndex <= 4
  {
  }

  lemma UltraRowShows(ch: Channel, unit: nat, m: nat)
    requires unit < 2 && m < |UDMA|
    ensures UltraCycle(CycleOf(ch, unit, m), ClockOf(ch, unit, m), ch, unit) == UDMA[m].cycle
  {
    UdmaRowValues(m);
    UltraRowsGiveCycleTimes(m);
    assert m == 0 || m == 1 || m == 2 || m == 3 || m == 4 || m == 5;
  }

  lemma CutShows(x: bv16, mask: bv16, v: bv16)
    requires Shows16(x, mask, v)
    ensures Cut16(x, mask) == v
  {
  }

  // What the two computations make of the shadow, for the drive and for the other one.
  lemma RecomputeShows(r: Shadow, ch: Channel, unit: nat, sel: Selection)
    requires unit < 2 && |r.idetim| == 2 && ValidSelection(sel)
    requires Rows(r.idetim)
    ensures var t := Recompute(r, ch, unit, false, sel);
            var f := InForce(sel.pio, sel.dma);
            && Rows(t.idetim)
            && ShadowCycle(t, ch, unit) == (if f.cycleTime <= 240 then f.cycleTime else 600)
            && (On8(t.udmactl, EnableBit(ch, unit)) <==> sel.udma.Some?)
            && (sel.udma.Some? ==>
                  && Cut16(t.udmatim, CycleBits(ch, unit)) == CycleOf(ch, unit, sel.udma.value)
                  && Cut16(t.ideConfig, ClockBits(ch, unit)) == ClockOf(ch, unit, sel.udma.value))
  {
    hide ComputeTiming, ComputeUdma, SameElsewhere, Same8, Same16, Shows8, Shows16, On8, Cut16, Enables,
         IdetimRow, SidetimRow, Fast, SamplePoint, Recovery, SlaveSamplePoint, SlaveRecovery,
         EnableBit, CycleBits, ClockBits, CycleOf, ClockOf;
    var f := InForce(sel.pio, sel.dma);
    var mid := ComputeTiming(r, ch, unit, false, sel.pio, sel.dma);
    TimingOfOneDrive(r, ch, unit, false, sel.pio, sel.dma);
    KeepsIdetim(mid, ch, unit, sel.udma);
    UdmaBitsOfOneDrive(mid, ch, unit, sel.udma);
    InForceInTables(sel);
    RowCycle(mid.idetim[unit], mid.sidetim, f, ch, unit);
    assert mid.idetim[unit] == RowOrNone(f.registerIndex, unit);
    var t := Recompute(r, ch, unit, false, sel);
    if sel.udma.Some? {
      CutShows(t.udmatim, CycleBits(ch, unit), CycleOf(ch, unit, sel.udma.value));
      CutShows(t.ideConfig, ClockBits(ch, unit), ClockOf(ch, unit, sel.udma.value));
    }
  }

  lemma TimingKeepsRows(r: Shadow, ch: Channel, unit: nat, sel: Selection)
    requires unit < 2 && |r.idetim| == 2 && ValidSelection(sel)
    requires Rows(r.idetim)
    ensures var t := ComputeTiming(r, ch, unit, false, sel.pio, sel.dma);
            Rows(t.idetim)
  {
    hide ComputeTiming, Same8, Same16, Shows8, Enables, IdetimRow, SidetimRow;
    TimingOfOneDrive(r, ch, unit, false, sel.pio, sel.dma);
    InForceInTables(sel);
    assert ComputeTiming(r, ch, unit, false, sel.pio, sel.dma).idetim[unit] ==
           RowOrNone(InForce(sel.pio, sel.dma).registerIndex, unit);
  }

  lemma KeepsIdetim(r: Shadow, ch: Channel, unit: nat, udma: Option<nat>)
    requires unit < 2 && (udma.Some? ==> udma.value < |UDMA|)
    ensures ComputeUdma(r, ch, unit, udma).idetim == r.idetim && ComputeUdma(r, ch, unit, udma).sidetim == r.sidetim
  {
  }

  // END TO END. On a channel with separate drive timings, after a selection is computed and
  // written, the registers make the hardware treat the drive as selected; the drives of the
  // other channel as before; and the channel's other drive as before, if they showed it what
  // the shadow said.
  lemma SelectionReachesHardware(space: Space, ch: Channel, unit: nat, r: Shadow, sel: Selection)
    requires unit < 2 && |r.idetim| == 2 && ValidSelection(sel)
    requires Rows(r.idetim)
    ensures var t := Recompute(r, ch, unit, false, sel);
            var after := ApplyAll(space, TimingWrites(ch, false, t, 0));
            && DriveShows(after, ch, unit, sel)
            && AlikeFor(space, after, OtherChannel(ch), 0) && AlikeFor(space, after, OtherChannel(ch), 1)
            && (ShadowShown(space, ch, r, 1 - unit) ==> AlikeFor(space, after, ch, 1 - unit))
            && ShadowShown(after, ch, t, 0) && ShadowShown(after, ch, t, 1)
            && Rows(t.idetim)
  {
    hide Recompute, WriteSequence, ApplyAll, CommandCycle, ShadowCycle, UltraOn, CycleField, ClockField, UltraCycle,
         Rows, On8, Cut16, EnableBit, CycleBits, ClockBits, CycleOf, ClockOf;
    var t := Recompute(r, ch, unit, false, sel);
    RecomputeShows(r, ch, unit, sel);
    OtherDriveAlike(r, ch, unit, sel);
    SequenceShowsDrives(space, ch, t);
    if sel.udma.Some? { UltraRowShows(ch, unit, sel.udma.value); }
  }

  // What a caller of selectConfig can rely on in the registers, s before and t after.
  ghost predicate Reached(s: Space, t: Space, ch: Channel, unit: nat, sel: Selection, r: Shadow)
    requires unit < 2 && |r.idetim| == 2 && ValidSelection(sel)
  {
    && DriveShows(t, ch, unit, sel)
    && AlikeFor(s, t, OtherChannel(ch), 0) && AlikeFor(s, t, OtherChannel(ch), 1)
    && (ShadowShown(s, ch, r, 1 - unit) ==> AlikeFor(s, t, ch, 1 - unit))
  }

  // What the shadow says about the other drive of the channel does not change.
  lemma OtherDriveAlike(r: Shadow, ch: Channel, unit: nat, sel: Selection)
    requires unit < 2 && |r.idetim| == 2 && ValidSelection(sel)
    ensures var t := Recompute(r, ch, unit, false, sel);
            && ShadowCycle(t, ch, 1 - unit) == ShadowCycle(r, ch, 1 - unit)
            && (On8(t.udmactl, EnableBit(ch, 1 - unit)) <==> On8(r.udmactl, EnableBit(ch, 1 - unit)))
            && Cut16(t.udmatim, CycleBits(ch, 1 - unit)) == Cut16(r.udmatim, CycleBits(ch, 1 - unit))
            && Cut16(t.ideConfig, ClockBits(ch, 1 - unit)) == Cut16(r.ideConfig, ClockBits(ch, 1 - unit))
  {
    hide ComputeTiming, ComputeUdma, ShowsRow, Same8, Same16, Shows8, On8, Cut16, Enables, IdetimRow, SidetimRow,
         Fast, SamplePoint, Recovery, SlaveSamplePoint, SlaveRecovery, EnableBit, CycleBits, ClockBits;
    var mid := ComputeTiming(r, ch, unit, false, sel.pio, sel.dma);
    var t := Recompute(r, ch, unit, false, sel);
    TimingOfOneDrive(r, ch, unit, false, sel.pio, sel.dma);
    KeepsIdetim(mid, ch, unit, sel.udma);
    UdmaBitsOfOneDrive(mid, ch, unit, sel.udma);
    DrivesApart8(mid.udmactl, t.udmactl, ch, unit);
    DrivesApart16(mid.udmatim, t.udmatim, mid.ideConfig, t.ideConfig, ch, unit);
    EnableApart(r.ideConfig, mid.ideConfig, ch, 1 - unit);
  }

  lemma DrivesApart8(x: bv8, y: bv8, ch: Channel, unit: nat)
    requires unit < 2 && Same8(x, y, EnableBit(ch, unit))
    ensures On8(y, EnableBit(ch, 1 - unit)) <==> On8(x, EnableBit(ch, 1 - unit))
  {
  }

  lemma DrivesApart16(x: bv16, y: bv16, v: bv16, w: bv16, ch: Channel, unit: nat)
    requires unit < 2 && Same16(x, y, CycleBits(ch, unit)) && Same16(v, w, ClockBits(ch, unit))
    ensures Cut16(y, CycleBits(ch, 1 - unit)) == Cut16(x, CycleBits(ch, 1 - unit))
    ensures Cut16(w, ClockBits(ch, 1 - unit)) == Cut16(v, ClockBits(ch, 1 - unit))
  {
  }

  lemma EnableApart(x: bv16, y: bv16, ch: Channel, unit: nat)
    requires unit < 2 && Same16(x, y, WR_PP_EN)
    ensures Cut16(y, ClockBits(ch, unit)) == Cut16(x, ClockBits(ch, unit))
  {
  }

  // A channel with shared drive timings writes one drive's value to its register alone.
  lemma SharedWrite(space: Space, ch: Channel, r: Shadow, unit: nat)
    requires unit < 2 && |r.idetim| == 2
    ensures var after := ApplyAll(space, TimingWrites(ch, true, r, unit));
            && Read16(after, if ch == Primary then 0x40 else 0x42) == r.idetim[unit]
            && OnlyIdetimChanged(space, after, ch)
  {
    hide Apply, ApplyAll, Merge16, Word, Low, High;
    var op := W16(IdetimOffset(ch), r.idetim[unit], 0xffff);
    OneWrite(space, op);
    WriteShows(space, op);
    MergeShows16(Read16(space, IdetimOffset(ch)), r.idetim[unit], 0xffff);
  }

  ghost predicate OnlyIdetimChanged(s: Space, t: Space, ch: Channel) {
    forall k :: 0 <= k < SIZE && k != (if ch == Primary then 0x40 else 0x42) && k != (if ch == Primary then 0x41 else 0x43) ==>
      t[k] == s[k]
  }

  // With shared drive timings, a drive's row stands in the channel's register when the
  // drive is used, whatever was computed for the other drive meanwhile.
  lemma SharedTimingReachesHardware(space: Space, ch: Channel, unit: nat, r: Shadow, sel: Selection, other: Selection)
    requires unit < 2 && |r.idetim| == 2 && ValidSelection(sel) && ValidSelection(other)
    ensures var t := Recompute(Recompute(r, ch, unit, true, sel), ch, 1 - unit, true, other);
            var after := ApplyAll(space, TimingWrites(ch, true, t, unit));
            Read16(after, if ch == Primary then 0x40 else 0x42) == IdetimRow(true, InForce(sel.pio, sel.dma).registerIndex, unit)
  {
    hide ComputeTiming, ComputeUdma, ApplyAll, TimingWrites, Read16, IdetimRow, Same8, Same16, Shows8, Enables, SidetimRow;
    var first := Recompute(r, ch, unit, true, sel);
    TimingOfOneDrive(r, ch, unit, true, sel.pio, sel.dma);
    KeepsIdetim(ComputeTiming(r, ch, unit, true, sel.pio, sel.dma), ch, unit, sel.udma);
    TimingOfOneDrive(first, ch, 1 - unit, true, other.pio, other.dma);
    KeepsIdetim(ComputeTiming(first, ch, 1 - unit, true, other.pio, other.dma), ch, 1 - unit, other.udma);
    SharedWrite(space, ch, Recompute(first, ch, 1 - unit, true, other), unit);
  }

  // Writing a channel's timings a second time changes no register.
  lemma TimingWritesAgain(space: Space, ch: Channel, shared: bool, r: Shadow, unit: nat)
    requires unit < 2 && |r.idetim| == 2 && (!shared ==> Ready(r))
    ensures var after := ApplyAll(space, TimingWrites(ch, shared, r, unit));
            ApplyAll(after, TimingWrites(ch, shared, r, unit)) == after
  {
    hide Fields, WriteSequence, Ready, Apply, Read16, Write16, Merge16;
    if shared {
      var op, off, value := W16(IdetimOffset(ch), r.idetim[unit], 0xffff), IdetimOffset(ch), r.idetim[unit];
      var after := Apply(space, op);
      OneWrite(space, op);
      OneWrite(after, op);
      WriteShows(space, op);
      MergeShows16(Read16(space, off), value, 0xffff);
      MergeShows16(value, value, 0xffff);
      RewriteUnchanged(after, off);
      WriteIs(after, op);
    } else {
      SequenceWritesFields(space, ch, r);
      WritingAgain(ApplyAll(space, WriteSequence(ch, r)), ch, r);
    }
  }

  lemma WriteIs(s: Space, op: Op)
    requires InSpace(op) && op.W16?
    ensures Apply(s, op) == Write16(s, op.off, Merge16(Read16(s, op.off), op.data16, op.mask16))
  {
  }

  // RESELECTION. On a channel with or without shared drive timings, handing back to
  // selectConfig what it reported gives the same selection, shadow and register contents
  // if and only if no Ultra mode was asked for or the highest one, after the cable's cut,
  // is supported; otherwise the second call is refused.
  lemma ReselectingChangesNothing(c: DevConfig, s: Support, parallel: bool, ch: Channel, unit: nat, shared: bool, r: Shadow,
                                  space: Space, packet: nat)
    requires unit < 2 && |r.idetim| == 2 && InTables(s)
    requires Select(c, s, Uncapped(parallel, ch, unit, r)).Chosen?
    ensures var cable := Uncapped(parallel, ch, unit, r);
            var sel := Select(c, s, cable).selection;
            var t := Recompute(r, ch, unit, shared, sel);
            var after := ApplyAll(space, TimingWrites(ch, shared, t, 0));
            && Select(Report(c, sel, packet), s, Uncapped(parallel, ch, unit, t)) ==
               (if c.ultraMode == 0 || UltraMet(c, s, cable) then Chosen(sel) else ModeNotSupported)
            && Recompute(t, ch, unit, shared, sel) == t
            && ApplyAll(after, TimingWrites(ch, shared, t, 0)) == after
  {
    var cable := Uncapped(parallel, ch, unit, r);
    var sel := Select(c, s, cable).selection;
    var t := Recompute(r, ch, unit, shared, sel);
    hide Select, Recompute, Uncapped, Report, TimingWrites, Ready, UltraMet;
    CableReportKept(r, ch, unit, shared, sel, parallel, unit);
    SelectingAgain(c, s, cable, c, packet);
    RecomputeAgain(r, ch, unit, shared, sel);
    ComputedIsReady(r, ch, unit, shared, sel);
    TimingWritesAgain(space, ch, shared, t, 0);
  }

  // ---------------------------------------------------------------------------------
  // The driver

  datatype Answer = Configured(config: DevConfig) | BadArgument | Unsupported | Overrun

  class PataTimings {
    const provider: PciRoot
    const channel: Channel
    const shared: bool      // hasSharedDriveTimings
    const parallel: bool    // the channel mode is PATA
    const support: Support
    var idetim: seq<bv16>                   // per drive, as are the next two
    var selected: seq<Option<Selection>>
    var packetSend: seq<nat>
    var sidetim: bv8
    var udmactl: bv8
    var udmatim: bv16
    var ideConfig: bv16

    ghost predicate Valid()
      reads this, provider
    {
      && provider.Valid() && InTables(support)
      && |idetim| == |selected| == |packetSend| == 2
      && (forall unit :: 0 <= unit < 2 && selected[unit].Some? ==> ValidSelection(selected[unit].value))
      && (!shared ==> Rows(idetim))
    }

    ghost function TheShadow(): (r: Shadow)
      requires Valid()
      reads this, provider
      ensures |r.idetim| == 2
    {
      Shadow(idetim, sidetim, udmactl, udmatim, ideConfig)
    }

    // The shadow starts as zeros, but for what configurePCIDevice reads from IDECONFIG.
    constructor (provider: PciRoot, channel: Channel, shared: bool, parallel: bool, support: Support)
      requires provider.Valid() && InTables(support)
      ensures Valid()
      ensures this.provider == provider && this.channel == channel && this.shared == shared
      ensures this.parallel == parallel && this.support == support
      ensures TheShadow() == Shadow([0, 0], 0, 0, 0, Read16(provider.TheSpace(), IDECONFIG))
      ensures selected == [None, None]
    {
      this.provider, this.channel, this.shared, this.parallel, this.support := provider, channel, shared, parallel, support;
      idetim, selected, packetSend := [0, 0], [None, None], [0, 0];
      sidetim, udmactl, udmatim := 0, 0, 0;
      ideConfig := Word(provider.config[IDECONFIG], provider.config[IDECONFIG + 1]);
      NoRowsYet();
    }

    method ComputeTimingRegisters(unit: nat)
      requires Valid() && unit < 2 && selected[unit].Some?
      modifies this`sidetim, this`ideConfig, this`idetim
      ensures Valid()
      ensures var sel := selected[unit].value;
              TheShadow() == ComputeTiming(old(TheShadow()), channel, unit, shared, sel.pio, sel.dma)
    {
      hide Clear8, Clear16, Set8, Set16, IdetimRow, SidetimRow, Rows;
      if !shared { TimingKeepsRows(TheShadow(), channel, unit, selected[unit].value); }
      var sel := selected[unit].value;
      var timing := if sel.dma.Some? then DMA[sel.dma.value] else PIO[sel.pio];
      var slowPio := timing.cycleTime != PIO[sel.pio].cycleTime;
      var index := timing.registerIndex;
      var value := IdetimRow(shared, index, unit);
      if !shared {
        if unit == 1 {
          sidetim := Clear8(sidetim, SidetimRow(0, channel));
          sidetim := Set8(sidetim, SidetimRow(index, channel));
        }
        ideConfig := Set16(ideConfig, WR_PP_EN);
      }
      if slowPio {
        value := if unit == 1 then Clear16(value, 0x0080) else Clear16(value, 0x0008);
      }
      idetim := idetim[unit := value];
    }

    method ComputeUDMATimingRegisters(unit: nat)
      requires Valid() && unit < 2 && selected[unit].Some?
      modifies this`udmactl, this`udmatim, this`ideConfig
      ensures Valid()
      ensures TheShadow() == ComputeUdma(old(TheShadow()), channel, unit, selected[unit].value.udma)
    {
      hide PlaceEnable, PlaceCycle, PlaceClock, Clear8, Clear16, Set8, Set16, Cut16;
      var udmaEnableBit := PlaceEnable(channel, unit);
      udmactl := Clear8(udmactl, udmaEnableBit);
      var udma := selected[unit].value.udma;
      if udma.Some? {
        var row := UDMA[udma.value];
        var cycleBits := PlaceCycle(channel, unit, 0x0003);
        udmatim := Clear16(udmatim, cycleBits);
        udmatim := Set16(udmatim, Cut16(PlaceCycle(channel, unit, row.udmatim), cycleBits));
        ideConfig := Clear16(ideConfig, PlaceClock(channel, unit, 0x1001));
        ideConfig := Set16(ideConfig, PlaceClock(channel, unit, row.udmaClock));
        udmactl := Set8(udmactl, udmaEnableBit);
      }
    }

    method WriteTimingRegisters(unit: nat := 0)
      requires Valid() && unit < 2
      modifies provider`locked, provider.config
      ensures Valid() && TheShadow() == old(TheShadow())
      ensures provider.TheSpace() == ApplyAll(old(provider.TheSpace()), TimingWrites(channel, shared, TheShadow(), unit))
    {
      hide Apply, ApplyAll;
      ghost var s, ops := provider.TheSpace(), TimingWrites(channel, shared, TheShadow(), unit);
      var idetimOffset := if channel == Primary then IDETIM else IDETIM_S;
      if shared {
        provider.PciConfigWrite16(idetimOffset, idetim[unit]);
        OneWrite(s, ops[0]);
      } else {
        provider.PciConfigWrite16(idetimOffset, Set16(idetim[0], idetim[1]));
        provider.PciConfigWrite8(SIDETIM, sidetim, SidetimMask(channel));
        provider.PciConfigWrite8(UDMACTL, udmactl, UdmactlMask(channel));
        provider.PciConfigWrite16(UDMATIM, udmatim, UdmatimMask(channel));
        provider.PciConfigWrite16(IDECONFIG, ideConfig, IdeConfigMask(channel));
        FiveWrites(s, ops);
      }
    }

    // Before a drive is used: with shared drive timings, switch the channel to its timing.
    method SelectIOTiming(unit: nat)
      requires Valid() && unit < 2
      modifies provider`locked, provider.config
      ensures Valid() && TheShadow() == old(TheShadow())
      ensures shared ==>
                && Read16(provider.TheSpace(), if channel == Primary then 0x40 else 0x42) == idetim[unit]
                && OnlyIdetimChanged(old(provider.TheSpace()), provider.TheSpace(), channel)
      ensures !shared ==> provider.TheSpace() == old(provider.TheSpace())
    {
      hide ApplyAll, TimingWrites, Read16, OnlyIdetimChanged;
      if shared {
        SharedWrite(provider.TheSpace(), channel, TheShadow(), unit);
        WriteTimingRegisters(unit);
      }
    }

    // Cache a selection, compute its registers and write them out.
    method Install(unit: nat, sel: Selection)
      requires Valid() && unit < 2 && ValidSelection(sel)
      modifies this`sidetim, this`udmactl, this`udmatim, this`ideConfig, this`idetim, this`selected, provider`locked, provider.config
      ensures Valid() && selected == old(selected)[unit := Some(sel)]
      ensures TheShadow() == Recompute(old(TheShadow()), channel, unit, shared, sel)
      ensures !shared ==> Ready(TheShadow())
      ensures provider.TheSpace() == ApplyAll(old(provider.TheSpace()), TimingWrites(channel, shared, TheShadow(), 0))
      ensures !shared ==> Reached(old(provider.TheSpace()), provider.TheSpace(), channel, unit, sel, old(TheShadow()))
    {
      hide ComputeTiming, ComputeUdma, ApplyAll, TimingWrites, Rows, DriveShows, AlikeFor, ShadowShown;
      if !shared { SelectionReachesHardware(provider.TheSpace(), channel, unit, TheShadow(), sel); }
      ComputedIsReady(TheShadow(), channel, unit, shared, sel);
      selected := selected[unit := Some(sel)];
      ComputeTimingRegisters(unit);
      ComputeUDMATimingRegisters(unit);
      WriteTimingRegisters();
    }

    method ResetTimingsForDevice(unit: nat)
      requires Valid() && unit < 2
      modifies this`sidetim, this`udmactl, this`udmatim, this`ideConfig, this`idetim, this`selected, provider`locked, provider.config
      ensures Valid() && selected == old(selected)[unit := Some(SLOWEST)]
      ensures TheShadow() == Recompute(old(TheShadow()), channel, unit, shared, SLOWEST)
      ensures !shared ==> Ready(TheShadow())
      ensures provider.TheSpace() == ApplyAll(old(provider.TheSpace()), TimingWrites(channel, shared, TheShadow(), 0))
      ensures !shared ==> Reached(old(provider.TheSpace()), provider.TheSpace(), channel, unit, SLOWEST, old(TheShadow()))
    {
      hide Rows, Reached;
      Install(unit, SLOWEST);
    }

    method GetConfig(was: DevConfig, unit: nat) returns (answer: Answer)
      requires Valid()
      ensures unit >= 2 ==> answer == BadArgument
      ensures unit < 2 ==>
                answer == Configured(if selected[unit].Some? then Report(was, selected[unit].value, packetSend[unit])
                                     else DevConfig(0, was.pioCycleTime, 0, was.dmaCycleTime, 0, packetSend[unit]))
    {
      if unit > 1 {
        return BadArgument;
      }
      var config := was.(pioMode := 0, dmaMode := 0, ultraMode := 0, packetConfig := packetSend[unit]);
      if selected[unit].Some? {
        var sel := selected[unit].value;
        config := config.(pioMode := Bit(sel.pio), pioCycleTime := PIO[sel.pio].cycleTime);
        if sel.dma.Some? {
          config := config.(dmaMode := Bit(sel.dma.value), dmaCycleTime := DMA[sel.dma.value].cycleTime);
        }
        if sel.udma.Some? {
          config := config.(ultraMode := Bit(sel.udma.value));
        }
      }
      answer := Configured(config);
    }

    method DecidePio(config: DevConfig) returns (pio: nat)
      requires Valid()
      ensures pio == ChoosePio(config, support) && pio < |PIO|
    {
      hide Choose, BitSigToNumeric, Has;
      ChoicesInTables(config, support);
      pio := 0;
      if Shares(config.pioMode, support.pio) {
        pio := DowngradeMode(PIO, support.pio, config.pioCycleTime, BitSigToNumeric(config.pioMode));
      }
    }

    method DecideDma(config: DevConfig) returns (dma: Option<nat>)
      requires Valid() && Shares(config.dmaMode, support.dma)
      ensures dma == ChooseDma(config, support) && (dma.Some? ==> dma.value < |DMA|)
    {
      hide Choose, BitSigToNumeric, Has;
      ChoicesInTables(config, support);
      var m := DowngradeMode(DMA, support.dma, config.dmaCycleTime, BitSigToNumeric(config.dmaMode));
      dma := if Has(support.dma, m) then Some(m) else None;
    }

    // Look at the drive's cable-report bit.
    method CableDetected(unit: nat) returns (seen: bool)
      requires Valid() && unit < 2
      ensures seen <==> CableSeen(ideConfig, channel, unit)
    {
      var cableMask: bv16 := 0x0010;
      if unit == 1 {
        cableMask := cableMask << 1;
      }
      if channel == Secondary {
        cableMask := cableMask << 2;
      }
      seen := cableMask & ideConfig != 0;
    }

    // The part of selectConfig that only decides.
    method DecideTimings(config: DevConfig, unit: nat) returns (choice: Choice)
      requires Valid() && unit < 2
      ensures choice == Select(config, support, Uncapped(parallel, channel, unit, TheShadow()))
    {
      hide ChoosePio, ChooseDma, BitSigToNumeric, CableSeen, Shares;
      var pio := DecidePio(config);
      var dma, udma := None, None;
      if config.dmaMode != 0 {
        if !Shares(config.dmaMode, support.dma) {
          return ModeNotSupported;
        }
        dma := DecideDma(config);
      }
      if config.ultraMode != 0 {
        if !Shares(config.ultraMode, support.udma) {
          return ModeNotSupported;
        }
        var u := BitSigToNumeric(config.ultraMode);
        var seen := CableDetected(unit);
        if u > 2 && parallel && !seen {
          u := 2;
        }
        if u >= |UDMA| {
          return TableOverrun;
        }
        udma := Some(u);
      }
      if dma.Some? && PIO[pio].cycleTime != DMA[dma.value].cycleTime {
        pio := 0;
      }
      choice := Chosen(Selection(pio, dma, udma));
    }

    method SelectConfig(config: DevConfig, unit: nat) returns (answer: Answer)
      requires Valid()
      modifies this`sidetim, this`udmactl, this`udmatim, this`ideConfig, this`idetim, this`selected, this`packetSend
      modifies provider`locked, provider.config
      ensures Valid()
      ensures unit >= 2 ==> answer == BadArgument
      ensures unit < 2 ==>
                match Select(config, support, old(Uncapped(parallel, channel, unit, TheShadow())))
                case Chosen(sel) =>
                  && selected == old(selected)[unit := Some(sel)]
                  && packetSend == old(packetSend)[unit := config.packetConfig]
                  && TheShadow() == Recompute(old(TheShadow()), channel, unit, shared, sel)
                  && (!shared ==> Ready(TheShadow()))
                  && provider.TheSpace() == ApplyAll(old(provider.TheSpace()), TimingWrites(channel, shared, TheShadow(), 0))
                  && (!shared ==> Reached(old(provider.TheSpace()), provider.TheSpace(), channel, unit, sel, old(TheShadow())))
                  && answer == Configured(Report(config, sel, config.packetConfig))
                case ModeNotSupported => answer == Unsupported
                case TableOverrun => answer == Overrun
      ensures !answer.Configured? ==>
                && selected == old(selected) && packetSend == old(packetSend)
                && TheShadow() == old(TheShadow()) && provider.TheSpace() == old(provider.TheSpace())
    {
      hide Select, Uncapped, Recompute, ApplyAll, TimingWrites, Ready, Report, Rows, Reached;
      if unit > 1 {
        return BadArgument;
      }
      var choice := DecideTimings(config, unit);
      match choice
      case ModeNotSupported => answer := Unsupported;
      case TableOverrun => answer := Overrun;
      case Chosen(sel) =>
        Install(unit, sel);
        packetSend := packetSend[unit := config.packetConfig];
        answer := GetConfig(config, unit);
    }
  }

  lemma NoRowsYet()
    ensures Rows([0, 0])
  {
    assert RowOrNone(0, 0) == 0 && RowOrNone(0, 1) == 0;
  }

  lemma OneWrite(s: Space, op: Op)
    requires InSpace(op)
    ensures ApplyAll(s, [op]) == Apply(s, op)
  {
    hide Apply;
    assert [op][1..] == [];
  }
}
