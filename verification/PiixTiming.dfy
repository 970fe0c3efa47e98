/**
 Bus timings of a PIIX channel: the tables, the choice of a mode for a drive, and the
 timing register values that a choice leads to.
 */
module PiixTiming {
  import opened Wrappers

  // ---------------------------------------------------------------------------------
  // Tables

  datatype Timing = Timing(registerIndex: nat, cycleTime: nat)

  // The mode number is the index.
  const PIO: seq<Timing> := [Timing(1, 600), Timing(1, 383), Timing(2, 240), Timing(3, 180), Timing(4, 120)]
  const DMA: seq<Timing> := [Timing(1, 480), Timing(3, 180), Timing(4, 120)]

  datatype UdmaTiming = UdmaTiming(udmatim: bv16, udmaClock: bv16, cycle: nat)

  const UDMA: seq<UdmaTiming> := [UdmaTiming(0, 0, 120), UdmaTiming(1, 0, 90), UdmaTiming(2, 0, 60),
                                  UdmaTiming(1, 0x0001, 45), UdmaTiming(2, 0x0001, 30), UdmaTiming(1, 0x1000, 20)]

  const PIIX_IDETIM: seq<seq<bv16>> :=
    [[0xb30f, 0xf3f0], [0x8000, 0x8000], [0x9007, 0x9007], [0xa107, 0xa107], [0xa307, 0xa307]]
  const PIIX3_IDETIM: seq<seq<bv16>> :=
    [[0xb30f, 0xc0f0], [0x8000, 0xc000], [0x9007, 0xc070], [0xa107, 0xc070], [0xa307, 0xc070]]
  const PIIX3_SIDETIM: seq<seq<bv8>> :=
    [[0x0f, 0xf0], [0x00, 0x00], [0x04, 0x40], [0x09, 0x90], [0x0b, 0xb0]]

  // Both drives' values can be merged in one register: each mask row picks its drive's out.
  lemma IdetimRowsMerge(i: nat, j: nat)
    requires 1 <= i <= 4 && 1 <= j <= 4
    ensures (PIIX3_IDETIM[i][0] | PIIX3_IDETIM[j][1]) & PIIX3_IDETIM[0][0] == PIIX3_IDETIM[i][0]
    ensures (PIIX3_IDETIM[i][0] | PIIX3_IDETIM[j][1]) & PIIX3_IDETIM[0][1] == PIIX3_IDETIM[j][1]
  {
  }

  // ---------------------------------------------------------------------------------
  // What the rows say in the terms of the registers

  // The sample point and the recovery time of IDETIM, in clocks of 30 ns.
  function SamplePoint(x: bv16): nat {
    match x & 0x3000 case 0x0000 => 5 case 0x1000 => 4 case 0x2000 => 3 case _ => 2
  }

  function Recovery(x: bv16): nat {
    match x & 0x0300 case 0x0000 => 4 case 0x0100 => 3 case 0x0200 => 2 case _ => 1
  }

  // The same of SIDETIM, for drive 1 of a channel.
  function SlaveSamplePoint(x: bv8, ch: Channel): nat {
    if ch == Primary then match x & 0x0c case 0x00 => 5 case 0x04 => 4 case 0x08 => 3 case _ => 2
    else match x & 0xc0 case 0x00 => 5 case 0x40 => 4 case 0x80 => 3 case _ => 2
  }

  function SlaveRecovery(x: bv8, ch: Channel): nat {
    if ch == Primary then match x & 0x03 case 0x00 => 4 case 0x01 => 3 case 0x02 => 2 case _ => 1
    else match x & 0x30 case 0x00 => 4 case 0x10 => 3 case 0x20 => 2 case _ => 1
  }

  // Fast timing is enabled for a drive.
  predicate Fast(x: bv16, unit: nat) {
    if unit == 0 then x & 0x0001 != 0 else x & 0x0010 != 0
  }

  // ROWS AND CYCLE TIMES. On controllers with separate drive timings, the row of a mode gives
  // each drive the mode's cycle time: fast timing with that many clocks, or, for the slowest
  // row, no fast timing at all. Drive 1 has its clocks in SIDETIM, which its row turns on.
  // Each row turns on the decoding of the channel.
  lemma RowsGiveCycleTimes(t: Timing, ch: Channel)
    requires t in PIO || t in DMA
    ensures 1 <= t.registerIndex <= 4
    ensures var x0, x1, y := IdetimRow(false, t.registerIndex, 0), IdetimRow(false, t.registerIndex, 1), SidetimRow(t.registerIndex, ch);
            && x0 & 0x8000 != 0 && x1 & 0xc000 == 0xc000
            && (t.registerIndex == 1 <==> t.cycleTime > 240)
            && (t.registerIndex == 1 ==> !Fast(x0, 0) && !Fast(x1, 1))
            && (t.registerIndex > 1 ==>
                  && Fast(x0, 0) && 30 * (SamplePoint(x0) + Recovery(x0)) == t.cycleTime
                  && Fast(x1, 1) && 30 * (SlaveSamplePoint(y, ch) + SlaveRecovery(y, ch)) == t.cycleTime)
  {
    assert forall k :: 0 <= k < |PIO| ==> PIO[k].registerIndex <= 4;
    assert forall k :: 0 <= k < |DMA| ==> DMA[k].registerIndex <= 4;
    if t in PIO {
      var k :| 0 <= k < |PIO| && PIO[k] == t;
      assert k == 0 || k == 1 || k == 2 || k == 3 || k == 4;
    } else {
      var k :| 0 <= k < |DMA| && DMA[k] == t;
      assert k == 0 || k == 1 || k == 2;
    }
  }

  // Controllers with shared drive timings get the right clocks in both rows, but the rows of
  // drive 1 enable fast timing for drive 0 only.
  lemma SharedRows(t: Timing)
    requires t in PIO || t in DMA
    ensures 1 <= t.registerIndex <= 4
    ensures var x0, x1 := IdetimRow(true, t.registerIndex, 0), IdetimRow(true, t.registerIndex, 1);
            && (t.registerIndex > 1 ==>
                  && 30 * (SamplePoint(x0) + Recovery(x0)) == 30 * (SamplePoint(x1) + Recovery(x1)) == t.cycleTime
                  && Fast(x0, 0) && Fast(x1, 0))
            && !Fast(x1, 1)
  {
    if t in PIO {
      var k :| 0 <= k < |PIO| && PIO[k] == t;
      assert k == 0 || k == 1 || k == 2 || k == 3 || k == 4;
    } else {
      var k :| 0 <= k < |DMA| && DMA[k] == t;
      assert k == 0 || k == 1 || k == 2;
    }
  }

  // The cycle time of an Ultra mode: 4 clocks less the UDMATIM field, at 30 ns or, with the
  // clock bit, 15 ns. The fastest mode alone has the bit for the fastest clock.
  lemma UltraRowsGiveCycleTimes(m: nat)
    requires m < |UDMA|
    ensures var row := UDMA[m];
            var clocks := if row.udmatim == 0 then 4 else if row.udmatim == 1 then 3 else 2;
            && (m < 5 ==> row.cycle == clocks * (if row.udmaClock == 0 then 30 else 15))
            && (row.udmaClock == 0x1000 <==> m == 5)
            && (row.udmaClock == 0 <==> m <= 2)
            && (m > 0 ==> row.cycle < UDMA[m - 1].cycle)
  {
  }

  // ---------------------------------------------------------------------------------
  // Bit-significant mode numbers

  function Bit(m: nat): (b: bv8)
    requires m < 8
    ensures b != 0
  {
    match m
    case 0 => 0x01 case 1 => 0x02 case 2 => 0x04 case 3 => 0x08
    case 4 => 0x10 case 5 => 0x20 case 6 => 0x40 case _ => 0x80
  }

  predicate Has(mask: bv8, m: nat) {
    m < 8 && mask & Bit(m) != 0
  }

  // A mode in both masks.
  predicate Shares(mask: bv8, mask': bv8) {
    mask & mask' != 0
  }

  // The index of the highest bit set.
  function BitSigToNumeric(mask: bv8): (m: nat)
    requires mask != 0
    ensures m < 8 && Has(mask, m)
    ensures forall k :: m < k < 8 ==> !Has(mask, k)
  {
    if mask & 0x80 != 0 then 7 else if mask & 0x40 != 0 then 6 else if mask & 0x20 != 0 then 5
    else if mask & 0x10 != 0 then 4 else if mask & 0x08 != 0 then 3 else if mask & 0x04 != 0 then 2
    else if mask & 0x02 != 0 then 1 else 0
  }

  lemma SingleBit(m: nat, mask: bv8)
    requires m < 8
    ensures BitSigToNumeric(Bit(m)) == m
    ensures Shares(Bit(m), mask) <==> Has(mask, m)
  {
  }

  // A mask cut to the size of a table has no mode outside it.
  lemma MaskInTable(mask: bv8, m: nat)
    requires Has(mask & 0x1f, m) || Has(mask & 0x07, m) || Has(mask & 0x3f, m)
    ensures Has(mask & 0x1f, m) ==> m < |PIO|
    ensures Has(mask & 0x07, m) ==> m < |DMA|
    ensures Has(mask & 0x3f, m) ==> m < |UDMA|
  {
  }

  // ---------------------------------------------------------------------------------
  // Choosing a PIO or DMA mode

  // The controller has the mode and the drive is fast enough for its cycle time.
  predicate Suits(table: seq<Timing>, supported: bv8, cycleTime: nat, m: nat) {
    Has(supported, m) && m < |table| && cycleTime <= table[m].cycleTime
  }

  // The greatest mode up to `top` that suits, or 0.
  function Choose(table: seq<Timing>, supported: bv8, cycleTime: nat, top: nat): (m: nat)
    ensures m <= top
    ensures m == 0 || Suits(table, supported, cycleTime, m)
    ensures forall k :: m < k <= top ==> !Suits(table, supported, cycleTime, k)
  {
    if top == 0 || Suits(table, supported, cycleTime, top) then top
    else Choose(table, supported, cycleTime, top - 1)
  }

  // The downgrade loop, with its table lookups guarded by the support mask only.
  method DowngradeMode(table: seq<Timing>, supported: bv8, cycleTime: nat, top: nat) returns (m: nat)
    requires forall k: nat :: Has(supported, k) ==> k < |table|
    ensures m == Choose(table, supported, cycleTime, top)
  {
    m := top;
    while m > 0
      invariant m <= top
      invariant Choose(table, supported, cycleTime, m) == Choose(table, supported, cycleTime, top)
    {
      if Has(supported, m) && cycleTime <= table[m].cycleTime {
        break;
      }
      m := m - 1;
    }
  }

  // What the drive reports and asks for; the driver hands back what it selected.
  datatype DevConfig = DevConfig(pioMode: bv8, pioCycleTime: nat, dmaMode: bv8, dmaCycleTime: nat,
                                 ultraMode: bv8, packetConfig: nat)

  // What the controller has, each mask cut to the size of its table.
  datatype Support = Support(pio: bv8, dma: bv8, udma: bv8)

  predicate InTables(s: Support) {
    s.pio & 0x1f == s.pio && s.dma & 0x07 == s.dma && s.udma & 0x3f == s.udma
  }

  datatype Selection = Selection(pio: nat, dma: Option<nat>, udma: Option<nat>)

  predicate ValidSelection(s: Selection) {
    && s.pio < |PIO|
    && (s.dma.Some? ==> s.dma.value < |DMA|)
    && (s.udma.Some? ==> s.udma.value < |UDMA|)
  }

  datatype Choice = Chosen(selection: Selection) | ModeNotSupported | TableOverrun

  function ChoosePio(c: DevConfig, s: Support): nat {
    if !Shares(c.pioMode, s.pio) then 0
    else Choose(PIO, s.pio, c.pioCycleTime, BitSigToNumeric(c.pioMode))
  }

  function ChooseDma(c: DevConfig, s: Support): Option<nat>
    requires Shares(c.dmaMode, s.dma)
  {
    var m := Choose(DMA, s.dma, c.dmaCycleTime, BitSigToNumeric(c.dmaMode));
    if Has(s.dma, m) then Some(m) else None
  }

  // The Ultra mode, capped at 2 when no 80-conductor cable is reported.
  function ChooseUdma(c: DevConfig, cable: bool): nat
    requires c.ultraMode != 0
  {
    var m := BitSigToNumeric(c.ultraMode);
    if m > 2 && !cable then 2 else m
  }

  // PIO falls back to compatible timing when DMA needs another cycle time.
  function Reconcile(pio: nat, dma: Option<nat>): nat
    requires pio < |PIO| && (dma.Some? ==> dma.value < |DMA|)
  {
    if dma.Some? && PIO[pio].cycleTime != DMA[dma.value].cycleTime then 0 else pio
  }

  function Select(c: DevConfig, s: Support, cable: bool): (r: Choice)
    requires InTables(s)
    ensures r.Chosen? ==> ValidSelection(r.selection)
  {
    ChoicesInTables(c, s);
    if c.dmaMode != 0 && !Shares(c.dmaMode, s.dma) then ModeNotSupported
    else if c.ultraMode != 0 && !Shares(c.ultraMode, s.udma) then ModeNotSupported
    else
      var dma := if c.dmaMode == 0 then None else ChooseDma(c, s);
      var pio := Reconcile(ChoosePio(c, s), dma);
      if c.ultraMode == 0 then Chosen(Selection(pio, dma, None))
      else
        var u := ChooseUdma(c, cable);
        if u < |UDMA| then Chosen(Selection(pio, dma, Some(u))) else TableOverrun
  }

  // No PIO or DMA lookup is out of range.
  lemma ChoicesInTables(c: DevConfig, s: Support)
    requires InTables(s)
    ensures ChoosePio(c, s) < |PIO|
    ensures Shares(c.dmaMode, s.dma) && ChooseDma(c, s).Some? ==> ChooseDma(c, s).value < |DMA|
    ensures forall k: nat :: Has(s.pio, k) ==> k < |PIO|
    ensures forall k: nat :: Has(s.dma, k) ==> k < |DMA|
  {
    forall k: nat | Has(s.pio, k)
      ensures k < |PIO|
    {
      MaskInTable(s.pio, k);
    }
    forall k: nat | Has(s.dma, k)
      ensures k < |DMA|
    {
      MaskInTable(s.dma, k);
    }
  }

  ghost predicate GreatestSuiting(table: seq<Timing>, supported: bv8, cycleTime: nat, top: nat, m: nat) {
    && m <= top
    && (m == 0 || Suits(table, supported, cycleTime, m))
    && forall k: nat :: m < k <= top ==> !Suits(table, supported, cycleTime, k)
  }

  // MODE SELECTION. The PIO mode before reconciliation is the greatest supported mode not
  // above the request whose cycle time is at least the drive's, else 0; likewise for DMA,
  // where mode 0 is no mode at all unless the controller has it.
  lemma SelectionIsGreatest(c: DevConfig, s: Support, m: nat)
    requires InTables(s)
    ensures !Shares(c.pioMode, s.pio) ==> ChoosePio(c, s) == 0
    ensures Shares(c.pioMode, s.pio) ==>
              (m == ChoosePio(c, s) <==> GreatestSuiting(PIO, s.pio, c.pioCycleTime, BitSigToNumeric(c.pioMode), m))
    ensures Shares(c.dmaMode, s.dma) && GreatestSuiting(DMA, s.dma, c.dmaCycleTime, BitSigToNumeric(c.dmaMode), m) ==>
              ChooseDma(c, s) == if Has(s.dma, m) then Some(m) else None
  {
    hide BitSigToNumeric, Suits;
    if Shares(c.pioMode, s.pio) {
      GreatestIsUnique(PIO, s.pio, c.pioCycleTime, BitSigToNumeric(c.pioMode), m);
    }
    if Shares(c.dmaMode, s.dma) {
      GreatestIsUnique(DMA, s.dma, c.dmaCycleTime, BitSigToNumeric(c.dmaMode), m);
    }
  }

  lemma GreatestIsUnique(table: seq<Timing>, supported: bv8, cycleTime: nat, top: nat, m: nat)
    ensures GreatestSuiting(table, supported, cycleTime, top, m) <==> m == Choose(table, supported, cycleTime, top)
  {
    hide Suits;
  }

  // The greatest mode of a table that suits a request, or 0.
  ghost predicate Greatest(table: seq<Timing>, supported: bv8, asked: bv8, cycleTime: nat, m: nat) {
    if !Shares(asked, supported) then m == 0
    else asked != 0 && GreatestSuiting(table, supported, cycleTime, BitSigToNumeric(asked), m)
  }

  lemma SharedIsAsked(asked: bv8, supported: bv8)
    requires Shares(asked, supported)
    ensures asked != 0
  {
  }

  // THE SELECTED MODES, said of the result. With `p` and `d` the greatest suiting modes, DMA
  // is d where DMA is asked for, unless d is 0 and the controller lacks mode 0; PIO is p if
  // no DMA mode is selected or the two have the same cycle time, and otherwise 0; and Ultra
  // is the highest mode asked for, cut to 2 without the cable.
  lemma SelectedModes(c: DevConfig, s: Support, cable: bool, p: nat, d: nat)
    requires InTables(s) && Select(c, s, cable).Chosen?
    requires Greatest(PIO, s.pio, c.pioMode, c.pioCycleTime, p) && p < |PIO|
    requires c.dmaMode != 0 ==> Greatest(DMA, s.dma, c.dmaMode, c.dmaCycleTime, d) && d < |DMA|
    ensures var sel := Select(c, s, cable).selection;
            && sel.dma == (if c.dmaMode != 0 && Has(s.dma, d) then Some(d) else None)
            && sel.pio == (if c.dmaMode == 0 || !Has(s.dma, d) || PIO[p].cycleTime == DMA[d].cycleTime then p else 0)
            && (sel.udma.None? <==> c.ultraMode == 0)
            && (sel.udma.Some? ==>
                  sel.udma.value == if BitSigToNumeric(c.ultraMode) > 2 && !cable then 2 else BitSigToNumeric(c.ultraMode))
  {
    SelectionIsGreatest(c, s, p);
    SelectionIsGreatest(c, s, d);
    hide Choose, ChoosePio, ChooseDma, Shares, Has, BitSigToNumeric, GreatestSuiting;
  }

  // Such modes always exist, so the selection is determined.
  lemma GreatestExists(table: seq<Timing>, supported: bv8, asked: bv8, cycleTime: nat)
    requires forall k: nat :: Has(supported, k) ==> k < |table|
    requires table != []
    ensures exists m: nat :: Greatest(table, supported, asked, cycleTime, m) && m < |table|
  {
    if Shares(asked, supported) {
      SharedIsAsked(asked, supported);
      hide BitSigToNumeric;
      var m := Choose(table, supported, cycleTime, BitSigToNumeric(asked));
      GreatestIsUnique(table, supported, cycleTime, BitSigToNumeric(asked), m);
      assert Greatest(table, supported, asked, cycleTime, m) && m < |table|;
    } else {
      assert Greatest(table, supported, asked, cycleTime, 0) && 0 < |table|;
    }
  }

  // A drive that does PIO mode 4 and DMA mode 2, both in 120 ns, gets both.
  lemma EqualCycleTimesExample()
    ensures Select(DevConfig(0x1f, 120, 0x07, 120, 0, 0), Support(0x1d, 0x06, 0x3f), true) == Chosen(Selection(4, Some(2), None))
  {
    assert Shares(0x1f, 0x1d) && Shares(0x07, 0x06);
    assert BitSigToNumeric(0x1f) == 4 && BitSigToNumeric(0x07) == 2;
    assert Has(0x1d, 4) && Has(0x06, 2);
  }

  // A request is refused exactly if it asks for DMA or Ultra modes of which none is
  // supported. Otherwise PIO keeps its own timing only if that is DMA's too, and no Ultra
  // mode above 2 is chosen without the cable for it.
  lemma SelectionKeepsLimits(c: DevConfig, s: Support, cable: bool)
    requires InTables(s)
    ensures Select(c, s, cable).ModeNotSupported? <==>
            (c.dmaMode != 0 && !Shares(c.dmaMode, s.dma)) || (c.ultraMode != 0 && !Shares(c.ultraMode, s.udma))
    ensures Select(c, s, cable).Chosen? ==>
              var sel := Select(c, s, cable).selection;
              && (c.dmaMode == 0 ==> sel.dma.None?) && (c.ultraMode == 0 <==> sel.udma.None?)
              && (sel.dma.None? ==> sel.pio == ChoosePio(c, s))
              && (sel.dma.Some? ==>
                    sel.pio == 0 ||
                    (sel.pio == ChoosePio(c, s) && InForce(sel.pio, sel.dma).cycleTime == PIO[sel.pio].cycleTime))
              && (sel.udma.Some? && !cable ==> sel.udma.value <= 2)
              && (sel.udma.Some? && sel.udma.value > 2 ==> Has(c.ultraMode, sel.udma.value))
  {
    hide Choose, ChoosePio, ChooseDma, Shares, Has, BitSigToNumeric;
  }

  // The highest Ultra mode asked for, cut to 2 where the cable for more is not reported,
  // is one the controller has.
  predicate UltraMet(c: DevConfig, s: Support, cable: bool)
    requires c.ultraMode != 0
  {
    var highest := BitSigToNumeric(c.ultraMode);
    Has(s.udma, if highest > 2 && !cable then 2 else highest)
  }

  // ULTRA MODE. A request ends with a supported Ultra mode selected if and only if its DMA
  // modes, if any, and its Ultra modes each include a supported one and the highest Ultra
  // mode, after the cable's cut, is supported too. The lookup runs past the table if and
  // only if, with the same modes shared, a mode of 6 or more is asked for and not cut.
  lemma UltraModeSupportedIff(c: DevConfig, s: Support, cable: bool)
    requires InTables(s) && c.ultraMode != 0
    ensures var r := Select(c, s, cable);
            r.Chosen? && Has(s.udma, r.selection.udma.value) <==>
            (c.dmaMode == 0 || Shares(c.dmaMode, s.dma)) && Shares(c.ultraMode, s.udma) && UltraMet(c, s, cable)
    ensures Select(c, s, cable).TableOverrun? <==>
            && (c.dmaMode == 0 || Shares(c.dmaMode, s.dma)) && Shares(c.ultraMode, s.udma)
            && BitSigToNumeric(c.ultraMode) >= 6 && cable
  {
    MaskInTableUltra(s);
    hide BitSigToNumeric, Shares, Has, ChoosePio, ChooseDma;
  }

  lemma MaskInTableUltra(s: Support)
    requires InTables(s)
    ensures forall k: nat :: Has(s.udma, k) ==> k < |UDMA|
  {
    forall k: nat | Has(s.udma, k)
      ensures k < |UDMA|
    {
      MaskInTable(s.udma, k);
    }
  }

  // A controller without mode 5 is given mode 5, because mode 0 is asked for as well.
  lemma UnsupportedModeExample()
    ensures Select(DevConfig(0, 0, 0, 0, 0x21, 0), Support(0x1f, 0x07, 0x07), true) == Chosen(Selection(0, None, Some(5)))
    ensures !Has(0x07, 5)
  {
  }

  // Asking for mode 6 along with a supported mode runs past the table.
  lemma UltraOverrunExample()
    ensures Select(DevConfig(0, 0, 0, 0, 0x41, 0), Support(0x1f, 0x07, 0x3f), true) == TableOverrun
  {
  }

  // What getConfig puts in the caller's record; without a DMA mode the record keeps its
  // DMA cycle time.
  function Report(was: DevConfig, sel: Selection, packet: nat): DevConfig
    requires ValidSelection(sel)
  {
    DevConfig(Bit(sel.pio), PIO[sel.pio].cycleTime,
              if sel.dma.Some? then Bit(sel.dma.value) else 0,
              if sel.dma.Some? then DMA[sel.dma.value].cycleTime else was.dmaCycleTime,
              if sel.udma.Some? then Bit(sel.udma.value) else 0,
              packet)
  }

  lemma OneBit(m: nat, k: nat)
    requires m < 8
    ensures Has(Bit(m), k) <==> k == m
    ensures !Has(0, k)
  {
  }

  // The record names each selected mode and no other, and the cycle times of the selection.
  lemma ReportNamesSelection(was: DevConfig, sel: Selection, packet: nat, k: nat)
    requires ValidSelection(sel)
    ensures var r := Report(was, sel, packet);
            && (Has(r.pioMode, k) <==> sel.pio == k)
            && (Has(r.dmaMode, k) <==> sel.dma == Some(k))
            && (Has(r.ultraMode, k) <==> sel.udma == Some(k))
            && r.pioCycleTime == InForce(sel.pio, None).cycleTime
            && (sel.dma.Some? ==> r.dmaCycleTime == InForce(sel.pio, sel.dma).cycleTime)
            && r.packetConfig == packet
  {
    hide Has, Bit;
    OneBit(sel.pio, k);
    if sel.dma.Some? { OneBit(sel.dma.value, k); }
    if sel.udma.Some? { OneBit(sel.udma.value, k); }
    OneBit(0, k);
  }

  // IDEMPOTENCE. Selecting again what was reported gives the same selection if and only if
  // no Ultra mode was asked for or the highest one, after the cable's cut, is supported;
  // otherwise it is refused.
  lemma SelectingAgain(c: DevConfig, s: Support, cable: bool, was: DevConfig, packet: nat)
    requires InTables(s) && Select(c, s, cable).Chosen?
    ensures var sel := Select(c, s, cable).selection;
            Select(Report(was, sel, packet), s, cable) ==
            if c.ultraMode == 0 || UltraMet(c, s, cable) then Chosen(sel) else ModeNotSupported
  {
    hide Bit, Has, BitSigToNumeric, Choose, ChooseDma, ChoosePio, ChooseUdma, Reconcile, Shares, InTables, UltraMet;
    var sel := Select(c, s, cable).selection;
    var d := Report(was, sel, packet);
    ChoicesInTables(c, s);
    ReconcileAgain(ChoosePio(c, s), sel.dma);
    PioAgain(c, s, sel.pio, d);
    if sel.dma.Some? {
      DmaAgain(c, s, d);
    }
    if sel.udma.Some? {
      UdmaAgain(c, s, cable, d);
    }
  }

  lemma ReconcileAgain(pio: nat, dma: Option<nat>)
    requires pio < |PIO| && (dma.Some? ==> dma.value < |DMA|)
    ensures Reconcile(pio, dma) == 0 || Reconcile(pio, dma) == pio
    ensures Reconcile(Reconcile(pio, dma), dma) == Reconcile(pio, dma)
  {
  }

  lemma UdmaAgain(c: DevConfig, s: Support, cable: bool, d: DevConfig)
    requires c.ultraMode != 0 && d.ultraMode == Bit(ChooseUdma(c, cable))
    ensures d.ultraMode != 0 && ChooseUdma(d, cable) == ChooseUdma(c, cable)
    ensures Shares(d.ultraMode, s.udma) <==> UltraMet(c, s, cable)
  {
    SingleBit(ChooseUdma(c, cable), s.udma);
  }

  // A PIO mode that was chosen, or 0, is chosen again.
  lemma PioAgain(c: DevConfig, s: Support, pio: nat, d: DevConfig)
    requires InTables(s) && (pio == 0 || pio == ChoosePio(c, s)) && pio < |PIO|
    requires d.pioMode == Bit(pio) && d.pioCycleTime == PIO[pio].cycleTime
    ensures ChoosePio(d, s) == pio
  {
    SingleBit(pio, s.pio);
  }

  lemma DmaAgain(c: DevConfig, s: Support, d: DevConfig)
    requires InTables(s) && Shares(c.dmaMode, s.dma) && ChooseDma(c, s).Some? && ChooseDma(c, s).value < |DMA|
    requires d.dmaMode == Bit(ChooseDma(c, s).value) && d.dmaCycleTime == DMA[ChooseDma(c, s).value].cycleTime
    ensures d.dmaMode != 0 && Shares(d.dmaMode, s.dma) && ChooseDma(d, s) == ChooseDma(c, s)
  {
    SingleBit(ChooseDma(c, s).value, s.dma);
  }

  // ---------------------------------------------------------------------------------
  // Register values

  datatype Channel = Primary | Secondary

  // The driver's shadow of the timing registers.
  datatype Shadow = Shadow(idetim: seq<bv16>, sidetim: bv8, udmactl: bv8, udmatim: bv16, ideConfig: bv16)

  const WR_PP_EN: bv16 := 0x0400
  const CABLE_BITS: bv16 := 0x00f0

  // The bits of each register that belong to one drive.
  function EnableBit(ch: Channel, unit: nat): bv8
    requires unit < 2
  {
    match ch
    case Primary => if unit == 0 then 0x01 else 0x02
    case Secondary => if unit == 0 then 0x04 else 0x08
  }

  function CycleBits(ch: Channel, unit: nat): bv16
    requires unit < 2
  {
    match ch
    case Primary => if unit == 0 then 0x0003 else 0x0030
    case Secondary => if unit == 0 then 0x0300 else 0x3000
  }

  function ClockBits(ch: Channel, unit: nat): bv16
    requires unit < 2
  {
    match ch
    case Primary => if unit == 0 then 0x1001 else 0x2002
    case Secondary => if unit == 0 then 0x4004 else 0x8008
  }

  function SidetimColumn(ch: Channel): (k: nat)
    ensures k < 2
  {
    if ch == Primary then 0 else 1
  }

  // The timing in force: DMA's if there is one.
  function InForce(pio: nat, dma: Option<nat>): (t: Timing)
    requires pio < |PIO| && (dma.Some? ==> dma.value < |DMA|)
    ensures 1 <= t.registerIndex <= 4
  {
    if dma.Some? then DMA[dma.value] else PIO[pio]
  }

  function Clear8(x: bv8, mask: bv8): bv8 { x & !mask }
  function Clear16(x: bv16, mask: bv16): bv16 { x & !mask }
  function Set8(x: bv8, v: bv8): bv8 { x | v }
  function Set16(x: bv16, v: bv16): bv16 { x | v }
  function Cut16(x: bv16, mask: bv16): bv16 { x & mask }

  function IdetimRow(shared: bool, index: nat, unit: nat): bv16
    requires index <= 4 && unit < 2
  {
    if shared then PIIX_IDETIM[index][unit] else PIIX3_IDETIM[index][unit]
  }

  function SidetimRow(index: nat, ch: Channel): bv8
    requires index <= 4
  {
    PIIX3_SIDETIM[index][SidetimColumn(ch)]
  }

  function IdetimValue(unit: nat, shared: bool, pio: nat, dma: Option<nat>): bv16
    requires unit < 2 && pio < |PIO| && (dma.Some? ==> dma.value < |DMA|)
  {
    var timing := InForce(pio, dma);
    var value := IdetimRow(shared, timing.registerIndex, unit);
    var slowPio := timing.cycleTime != PIO[pio].cycleTime;
    if !slowPio then value else if unit == 1 then Clear16(value, 0x0080) else Clear16(value, 0x0008)
  }

  function SidetimValue(x: bv8, ch: Channel, index: nat): bv8
    requires index <= 4
  {
    Set8(Clear8(x, SidetimRow(0, ch)), SidetimRow(index, ch))
  }

  // computeTimingRegisters
  function ComputeTiming(r: Shadow, ch: Channel, unit: nat, shared: bool, pio: nat, dma: Option<nat>): Shadow
    requires unit < 2 && |r.idetim| == 2
    requires pio < |PIO| && (dma.Some? ==> dma.value < |DMA|)
  {
    Shadow(r.idetim[unit := IdetimValue(unit, shared, pio, dma)],
           if !shared && unit == 1 then SidetimValue(r.sidetim, ch, InForce(pio, dma).registerIndex) else r.sidetim,
           r.udmactl, r.udmatim,
           if shared then r.ideConfig else Set16(r.ideConfig, WR_PP_EN))
  }

  // A field of drive 0 of the primary channel, shifted to a drive's place: 8 more for the
  // secondary channel and 4 more for drive 1 in UDMATIM, 2 and 1 more in IDECONFIG.
  function PlaceCycle(ch: Channel, unit: nat, x: bv16): bv16
    requires unit < 2
  {
    match ch
    case Primary => if unit == 0 then x else x << 4
    case Secondary => if unit == 0 then x << 8 else x << 12
  }

  function PlaceEnable(ch: Channel, unit: nat): bv8
    requires unit < 2
  {
    var enable: bv8 := if ch == Secondary then 0x01 << 2 else 0x01;
    if unit == 1 then enable << 1 else enable
  }

  function PlaceClock(ch: Channel, unit: nat, x: bv16): bv16
    requires unit < 2
  {
    match ch
    case Primary => if unit == 0 then x else x << 1
    case Secondary => if unit == 0 then x << 2 else x << 3
  }

  // computeUDMATimingRegisters
  function ComputeUdma(r: Shadow, ch: Channel, unit: nat, udma: Option<nat>): Shadow
    requires unit < 2 && (udma.Some? ==> udma.value < |UDMA|)
  {
    var enable := PlaceEnable(ch, unit);
    var off := r.(udmactl := Clear8(r.udmactl, enable));
    if udma.None? then
      off
    else
      var row := UDMA[udma.value];
      var pct := PlaceCycle(ch, unit, 0x0003);
      off.(udmatim := Set16(Clear16(r.udmatim, pct), Cut16(PlaceCycle(ch, unit, row.udmatim), pct)),
           ideConfig := Set16(Clear16(r.ideConfig, PlaceClock(ch, unit, 0x1001)), PlaceClock(ch, unit, row.udmaClock)),
           udmactl := Set8(off.udmactl, enable))
  }

  // The cycle and clock bits of a table row, moved to a drive's place.
  function CycleOf(ch: Channel, unit: nat, m: nat): bv16
    requires unit < 2 && m < |UDMA|
  {
    CycleBits(ch, unit) & (if UDMA[m].udmatim == 0 then 0 else if UDMA[m].udmatim == 1 then 0x1111 else 0x2222)
  }

  function ClockOf(ch: Channel, unit: nat, m: nat): bv16
    requires unit < 2 && m < |UDMA|
  {
    ClockBits(ch, unit) & (if UDMA[m].udmaClock == 0 then 0 else if UDMA[m].udmaClock == 0x0001 then 0x000f else 0xf000)
  }

  // Two register values that differ in the masked bits at most; the masked bits alone.
  predicate Same16(x: bv16, y: bv16, mask: bv16) { x & !mask == y & !mask }
  predicate Same8(x: bv8, y: bv8, mask: bv8) { x & !mask == y & !mask }
  predicate Shows16(x: bv16, mask: bv16, v: bv16) { x & mask == v }
  predicate Shows8(x: bv8, mask: bv8, v: bv8) { x & mask == v }
  predicate On8(x: bv8, mask: bv8) { x & mask != 0 }

  // Two shadows that differ in one drive's Ultra bits at most.
  ghost predicate SameElsewhere(r: Shadow, t: Shadow, ch: Channel, unit: nat)
    requires unit < 2
  {
    && t.idetim == r.idetim && t.sidetim == r.sidetim
    && Same8(r.udmactl, t.udmactl, EnableBit(ch, unit))
    && Same16(r.udmatim, t.udmatim, CycleBits(ch, unit))
    && Same16(r.ideConfig, t.ideConfig, ClockBits(ch, unit))
  }

  // The drive's Ultra bits stand for a table row, or the drive is off.
  ghost predicate ShowsRow(t: Shadow, ch: Channel, unit: nat, udma: Option<nat>)
    requires unit < 2 && (udma.Some? ==> udma.value < |UDMA|)
  {
    && (On8(t.udmactl, EnableBit(ch, unit)) <==> udma.Some?)
    && (udma.Some? ==>
          && Shows16(t.udmatim, CycleBits(ch, unit), CycleOf(ch, unit, udma.value))
          && Shows16(t.ideConfig, ClockBits(ch, unit), ClockOf(ch, unit, udma.value)))
  }

  lemma UdmaRowValues(m: nat)
    requires m < |UDMA|
    ensures UDMA[m].udmatim == 0 || UDMA[m].udmatim == 1 || UDMA[m].udmatim == 2
    ensures UDMA[m].udmaClock == 0 || UDMA[m].udmaClock == 0x0001 || UDMA[m].udmaClock == 0x1000
  {
  }

  lemma UdmaEnable(r: Shadow, ch: Channel, unit: nat, udma: Option<nat>)
    requires unit < 2 && (udma.Some? ==> udma.value < |UDMA|)
    ensures Same8(r.udmactl, ComputeUdma(r, ch, unit, udma).udmactl, EnableBit(ch, unit))
    ensures On8(ComputeUdma(r, ch, unit, udma).udmactl, EnableBit(ch, unit)) <==> udma.Some?
  {
  }

  // A field replaced by a value inside its mask.
  predicate Inside16(v: bv16, mask: bv16) { v & mask == v }
  predicate Merged16(x: bv16, y: bv16, mask: bv16, v: bv16) { y == (x & !mask) | v }

  lemma MergedShows(x: bv16, y: bv16, mask: bv16, v: bv16)
    requires Merged16(x, y, mask, v) && Inside16(v, mask)
    ensures Same16(x, y, mask)
    ensures Shows16(y, mask, v)
  {
  }

  lemma PlacedCycle(ch: Channel, unit: nat, v: bv16)
    requires unit < 2 && (v == 0 || v == 1 || v == 2)
    ensures PlaceCycle(ch, unit, 0x0003) == CycleBits(ch, unit)
    ensures PlaceCycle(ch, unit, v) & CycleBits(ch, unit) ==
            CycleBits(ch, unit) & if v == 0 then 0 else if v == 1 then 0x1111 else 0x2222
  {
  }

  lemma PlacedClock(ch: Channel, unit: nat, v: bv16)
    requires unit < 2 && (v == 0 || v == 0x0001 || v == 0x1000)
    ensures PlaceClock(ch, unit, 0x1001) == ClockBits(ch, unit)
    ensures PlaceClock(ch, unit, v) ==
            ClockBits(ch, unit) & if v == 0 then 0 else if v == 0x0001 then 0x000f else 0xf000
  {
  }

  // The shifts of the code put each field in the drive's own place.
  lemma UdmaCycleMerged(r: Shadow, ch: Channel, unit: nat, m: nat)
    requires unit < 2 && m < |UDMA|
    ensures Merged16(r.udmatim, ComputeUdma(r, ch, unit, Some(m)).udmatim, CycleBits(ch, unit), CycleOf(ch, unit, m))
  {
    UdmaRowValues(m);
    PlacedCycle(ch, unit, UDMA[m].udmatim);
  }

  lemma UdmaClockMerged(r: Shadow, ch: Channel, unit: nat, m: nat)
    requires unit < 2 && m < |UDMA|
    ensures Merged16(r.ideConfig, ComputeUdma(r, ch, unit, Some(m)).ideConfig, ClockBits(ch, unit), ClockOf(ch, unit, m))
  {
    UdmaRowValues(m);
    PlacedClock(ch, unit, UDMA[m].udmaClock);
  }

  lemma RowsInside(ch: Channel, unit: nat, m: nat)
    requires unit < 2 && m < |UDMA|
    ensures Inside16(CycleOf(ch, unit, m), CycleBits(ch, unit))
    ensures Inside16(ClockOf(ch, unit, m), ClockBits(ch, unit))
  {
  }

  // NON-INTERFERENCE. Computing one drive's Ultra timing changes that drive's bits only,
  // and those then stand for the selected row.
  lemma UdmaBitsOfOneDrive(r: Shadow, ch: Channel, unit: nat, udma: Option<nat>)
    requires unit < 2 && (udma.Some? ==> udma.value < |UDMA|)
    ensures SameElsewhere(r, ComputeUdma(r, ch, unit, udma), ch, unit)
    ensures ShowsRow(ComputeUdma(r, ch, unit, udma), ch, unit, udma)
  {
    hide Same16, Same8, Shows16, On8, Merged16, Inside16, EnableBit, CycleBits, ClockBits, CycleOf, ClockOf, PlaceCycle, PlaceClock;
    UdmaEnable(r, ch, unit, udma);
    if udma.Some? {
      var t := ComputeUdma(r, ch, unit, udma);
      UdmaCycleMerged(r, ch, unit, udma.value);
      UdmaClockMerged(r, ch, unit, udma.value);
      RowsInside(ch, unit, udma.value);
      MergedShows(r.udmatim, t.udmatim, CycleBits(ch, unit), CycleOf(ch, unit, udma.value));
      MergedShows(r.ideConfig, t.ideConfig, ClockBits(ch, unit), ClockOf(ch, unit, udma.value));
    } else {
      Unchanged16(r.udmatim, CycleBits(ch, unit));
      Unchanged16(r.ideConfig, ClockBits(ch, unit));
    }
  }

  lemma Unchanged16(x: bv16, mask: bv16)
    ensures Same16(x, x, mask)
  {
  }

  lemma EnablingChangesOneBit(x: bv16)
    ensures Same16(x, Set16(x, WR_PP_EN), WR_PP_EN) && Same16(x, x, WR_PP_EN) && Enables(Set16(x, WR_PP_EN))
  {
  }

  lemma SidetimColumnOnly(x: bv8, ch: Channel, index: nat)
    requires index <= 4
    ensures Same8(x, SidetimValue(x, ch, index), SidetimRow(0, ch)) && Same8(x, x, SidetimRow(0, ch))
    ensures Shows8(SidetimValue(x, ch, index), SidetimRow(0, ch), SidetimRow(index, ch))
  {
  }

  // No row sets a DMA-only bit, so clearing it for slow PIO has no effect.
  lemma SlowPioClearsNothing(shared: bool, index: nat, unit: nat)
    requires 1 <= index <= 4 && unit < 2
    ensures Clear16(IdetimRow(shared, index, unit), if unit == 1 then 0x0080 else 0x0008) == IdetimRow(shared, index, unit)
  {
  }

  predicate Enables(x: bv16) { x & WR_PP_EN == WR_PP_EN }

  // Computing one drive's PIO or DMA timing leaves the other drive's IDETIM value and all
  // Ultra registers alone, and on separate-timing controllers always enables WR_PP_EN.
  lemma TimingOfOneDrive(r: Shadow, ch: Channel, unit: nat, shared: bool, pio: nat, dma: Option<nat>)
    requires unit < 2 && |r.idetim| == 2
    requires pio < |PIO| && (dma.Some? ==> dma.value < |DMA|)
    ensures var t := ComputeTiming(r, ch, unit, shared, pio, dma);
            && |t.idetim| == 2 && t.idetim[1 - unit] == r.idetim[1 - unit]
            && t.udmactl == r.udmactl && t.udmatim == r.udmatim
            && Same16(r.ideConfig, t.ideConfig, WR_PP_EN)
            && (!shared ==> Enables(t.ideConfig))
            && (unit == 0 ==> t.sidetim == r.sidetim)
            && Same8(r.sidetim, t.sidetim, SidetimRow(0, ch))
            && t.idetim[unit] == IdetimRow(shared, InForce(pio, dma).registerIndex, unit)
            && (!shared && unit == 1 ==>
                  Shows8(t.sidetim, SidetimRow(0, ch), SidetimRow(InForce(pio, dma).registerIndex, ch)))
  {
    hide Same8, Same16, Shows8, Enables, Set16, Clear16, SidetimValue, SidetimRow, IdetimRow;
    EnablingChangesOneBit(r.ideConfig);
    SidetimColumnOnly(r.sidetim, ch, InForce(pio, dma).registerIndex);
    SlowPioClearsNothing(shared, InForce(pio, dma).registerIndex, unit);
  }

  // Recomputing a drive's Ultra registers, or its other ones, changes nothing.
  lemma UdmaAgainUnchanged(r: Shadow, ch: Channel, unit: nat, udma: Option<nat>)
    requires unit < 2 && (udma.Some? ==> udma.value < |UDMA|)
    ensures var t := ComputeUdma(r, ch, unit, udma); ComputeUdma(t, ch, unit, udma) == t
  {
    hide PlaceEnable, PlaceCycle, PlaceClock, Clear8, Clear16, Set8, Set16, Cut16;
    var enable := PlaceEnable(ch, unit);
    ClearedAgain8(r.udmactl, enable);
    ReplacedAgain8(r.udmactl, enable, enable);
    if udma.Some? {
      var row, pct := UDMA[udma.value], PlaceCycle(ch, unit, 0x0003);
      ReplacedAgain16(r.udmatim, pct, Cut16(PlaceCycle(ch, unit, row.udmatim), pct));
      ReplacedAgain16(r.ideConfig, PlaceClock(ch, unit, 0x1001), PlaceClock(ch, unit, row.udmaClock));
    }
  }

  lemma ClearedAgain8(x: bv8, mask: bv8)
    ensures Clear8(Clear8(x, mask), mask) == Clear8(x, mask)
  {
  }

  lemma ReplacedAgain8(x: bv8, mask: bv8, v: bv8)
    ensures Set8(Clear8(Set8(Clear8(x, mask), v), mask), v) == Set8(Clear8(x, mask), v)
  {
  }

  lemma ReplacedAgain16(x: bv16, mask: bv16, v: bv16)
    ensures Set16(Clear16(Set16(Clear16(x, mask), v), mask), v) == Set16(Clear16(x, mask), v)
  {
    hide Set16, Clear16;
    ClearedAgain16(x, mask);
    SetAgain16(Clear16(x, mask), mask, v);
  }

  lemma ClearedAgain16(x: bv16, mask: bv16)
    ensures Clear16(Clear16(x, mask), mask) == Clear16(x, mask)
  {
  }

  lemma SetAgain16(x: bv16, mask: bv16, v: bv16)
    ensures Set16(Clear16(Set16(x, v), mask), v) == Set16(Clear16(x, mask), v)
  {
  }

  lemma TimingAgainUnchanged(r: Shadow, ch: Channel, unit: nat, shared: bool, pio: nat, dma: Option<nat>, t: Shadow)
    requires unit < 2 && |r.idetim| == 2 && |t.idetim| == 2
    requires pio < |PIO| && (dma.Some? ==> dma.value < |DMA|)
    requires t.idetim == ComputeTiming(r, ch, unit, shared, pio, dma).idetim
    requires t.sidetim == ComputeTiming(r, ch, unit, shared, pio, dma).sidetim
    requires !shared ==> t.ideConfig & WR_PP_EN == WR_PP_EN
    ensures ComputeTiming(t, ch, unit, shared, pio, dma) == t
  {
    hide IdetimValue;
    ReplacedAgain8(r.sidetim, SidetimRow(0, ch), SidetimRow(InForce(pio, dma).registerIndex, ch));
    if !shared { EnableBitAgain(t.ideConfig); }
    assert t.idetim[unit := t.idetim[unit]] == t.idetim;
  }

  lemma EnableBitAgain(x: bv16)
    requires x & WR_PP_EN == WR_PP_EN
    ensures x | WR_PP_EN == x
  {
  }
}
