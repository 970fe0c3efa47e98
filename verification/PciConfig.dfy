/**
 The PCI configuration space that two channel drivers share: locked masked writes, and
 what any interleaving of the writes of the two channels leaves in it.
 */
module PciConfig {
  import opened PiixTiming

  const SIZE := 256

  const IDETIM := 0x40
  const IDETIM_S := 0x42
  const SIDETIM := 0x44
  const UDMACTL := 0x48
  const UDMATIM := 0x4a
  const IDECONFIG := 0x54

  // One locked read-modify-write.
  datatype Op = W8(off: nat, data8: bv8, mask8: bv8) | W16(off: nat, data16: bv16, mask16: bv16)

  predicate InSpace(op: Op) {
    op.off + (if op.W8? then 0 else 1) < SIZE
  }

  type Space = s: seq<bv8> | |s| == SIZE witness seq(SIZE, _ => 0)

  function Merge8(x: bv8, data: bv8, mask: bv8): bv8 {
    (x & !mask) | (mask & data)
  }

  function Merge16(x: bv16, data: bv16, mask: bv16): bv16 {
    (x & !mask) | (mask & data)
  }

  // Configuration space is little-endian.
  function Low(x: bv16): bv8 {
    (x & 0x00ff) as bv8
  }

  function High(x: bv16): bv8 {
    (x >> 8) as bv8
  }

  function Word(lo: bv8, hi: bv8): bv16 {
    (hi as bv16 << 8) | lo as bv16
  }

  lemma WordOfHalves(x: bv16)
    ensures Word(Low(x), High(x)) == x
  {
  }

  lemma HalvesOfWord(lo: bv8, hi: bv8)
    ensures Low(Word(lo, hi)) == lo && High(Word(lo, hi)) == hi
  {
  }

  function Read16(s: Space, off: nat): bv16
    requires off + 1 < SIZE
  {
    Word(s[off], s[off + 1])
  }

  function Write16(s: Space, off: nat, x: bv16): Space
    requires off + 1 < SIZE
  {
    s[off := Low(x)][off + 1 := High(x)]
  }

  lemma ReadWritten(s: Space, off: nat, x: bv16)
    requires off + 1 < SIZE
    ensures Read16(Write16(s, off, x), off) == x
  {
    WordOfHalves(x);
  }

  function Apply(s: Space, op: Op): Space
    requires InSpace(op)
  {
    match op
    case W8(off, data, mask) => s[off := Merge8(s[off], data, mask)]
    case W16(off, data, mask) => Write16(s, off, Merge16(Read16(s, off), data, mask))
  }

  ghost predicate AllInSpace(ops: seq<Op>) {
    forall i :: 0 <= i < |ops| ==> InSpace(ops[i])
  }

  function ApplyAll(s: Space, ops: seq<Op>): Space
    requires AllInSpace(ops)
    decreases ops
  {
    if ops == [] then s else ApplyAll(Apply(s, ops[0]), ops[1..])
  }

  lemma {:induction false} ApplyAllJoin(s: Space, a: seq<Op>, b: seq<Op>)
    requires AllInSpace(a) && AllInSpace(b)
    ensures AllInSpace(a + b)
    ensures ApplyAll(s, a + b) == ApplyAll(ApplyAll(s, a), b)
    decreases a
  {
    if a == [] {
      assert a + b == b;
    } else {
      assert (a + b)[1..] == a[1..] + b;
      ApplyAllJoin(Apply(s, a[0]), a[1..], b);
    }
  }

  // ---------------------------------------------------------------------------------
  // Commuting writes

  // Two writes to different bytes, or to the same register with no bit that both write differently.
  predicate Compatible(a: Op, b: Op) {
    || a.off + 1 < b.off || b.off + 1 < a.off
    || (a.W8? && a.off < b.off) || (b.W8? && b.off < a.off)
    || (a.W8? && b.W8? && a.off == b.off && Agree8(a.data8, a.mask8, b.data8, b.mask8))
    || (a.W16? && b.W16? && a.off == b.off && Agree16(a.data16, a.mask16, b.data16, b.mask16))
  }

  predicate Agree8(d: bv8, m: bv8, d': bv8, m': bv8) { m & m' & (d ^ d') == 0 }
  predicate Agree16(d: bv16, m: bv16, d': bv16, m': bv16) { m & m' & (d ^ d') == 0 }

  lemma Merges8Commute(x: bv8, d: bv8, m: bv8, d': bv8, m': bv8)
    requires Agree8(d, m, d', m')
    ensures Merge8(Merge8(x, d, m), d', m') == Merge8(Merge8(x, d', m'), d, m)
  {
  }

  lemma Merges16Commute(x: bv16, d: bv16, m: bv16, d': bv16, m': bv16)
    requires Agree16(d, m, d', m')
    ensures Merge16(Merge16(x, d, m), d', m') == Merge16(Merge16(x, d', m'), d, m)
  {
  }

  lemma WritesCommute(s: Space, a: Op, b: Op)
    requires InSpace(a) && InSpace(b) && Compatible(a, b)
    ensures Apply(Apply(s, a), b) == Apply(Apply(s, b), a)
  {
    hide Merge8, Merge16, Word, Low, High, Agree8, Agree16;
    if a.off == b.off {
      if a.W8? && b.W8? {
        Merges8Commute(s[a.off], a.data8, a.mask8, b.data8, b.mask8);
      } else {
        var x := Read16(s, a.off);
        Merges16Commute(x, a.data16, a.mask16, b.data16, b.mask16);
        ReadWritten(s, a.off, Merge16(x, a.data16, a.mask16));
        ReadWritten(s, a.off, Merge16(x, b.data16, b.mask16));
      }
    }
  }

  ghost predicate AllCompatible(a: seq<Op>, b: seq<Op>) {
    forall i, j :: 0 <= i < |a| && 0 <= j < |b| ==> Compatible(a[i], b[j])
  }

  lemma {:induction false} WriteCommutesPast(s: Space, a: seq<Op>, b: Op)
    requires AllInSpace(a) && InSpace(b) && AllCompatible(a, [b])
    ensures ApplyAll(Apply(s, b), a) == Apply(ApplyAll(s, a), b)
    decreases a
  {
    if a != [] {
      assert Compatible(a[0], [b][0]);
      WritesCommute(s, a[0], b);
      forall i | 0 <= i < |a[1..]|
        ensures Compatible(a[1..][i], [b][0])
      {
        assert Compatible(a[i + 1], [b][0]);
      }
      WriteCommutesPast(Apply(s, a[0]), a[1..], b);
    }
  }

  // The writes of two drivers in the order of a schedule; true stands for the first driver.
  function Interleave(a: seq<Op>, b: seq<Op>, schedule: seq<bool>): seq<Op>
    decreases schedule, |a| + |b|
  {
    if a == [] then b
    else if b == [] then a
    else if schedule == [] then a + b
    else if schedule[0] then [a[0]] + Interleave(a[1..], b, schedule[1..])
    else [b[0]] + Interleave(a, b[1..], schedule[1..])
  }

  lemma CompatibleRest(a: seq<Op>, b: seq<Op>)
    requires AllInSpace(a) && AllInSpace(b) && AllCompatible(a, b)
    ensures a != [] ==> InSpace(a[0]) && AllInSpace(a[1..]) && AllCompatible(a[1..], b)
    ensures b != [] ==> InSpace(b[0]) && AllInSpace(b[1..]) && AllCompatible(a, b[1..]) && AllCompatible(a, [b[0]])
  {
    hide Compatible, InSpace;
    if b != [] {
      forall i | 0 <= i < |a|
        ensures Compatible(a[i], b[0])
      {
      }
    }
  }

  lemma ApplyAllFirst(s: Space, op: Op, rest: seq<Op>)
    requires InSpace(op) && AllInSpace(rest)
    ensures AllInSpace([op] + rest)
    ensures ApplyAll(s, [op] + rest) == ApplyAll(Apply(s, op), rest)
  {
    hide Apply, InSpace;
    assert ([op] + rest)[1..] == rest;
  }

  // Moving the first write of the second driver in front of the first driver's writes.
  lemma WriteMovesForward(s: Space, a: seq<Op>, b: seq<Op>)
    requires b != [] && AllInSpace(a) && AllInSpace(b) && AllCompatible(a, [b[0]])
    ensures AllInSpace(b[1..]) && AllInSpace(a + b) && AllInSpace(a + b[1..])
    ensures ApplyAll(Apply(s, b[0]), a + b[1..]) == ApplyAll(s, a + b)
  {
    hide Apply, Compatible, InSpace;
    ApplyAllJoin(Apply(s, b[0]), a, b[1..]);
    ApplyAllJoin(s, a, b);
    WriteCommutesPast(s, a, b[0]);
  }

  // Any interleaving of compatible writes acts as one driver's writes after the other's.
  lemma {:induction false} InterleavingIsSerial(s: Space, a: seq<Op>, b: seq<Op>, schedule: seq<bool>)
    requires AllInSpace(a) && AllInSpace(b) && AllCompatible(a, b)
    ensures AllInSpace(Interleave(a, b, schedule)) && AllInSpace(a + b)
    ensures ApplyAll(s, Interleave(a, b, schedule)) == ApplyAll(s, a + b)
    decreases schedule, |a| + |b|
  {
    hide Apply, ApplyAll, Compatible, InSpace, AllCompatible, AllInSpace;
    ApplyAllJoin(s, a, b);
    CompatibleRest(a, b);
    if a == [] {
      assert a + b == b;
    } else if b == [] {
      assert a + b == a;
    } else if schedule == [] {
    } else if schedule[0] {
      InterleavingIsSerial(Apply(s, a[0]), a[1..], b, schedule[1..]);
      assert a + b == [a[0]] + (a[1..] + b);
      ApplyAllFirst(s, a[0], a[1..] + b);
      ApplyAllFirst(s, a[0], Interleave(a[1..], b, schedule[1..]));
    } else {
      InterleavingIsSerial(Apply(s, b[0]), a, b[1..], schedule[1..]);
      ApplyAllFirst(s, b[0], Interleave(a, b[1..], schedule[1..]));
      WriteMovesForward(s, a, b);
    }
  }

  // ---------------------------------------------------------------------------------
  // What a channel writes

  function SidetimMask(ch: Channel): bv8 { if ch == Primary then 0x0f else 0xf0 }
  function UdmactlMask(ch: Channel): bv8 { if ch == Primary then 0x03 else 0x0c }
  function UdmatimMask(ch: Channel): bv16 { if ch == Primary then 0x0033 else 0x3300 }
  function IdeConfigMask(ch: Channel): bv16 { if ch == Primary then 0x3403 else 0xc40c }

  // Each mask is made of the bits of its channel's two drives, and WR_PP_EN in IDECONFIG.
  lemma MasksAreTheDrivesBits(ch: Channel)
    ensures SidetimMask(ch) == SidetimRow(0, ch)
    ensures UdmactlMask(ch) == EnableBit(ch, 0) | EnableBit(ch, 1)
    ensures UdmatimMask(ch) == CycleBits(ch, 0) | CycleBits(ch, 1)
    ensures IdeConfigMask(ch) == ClockBits(ch, 0) | ClockBits(ch, 1) | WR_PP_EN
  {
  }

  function IdetimOffset(ch: Channel): nat { if ch == Primary then IDETIM else IDETIM_S }

  // A shadow whose WR_PP_EN bit is set, as computeTimingRegisters leaves it.
  predicate Ready(r: Shadow) {
    |r.idetim| == 2 && r.ideConfig & WR_PP_EN == WR_PP_EN
  }

  // The IDETIM values of both drives in one register.
  function BothDrives(r: Shadow): bv16
    requires |r.idetim| == 2
  {
    Set16(r.idetim[0], r.idetim[1])
  }

  // writeTimingRegisters of a channel with separate drive timings.
  function WriteSequence(ch: Channel, r: Shadow): (ops: seq<Op>)
    requires |r.idetim| == 2
    ensures AllInSpace(ops)
  {
    [W16(IdetimOffset(ch), BothDrives(r), 0xffff),
     W8(SIDETIM, r.sidetim, SidetimMask(ch)),
     W8(UDMACTL, r.udmactl, UdmactlMask(ch)),
     W16(UDMATIM, r.udmatim, UdmatimMask(ch)),
     W16(IDECONFIG, r.ideConfig, IdeConfigMask(ch))]
  }

  // Everything a channel writes over a run in which its shadow keeps changing.
  function Writes(ch: Channel, rs: seq<Shadow>): (ops: seq<Op>)
    requires forall i :: 0 <= i < |rs| ==> Ready(rs[i])
    ensures AllInSpace(ops)
  {
    if rs == [] then [] else assert Ready(rs[0]); WriteSequence(ch, rs[0]) + Writes(ch, rs[1..])
  }

  // An op that belongs to a channel.
  predicate Belongs(ch: Channel, op: Op) {
    || (op.W16? && op.off == IdetimOffset(ch))
    || (op.W8? && op.off == SIDETIM && op.mask8 == SidetimMask(ch))
    || (op.W8? && op.off == UDMACTL && op.mask8 == UdmactlMask(ch))
    || (op.W16? && op.off == UDMATIM && op.mask16 == UdmatimMask(ch))
    || (op.W16? && op.off == IDECONFIG && op.mask16 == IdeConfigMask(ch) && op.data16 & WR_PP_EN == WR_PP_EN)
  }

  lemma {:induction false} WritesBelong(ch: Channel, rs: seq<Shadow>)
    requires forall i :: 0 <= i < |rs| ==> Ready(rs[i])
    ensures forall i :: 0 <= i < |Writes(ch, rs)| ==> Belongs(ch, Writes(ch, rs)[i])
  {
    if rs != [] {
      WritesBelong(ch, rs[1..]);
    }
  }

  // The masks of the two channels overlap in WR_PP_EN only, which both set.
  lemma ChannelsCompatible(a: Op, b: Op)
    requires Belongs(Primary, a) && Belongs(Secondary, b)
    ensures Compatible(a, b)
    ensures a.W8? && b.W8? && a.off == b.off ==> a.mask8 & b.mask8 == 0
    ensures a.W16? && b.W16? && a.off == b.off ==>
              a.mask16 & b.mask16 == (if a.off == IDECONFIG then WR_PP_EN else 0)
    ensures a.W16? && a.off == IDECONFIG ==> a.data16 & WR_PP_EN == WR_PP_EN
    ensures b.W16? && b.off == IDECONFIG ==> b.data16 & WR_PP_EN == WR_PP_EN
  {
    if a.W16? && b.W16? && a.off == b.off == IDECONFIG {
      BothEnable(a.data16, b.data16);
    }
  }

  lemma BothEnable(d: bv16, d': bv16)
    requires d & WR_PP_EN == WR_PP_EN && d' & WR_PP_EN == WR_PP_EN
    ensures Agree16(d, 0x3403, d', 0xc40c)
  {
  }

  // The masked bits of a register have a value.
  predicate Field8(x: bv8, v: bv8, mask: bv8) { x & mask == v & mask }
  predicate Field16(x: bv16, v: bv16, mask: bv16) { x & mask == v & mask }

  // The fields of a channel stand for its shadow.
  predicate Fields(s: Space, ch: Channel, r: Shadow)
    requires Ready(r)
  {
    && Read16(s, IdetimOffset(ch)) == BothDrives(r)
    && Field8(s[SIDETIM], r.sidetim, SidetimMask(ch))
    && Field8(s[UDMACTL], r.udmactl, UdmactlMask(ch))
    && Field16(Read16(s, UDMATIM), r.udmatim, UdmatimMask(ch))
    && Field16(Read16(s, IDECONFIG), r.ideConfig, IdeConfigMask(ch))
  }

  function OtherChannel(ch: Channel): Channel {
    if ch == Primary then Secondary else Primary
  }

  lemma MergeShows8(x: bv8, v: bv8, mask: bv8)
    ensures Field8(Merge8(x, v, mask), v, mask)
  {
  }

  lemma MergeShows16(x: bv16, v: bv16, mask: bv16)
    ensures Field16(Merge16(x, v, mask), v, mask)
    ensures Merge16(x, v, 0xffff) == v
  {
  }

  // A merge under another mask keeps the field where both write the same.
  lemma MergeKeeps8(x: bv8, v: bv8, mask: bv8, v': bv8, mask': bv8)
    requires Field8(x, v, mask) && Agree8(v, mask, v', mask')
    ensures Field8(Merge8(x, v', mask'), v, mask)
  {
  }

  lemma MergeKeeps16(x: bv16, v: bv16, mask: bv16, v': bv16, mask': bv16)
    requires Field16(x, v, mask) && Agree16(v, mask, v', mask')
    ensures Field16(Merge16(x, v', mask'), v, mask)
  {
  }

  // A write shows in its own register and in no other.
  lemma WriteShows(s: Space, op: Op)
    requires InSpace(op)
    ensures op.W8? ==> Apply(s, op)[op.off] == Merge8(s[op.off], op.data8, op.mask8)
    ensures op.W16? ==> Read16(Apply(s, op), op.off) == Merge16(Read16(s, op.off), op.data16, op.mask16)
    ensures forall k :: 0 <= k < SIZE && k != op.off && (op.W8? || k != op.off + 1) ==> Apply(s, op)[k] == s[k]
  {
    hide Merge8, Merge16, Word, Low, High;
    if op.W16? { ReadWritten(s, op.off, Merge16(Read16(s, op.off), op.data16, op.mask16)); }
  }

  // What a write sequence makes of every timing register, at the register's own address.
  lemma SequenceRegisters(s: Space, ch: Channel, r: Shadow)
    requires |r.idetim| == 2
    ensures var after := ApplyAll(s, WriteSequence(ch, r));
            && Read16(after, if ch == Primary then 0x40 else 0x42) == BothDrives(r)
            && Read16(after, if ch == Primary then 0x42 else 0x40) == Read16(s, if ch == Primary then 0x42 else 0x40)
            && after[0x44] == Merge8(s[0x44], r.sidetim, SidetimMask(ch))
            && after[0x48] == Merge8(s[0x48], r.udmactl, UdmactlMask(ch))
            && Read16(after, 0x4a) == Merge16(Read16(s, 0x4a), r.udmatim, UdmatimMask(ch))
            && Read16(after, 0x54) == Merge16(Read16(s, 0x54), r.ideConfig, IdeConfigMask(ch))
  {
    hide Merge8, Merge16, Word, Low, High, Apply, ApplyAll, BothDrives, SidetimMask, UdmactlMask, UdmatimMask, IdeConfigMask;
    var ops := WriteSequence(ch, r);
    var s1 := Apply(s, ops[0]);
    var s2 := Apply(s1, ops[1]);
    var s3 := Apply(s2, ops[2]);
    var s4 := Apply(s3, ops[3]);
    FiveWrites(s, ops);
    WriteShows(s, ops[0]);
    WriteShows(s1, ops[1]);
    WriteShows(s2, ops[2]);
    WriteShows(s3, ops[3]);
    WriteShows(s4, ops[4]);
    MergeShows16(Read16(s, IdetimOffset(ch)), BothDrives(r), 0xffff);
  }

  // A finished write sequence leaves the channel's fields equal to its shadow.
  lemma SequenceWritesFields(s: Space, ch: Channel, r: Shadow)
    requires Ready(r)
    ensures Fields(ApplyAll(s, WriteSequence(ch, r)), ch, r)
  {
    hide Merge8, Merge16, Read16, BothDrives, Field8, Field16, ApplyAll, WriteSequence,
         SidetimMask, UdmactlMask, UdmatimMask, IdeConfigMask;
    SequenceRegisters(s, ch, r);
    MergeShows8(s[SIDETIM], r.sidetim, SidetimMask(ch));
    MergeShows8(s[UDMACTL], r.udmactl, UdmactlMask(ch));
    MergeShows16(Read16(s, UDMATIM), r.udmatim, UdmatimMask(ch));
    MergeShows16(Read16(s, IDECONFIG), r.ideConfig, IdeConfigMask(ch));
  }

  lemma FieldWrittenAgain(x: bv16, v: bv16, mask: bv16, y: bv8, w: bv8, mask8: bv8)
    ensures Field16(x, v, mask) ==> Merge16(x, v, mask) == x
    ensures Field8(y, w, mask8) ==> Merge8(y, w, mask8) == y
  {
  }

  lemma RewriteUnchanged(s: Space, off: nat)
    requires off + 1 < SIZE
    ensures Write16(s, off, Read16(s, off)) == s
  {
    HalvesOfWord(s[off], s[off + 1]);
  }

  // A write of what the masked bits hold already changes nothing.
  lemma WrittenAlready(s: Space, op: Op)
    requires InSpace(op)
    requires if op.W8? then Field8(s[op.off], op.data8, op.mask8) else Field16(Read16(s, op.off), op.data16, op.mask16)
    ensures Apply(s, op) == s
  {
    hide Merge8, Merge16, Read16, Write16, Field8, Field16;
    if op.W8? {
      FieldWrittenAgain(0, 0, 0, s[op.off], op.data8, op.mask8);
      assert s[op.off := s[op.off]] == s;
    } else {
      FieldWrittenAgain(Read16(s, op.off), op.data16, op.mask16, 0, 0, 0);
      RewriteUnchanged(s, op.off);
    }
  }

  lemma FieldOfItself(x: bv16)
    ensures Field16(x, x, 0xffff)
  {
  }

  // Writing the same shadow again changes no register.
  lemma WritingAgain(s: Space, ch: Channel, r: Shadow)
    requires Ready(r) && Fields(s, ch, r)
    ensures ApplyAll(s, WriteSequence(ch, r)) == s
  {
    hide Apply, Read16, BothDrives, Field8, Field16, ApplyAll, SidetimMask, UdmactlMask, UdmatimMask, IdeConfigMask;
    var ops := WriteSequence(ch, r);
    FiveWrites(s, ops);
    FieldOfItself(BothDrives(r));
    WrittenAlready(s, ops[0]);
    WrittenAlready(s, ops[1]);
    WrittenAlready(s, ops[2]);
    WrittenAlready(s, ops[3]);
    WrittenAlready(s, ops[4]);
  }

  lemma FiveWrites(s: Space, ops: seq<Op>)
    requires |ops| == 5 && AllInSpace(ops)
    ensures ApplyAll(s, ops) == Apply(Apply(Apply(Apply(Apply(s, ops[0]), ops[1]), ops[2]), ops[3]), ops[4])
  {
    hide Apply;
    assert ops[1..][1..] == ops[2..] && ops[2..][1..] == ops[3..] && ops[3..][1..] == ops[4..] && ops[4..][1..] == [];
    var s2 := Apply(Apply(s, ops[0]), ops[1]);
    var s4 := Apply(Apply(s2, ops[2]), ops[3]);
    assert ApplyAll(s4, ops[4..]) == Apply(s4, ops[4]);
    assert ApplyAll(s2, ops[2..]) == ApplyAll(s4, ops[4..]);
  }

  lemma SharedMasksAgree(ch: Channel, r: Shadow, d8: bv8, d16: bv16)
    requires Ready(r)
    ensures Agree8(r.sidetim, SidetimMask(ch), d8, SidetimMask(OtherChannel(ch)))
    ensures Agree8(r.udmactl, UdmactlMask(ch), d8, UdmactlMask(OtherChannel(ch)))
    ensures Agree16(r.udmatim, UdmatimMask(ch), d16, UdmatimMask(OtherChannel(ch)))
    ensures d16 & WR_PP_EN == WR_PP_EN ==> Agree16(r.ideConfig, IdeConfigMask(ch), d16, IdeConfigMask(OtherChannel(ch)))
  {
  }

  // No write of the other channel disturbs them.
  lemma OtherChannelKeepsFields(s: Space, ch: Channel, r: Shadow, op: Op)
    requires Ready(r) && InSpace(op) && Belongs(OtherChannel(ch), op)
    requires Fields(s, ch, r)
    ensures Fields(Apply(s, op), ch, r)
  {
    var d8: bv8 := if op.W8? then op.data8 else 0;
    var d16: bv16 := if op.W16? then op.data16 else 0;
    hide Merge8, Merge16, Word, Low, High, Field8, Field16, Agree8, Agree16, Apply, SidetimMask, UdmactlMask, UdmatimMask, IdeConfigMask;
    SharedMasksAgree(ch, r, d8, d16);
    WriteShows(s, op);
    if op.W8? {
      if op.off == SIDETIM {
        MergeKeeps8(s[SIDETIM], r.sidetim, SidetimMask(ch), d8, op.mask8);
      } else {
        MergeKeeps8(s[UDMACTL], r.udmactl, UdmactlMask(ch), d8, op.mask8);
      }
    } else if op.off == UDMATIM {
      MergeKeeps16(Read16(s, UDMATIM), r.udmatim, UdmatimMask(ch), d16, op.mask16);
    } else if op.off == IDECONFIG {
      MergeKeeps16(Read16(s, IDECONFIG), r.ideConfig, IdeConfigMask(ch), d16, op.mask16);
    }
  }

  lemma {:induction false} OthersKeepFields(s: Space, ch: Channel, r: Shadow, ops: seq<Op>)
    requires Ready(r) && AllInSpace(ops) && forall i :: 0 <= i < |ops| ==> Belongs(OtherChannel(ch), ops[i])
    requires Fields(s, ch, r)
    ensures Fields(ApplyAll(s, ops), ch, r)
    decreases ops
  {
    hide Apply, Belongs, Fields, Ready;
    if ops != [] {
      OtherChannelKeepsFields(s, ch, r, ops[0]);
      OthersKeepFields(Apply(s, ops[0]), ch, r, ops[1..]);
    }
  }

  lemma {:induction false} LastSequenceShows(s: Space, ch: Channel, rs: seq<Shadow>)
    requires rs != [] && forall i :: 0 <= i < |rs| ==> Ready(rs[i])
    ensures Fields(ApplyAll(s, Writes(ch, rs)), ch, rs[|rs| - 1])
    decreases rs
  {
    hide Apply, Fields, WriteSequence;
    assert Ready(rs[0]);
    var first := WriteSequence(ch, rs[0]);
    ApplyAllJoin(s, first, Writes(ch, rs[1..]));
    if |rs| == 1 {
      SequenceWritesFields(s, ch, rs[0]);
      assert Writes(ch, rs[1..]) == [] && first + [] == first;
    } else {
      LastSequenceShows(ApplyAll(s, first), ch, rs[1..]);
    }
  }

  // The cable-report bits are in no channel's mask.
  lemma WriteKeepsCableBits(s: Space, ch: Channel, op: Op)
    requires InSpace(op) && Belongs(ch, op)
    ensures Field16(Read16(Apply(s, op), IDECONFIG), Read16(s, IDECONFIG), CABLE_BITS)
  {
    var x := Read16(s, IDECONFIG);
    CableBitsFree(x, if op.W16? then op.data16 else 0, IdeConfigMask(ch));
    hide Merge8, Merge16, Word, Low, High, Field16;
    if op.W16? && op.off == IDECONFIG {
      ReadWritten(s, IDECONFIG, Merge16(x, op.data16, op.mask16));
    }
  }

  lemma CableBitsFree(x: bv16, d: bv16, mask: bv16)
    requires mask == 0x3403 || mask == 0xc40c
    ensures Field16(Merge16(x, d, mask), x, CABLE_BITS) && Field16(x, x, CABLE_BITS)
  {
  }

  lemma FieldTransitive(x: bv16, y: bv16, z: bv16)
    requires Field16(x, y, CABLE_BITS) && Field16(y, z, CABLE_BITS)
    ensures Field16(x, z, CABLE_BITS)
  {
  }

  lemma {:induction false} WritesKeepCableBits(s: Space, ch: Channel, ops: seq<Op>)
    requires AllInSpace(ops) && forall i :: 0 <= i < |ops| ==> Belongs(ch, ops[i])
    ensures Field16(Read16(ApplyAll(s, ops), IDECONFIG), Read16(s, IDECONFIG), CABLE_BITS)
    decreases ops
  {
    if ops == [] {
      CableBitsFree(Read16(s, IDECONFIG), 0, 0x3403);
    } else {
      hide Apply, Belongs, Read16, Field16;
      var t := Apply(s, ops[0]);
      WriteKeepsCableBits(s, ch, ops[0]);
      WritesKeepCableBits(t, ch, ops[1..]);
      FieldTransitive(Read16(ApplyAll(s, ops), IDECONFIG), Read16(t, IDECONFIG), Read16(s, IDECONFIG));
    }
  }

  lemma ChannelsAllCompatible(ch: Channel, a: seq<Op>, b: seq<Op>)
    requires forall i :: 0 <= i < |a| ==> Belongs(ch, a[i])
    requires forall i :: 0 <= i < |b| ==> Belongs(OtherChannel(ch), b[i])
    ensures AllCompatible(a, b) && AllCompatible(b, a)
  {
    forall i, j | 0 <= i < |a| && 0 <= j < |b|
      ensures Compatible(a[i], b[j]) && Compatible(b[j], a[i])
    {
      if ch == Primary { ChannelsCompatible(a[i], b[j]); } else { ChannelsCompatible(b[j], a[i]); }
      CompatibleSymmetric(a[i], b[j]);
      CompatibleSymmetric(b[j], a[i]);
    }
  }

  lemma CompatibleSymmetric(a: Op, b: Op)
    requires Compatible(a, b)
    ensures Compatible(b, a)
  {
    if a.W16? && b.W16? { Agree16Symmetric(a.data16, a.mask16, b.data16, b.mask16); }
    if a.W8? && b.W8? { Agree8Symmetric(a.data8, a.mask8, b.data8, b.mask8); }
  }

  lemma Agree16Symmetric(d: bv16, m: bv16, d': bv16, m': bv16)
    ensures Agree16(d, m, d', m') <==> Agree16(d', m', d, m)
  {
  }

  lemma Agree8Symmetric(d: bv8, m: bv8, d': bv8, m': bv8)
    ensures Agree8(d, m, d', m') <==> Agree8(d', m', d, m)
  {
  }

  // CHANNEL ISOLATION. However the writes of one channel, over a run in which its shadow
  // keeps changing, are interleaved with any writes that belong to the other channel, the
  // result is that of either serial order; the channel's fields equal its last shadow; and
  // the cable-report bits are what they were.
  lemma ChannelIsolation(s: Space, ch: Channel, rs: seq<Shadow>, others: seq<Op>, schedule: seq<bool>)
    requires forall i :: 0 <= i < |rs| ==> Ready(rs[i])
    requires AllInSpace(others) && forall i :: 0 <= i < |others| ==> Belongs(OtherChannel(ch), others[i])
    ensures var own := Writes(ch, rs);
            && AllInSpace(Interleave(own, others, schedule)) && AllInSpace(own + others) && AllInSpace(others + own)
            && var t := ApplyAll(s, Interleave(own, others, schedule));
            && t == ApplyAll(s, own + others)
            && t == ApplyAll(s, others + own)
            && (rs != [] ==> Fields(t, ch, rs[|rs| - 1]))
            && Field16(Read16(t, IDECONFIG), Read16(s, IDECONFIG), CABLE_BITS)
  {
    var own := Writes(ch, rs);
    WritesBelong(ch, rs);
    ChannelsAllCompatible(ch, own, others);
    hide Apply, Belongs, Read16, Field16, Fields, Compatible;
    InterleavingIsSerial(s, own, others, schedule);
    ApplyAllJoin(s, own, others);
    SwappedIsSerial(s, own, others);
    var mid := ApplyAll(s, own);
    if rs != [] {
      LastSequenceShows(s, ch, rs);
      OthersKeepFields(mid, ch, rs[|rs| - 1], others);
    }
    WritesKeepCableBits(s, ch, own);
    WritesKeepCableBits(mid, OtherChannel(ch), others);
    FieldTransitive(Read16(ApplyAll(mid, others), IDECONFIG), Read16(mid, IDECONFIG), Read16(s, IDECONFIG));
  }

  // The other serial order is the interleaving that always lets the second driver go first.
  lemma {:induction false} SwappedIsSerial(s: Space, a: seq<Op>, b: seq<Op>)
    requires AllInSpace(a) && AllInSpace(b) && AllCompatible(a, b)
    ensures AllInSpace(a + b) && AllInSpace(b + a)
    ensures ApplyAll(s, b + a) == ApplyAll(s, a + b)
  {
    var schedule := seq(|b|, _ => false);
    SecondFirst(a, b, schedule);
    InterleavingIsSerial(s, a, b, schedule);
  }

  lemma {:induction false} SecondFirst(a: seq<Op>, b: seq<Op>, schedule: seq<bool>)
    requires |schedule| == |b| && forall i :: 0 <= i < |schedule| ==> !schedule[i]
    ensures Interleave(a, b, schedule) == b + a
    decreases b
  {
    if a == [] {
      assert b + a == b;
    } else if b == [] {
      assert b + a == a;
    } else {
      SecondFirst(a, b[1..], schedule[1..]);
      assert [b[0]] + (b[1..] + a) == b + a;
    }
  }
}
