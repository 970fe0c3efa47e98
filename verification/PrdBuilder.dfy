/**
 The builder as the channel driver runs it: 32-bit pointers that wrap, a table that still
 holds the descriptors of earlier builds, and a nested loop that fills it in place.
 */
module PrdBuilder {
  import opened Wrappers
  import opened PrdEngine
  import opened PrdPlan

  datatype DmaState = Inactive | Error | Status

  // 32-bit pointer arithmetic.
  function Wrap(x: int): U32 {
    x % SPACE
  }

  ghost predicate Acceptables(r: seq<Prd>) {
    forall d :: d in r ==> Acceptable(d)
  }

  // The cast to 16 bits, and the start of the 64 KB block of an address.
  function Cut(n: U32): U16 {
    n % BLOCK
  }

  function BlockStart(addr: U32): U32 {
    addr - addr % BLOCK
  }

  // The three loop variables of the inner loop.
  datatype Cursor = Cursor(ptr: U32, count: U32, next: U32)

  function EndOf(s: Piece): U32 {
    Wrap(s.addr + s.len)
  }

  function Start(s: Piece): Cursor {
    Cursor(s.addr, s.len, Wrap(BlockStart(s.addr) + BLOCK))
  }

  function Cross(c: Cursor): Cursor {
    Cursor(c.next, Wrap(c.count - Wrap(c.next - c.ptr)), Wrap(c.next + BLOCK))
  }

  // The cursor stands inside a segment that is not runaway, with bytes still to go.
  ghost predicate Tracks(s: Piece, c: Cursor) {
    && !Runaway(s)
    && c.count > 0
    && c.ptr + c.count == s.addr + s.len
    && c.next == Wrap(BlockEnd(c.ptr))
    && (Truncated(s) ==> c.ptr == s.addr)
    && (Truncated(Range(c.ptr, c.count)) ==> Truncated(s))
  }

  // The cursor of a runaway segment: the end is above every boundary.
  ghost predicate Lost(s: Piece, c: Cursor) {
    && Runaway(s)
    && c.next % BLOCK == 0
    && (c == Start(s) || c.ptr % BLOCK == 0)
    && c.count == Wrap(EndOf(s) - c.ptr)
  }

  lemma Starts(s: Piece)
    ensures if Runaway(s) then Lost(s, Start(s)) else Tracks(s, Start(s))
  {
    assert s.addr - s.addr % BLOCK + BLOCK == BlockEnd(s.addr);
  }

  // No pointer wraps when a tracked cursor crosses a boundary.
  lemma CrossUnwrapped(s: Piece, c: Cursor)
    requires Tracks(s, c) && EndOf(s) > c.next
    ensures var e := BlockEnd(c.ptr);
            && c.next == e < c.ptr + c.count < SPACE
            && Wrap(e - c.ptr) == e - c.ptr
            && Cross(c) == Cursor(e, c.ptr + c.count - e, Wrap(e + BLOCK))
  {
  }

  lemma NextBlockEnd(addr: int)
    ensures BlockEnd(BlockEnd(addr)) == BlockEnd(addr) + BLOCK
  {
  }

  lemma TracksCross(s: Piece, c: Cursor, last: bool)
    requires Tracks(s, c) && EndOf(s) > c.next
    ensures Tracks(s, Cross(c))
    ensures Split(Range(c.ptr, c.count), last) ==
            [Prd(c.ptr, Cut(Wrap(c.next - c.ptr)), false)] + Split(Range(Cross(c).ptr, Cross(c).count), last)
  {
    CrossUnwrapped(s, c);
    NextBlockEnd(c.ptr);
    hide Wrap, Cross, BlockEnd;
  }

  lemma TracksLast(s: Piece, c: Cursor, last: bool)
    requires Tracks(s, c) && EndOf(s) <= c.next
    ensures Split(Range(c.ptr, c.count), last) == [Prd(c.ptr, Cut(c.count), last)]
  {
  }

  lemma WrapDifference(a: U32, b: U32)
    ensures Wrap(a - b) == if a < b then a - b + SPACE else a - b
  {
  }

  lemma WrapCancel(e: U32, p: U32, n: U32)
    ensures Wrap(Wrap(e - p) - Wrap(n - p)) == Wrap(e - n)
    ensures Wrap(e - p) == 0 <==> e == p
  {
    WrapDifference(e, p);
    WrapDifference(n, p);
    WrapDifference(Wrap(e - p), Wrap(n - p));
    WrapDifference(e, n);
  }

  lemma NextBoundary(b: U32)
    requires b % BLOCK == 0
    ensures b <= TOP && Wrap(b + BLOCK) % BLOCK == 0
  {
    assert b < TOP ==> Wrap(b + BLOCK) == b + BLOCK;
  }

  lemma InsideIsNotAligned(e: int, p: int)
    requires TOP < e < SPACE && p % BLOCK == 0
    ensures e != p
  {
  }

  lemma LostForever(s: Piece, c: Cursor)
    requires Lost(s, c)
    ensures EndOf(s) > c.next && c.count > 0 && Lost(s, Cross(c))
  {
    var e := EndOf(s);
    assert e == s.addr + s.len;
    hide Wrap;
    NextBoundary(c.next);
    WrapCancel(e, c.ptr, c.next);
    if c != Start(s) { InsideIsNotAligned(e, c.ptr); }
  }

  ghost function After(out: seq<Prd>, r: Option<seq<Prd>>): Option<seq<Prd>> {
    match r
    case None => None
    case Some(rest) => Some(out + rest)
  }

  // A table with the entries from `start` on overwritten by `out`.
  ghost function Filled(table: seq<Prd>, start: nat, out: seq<Prd>): seq<Prd> {
    if start + |out| <= |table| then table[..start] + out + table[start + |out|..] else table
  }

  lemma FilledNone(table: seq<Prd>, start: nat)
    ensures Filled(table, start, []) == table
  {
  }

  lemma FilledFrontAndBack(table: seq<Prd>, index: nat, d: seq<Prd>)
    requires index + |d| <= |table|
    ensures |Filled(table, index, d)| == |table|
    ensures Filled(table, index, d)[..index + |d|] == table[..index] + d
    ensures Filled(table, index, d)[index + |d|..] == table[index + |d|..]
  {
  }

  lemma FrontAndBack(table: seq<Prd>, index: nat)
    requires index <= |table|
    ensures table == table[..index] + table[index..]
  {
  }

  lemma LaterEntries(table: seq<Prd>, before: seq<Prd>, index: nat, next: nat)
    requires index <= next <= |table| == |before| && table[index..] == before[index..]
    ensures table[next..] == before[next..]
  {
    assert table[next..] == table[index..][next - index..] && before[next..] == before[index..][next - index..];
  }

  lemma JoinAgain(a: seq<Prd>, b: seq<Prd>, c: seq<Prd>)
    ensures a + (b + c) == (a + b) + c && a + [] == a && [] + a == a
  {
  }

  // What the inner loop writes when `room` entries are left, or None when it runs out.
  ghost function Fill(end: U32, c: Cursor, last: bool, room: nat): Option<seq<Prd>>
    decreases room
  {
    if c.count == 0 then
      Some([])
    else if room == 0 then
      None
    else if end > c.next then
      After([Prd(c.ptr, Cut(Wrap(c.next - c.ptr)), false)], Fill(end, Cross(c), last, room - 1))
    else
      Some([Prd(c.ptr, Cut(c.count), last)])
  }

  // The table and index when the rest of a segment has been written, or that it had no room.
  datatype Emission = Emitted(table: seq<Prd>, index: nat) | NoRoom

  ghost function Emit(table: seq<Prd>, index: nat, r: Option<seq<Prd>>): Emission {
    match r
    case None => NoRoom
    case Some(out) => Emitted(Filled(table, index, out), index + |out|)
  }

  lemma EmitOneMore(table: seq<Prd>, index: nat, d: Prd, r: Option<seq<Prd>>)
    requires index < |table| && (r.Some? ==> index + 1 + |r.value| <= |table|)
    ensures Emit(table, index, After([d], r)) == Emit(table[index := d], index + 1, r)
  {
    if r.Some? {
      FilledOneLess(table, index, d, r.value);
    }
  }

  lemma FilledOneLess(table: seq<Prd>, index: nat, d: Prd, out: seq<Prd>)
    requires index + 1 + |out| <= |table|
    ensures Filled(table, index, [d] + out) == Filled(table[index := d], index + 1, out)
  {
  }

  lemma {:induction false} FillFits(end: U32, c: Cursor, last: bool, room: nat)
    ensures Fill(end, c, last, room).Some? ==> |Fill(end, c, last, room).value| <= room
    decreases room
  {
    if c.count > 0 && room > 0 && end > c.next { FillFits(end, Cross(c), last, room - 1); }
  }

  lemma FillCross(end: U32, c: Cursor, last: bool, room: nat)
    requires c.count > 0
    ensures room == 0 ==> Fill(end, c, last, room) == None
    ensures room > 0 && end > c.next ==>
              Fill(end, c, last, room) == After([Prd(c.ptr, Cut(Wrap(c.next - c.ptr)), false)], Fill(end, Cross(c), last, room - 1))
    ensures room > 0 && end <= c.next ==> Fill(end, c, last, room) == Some([Prd(c.ptr, Cut(c.count), last)])
  {
  }

  lemma EmitLast(table: seq<Prd>, index: nat, d: Prd)
    requires index < |table|
    ensures Emit(table, index, Some([d])) == Emitted(table[index := d], index + 1)
  {
    FilledOneLess(table, index, d, []);
    FilledNone(table[index := d], index + 1);
  }

  // How the inner loop ends from here.
  ghost function Ahead(table: seq<Prd>, index: nat, end: U32, c: Cursor, last: bool): Emission {
    if index <= |table| then Emit(table, index, Fill(end, c, last, |table| - index)) else NoRoom
  }

  lemma EmitDone(table: seq<Prd>, index: nat, end: U32, c: Cursor, last: bool)
    requires index <= |table| && c.count == 0
    ensures Ahead(table, index, end, c, last) == Emitted(table, index)
  {
    FilledNone(table, index);
  }

  // One turn of the inner loop.
  lemma EmitStep(table: seq<Prd>, index: nat, end: U32, c: Cursor, last: bool)
    requires c.count > 0 && index <= |table|
    ensures var goal := Ahead(table, index, end, c, last);
            if index == |table| then goal == NoRoom
            else if end > c.next then
              var d := Prd(c.ptr, Cut(Wrap(c.next - c.ptr)), false);
              goal == Ahead(table[index := d], index + 1, end, Cross(c), last)
            else
              var d := Prd(c.ptr, Cut(c.count), last);
              goal == Ahead(table[index := d], index + 1, end, c.(count := 0), last)
  {
    hide Fill, After, Filled, Emit, Cut, Wrap, Cross;
    FillCross(end, c, last, |table| - index);
    NoRoomLeft(table);
    if index < |table| {
      var room := |table| - index;
      if end > c.next {
        FillFits(end, Cross(c), last, room - 1);
        EmitOneMore(table, index, Prd(c.ptr, Cut(Wrap(c.next - c.ptr)), false), Fill(end, Cross(c), last, room - 1));
      } else {
        var d := Prd(c.ptr, Cut(c.count), last);
        EmitLast(table, index, d);
        EmitDone(table[index := d], index + 1, end, c.(count := 0), last);
      }
    }
  }

  lemma NoRoomLeft(table: seq<Prd>)
    ensures Emit(table, |table|, None) == NoRoom
  {
  }

  // The whole inner loop, from the start of a segment.
  lemma EmitWhole(table: seq<Prd>, start: nat, s: Piece, last: bool)
    requires |table| == MAX_DESC && start <= MAX_DESC
    ensures Ahead(table, start, EndOf(s), Start(s), last) ==
            if start + Cost(s) <= MAX_DESC then
              Emitted(Filled(table, start, Split(s, last)), start + |Split(s, last)|)
            else NoRoom
    ensures start + Cost(s) <= MAX_DESC ==> |Split(s, last)| == Cost(s)
  {
    hide Fill, Split, Cost, Filled, EndOf, Start;
    FillIsSplit(s, last, MAX_DESC - start);
  }

  function IfFits(r: seq<Prd>, room: nat): Option<seq<Prd>> {
    if |r| <= room then Some(r) else None
  }

  lemma OneMoreFits(d: Prd, r: seq<Prd>, room: nat)
    requires room > 0
    ensures After([d], IfFits(r, room - 1)) == IfFits([d] + r, room)
    ensures IfFits([d], room) == Some([d])
    ensures r != [] ==> IfFits(r, 0) == None
  {
  }

  lemma {:induction false} FillTracks(s: Piece, c: Cursor, last: bool, room: nat)
    requires Tracks(s, c)
    ensures Fill(EndOf(s), c, last, room) == IfFits(Split(Range(c.ptr, c.count), last), room)
    decreases room
  {
    assert c.count > 0 && c.ptr + c.count <= SPACE;
    hide Fill, After, IfFits, Wrap, Cut, Split, Tracks, Cross, EndOf, Runaway, Truncated;
    FillCross(EndOf(s), c, last, room);
    OneMoreFits(Prd(c.ptr, Cut(c.count), last), Split(Range(c.ptr, c.count), last), 1);
    if room > 0 {
      if EndOf(s) > c.next {
        TracksCross(s, c, last);
        FillTracks(s, Cross(c), last, room - 1);
        OneMoreFits(Prd(c.ptr, Cut(Wrap(c.next - c.ptr)), false), Split(Range(Cross(c).ptr, Cross(c).count), last), room);
      } else {
        TracksLast(s, c, last);
        OneMoreFits(Prd(c.ptr, Cut(c.count), last), [], room);
      }
    }
  }

  lemma {:induction false} FillLost(s: Piece, c: Cursor, last: bool, room: nat)
    requires Lost(s, c)
    ensures Fill(EndOf(s), c, last, room) == None
    decreases room
  {
    LostForever(s, c);
    hide Wrap, Cut, Lost, Cross, EndOf, Runaway;
    if room > 0 {
      FillLost(s, Cross(c), last, room - 1);
    }
  }

  // The wrapping loop writes the split of the segment whenever that fits, and a runaway
  // segment never fits.
  lemma FillIsSplit(s: Piece, last: bool, room: nat)
    requires room <= MAX_DESC
    ensures Fill(EndOf(s), Start(s), last, room) == if Cost(s) <= room then Some(Split(s, last)) else None
    ensures Cost(s) <= room ==> |Split(s, last)| == Cost(s)
  {
    Starts(s);
    if Runaway(s) {
      FillLost(s, Start(s), last, room);
    } else {
      FillTracks(s, Start(s), last, room);
      SplitCost(s, last);
    }
  }

  // One turn of the outer loop.
  lemma SegmentStep(segs: seq<Segment>, n: nat, used: nat)
    requires n > 0
    ensures segs == [] || segs[0].len == 0 ==> Outcome(segs, n, used) == Panicked
    ensures segs != [] && segs[0].len > 0 && segs[0].addr % 2 == 1 ==> Outcome(segs, n, used) == NotAligned
    ensures segs != [] && segs[0].len > 0 ==>
              var c := Min(segs[0].len, n);
              var piece := Range(segs[0].addr, c);
              && Compile(segs, n) == Split(piece, n == c) + Compile(segs[1..], n - c)
              && (segs[0].addr % 2 == 0 ==>
                    Outcome(segs, n, used) ==
                    if used + Cost(piece) > MAX_DESC then Exhausted
                    else Outcome(segs[1..], n - c, used + Cost(piece)))
  {
  }

  lemma NothingLeft(segs: seq<Segment>, used: nat)
    ensures Outcome(segs, 0, used) == if used == 0 then ZeroCount else Built
    ensures Compile(segs, 0) == []
  {
  }

  // What a successful build means, whatever the rest of the table holds.
  lemma EngineAfterBuild(segs: seq<Segment>, n: nat, stale: seq<Prd>)
    requires Outcome(segs, n, 0) == Built
    ensures Compile(segs, n) != []
    ensures Acceptables(Compile(segs, n)) && FlaggedAtEnd(Compile(segs, n), true)
    ensures (forall v :: v in Visited(segs, n) ==> !Truncated(v)) ==>
              n <= |Flatten(segs)| && Run(Compile(segs, n) + stale) == Some(Flatten(segs)[..n])
  {
    BuiltFrom(segs, n, 0);
    CompileWellFormed(segs, n);
    EngineTransfersRequest(segs, n, stale);
  }

  class PataChannel {
    const prdTable: array<Prd>
    var dmaState: DmaState

    ghost predicate Valid()
      reads this
    {
      prdTable.Length == MAX_DESC
    }

    constructor ()
      ensures Valid() && fresh(prdTable)
      ensures dmaState == Inactive
      ensures forall i :: 0 <= i < MAX_DESC ==> prdTable[i] == Prd(0, 1, true)
    {
      prdTable := new Prd[MAX_DESC](_ => Prd(0, 0, false));
      dmaState := Inactive;
      new;
      InitATADMAChains();
    }

    // Fill the table with entries that each stop the engine.
    method InitATADMAChains()
      requires Valid()
      modifies prdTable
      ensures forall i :: 0 <= i < MAX_DESC ==> prdTable[i] == Prd(0, 1, true)
    {
      for i := 0 to MAX_DESC
        invariant forall k :: 0 <= k < i ==> prdTable[k] == Prd(0, 1, true)
      {
        prdTable[i] := Prd(0, 1, true);
      }
    }

    method SetPRD(index: nat, base: U32, count: U16, last: bool)
      requires Valid() && index < MAX_DESC
      modifies prdTable
      ensures prdTable[..] == old(prdTable[..])[index := Prd(base, count, last)]
    {
      prdTable[index] := Prd(base, count, last);
    }

    // The inner loop: account for one segment, from entry `start` on.
    method EmitSegment(s: Piece, last: bool, start: nat) returns (index: nat, ok: bool)
      requires Valid() && start <= MAX_DESC
      modifies prdTable
      ensures ok <==> start + Cost(s) <= MAX_DESC
      ensures ok ==> index == start + Cost(s) == start + |Split(s, last)|
      ensures ok ==> prdTable[..] == Filled(old(prdTable[..]), start, Split(s, last))
    {
      hide Wrap, Cut, BlockStart;
      var xferDataPtr: U32 := s.addr;
      var xferCount: U32 := s.len;
      var starting64KBlock: U32 := BlockStart(xferDataPtr);
      var ptr2EndData: U32 := Wrap(xferDataPtr + xferCount);
      var next64KBlock: U32 := Wrap(starting64KBlock + BLOCK);
      index := start;
      assert ptr2EndData == EndOf(s) && Cursor(xferDataPtr, xferCount, next64KBlock) == Start(s);
      hide Ahead, Split, Cost, Filled, EndOf, Start;
      EmitWhole(prdTable[..], start, s, last);
      ghost var goal := Ahead(prdTable[..], start, ptr2EndData, Start(s), last);
      while xferCount > 0
        invariant start <= index <= MAX_DESC
        invariant goal == Ahead(prdTable[..], index, ptr2EndData, Cursor(xferDataPtr, xferCount, next64KBlock), last)
        decreases MAX_DESC - index, xferCount
      {
        EmitStep(prdTable[..], index, ptr2EndData, Cursor(xferDataPtr, xferCount, next64KBlock), last);
        if ptr2EndData > next64KBlock {
          var count2Next64KBlock: U32 := Wrap(next64KBlock - xferDataPtr);
          if index < MAX_DESC {
            SetPRD(index, xferDataPtr, Cut(count2Next64KBlock), false);
            xferDataPtr := next64KBlock;
            next64KBlock := Wrap(next64KBlock + BLOCK);
            xferCount := Wrap(xferCount - count2Next64KBlock);
            index := index + 1;
          } else {
            break;
          }
        } else {
          if index < MAX_DESC {
            SetPRD(index, xferDataPtr, Cut(xferCount), last);
            xferCount := 0;
            index := index + 1;
          } else {
            break;
          }
        }
      }
      ok := xferCount == 0;
      if ok {
        EmitDone(prdTable[..], index, ptr2EndData, Cursor(xferDataPtr, 0, next64KBlock), last);
      }
    }

    // Build the table for the current command. Segment generation is a sequence of
    // segments: asking for one more than there are, or for an empty one, panics.
    method CreateChannelCommands(segs: seq<Segment>, byteCount: nat) returns (result: Result)
      requires Valid()
      modifies prdTable, `dmaState
      ensures Valid()
      ensures result == Outcome(segs, byteCount, 0)
      ensures result == Built ==>
                var built := Compile(segs, byteCount);
                && 0 < |built| <= MAX_DESC
                && prdTable[..] == built + old(prdTable[..])[|built|..]
                && Acceptables(built)
                && FlaggedAtEnd(built, true)
      ensures result == Built && (forall v :: v in Visited(segs, byteCount) ==> !Truncated(v)) ==>
                byteCount <= |Flatten(segs)| && Run(prdTable[..]) == Some(Flatten(segs)[..byteCount])
      ensures dmaState == match result
                          case Built => Status
                          case Exhausted => Error
                          case _ => old(dmaState)
    {
      hide Outcome, Compile, Split, Cost, Visited, Flatten, Run, Truncated, Filled;
      var index: nat := 0;
      var bytesRemaining: nat := byteCount;
      var k: nat := 0;
      ghost var before := prdTable[..];
      JoinAgain(Compile(segs, byteCount), [], []);
      while bytesRemaining > 0
        invariant 0 <= k <= |segs| && index <= MAX_DESC
        invariant bytesRemaining <= byteCount
        invariant index == 0 <==> bytesRemaining == byteCount
        invariant prdTable[..][index..] == before[index..]
        invariant Outcome(segs[k..], bytesRemaining, index) == Outcome(segs, byteCount, 0)
        invariant prdTable[..][..index] + Compile(segs[k..], bytesRemaining) == Compile(segs, byteCount)
        invariant dmaState == old(dmaState)
      {
        SegmentStep(segs[k..], bytesRemaining, index);
        if k == |segs| || segs[k].len == 0 {
          return Panicked;
        }
        var segment := segs[k];
        if segment.addr % 2 == 1 {
          return NotAligned;
        }
        var xferCount := if segment.len > bytesRemaining then bytesRemaining else segment.len;
        bytesRemaining := bytesRemaining - xferCount;
        var piece: Piece := Range(segment.addr, xferCount);
        ghost var table := prdTable[..];
        var next, ok := EmitSegment(piece, bytesRemaining == 0, index);
        if !ok {
          dmaState := Error;
          return Exhausted;
        }
        assert segs[k..][1..] == segs[k + 1..];
        ghost var d := Split(piece, bytesRemaining == 0);
        FilledFrontAndBack(table, index, d);
        JoinAgain(table[..index], d, Compile(segs[k + 1..], bytesRemaining));
        LaterEntries(table, before, index, next);
        index, k := next, k + 1;
      }
      NothingLeft(segs[k..], index);
      if index == 0 {
        return ZeroCount;
      }
      JoinAgain(prdTable[..][..index], [], []);
      FrontAndBack(prdTable[..], index);
      EngineAfterBuild(segs, byteCount, before[index..]);
      dmaState := Status;
      result := Built;
    }
  }
}
