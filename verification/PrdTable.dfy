/**
 The descriptor table of the bus-master IDE engine, and the engine itself.

 A descriptor holds a 32-bit base address, a 16-bit byte count in which 0 stands for
 64 KB, and an end-of-table flag ("Programming Interface for Bus Master IDE Controller",
 Revision 1.0, section "Physical Region Descriptor Table").
 */
module PrdEngine {
  import opened Wrappers

  const BLOCK := 0x1_0000
  const SPACE := 0x1_0000_0000

  type U16 = x: int | 0 <= x < BLOCK
  type U32 = x: int | 0 <= x < SPACE

  datatype Prd = Prd(base: U32, count: U16, last: bool)

  // The byte count as the engine reads it.
  function Length(d: Prd): (n: nat)
    ensures 1 <= n <= BLOCK
  {
    if d.count == 0 then BLOCK else d.count
  }

  // The n byte addresses from addr on, in order.
  function Bytes(addr: int, n: nat): (r: seq<int>)
    ensures |r| == n
    ensures forall i :: 0 <= i < n ==> r[i] == addr + i
  {
    seq(n, i => addr + i)
  }

  lemma BytesJoin(addr: int, m: nat, n: nat)
    ensures Bytes(addr, m) + Bytes(addr + m, n) == Bytes(addr, m + n)
  {
  }

  // What the engine transfers when it is started at the first entry of `table`:
  // the byte addresses in order, or None when it walks past the last entry.
  function Run(table: seq<Prd>): Option<seq<int>> {
    if table == [] then
      None
    else
      var here := Bytes(table[0].base, Length(table[0]));
      if table[0].last then
        Some(here)
      else
        match Run(table[1..])
        case None => None
        case Some(rest) => Some(here + rest)
  }

  // A descriptor the engine accepts: word aligned, inside one 64 KB block.
  predicate Acceptable(d: Prd) {
    && d.base % 2 == 0
    && d.base / BLOCK == (d.base + Length(d) - 1) / BLOCK
  }

  // A chunk of entries that all continue is walked through to what follows it.
  lemma {:induction false} RunThrough(chunk: seq<Prd>, rest: seq<Prd>)
    requires forall d :: d in chunk ==> !d.last
    ensures Run(chunk + rest) ==
            (match Run(rest)
             case None => None
             case Some(bytes) => Some(Walked(chunk) + bytes))
  {
    if chunk == [] {
      assert chunk + rest == rest;
      assert Run(rest).Some? ==> Walked(chunk) + Run(rest).value == Run(rest).value;
    } else {
      assert (chunk + rest)[1..] == chunk[1..] + rest;
      assert chunk[0] in chunk;
      RunThrough(chunk[1..], rest);
      var here := Bytes(chunk[0].base, Length(chunk[0]));
      match Run(rest)
      case None =>
      case Some(bytes) => assert here + (Walked(chunk[1..]) + bytes) == Walked(chunk) + bytes;
    }
  }

  // The bytes of a chunk of entries, flags ignored.
  function Walked(chunk: seq<Prd>): seq<int> {
    if chunk == [] then [] else Bytes(chunk[0].base, Length(chunk[0])) + Walked(chunk[1..])
  }
}

/** What a build should produce, without the table, the loops or the 32-bit pointers. */
module PrdPlan {
  import opened Wrappers
  import opened PrdEngine

  const MAX_DESC := 512
  const TOP := 0xFFFF_0000 // start of the last 64 KB block of the address space

  datatype Range = Range(addr: U32, len: U32)

  // A segment of the 32-bit physical address space.
  type Segment = s: Range | s.addr + s.len <= SPACE witness Range(0, 0)

  // A non-empty one.
  type Piece = s: Segment | s.len > 0 witness Range(0, 1)

  datatype Result = Built | NotAligned | Exhausted | ZeroCount | Panicked

  function Flatten(segs: seq<Segment>): seq<int> {
    if segs == [] then [] else Bytes(segs[0].addr, segs[0].len) + Flatten(segs[1..])
  }

  function Min(a: nat, b: nat): nat {
    if a <= b then a else b
  }

  // The segments a build of n bytes gets to, the last one cut to what is still wanted.
  function Visited(segs: seq<Segment>, n: nat): seq<Piece> {
    if n == 0 || segs == [] || segs[0].len == 0 then
      []
    else
      var c := Min(segs[0].len, n);
      [Range(segs[0].addr, c)] + Visited(segs[1..], n - c)
  }

  function TotalLength(segs: seq<Segment>): nat {
    if segs == [] then 0 else segs[0].len + TotalLength(segs[1..])
  }

  // The two shapes of segment for which the wrap-around of a 32-bit pointer matters.

  // Ends inside the last block: the next boundary wraps to 0 and the end is always above it.
  predicate Runaway(s: Segment) {
    TOP < s.addr + s.len < SPACE
  }

  // Starts below the last block and ends exactly at the top: the end wraps to 0.
  predicate Truncated(s: Segment) {
    s.addr < TOP && s.addr + s.len == SPACE
  }

  // One 64 KB block touched, one descriptor.
  function BlocksTouched(s: Piece): (k: int)
    ensures k >= 1
  {
    (s.addr + s.len - 1) / BLOCK - s.addr / BLOCK + 1
  }

  function BlockEnd(addr: int): (e: int)
    ensures addr < e <= addr + BLOCK && e % BLOCK == 0
  {
    (addr / BLOCK + 1) * BLOCK
  }

  // The descriptors for one segment, cut at every block boundary.
  function Split(s: Piece, last: bool): (r: seq<Prd>)
    ensures |r| >= 1
    decreases s.len
  {
    var e := BlockEnd(s.addr);
    if Truncated(s) || s.addr + s.len <= e then
      [Prd(s.addr, s.len % BLOCK, last)]
    else
      [Prd(s.addr, (e - s.addr) % BLOCK, false)] + Split(Range(e, s.addr + s.len - e), last)
  }

  function Cost(s: Piece): (c: nat)
    ensures c >= 1
  {
    if Runaway(s) then MAX_DESC + 1 else if Truncated(s) then 1 else BlocksTouched(s)
  }

  // The whole descriptor list; only the final entry ends the table.
  function Compile(segs: seq<Segment>, n: nat): seq<Prd>
  {
    if n == 0 || segs == [] || segs[0].len == 0 then
      []
    else
      var c := Min(segs[0].len, n);
      Split(Range(segs[0].addr, c), n == c) + Compile(segs[1..], n - c)
  }

  // How a build ends, `used` entries being filled already.
  function Outcome(segs: seq<Segment>, n: nat, used: nat): Result
  {
    if n == 0 then
      if used == 0 then ZeroCount else Built
    else if segs == [] || segs[0].len == 0 then
      Panicked
    else if segs[0].addr % 2 == 1 then
      NotAligned
    else
      var c := Min(segs[0].len, n);
      var cost := Cost(Range(segs[0].addr, c));
      if used + cost > MAX_DESC then Exhausted else Outcome(segs[1..], n - c, used + cost)
  }

  // ---------------------------------------------------------------------------------
  // One segment

  // A count cut to 16 bits is read as it was, 0 as 64 KB.
  lemma CountDecodes(base: U32, n: nat, last: bool)
    requires 0 < n <= BLOCK
    ensures Length(Prd(base, n % BLOCK, last)) == n
  {
  }

  lemma InOneBlock(addr: nat, n: nat)
    requires 0 < n && addr + n <= BlockEnd(addr)
    ensures addr / BLOCK == (addr + n - 1) / BLOCK
  {
  }

  lemma PieceAcceptable(addr: U32, n: nat, last: bool)
    requires addr % 2 == 0 && 0 < n && addr + n <= BlockEnd(addr)
    ensures Acceptable(Prd(addr, n % BLOCK, last))
  {
    CountDecodes(addr, n, last);
    InOneBlock(addr, n);
    hide BlockEnd, Length;
  }

  lemma Multiples(e: int)
    requires e % BLOCK == 0
    ensures e % 2 == 0
  {
  }

  lemma SameRemainder(b: int, d: int)
    requires d % BLOCK == 0
    ensures (b + d) % BLOCK == b % BLOCK
  {
  }

  lemma BelowLastBlock(addr: nat)
    requires addr < TOP
    ensures BlockEnd(addr) <= TOP && (SPACE - BlockEnd(addr)) % BLOCK == 0
  {
  }

  // What a truncated segment keeps of its length: the part up to the first boundary.
  lemma TruncatedCount(s: Piece)
    requires Truncated(s)
    ensures s.len % BLOCK == (BlockEnd(s.addr) - s.addr) % BLOCK
    ensures BlockEnd(s.addr) - s.addr < s.len
  {
    BelowLastBlock(s.addr);
    SameRemainder(BlockEnd(s.addr) - s.addr, SPACE - BlockEnd(s.addr));
    hide BlockEnd;
  }

  // The first descriptor stands for the bytes up to the first boundary, or for all of them;
  // the others, if any, are those of what is left.
  lemma SplitFirst(s: Piece, last: bool)
    ensures var e, r := BlockEnd(s.addr), Split(s, last);
            var n := if Truncated(s) || s.addr + s.len > e then e - s.addr else s.len;
            && r[0] == Prd(s.addr, n % BLOCK, r[0].last)
            && (Truncated(s) ==> |r| == 1 && n < s.len)
            && (s.addr + s.len <= e ==> |r| == 1)
            && (!Truncated(s) && s.addr + s.len > e ==>
                  e < SPACE && r == [r[0]] + Split(Range(e, s.addr + s.len - e), last))
  {
    if Truncated(s) { TruncatedCount(s); }
  }

  // Every descriptor is acceptable to the engine.
  lemma {:induction false} SplitAcceptable(s: Piece, last: bool)
    requires s.addr % 2 == 0
    ensures forall d :: d in Split(s, last) ==> Acceptable(d)
    decreases s.len
  {
    hide Split, Acceptable, Length, Truncated;
    var e := BlockEnd(s.addr);
    SplitFirst(s, last);
    var n := if Truncated(s) || s.addr + s.len > e then e - s.addr else s.len;
    hide BlockEnd;
    PieceAcceptable(s.addr, n, Split(s, last)[0].last);
    if !Truncated(s) && s.addr + s.len > e {
      Multiples(e);
      SplitAcceptable(Range(e, s.addr + s.len - e), last);
    }
  }

  ghost predicate EvenCounts(r: seq<Prd>) {
    forall d :: d in r ==> d.count % 2 == 0
  }

  lemma EvenCountsJoin(a: seq<Prd>, b: seq<Prd>)
    ensures EvenCounts(a + b) <==> EvenCounts(a) && EvenCounts(b)
  {
    assert forall d :: d in a + b <==> d in a || d in b;
  }

  lemma EvenCount(d: Prd)
    ensures EvenCounts([d]) <==> d.count % 2 == 0
  {
    assert d in [d];
  }

  // The counts are even, as the format requires, if and only if the length is.
  lemma {:induction false} SplitCountsEvenIff(s: Piece, last: bool)
    requires s.addr % 2 == 0
    ensures EvenCounts(Split(s, last)) <==> s.len % 2 == 0
    decreases s.len
  {
    hide Split, Truncated, EvenCounts;
    var e, r := BlockEnd(s.addr), Split(s, last);
    SplitFirst(s, last);
    var n := if Truncated(s) || s.addr + s.len > e then e - s.addr else s.len;
    hide BlockEnd;
    Multiples(e);
    EvenCut(s.addr, e, s.len);
    SameParity(n);
    EvenCount(r[0]);
    if Truncated(s) {
      TruncatedCount(s);
      SameParity(s.len);
      assert r == [r[0]];
    } else if s.addr + s.len > e {
      var rest := Range(e, s.addr + s.len - e);
      SplitCountsEvenIff(rest, last);
      EvenCountsJoin([r[0]], Split(rest, last));
    } else {
      assert r == [r[0]];
    }
  }

  lemma EvenCut(addr: int, e: int, len: int)
    requires addr % 2 == 0 && e % 2 == 0
    ensures (e - addr) % 2 == 0 && (addr + len - e) % 2 == len % 2
  {
  }

  lemma SameParity(n: nat)
    ensures n % BLOCK % 2 == n % 2
  {
  }

  // `last` is the flag of the final entry, and no other entry has it.
  ghost predicate FlaggedAtEnd(r: seq<Prd>, last: bool) {
    forall i :: 0 <= i < |r| ==> r[i].last == (last && i == |r| - 1)
  }

  lemma {:induction false} SplitFlags(s: Piece, last: bool)
    ensures FlaggedAtEnd(Split(s, last), last)
    decreases s.len
  {
    var e := BlockEnd(s.addr);
    if !(Truncated(s) || s.addr + s.len <= e) {
      var rest := Range(e, s.addr + s.len - e);
      SplitFlags(rest, last);
      var r := Split(s, last);
      var tail := Split(rest, last);
      assert r == [r[0]] + tail;
      forall i | 1 <= i < |r|
        ensures r[i].last == (last && i == |r| - 1)
      {
        assert r[i] == tail[i - 1];
      }
    }
  }

  // Decoding the 16-bit counts gives back the segment, unless the end wrapped.
  lemma {:induction false} SplitMeaning(s: Piece, last: bool)
    ensures !Truncated(s) ==> Walked(Split(s, last)) == Bytes(s.addr, s.len)
    ensures Truncated(s) ==> |Walked(Split(s, last))| < s.len
    decreases s.len
  {
    hide Split, Length;
    var e, r := BlockEnd(s.addr), Split(s, last);
    SplitFirst(s, last);
    var n := if Truncated(s) || s.addr + s.len > e then e - s.addr else s.len;
    hide BlockEnd;
    CountDecodes(s.addr, n, r[0].last);
    assert Walked(r) == Bytes(s.addr, n) + Walked(r[1..]);
    if Truncated(s) || s.addr + s.len <= e {
      assert r[1..] == [] && Bytes(s.addr, n) + [] == Bytes(s.addr, n);
    } else {
      var rest := Range(e, s.addr + s.len - e);
      SplitMeaning(rest, last);
      assert r[1..] == Split(rest, last);
      BytesJoin(s.addr, n, rest.len);
    }
  }

  // The closed form of the number of descriptors.
  lemma {:induction false} SplitCost(s: Piece, last: bool)
    requires !Runaway(s)
    ensures |Split(s, last)| == Cost(s)
    decreases s.len
  {
    var e := BlockEnd(s.addr);
    if !(Truncated(s) || s.addr + s.len <= e) {
      SplitCost(Range(e, s.addr + s.len - e), last);
    }
  }

  // A division of s into consecutive non-empty pieces, none of which crosses a boundary.
  ghost predicate IsDivision(pieces: seq<Piece>, s: Segment)
    decreases |pieces|
  {
    if s.len == 0 then
      pieces == []
    else
      && pieces != []
      && var p := pieces[0];
      && p.addr == s.addr && p.len <= s.len
      && p.addr / BLOCK == (p.addr + p.len - 1) / BLOCK
      && (if p.len == s.len then |pieces| == 1
          else IsDivision(pieces[1..], Range(s.addr + p.len, s.len - p.len)))
  }

  // No division of a segment is shorter than the one the builder makes.
  lemma {:induction false} SplitOptimal(s: Piece, last: bool, pieces: seq<Piece>)
    requires !Truncated(s) && !Runaway(s)
    requires IsDivision(pieces, s)
    ensures |Split(s, last)| <= |pieces|
    decreases |pieces|
  {
    hide Split, Truncated, Runaway;
    SplitCost(s, last);
    var p := pieces[0];
    if p.len < s.len {
      var rest := Range(s.addr + p.len, s.len - p.len);
      RestNotTruncated(s, rest);
      SplitOptimal(rest, last, pieces[1..]);
      SplitCost(rest, last);
      CutCost(s.addr, p.len);
    }
  }

  // Cutting a piece off at most saves one block.
  lemma CutCost(addr: nat, n: nat)
    requires 0 < n && addr / BLOCK == (addr + n - 1) / BLOCK
    ensures (addr + n) / BLOCK <= addr / BLOCK + 1
  {
    NextBlock(addr + n - 1);
  }

  lemma NextBlock(x: nat)
    ensures (x + 1) / BLOCK <= x / BLOCK + 1
  {
  }

  lemma RestNotTruncated(s: Piece, rest: Piece)
    requires !Truncated(s) && !Runaway(s)
    requires rest.addr > s.addr && rest.addr + rest.len == s.addr + s.len
    ensures !Truncated(rest) && !Runaway(rest)
  {
  }

  // ---------------------------------------------------------------------------------
  // The segment list

  lemma {:induction false} VisitedFlatten(segs: seq<Segment>, n: nat)
    requires TotalLength(Visited(segs, n)) == n
    ensures n <= |Flatten(segs)|
    ensures Flatten(Visited(segs, n)) == Flatten(segs)[..n]
  {
    if n == 0 || segs == [] || segs[0].len == 0 {
      assert Flatten(segs)[..0] == [];
    } else {
      var c := Min(segs[0].len, n);
      var v := Visited(segs, n);
      assert v[1..] == Visited(segs[1..], n - c);
      VisitedFlatten(segs[1..], n - c);
      var head := Bytes(segs[0].addr, segs[0].len);
      assert Bytes(segs[0].addr, c) == head[..c];
      if c < segs[0].len {
        assert n == c;
        assert Flatten(segs)[..n] == head[..c] == Bytes(v[0].addr, v[0].len) + [];
      } else {
        assert Flatten(segs)[..n] == head + Flatten(segs[1..])[..n - c];
      }
    }
  }

  ghost predicate AllEven(vs: seq<Piece>) {
    forall v :: v in vs ==> v.addr % 2 == 0
  }

  lemma AllEvenCons(v: Piece, vs: seq<Piece>)
    ensures AllEven([v] + vs) <==> v.addr % 2 == 0 && AllEven(vs)
  {
    assert forall w :: w in [v] + vs <==> w == v || w in vs;
  }

  function TotalCost(vs: seq<Piece>): nat
  {
    if vs == [] then 0 else Cost(vs[0]) + TotalCost(vs[1..])
  }

  // What the visited segments must satisfy, `used` entries being filled already.
  ghost predicate Fits(vs: seq<Piece>, used: nat) {
    AllEven(vs) && used + TotalCost(vs) <= MAX_DESC
  }

  lemma FitsCons(v: Piece, vs: seq<Piece>, used: nat)
    ensures Fits([v] + vs, used) <==> v.addr % 2 == 0 && used + Cost(v) <= MAX_DESC && Fits(vs, used + Cost(v))
    ensures TotalLength([v] + vs) == v.len + TotalLength(vs)
  {
    AllEvenCons(v, vs);
    assert ([v] + vs)[1..] == vs;
  }

  // The exact condition for a build to succeed.
  lemma {:induction false} BuiltFrom(segs: seq<Segment>, n: nat, used: nat)
    requires used <= MAX_DESC
    ensures Outcome(segs, n, used) == Built <==>
            used + n > 0 && TotalLength(Visited(segs, n)) == n && Fits(Visited(segs, n), used)
  {
    hide Cost;
    if n == 0 || segs == [] || segs[0].len == 0 {
    } else {
      var c := Min(segs[0].len, n);
      var head := Range(segs[0].addr, c);
      var rest := Visited(segs[1..], n - c);
      assert Visited(segs, n) == [head] + rest;
      FitsCons(head, rest, used);
      var next := used + Cost(head);
      if head.addr % 2 == 0 && next <= MAX_DESC {
        assert Outcome(segs, n, used) == Outcome(segs[1..], n - c, next);
        BuiltFrom(segs[1..], n - c, next);
      }
    }
  }

  // WHY A BUILD FAILS. If the visited segments up to the k-th fit and it does not, the build
  // ends there: as not aligned if its address is odd, and as exhausted otherwise.
  lemma {:induction false} FailsAt(segs: seq<Segment>, n: nat, used: nat, k: nat)
    requires used <= MAX_DESC && k < |Visited(segs, n)|
    requires Fits(Visited(segs, n)[..k], used) && !Fits(Visited(segs, n)[..k + 1], used)
    ensures Outcome(segs, n, used) == if Visited(segs, n)[k].addr % 2 == 1 then NotAligned else Exhausted
    decreases k
  {
    hide Cost, Fits;
    var vs, c := Visited(segs, n), Min(segs[0].len, n);
    var head, rest := Range(segs[0].addr, c), Visited(segs[1..], n - c);
    assert vs == [head] + rest;
    NothingFits(used);
    if k == 0 {
      assert vs[..0] == [] && vs[..1] == [head] + [];
      FitsCons(head, [], used);
      NothingFits(used + Cost(head));
    } else {
      assert vs[..k] == [head] + rest[..k - 1] && vs[..k + 1] == [head] + rest[..k];
      FitsCons(head, rest[..k - 1], used);
      FitsCons(head, rest[..k], used);
      FailsAt(segs[1..], n - c, used + Cost(head), k - 1);
    }
  }

  lemma NothingFits(used: nat)
    ensures Fits([], used) <==> used <= MAX_DESC
  {
  }

  // Some segment is the first not to fit, unless all of them do.
  lemma {:induction false} SomeMisfit(vs: seq<Piece>, used: nat)
    requires used <= MAX_DESC
    ensures Fits(vs, used) || exists k: nat :: k < |vs| && Fits(vs[..k], used) && !Fits(vs[..k + 1], used)
    decreases |vs|
  {
    hide Fits;
    NothingFits(used);
    if vs == [] {
    } else {
      var front := vs[..|vs| - 1];
      assert vs[..|vs| - 1 + 1] == vs;
      SomeMisfit(front, used);
      if !Fits(front, used) {
        var k: nat :| k < |front| && Fits(front[..k], used) && !Fits(front[..k + 1], used);
        assert vs[..k] == front[..k] && vs[..k + 1] == front[..k + 1];
      }
    }
  }

  // A request for nothing is refused as such; and if the segments that fit are all there
  // are, but too few, the build panics.
  lemma {:induction false} ShortSupplyPanics(segs: seq<Segment>, n: nat, used: nat)
    requires used <= MAX_DESC && Fits(Visited(segs, n), used)
    ensures Outcome(segs, 0, 0) == ZeroCount
    ensures TotalLength(Visited(segs, n)) < n ==> Outcome(segs, n, used) == Panicked
    decreases segs
  {
    hide Cost, Fits;
    if !(n == 0 || segs == [] || segs[0].len == 0) {
      var c := Min(segs[0].len, n);
      var head, rest := Range(segs[0].addr, c), Visited(segs[1..], n - c);
      assert Visited(segs, n) == [head] + rest;
      FitsCons(head, rest, used);
      ShortSupplyPanics(segs[1..], n - c, used + Cost(head));
    }
  }

  // Descriptors for one segment: one for each block touched, but a single one for a
  // segment whose wrapped end hides its boundaries.
  function Descriptors(v: Piece): int {
    if Truncated(v) then 1 else BlocksTouched(v)
  }

  function TotalDescriptors(vs: seq<Piece>): (k: int)
    ensures k >= 0
  {
    if vs == [] then 0 else Descriptors(vs[0]) + TotalDescriptors(vs[1..])
  }

  lemma {:induction false} CostIsDescriptors(vs: seq<Piece>)
    ensures TotalCost(vs) <= MAX_DESC <==> (forall v :: v in vs ==> !Runaway(v)) && TotalDescriptors(vs) <= MAX_DESC
    ensures (forall v :: v in vs ==> !Runaway(v)) ==> TotalCost(vs) == TotalDescriptors(vs)
  {
    if vs != [] {
      assert forall v :: v in vs <==> v == vs[0] || v in vs[1..];
      CostIsDescriptors(vs[1..]);
    }
  }

  // EXACT CAPACITY. A non-zero request is built if and only if the segments supply it,
  // all those visited are even, none of them ends inside the last 64 KB block, and the
  // descriptors they need number at most 512.
  lemma ExactCapacity(segs: seq<Segment>, n: nat)
    requires n > 0
    ensures var vs := Visited(segs, n);
            Outcome(segs, n, 0) == Built <==>
            && TotalLength(vs) == n
            && AllEven(vs)
            && (forall v :: v in vs ==> !Runaway(v))
            && TotalDescriptors(vs) <= MAX_DESC
  {
    BuiltFrom(segs, n, 0);
    CostIsDescriptors(Visited(segs, n));
  }

  lemma {:induction false} SmallSegmentsCost(vs: seq<Piece>)
    requires forall v :: v in vs ==> v.len <= BLOCK
    ensures TotalDescriptors(vs) <= 2 * |vs|
  {
    if vs != [] {
      SmallSegmentsCost(vs[1..]);
    }
  }

  lemma {:induction false} VisitedCount(segs: seq<Segment>, n: nat)
    ensures |Visited(segs, n)| <= |segs|
    ensures forall v :: v in Visited(segs, n) ==>
              exists s :: s in segs && v.addr == s.addr && v.len <= s.len
  {
    if !(n == 0 || segs == [] || segs[0].len == 0) {
      var c := Min(segs[0].len, n);
      VisitedCount(segs[1..], n - c);
      forall v | v in Visited(segs, n)
        ensures exists s :: s in segs && v.addr == s.addr && v.len <= s.len
      {
        if v == Range(segs[0].addr, c) {
          assert segs[0] in segs;
        } else {
          assert v in Visited(segs[1..], n - c);
        }
      }
    }
  }

  // The advertised limit of 256 segments never exhausts the table when no segment is
  // longer than 64 KB ...
  lemma HalfTableSegmentsNeverExhaust(segs: seq<Segment>, n: nat)
    requires n > 0
    requires |segs| <= MAX_DESC / 2
    requires forall s :: s in segs ==> s.len <= BLOCK && s.addr + s.len <= TOP
    requires forall s :: s in segs ==> s.addr % 2 == 0
    requires TotalLength(Visited(segs, n)) == n
    ensures Outcome(segs, n, 0) == Built
  {
    VisitedCount(segs, n);
    SmallSegmentsCost(Visited(segs, n));
    ExactCapacity(segs, n);
  }

  // ... and the 64 KB cap is needed: one long segment is enough to exhaust it.
  lemma LongSegmentExhausts()
    ensures Outcome([Range(0, 513 * BLOCK)], 513 * BLOCK, 0) == Exhausted
  {
    assert Cost(Range(0, 513 * BLOCK)) == 513;
  }

  // ---------------------------------------------------------------------------------
  // Meaning

  lemma {:induction false} CompileWellFormed(segs: seq<Segment>, n: nat)
    requires TotalLength(Visited(segs, n)) == n
    requires AllEven(Visited(segs, n))
    ensures n > 0 ==> Compile(segs, n) != []
    ensures forall d :: d in Compile(segs, n) ==> Acceptable(d)
    ensures FlaggedAtEnd(Compile(segs, n), true)
  {
    if !(n == 0 || segs == [] || segs[0].len == 0) {
      var c := Min(segs[0].len, n);
      var head := Range(segs[0].addr, c);
      var vs := Visited(segs, n);
      assert vs[0] == head && vs[1..] == Visited(segs[1..], n - c);
      assert forall v :: v in vs[1..] ==> v in vs;
      SplitAcceptable(head, n == c);
      SplitFlags(head, n == c);
      CompileWellFormed(segs[1..], n - c);
      assert Compile(segs, n) == Split(head, n == c) + Compile(segs[1..], n - c);
      if n == c {
        assert Compile(segs[1..], 0) == [];
      }
    }
  }

  lemma {:induction false} WalkedJoin(a: seq<Prd>, b: seq<Prd>)
    ensures Walked(a + b) == Walked(a) + Walked(b)
  {
    if a == [] {
      assert a + b == b;
    } else {
      assert (a + b)[1..] == a[1..] + b;
      WalkedJoin(a[1..], b);
    }
  }

  lemma {:induction false} FlattenLength(segs: seq<Segment>)
    ensures |Flatten(segs)| == TotalLength(segs)
  {
    if segs != [] { FlattenLength(segs[1..]); }
  }

  // The descriptors stand for the visited bytes exactly when no visited segment is truncated.
  lemma {:induction false} CompileMeaning(segs: seq<Segment>, n: nat)
    ensures var vs := Visited(segs, n);
            var bytes := Walked(Compile(segs, n));
            && |bytes| <= TotalLength(vs)
            && (if forall v :: v in vs ==> !Truncated(v) then bytes == Flatten(vs)
                else |bytes| < TotalLength(vs))
  {
    hide Split, Truncated, Bytes, Walked, Flatten, TotalLength, Compile, Visited;
    FirstVisited(segs, n);
    if !(n == 0 || segs == [] || segs[0].len == 0) {
      var c := Min(segs[0].len, n);
      var head, rest := Range(segs[0].addr, c), Visited(segs[1..], n - c);
      NoneTruncatedCons(head, rest);
      SplitMeaning(head, n == c);
      CompileMeaning(segs[1..], n - c);
      WalkedJoin(Split(head, n == c), Compile(segs[1..], n - c));
    }
  }

  // A build takes one segment, or the part of it that is still wanted, and goes on.
  lemma FirstVisited(segs: seq<Segment>, n: nat)
    ensures n == 0 || segs == [] || segs[0].len == 0 ==>
              Visited(segs, n) == [] && Walked(Compile(segs, n)) == Flatten(Visited(segs, n)) == [] && TotalLength(Visited(segs, n)) == 0
    ensures !(n == 0 || segs == [] || segs[0].len == 0) ==>
              var c := Min(segs[0].len, n);
              var head, rest := Range(segs[0].addr, c), Visited(segs[1..], n - c);
              && Visited(segs, n) == [head] + rest
              && Compile(segs, n) == Split(head, n == c) + Compile(segs[1..], n - c)
              && Flatten([head] + rest) == Bytes(head.addr, c) + Flatten(rest)
              && TotalLength([head] + rest) == c + TotalLength(rest)
  {
    hide Split, Bytes;
  }

  lemma NoneTruncatedCons(v: Piece, vs: seq<Piece>)
    ensures (forall w :: w in [v] + vs ==> !Truncated(w)) <==> !Truncated(v) && forall w :: w in vs ==> !Truncated(w)
  {
    hide Truncated;
    assert forall w :: w in [v] + vs <==> w == v || w in vs;
  }

  // EVEN COUNTS. The format reserves the lowest bit of a count. The code only logs a segment
  // of odd length; every count it writes is even if and only if every visited length is.
  lemma {:induction false} CountsEvenIff(segs: seq<Segment>, n: nat)
    requires AllEven(Visited(segs, n))
    ensures EvenCounts(Compile(segs, n)) <==> (forall v :: v in Visited(segs, n) ==> v.len % 2 == 0)
  {
    hide Split;
    if !(n == 0 || segs == [] || segs[0].len == 0) {
      var c := Min(segs[0].len, n);
      var head, vs := Range(segs[0].addr, c), Visited(segs, n);
      assert vs == [head] + Visited(segs[1..], n - c);
      AllEvenCons(head, Visited(segs[1..], n - c));
      SplitCountsEvenIff(head, n == c);
      CountsEvenIff(segs[1..], n - c);
      EvenCountsJoin(Split(head, n == c), Compile(segs[1..], n - c));
    }
  }

  // A table whose first final entry is followed by anything is walked up to that entry.
  lemma {:induction false} RunStopsAtLast(chunk: seq<Prd>, stale: seq<Prd>)
    requires chunk != []
    requires FlaggedAtEnd(chunk, true)
    ensures Run(chunk + stale) == Some(Walked(chunk))
  {
    var front, final := chunk[..|chunk| - 1], [chunk[|chunk| - 1]];
    assert chunk == front + final;
    assert chunk + stale == front + (final + stale);
    RunThrough(front, final + stale);
    assert (final + stale)[0] == final[0];
    assert Walked(final) == Bytes(final[0].base, Length(final[0]));
    WalkedJoin(front, final);
  }

  // MEANING PRESERVATION. After any successful build, whatever follows in the table, the
  // engine transfers exactly the first n bytes of the segment list, in order, if and only
  // if no visited segment starts below the last 64 KB block and ends at the very top.
  lemma EngineTransfersRequest(segs: seq<Segment>, n: nat, stale: seq<Prd>)
    requires Outcome(segs, n, 0) == Built
    ensures n <= |Flatten(segs)|
    ensures Run(Compile(segs, n) + stale) == Some(Flatten(segs)[..n]) <==>
            (forall v :: v in Visited(segs, n) ==> !Truncated(v))
  {
    BuiltFrom(segs, n, 0);
    CompileWellFormed(segs, n);
    CompileMeaning(segs, n);
    VisitedFlatten(segs, n);
    FlattenLength(Visited(segs, n));
    RunStopsAtLast(Compile(segs, n), stale);
  }

  // The failing family is not empty: 128 KB that end at the top of the address space are
  // accepted and leave a table that transfers only 64 KB.
  lemma TruncatedExample()
    ensures var segs := [Range(0xFFFE_0000, 0x2_0000)];
            && Outcome(segs, 0x2_0000, 0) == Built
            && Compile(segs, 0x2_0000) == [Prd(0xFFFE_0000, 0, true)]
  {
    var s := Range(0xFFFE_0000, 0x2_0000);
    assert Truncated(s) && !Runaway(s);
    assert Split(s, true) == [Prd(0xFFFE_0000, 0, true)];
    assert Cost(s) == 1;
    assert [s][1..] == [];
  }

  // Segments that end inside the last block are never built wrongly: they are refused.
  lemma RunawayRefused(segs: seq<Segment>, n: nat)
    requires exists v :: v in Visited(segs, n) && Runaway(v)
    ensures Outcome(segs, n, 0) != Built
  {
    BuiltFrom(segs, n, 0);
    CostIsDescriptors(Visited(segs, n));
  }
}
