/**
 The input side of the PS/2 controller: what the port delivers, what the keyboard
 interrupt moves to the driver's queue, and which bytes the two data-port readers take.

 The hardware is a finite sequence of events in order of arrival; past its end the port
 stays silent. A keyboard byte marked `early` arrives while interrupts are enabled, so the
 interrupt handler takes it if it is next when the controller is not locked.
 */
module Ps2Stream {
  import opened Wrappers

  datatype Device = Keyboard | Mouse

  datatype Event = Idle | Arrive(dev: Device, data: bv8, early: bool)

  type Tagged = (Device, bv8)

  const QUEUE_SIZE := 32
  const TIMEOUT := 10000

  // The keyboard queue, the events still to come, and the keys lost to a full queue.
  datatype Lines = Lines(queue: seq<bv8>, input: seq<Event>, dropped: seq<bv8>)

  predicate InterruptPending(s: Lines) {
    s.input != [] && s.input[0].Arrive? && s.input[0].dev == Keyboard && s.input[0].early
  }

  // One run of the keyboard interrupt handler.
  function Interrupt(s: Lines): Lines
    requires InterruptPending(s)
  {
    var key := s.input[0].data;
    if |s.queue| < QUEUE_SIZE then
      Lines(s.queue + [key], s.input[1..], s.dropped)
    else
      Lines(s.queue, s.input[1..], s.dropped + [key])
  }

  // All interrupts that come in while the controller is not locked.
  function Absorb(s: Lines): (r: Lines)
    ensures !InterruptPending(r)
    ensures |r.queue| + |r.input| <= |s.queue| + |s.input|
    decreases |s.input|
  {
    if InterruptPending(s) then Absorb(Interrupt(s)) else s
  }

  datatype Poll = TimedOut(rest: seq<Event>) | Ready(dev: Device, data: bv8, rest: seq<Event>, budget: nat)

  // Poll the status port until data is available or the time-out counter is used up.
  function Wait(input: seq<Event>, budget: nat): (p: Poll)
    ensures p.Ready? ==> |p.rest| < |input| && 0 < p.budget <= budget
  {
    if budget == 0 || input == [] then
      TimedOut(input)
    else if input[0].Idle? then
      Wait(input[1..], budget - 1)
    else
      Ready(input[0].dev, input[0].data, input[1..], budget)
  }

  datatype Fetch = Silence(after: Lines) | Got(dev: Device, data: bv8, after: Lines, budget: nat)

  // The byte that the next turn of a reader for `dev` takes, from the queue or the port.
  function Next(dev: Device, s: Lines, budget: nat): (f: Fetch)
    ensures f.Got? ==> |f.after.queue| + |f.after.input| < |s.queue| + |s.input|
  {
    var a := Absorb(s);
    if dev == Keyboard && a.queue != [] then
      Got(Keyboard, a.queue[0], a.(queue := a.queue[1..]), budget)
    else
      match Wait(a.input, budget)
      case TimedOut(rest) => Silence(a.(input := rest))
      case Ready(d, b, rest, left) => Got(d, b, a.(input := rest), left)
  }

  // Every byte a reader for `dev` would take if it never returned before the time-out.
  function Takes(dev: Device, s: Lines, budget: nat): seq<Tagged>
    decreases |s.queue| + |s.input|
  {
    match Next(dev, s, budget)
    case Silence(_) => []
    case Got(d, b, after, left) => [(d, b)] + Takes(dev, after, left)
  }

  function Of(dev: Device, t: seq<Tagged>): seq<bv8> {
    if t == [] then [] else (if t[0].0 == dev then [t[0].1] else []) + Of(dev, t[1..])
  }

  function NotOf(dev: Device, t: seq<Tagged>): seq<Tagged> {
    if t == [] then [] else (if t[0].0 == dev then [] else [t[0]]) + NotOf(dev, t[1..])
  }

  // What is taken up to and including the k-th byte of `dev`; everything when there are fewer.
  function UpTo(dev: Device, t: seq<Tagged>, k: nat): seq<Tagged> {
    if k == 0 || t == [] then [] else [t[0]] + UpTo(dev, t[1..], if t[0].0 == dev then k - 1 else k)
  }

  // ---------------------------------------------------------------------------------
  // The two readers, turn by turn. `arrived` is false for the fake byte of a time-out.

  datatype Reading = Reading(data: bv8, arrived: bool, dispatched: seq<Tagged>, after: Lines)

  function Other(dev: Device): Device {
    if dev == Keyboard then Mouse else Keyboard
  }

  // readDataPort(deviceType)
  function Read(dev: Device, s: Lines, budget: nat): Reading
    decreases |s.queue| + |s.input|
  {
    match Next(dev, s, budget)
    case Silence(after) => Reading(0, false, [], after)
    case Got(d, b, after, left) =>
      if d == dev then
        Reading(b, true, [], after)
      else
        var r := Read(dev, after, left);
        r.(dispatched := [(Other(dev), b)] + r.dispatched)
  }

  // readDataPort(deviceType, expectedByte), `held` being the first byte put aside.
  function ReadExpected(dev: Device, expected: bv8, s: Lines, budget: nat, held: Option<bv8>): Reading
    decreases |s.queue| + |s.input|
  {
    match Next(dev, s, budget)
    case Silence(after) =>
      Reading(if held.Some? then held.value else 0, held.Some?, [], after)
    case Got(d, b, after, left) =>
      if d != dev then
        var r := ReadExpected(dev, expected, after, left, held);
        r.(dispatched := [(Other(dev), b)] + r.dispatched)
      else if held.None? then
        if b == expected then Reading(b, true, [], after)
        else ReadExpected(dev, expected, after, left, Some(b))
      else if b == expected then
        Reading(b, true, [(dev, held.value)], after)
      else
        Reading(held.value, true, [(dev, b)], after)
  }

  // ---------------------------------------------------------------------------------
  // What the readers do, said by the stream of bytes they take.

  // The plain reader returns the first byte of its device that arrives before the
  // time-out, and dispatches exactly the bytes of the other device that came before it.
  lemma {:induction false} PlainReader(dev: Device, s: Lines, budget: nat)
    ensures var t := Takes(dev, s, budget);
            var own := Of(dev, t);
            var r := Read(dev, s, budget);
            && r.arrived == (own != [])
            && r.data == (if own == [] then 0 else own[0])
            && r.dispatched == NotOf(dev, UpTo(dev, t, 1))
    decreases |s.queue| + |s.input|
  {
    hide Next;
    match Next(dev, s, budget)
    case Silence(_) =>
    case Got(d, b, after, left) =>
      var t, rest := Takes(dev, s, budget), Takes(dev, after, left);
      assert t[0] == (d, b) && t[1..] == rest;
      if d == dev {
        assert UpTo(dev, t, 1) == [(d, b)] + UpTo(dev, rest, 0);
        assert [(d, b)][1..] == [];
      } else {
        PlainReader(dev, after, left);
        var u := UpTo(dev, t, 1);
        assert u == [(d, b)] + UpTo(dev, rest, 1) && u[1..] == UpTo(dev, rest, 1);
      }
  }

  // With the first byte put aside, one more byte of the device settles the matter.
  ghost predicate HeldOutcome(dev: Device, expected: bv8, held: bv8, t: seq<Tagged>, r: Reading) {
    var own := Of(dev, t);
    && r.arrived
    && r.data == (if own != [] && own[0] == expected then expected else held)
    && r.dispatched == NotOf(dev, UpTo(dev, t, 1)) +
                       if own == [] then [] else [(dev, if own[0] == expected then held else own[0])]
  }

  ghost predicate SecondChanceOutcome(dev: Device, expected: bv8, t: seq<Tagged>, r: Reading) {
    var own := Of(dev, t);
    && (r.arrived <==> own != [])
    && (own == [] ==> r.data == 0)
    && (own != [] ==>
          && (r.data == expected <==> own[0] == expected || (|own| >= 2 && own[1] == expected))
          && (r.data != expected ==> r.data == own[0]))
    && r.dispatched == NotOf(dev, UpTo(dev, t, if own != [] && own[0] == expected then 1 else 2)) +
                       Handed(dev, expected, own)
  }

  // The byte of its own device that the second-chance reader gives to the handler.
  function Handed(dev: Device, expected: bv8, own: seq<bv8>): seq<Tagged> {
    if |own| < 2 || own[0] == expected then [] else [(dev, if own[1] == expected then own[0] else own[1])]
  }

  // A byte of the other device in front changes nothing but what is dispatched.
  lemma UpToOther(dev: Device, x: Tagged, rest: seq<Tagged>, k: nat)
    requires x.0 != dev && k > 0
    ensures Of(dev, [x] + rest) == Of(dev, rest)
    ensures NotOf(dev, UpTo(dev, [x] + rest, k)) == [x] + NotOf(dev, UpTo(dev, rest, k))
  {
    assert ([x] + rest)[1..] == rest;
    var u := UpTo(dev, [x] + rest, k);
    assert u == [x] + UpTo(dev, rest, k) && u[1..] == UpTo(dev, rest, k);
  }

  lemma UpToOwn(dev: Device, x: Tagged, rest: seq<Tagged>, k: nat)
    requires x.0 == dev && k > 0
    ensures Of(dev, [x] + rest) == [x.1] + Of(dev, rest)
    ensures NotOf(dev, UpTo(dev, [x] + rest, k)) == NotOf(dev, UpTo(dev, rest, k - 1))
  {
    assert ([x] + rest)[1..] == rest;
    var u := UpTo(dev, [x] + rest, k);
    assert u == [x] + UpTo(dev, rest, k - 1) && u[1..] == UpTo(dev, rest, k - 1);
  }

  lemma HeldSkips(dev: Device, expected: bv8, held: bv8, x: Tagged, rest: seq<Tagged>, r: Reading)
    requires x.0 != dev && HeldOutcome(dev, expected, held, rest, r)
    ensures HeldOutcome(dev, expected, held, [x] + rest, r.(dispatched := [x] + r.dispatched))
  {
    UpToOther(dev, x, rest, 1);
    hide Of, NotOf, UpTo;
  }

  lemma SecondChanceSkips(dev: Device, expected: bv8, x: Tagged, rest: seq<Tagged>, r: Reading)
    requires x.0 != dev && SecondChanceOutcome(dev, expected, rest, r)
    ensures SecondChanceOutcome(dev, expected, [x] + rest, r.(dispatched := [x] + r.dispatched))
  {
    UpToOther(dev, x, rest, 1);
    UpToOther(dev, x, rest, 2);
    var own := Of(dev, rest);
    var k := if own != [] && own[0] == expected then 1 else 2;
    Regroup(x, NotOf(dev, UpTo(dev, rest, k)), Handed(dev, expected, own));
    hide Of, NotOf, UpTo, Handed;
  }

  lemma Regroup(x: Tagged, a: seq<Tagged>, b: seq<Tagged>)
    ensures [x] + (a + b) == ([x] + a) + b
  {
  }

  // Putting the first byte aside and settling the matter with the next one.
  lemma SecondChanceHolds(dev: Device, expected: bv8, b: bv8, rest: seq<Tagged>, r: Reading)
    requires b != expected && HeldOutcome(dev, expected, b, rest, r)
    ensures SecondChanceOutcome(dev, expected, [(dev, b)] + rest, r)
  {
    UpToOwn(dev, (dev, b), rest, 1);
    UpToOwn(dev, (dev, b), rest, 2);
    hide NotOf, UpTo;
  }

  lemma {:induction false} HeldReader(dev: Device, expected: bv8, s: Lines, budget: nat, held: bv8)
    ensures HeldOutcome(dev, expected, held, Takes(dev, s, budget), ReadExpected(dev, expected, s, budget, Some(held)))
    decreases |s.queue| + |s.input|
  {
    hide Next;
    match Next(dev, s, budget)
    case Silence(_) =>
    case Got(d, b, after, left) =>
      if d == dev {
        UpToOwn(dev, (d, b), Takes(dev, after, left), 1);
      } else {
        HeldReader(dev, expected, after, left, held);
        HeldSkips(dev, expected, held, (d, b), Takes(dev, after, left), ReadExpected(dev, expected, after, left, Some(held)));
      }
  }

  // SECOND CHANCE. Let `own` be the bytes of the device that arrive before the time-out.
  // Unless there are none, the reader returns the expected byte if and only if it is one
  // of the first two of them, and otherwise the first; the other of the two goes to the
  // device's handler, after the bytes of the other device that came in between.
  lemma {:induction false} SecondChanceReader(dev: Device, expected: bv8, s: Lines, budget: nat)
    ensures SecondChanceOutcome(dev, expected, Takes(dev, s, budget), ReadExpected(dev, expected, s, budget, None))
    decreases |s.queue| + |s.input|
  {
    hide Next, SecondChanceOutcome;
    match Next(dev, s, budget)
    case Silence(_) =>
      SecondChanceOfNothing(dev, expected, s, budget);
    case Got(d, b, after, left) =>
      var rest := Takes(dev, after, left);
      if d != dev {
        SecondChanceReader(dev, expected, after, left);
        SecondChanceSkips(dev, expected, (d, b), rest, ReadExpected(dev, expected, after, left, None));
      } else if b == expected {
        SecondChanceAtOnce(dev, expected, rest, after);
      } else {
        HeldReader(dev, expected, after, left, b);
        SecondChanceHolds(dev, expected, b, rest, ReadExpected(dev, expected, after, left, Some(b)));
      }
  }

  lemma SecondChanceOfNothing(dev: Device, expected: bv8, s: Lines, budget: nat)
    requires Next(dev, s, budget).Silence?
    ensures SecondChanceOutcome(dev, expected, Takes(dev, s, budget), ReadExpected(dev, expected, s, budget, None))
  {
    hide Next;
  }

  lemma SecondChanceAtOnce(dev: Device, expected: bv8, rest: seq<Tagged>, after: Lines)
    ensures SecondChanceOutcome(dev, expected, [(dev, expected)] + rest, Reading(expected, true, [], after))
  {
    UpToOwn(dev, (dev, expected), rest, 1);
    assert UpTo(dev, rest, 0) == [];
    hide UpTo;
  }

  // ---------------------------------------------------------------------------------
  // Conservation: no byte is lost or made up.

  function Tag(dev: Device, bytes: seq<bv8>): seq<Tagged> {
    if bytes == [] then [] else [(dev, bytes[0])] + Tag(dev, bytes[1..])
  }

  // The bytes that the events deliver, in order of arrival.
  function Arrivals(input: seq<Event>): seq<Tagged> {
    if input == [] then [] else (if input[0].Idle? then [] else [(input[0].dev, input[0].data)]) + Arrivals(input[1..])
  }

  // Every byte in the queue, still to come, or lost to a full queue.
  ghost function Bag(s: Lines): multiset<Tagged> {
    multiset(Tag(Keyboard, s.queue)) + multiset(Arrivals(s.input)) + multiset(Tag(Keyboard, s.dropped))
  }

  lemma {:induction false} TagSnoc(dev: Device, bytes: seq<bv8>, b: bv8)
    ensures Tag(dev, bytes + [b]) == Tag(dev, bytes) + [(dev, b)]
  {
    if bytes == [] {
      assert Tag(dev, [b]) == [(dev, b)] + Tag(dev, [b][1..]);
    } else {
      assert (bytes + [b])[1..] == bytes[1..] + [b];
      TagSnoc(dev, bytes[1..], b);
    }
  }

  lemma InterruptConserves(s: Lines)
    requires InterruptPending(s)
    ensures Bag(Interrupt(s)) == Bag(s)
  {
    var key := s.input[0].data;
    TagSnoc(Keyboard, s.queue, key);
    TagSnoc(Keyboard, s.dropped, key);
    assert Arrivals(s.input) == [(Keyboard, key)] + Arrivals(s.input[1..]);
    hide Tag, Arrivals;
  }

  lemma {:induction false} AbsorbConserves(s: Lines)
    ensures Bag(Absorb(s)) == Bag(s)
    decreases |s.input|
  {
    hide Bag;
    if InterruptPending(s) {
      InterruptConserves(s);
      AbsorbConserves(Interrupt(s));
    }
  }

  lemma {:induction false} WaitConserves(input: seq<Event>, budget: nat)
    ensures var p := Wait(input, budget);
            Arrivals(input) == (if p.Ready? then [(p.dev, p.data)] else []) + Arrivals(p.rest)
  {
    if budget != 0 && input != [] && input[0].Idle? {
      WaitConserves(input[1..], budget - 1);
    }
  }

  // Where the next byte comes from.
  lemma NextShape(dev: Device, s: Lines, budget: nat)
    ensures var a, f := Absorb(s), Next(dev, s, budget);
            f.Got? ==>
              if dev == Keyboard && a.queue != [] then
                f.dev == Keyboard && f.data == a.queue[0] && f.after == a.(queue := a.queue[1..])
              else
                && f.after == a.(input := f.after.input)
                && Arrivals(a.input) == [(f.dev, f.data)] + Arrivals(f.after.input)
  {
    hide Absorb;
    WaitConserves(Absorb(s).input, budget);
  }

  lemma QueueConserves(a: Lines)
    requires a.queue != []
    ensures Bag(a) == Bag(a.(queue := a.queue[1..])) + multiset{(Keyboard, a.queue[0])}
  {
    assert Tag(Keyboard, a.queue) == [(Keyboard, a.queue[0])] + Tag(Keyboard, a.queue[1..]);
    hide Tag, Arrivals;
  }

  lemma PortConserves(a: Lines, rest: seq<Event>, taken: seq<Tagged>)
    requires Arrivals(a.input) == taken + Arrivals(rest)
    ensures Bag(a) == Bag(a.(input := rest)) + multiset(taken)
  {
    hide Tag, Arrivals;
  }

  lemma NextConserves(dev: Device, s: Lines, budget: nat)
    ensures var f := Next(dev, s, budget);
            Bag(s) == Bag(f.after) + if f.Got? then multiset{(f.dev, f.data)} else multiset{}
  {
    hide Absorb, Bag, Arrivals;
    AbsorbConserves(s);
    NextShape(dev, s, budget);
    var a, f := Absorb(s), Next(dev, s, budget);
    if dev == Keyboard && a.queue != [] {
      QueueConserves(a);
    } else {
      WaitConserves(a.input, budget);
      PortConserves(a, f.after.input, if f.Got? then [(f.dev, f.data)] else []);
    }
  }

  // What went in is still there, or was dispatched or returned, once.
  ghost predicate Balanced(dev: Device, before: multiset<Tagged>, r: Reading) {
    before == Bag(r.after) + multiset(r.dispatched) + if r.arrived then multiset{(dev, r.data)} else multiset{}
  }

  lemma BalancedSkip(dev: Device, before: multiset<Tagged>, r: Reading, x: Tagged)
    requires Balanced(dev, before, r)
    ensures Balanced(dev, before + multiset{x}, r.(dispatched := [x] + r.dispatched))
  {
    assert multiset([x] + r.dispatched) == multiset{x} + multiset(r.dispatched);
  }

  // BYTE CONSERVATION, plain reader.
  lemma {:induction false} ReadConserves(dev: Device, s: Lines, budget: nat)
    ensures Balanced(dev, Bag(s), Read(dev, s, budget))
    decreases |s.queue| + |s.input|
  {
    NextConserves(dev, s, budget);
    hide Next, Bag;
    match Next(dev, s, budget)
    case Silence(_) =>
    case Got(d, b, after, left) =>
      if d != dev {
        ReadConserves(dev, after, left);
        BalancedSkip(dev, Bag(after), Read(dev, after, left), (d, b));
      }
  }

  lemma {:induction false} HeldConserves(dev: Device, expected: bv8, s: Lines, budget: nat, held: bv8)
    ensures Balanced(dev, Bag(s) + multiset{(dev, held)}, ReadExpected(dev, expected, s, budget, Some(held)))
    decreases |s.queue| + |s.input|
  {
    NextConserves(dev, s, budget);
    hide Next, Bag;
    match Next(dev, s, budget)
    case Silence(_) =>
    case Got(d, b, after, left) =>
      if d != dev {
        HeldConserves(dev, expected, after, left, held);
        BalancedSkip(dev, Bag(after) + multiset{(dev, held)}, ReadExpected(dev, expected, after, left, Some(held)), (d, b));
        assert Bag(after) + multiset{(dev, held)} + multiset{(d, b)} == Bag(s) + multiset{(dev, held)};
      } else {
        assert multiset([(dev, held)]) == multiset{(dev, held)} && multiset([(dev, b)]) == multiset{(dev, b)};
      }
  }

  // BYTE CONSERVATION, second-chance reader.
  lemma {:induction false} ReadExpectedConserves(dev: Device, expected: bv8, s: Lines, budget: nat)
    ensures Balanced(dev, Bag(s), ReadExpected(dev, expected, s, budget, None))
    decreases |s.queue| + |s.input|
  {
    NextConserves(dev, s, budget);
    hide Next, Bag;
    match Next(dev, s, budget)
    case Silence(_) =>
    case Got(d, b, after, left) =>
      if d != dev {
        ReadExpectedConserves(dev, expected, after, left);
        BalancedSkip(dev, Bag(after), ReadExpected(dev, expected, after, left, None), (d, b));
      } else if b != expected {
        HeldConserves(dev, expected, after, left, b);
      }
  }

  // ---------------------------------------------------------------------------------
  // Order

  lemma {:induction false} AbsorbKeepsMouse(s: Lines)
    ensures Of(Mouse, Arrivals(Absorb(s).input)) == Of(Mouse, Arrivals(s.input))
    decreases |s.input|
  {
    if InterruptPending(s) {
      assert Arrivals(s.input) == [(Keyboard, s.input[0].data)] + Arrivals(s.input[1..]);
      AbsorbKeepsMouse(Interrupt(s));
    }
  }

  // Either reader takes the mouse bytes in their order of arrival.
  lemma {:induction false} MouseBytesInOrder(dev: Device, s: Lines, budget: nat)
    ensures Of(Mouse, Takes(dev, s, budget)) <= Of(Mouse, Arrivals(s.input))
    decreases |s.queue| + |s.input|
  {
    AbsorbKeepsMouse(s);
    NextShape(dev, s, budget);
    hide Next, Absorb, Of, Arrivals;
    match Next(dev, s, budget)
    case Silence(_) => OfNothing(Mouse);
    case Got(d, b, after, left) =>
      MouseBytesInOrder(dev, after, left);
      OfFirst(Mouse, (d, b), Takes(dev, after, left));
      OfFirst(Mouse, (d, b), Arrivals(after.input));
      assert Takes(dev, s, budget) == [(d, b)] + Takes(dev, after, left);
  }

  lemma OfNothing(dev: Device)
    ensures Of(dev, []) == []
  {
  }

  // The keyboard bytes in order: those queued, then those still to come.
  function Keys(s: Lines): seq<bv8> {
    s.queue + Of(Keyboard, Arrivals(s.input))
  }

  lemma {:induction false} AbsorbKeepsKeys(s: Lines)
    ensures |Absorb(s).dropped| >= |s.dropped|
    ensures Absorb(s).dropped == s.dropped ==> Keys(Absorb(s)) == Keys(s)
    decreases |s.input|
  {
    if InterruptPending(s) {
      AbsorbKeepsKeys(Interrupt(s));
      var key := s.input[0].data;
      assert Arrivals(s.input) == [(Keyboard, key)] + Arrivals(s.input[1..]);
      assert Of(Keyboard, Arrivals(s.input)) == [key] + Of(Keyboard, Arrivals(s.input[1..])) by {
        assert Arrivals(s.input)[1..] == Arrivals(s.input[1..]);
      }
      if |s.queue| < QUEUE_SIZE {
        assert Keys(Interrupt(s)) == Keys(s);
      }
    }
  }

  // The keys lost by the time a reader for `dev` has waited for the time-out.
  function Lost(dev: Device, s: Lines, budget: nat): seq<bv8>
    decreases |s.queue| + |s.input|
  {
    match Next(dev, s, budget)
    case Silence(after) => after.dropped
    case Got(_, _, after, left) => Lost(dev, after, left)
  }

  lemma {:induction false} LostGrows(dev: Device, s: Lines, budget: nat)
    ensures |Lost(dev, s, budget)| >= |Next(dev, s, budget).after.dropped| >= |s.dropped|
    ensures Next(dev, s, budget).after.dropped == Absorb(s).dropped
    ensures Next(dev, s, budget).Got? ==>
              Lost(dev, s, budget) == Lost(dev, Next(dev, s, budget).after, Next(dev, s, budget).budget)
    decreases |s.queue| + |s.input|
  {
    AbsorbKeepsKeys(s);
    match Next(dev, s, budget)
    case Silence(_) =>
    case Got(_, _, after, left) => LostGrows(dev, after, left);
  }

  lemma {:induction false} AbsorbDropped(s: Lines)
    ensures s.dropped <= Absorb(s).dropped
    decreases |s.input|
  {
    if InterruptPending(s) { AbsorbDropped(Interrupt(s)); }
  }

  // While no key is lost, a keyboard reader takes the queued keys and then the arriving
  // ones, in order of arrival.
  lemma {:induction false} KeyboardBytesInOrder(s: Lines, budget: nat)
    requires Lost(Keyboard, s, budget) == s.dropped
    ensures Of(Keyboard, Takes(Keyboard, s, budget)) <= Keys(s)
    decreases |s.queue| + |s.input|
  {
    AbsorbKeepsKeys(s);
    AbsorbDropped(s);
    LostGrows(Keyboard, s, budget);
    var a := Absorb(s);
    assert a.dropped == s.dropped;
    NextShape(Keyboard, s, budget);
    hide Next, Absorb, Lost;
    match Next(Keyboard, s, budget)
    case Silence(_) =>
    case Got(d, b, after, left) =>
      KeyboardBytesInOrder(after, left);
      KeysTaken(s, budget);
      OfFirst(Keyboard, (d, b), Takes(Keyboard, after, left));
      hide Of, Keys;
      assert Takes(Keyboard, s, budget) == [(d, b)] + Takes(Keyboard, after, left);
  }

  lemma OfFirst(dev: Device, x: Tagged, rest: seq<Tagged>)
    ensures Of(dev, [x] + rest) == (if x.0 == dev then [x.1] else []) + Of(dev, rest)
  {
    assert ([x] + rest)[1..] == rest;
  }

  // A byte that a keyboard reader takes is the first of the keys, if it is one.
  lemma KeysTaken(s: Lines, budget: nat)
    requires Next(Keyboard, s, budget).Got?
    ensures var f := Next(Keyboard, s, budget);
            Keys(Absorb(s)) == (if f.dev == Keyboard then [f.data] else []) + Keys(f.after)
  {
    NextShape(Keyboard, s, budget);
    var a, f := Absorb(s), Next(Keyboard, s, budget);
    hide Next, Absorb, Of, Arrivals;
    if a.queue == [] {
      OfFirst(Keyboard, (f.dev, f.data), Arrivals(f.after.input));
    }
  }

  ghost predicate Subsequence(a: seq<bv8>, b: seq<bv8>) {
    a == [] || (b != [] && ((a[0] == b[0] && Subsequence(a[1..], b[1..])) || Subsequence(a, b[1..])))
  }

  lemma SubsequenceLonger(a: seq<bv8>, x: bv8, b: seq<bv8>)
    requires Subsequence(a, b)
    ensures Subsequence(a, [x] + b) && Subsequence([x] + a, [x] + b)
  {
    assert ([x] + b)[1..] == b && ([x] + a)[1..] == a;
  }

  lemma {:induction false} AbsorbKeepsLater(s: Lines, a: seq<bv8>)
    requires Subsequence(a, Of(Keyboard, Arrivals(Absorb(s).input)))
    ensures Subsequence(a, Of(Keyboard, Arrivals(s.input)))
    decreases |s.input|
  {
    if InterruptPending(s) {
      AbsorbKeepsLater(Interrupt(s), a);
      var rest := Arrivals(s.input[1..]);
      SubsequenceLonger(a, s.input[0].data, Of(Keyboard, rest));
      OfFirst(Keyboard, (Keyboard, s.input[0].data), rest);
    }
  }

  // The keys that a mouse reader dispatches come in order of arrival; it passes over those
  // that the interrupt handler takes to the queue meanwhile.
  lemma {:induction false} PortKeysInOrder(s: Lines, budget: nat)
    ensures Subsequence(Of(Keyboard, Takes(Mouse, s, budget)), Of(Keyboard, Arrivals(s.input)))
    decreases |s.queue| + |s.input|
  {
    hide Absorb, Arrivals, Of, Next;
    match Next(Mouse, s, budget)
    case Silence(_) => NoneTaken(s, budget);
    case Got(d, b, after, left) =>
      NextShape(Mouse, s, budget);
      PortKeysInOrder(after, left);
      var mine, rest := Of(Keyboard, Takes(Mouse, after, left)), Of(Keyboard, Arrivals(after.input));
      OfFirst(Keyboard, (d, b), Takes(Mouse, after, left));
      OfFirst(Keyboard, (d, b), Arrivals(after.input));
      SubsequenceLonger(mine, b, rest);
      assert [] + mine == mine && [] + rest == rest;
      AbsorbKeepsLater(s, Of(Keyboard, Takes(Mouse, s, budget)));
  }

  lemma NoneTaken(s: Lines, budget: nat)
    requires Next(Mouse, s, budget).Silence?
    ensures Of(Keyboard, Takes(Mouse, s, budget)) == []
  {
    hide Next;
  }

  // What the work loop dispatches when it services an interrupt: the queue, then mouse
  // bytes waiting on the port, until there is neither.
  datatype Drained = Drained(dispatched: seq<Tagged>, after: Lines)

  predicate MouseWaiting(s: Lines) {
    s.input != [] && s.input[0].Arrive? && s.input[0].dev == Mouse
  }

  function Drain(s: Lines): Drained
    decreases |s.queue| + |s.input|
  {
    var a := Absorb(s);
    if a.queue != [] then
      var r := Drain(a.(queue := a.queue[1..]));
      r.(dispatched := [(Keyboard, a.queue[0])] + r.dispatched)
    else if MouseWaiting(a) then
      var r := Drain(a.(input := a.input[1..]));
      r.(dispatched := [(Mouse, a.input[0].data)] + r.dispatched)
    else
      Drained([], a)
  }

  // Servicing an interrupt empties the queue, and hands the mouse bytes over in order of
  // arrival; those not dispatched are still to come.
  lemma {:induction false} DrainMouseInOrder(s: Lines)
    ensures Drain(s).after.queue == []
    ensures Of(Mouse, Arrivals(s.input)) == Of(Mouse, Drain(s).dispatched) + Of(Mouse, Arrivals(Drain(s).after.input))
    decreases |s.queue| + |s.input|
  {
    AbsorbKeepsMouse(s);
    var a := Absorb(s);
    hide Absorb;
    if a.queue != [] {
      var next := a.(queue := a.queue[1..]);
      DrainMouseInOrder(next);
      OfCons((Keyboard, a.queue[0]), Drain(next).dispatched);
    } else if MouseWaiting(a) {
      var next := a.(input := a.input[1..]);
      var r := Drain(next);
      DrainMouseInOrder(next);
      OfCons((Mouse, a.input[0].data), r.dispatched);
      OfCons((Mouse, a.input[0].data), Arrivals(next.input));
      assert [a.input[0].data] + (Of(Mouse, r.dispatched) + Of(Mouse, Arrivals(r.after.input))) ==
             ([a.input[0].data] + Of(Mouse, r.dispatched)) + Of(Mouse, Arrivals(r.after.input));
    } else {
      assert Of(Mouse, []) + Of(Mouse, Arrivals(a.input)) == Of(Mouse, Arrivals(a.input));
    }
  }

  // While no key is lost, it hands over the keys in order of arrival.
  lemma {:induction false} DrainKeysInOrder(s: Lines)
    ensures |Drain(s).after.dropped| >= |s.dropped|
    ensures Drain(s).after.dropped == s.dropped ==> Keys(s) == Of(Keyboard, Drain(s).dispatched) + Keys(Drain(s).after)
    decreases |s.queue| + |s.input|
  {
    AbsorbKeepsKeys(s);
    AbsorbDropped(s);
    var a := Absorb(s);
    hide Absorb;
    if a.queue != [] {
      var next := a.(queue := a.queue[1..]);
      var r := Drain(next);
      DrainKeysInOrder(next);
      OfCons((Keyboard, a.queue[0]), r.dispatched);
      assert Keys(a) == [a.queue[0]] + Keys(next);
      assert [a.queue[0]] + (Of(Keyboard, r.dispatched) + Keys(r.after)) ==
             ([a.queue[0]] + Of(Keyboard, r.dispatched)) + Keys(r.after);
    } else if MouseWaiting(a) {
      var next := a.(input := a.input[1..]);
      DrainKeysInOrder(next);
      OfCons((Mouse, a.input[0].data), Drain(next).dispatched);
      OfCons((Mouse, a.input[0].data), Arrivals(next.input));
      assert Keys(a) == Keys(next);
    }
  }

  lemma OfCons(x: Tagged, t: seq<Tagged>)
    ensures Of(x.0, [x] + t) == [x.1] + Of(x.0, t)
    ensures Of(Other(x.0), [x] + t) == Of(Other(x.0), t)
  {
    assert ([x] + t)[1..] == t;
  }

  // ---------------------------------------------------------------------------------
  // Interrupts, polls and the work loop in closed form

  // The keys that the interrupt handler takes before anything else happens.
  function EarlyKeys(input: seq<Event>): (keys: seq<bv8>)
    ensures |keys| <= |input|
  {
    if input != [] && input[0].Arrive? && input[0].dev == Keyboard && input[0].early then
      [input[0].data] + EarlyKeys(input[1..])
    else []
  }

  // QUEUE OVERFLOW. The handler keeps keys in order of arrival while fewer than 32 are
  // queued, and loses those that come after.
  lemma {:induction false} QueueKeepsThirtyTwo(s: Lines)
    requires |s.queue| <= 32
    ensures var keys := EarlyKeys(s.input);
            var room := 32 - |s.queue|;
            var kept := if |keys| <= room then |keys| else room;
            Absorb(s) == Lines(s.queue + keys[..kept], s.input[|keys|..], s.dropped + keys[kept..])
    decreases |s.input|
  {
    var keys := EarlyKeys(s.input);
    if InterruptPending(s) {
      var key, rest := s.input[0].data, EarlyKeys(s.input[1..]);
      assert keys == [key] + rest;
      QueueKeepsThirtyTwo(Interrupt(s));
      if |s.queue| < 32 {
        var room := 31 - |s.queue|;
        var kept := if |rest| <= room then |rest| else room;
        assert s.queue + [key] + rest[..kept] == s.queue + keys[..kept + 1] && keys[kept + 1..] == rest[kept..];
      } else {
        assert s.queue + rest[..0] == s.queue + keys[..0] && s.dropped + [key] + rest[0..] == s.dropped + keys[0..];
      }
    } else {
      assert s.queue + [] == s.queue && s.dropped + [] == s.dropped;
    }
  }

  // Polls that find nothing.
  function Idles(input: seq<Event>): nat {
    if input == [] then 0 else (if input[0].Idle? then 1 else 0) + Idles(input[1..])
  }

  lemma {:induction false} WaitPolls(input: seq<Event>, budget: nat)
    ensures var p := Wait(input, budget);
            && (p.Ready? ==> Idles(input) == Idles(p.rest) + (budget - p.budget))
            && (p.TimedOut? ==> Idles(p.rest) <= Idles(input) <= Idles(p.rest) + budget)
            && (p.TimedOut? && p.rest != [] ==> Idles(input) == Idles(p.rest) + budget)
  {
    if budget > 0 && input != [] && input[0].Idle? { WaitPolls(input[1..], budget - 1); }
  }

  lemma {:induction false} AbsorbPolls(s: Lines)
    ensures Idles(Absorb(s).input) == Idles(s.input)
    decreases |s.input|
  {
    if InterruptPending(s) { AbsorbPolls(Interrupt(s)); }
  }

  lemma NextPolls(dev: Device, s: Lines, budget: nat)
    ensures var f := Next(dev, s, budget);
            && (f.Got? ==> f.budget <= budget && Idles(s.input) == Idles(f.after.input) + (budget - f.budget))
            && (f.Got? && budget > 0 ==> f.budget > 0)
            && (f.Silence? ==>
                  && Idles(f.after.input) <= Idles(s.input) <= Idles(f.after.input) + budget
                  && (f.after.input != [] ==> Idles(s.input) == Idles(f.after.input) + budget))
  {
    AbsorbPolls(s);
    WaitPolls(Absorb(s).input, budget);
    hide Absorb, Wait;
  }

  // TIME-OUT. A reader gives up after 10000 polls that find nothing, over all its turns
  // together, or when nothing more is to come; a byte that it waited for came before that.
  lemma ReadGivesUp(dev: Device, s: Lines)
    ensures var r := Read(dev, s, TIMEOUT);
            var polls := Idles(s.input) - Idles(r.after.input);
            && (r.arrived ==> 0 <= polls < 10000)
            && (!r.arrived ==> 0 <= polls <= 10000 && (r.after.input != [] ==> polls == 10000))
  {
    ReadPolls(dev, s, TIMEOUT);
  }

  lemma {:induction false} ReadPolls(dev: Device, s: Lines, budget: nat)
    requires budget > 0
    ensures var r := Read(dev, s, budget);
            var polls := Idles(s.input) - Idles(r.after.input);
            && (r.arrived ==> 0 <= polls < budget)
            && (!r.arrived ==> 0 <= polls <= budget && (r.after.input != [] ==> polls == budget))
    decreases |s.queue| + |s.input|
  {
    NextPolls(dev, s, budget);
    hide Next;
    match Next(dev, s, budget)
    case Silence(_) =>
    case Got(d, _, after, left) => if d != dev { ReadPolls(dev, after, left); }
  }

  // The same for the second-chance reader, which may give up with a first byte in hand.
  lemma ReadExpectedGivesUp(dev: Device, expected: bv8, s: Lines)
    ensures var r := ReadExpected(dev, expected, s, TIMEOUT, None);
            var polls := Idles(s.input) - Idles(r.after.input);
            && 0 <= polls <= 10000
            && (!r.arrived && r.after.input != [] ==> polls == 10000)
            && (|Of(dev, Takes(dev, s, TIMEOUT))| >= 2 ==> polls < 10000)
            && (|Of(dev, Takes(dev, s, TIMEOUT))| == 1 && r.data != expected && r.after.input != [] ==> polls == 10000)
  {
    ExpectedPolls(dev, expected, s, TIMEOUT, None);
  }

  lemma {:induction false} ExpectedPolls(dev: Device, expected: bv8, s: Lines, budget: nat, held: Option<bv8>)
    requires budget > 0 && (held.Some? ==> held.value != expected)
    ensures var r := ReadExpected(dev, expected, s, budget, held);
            var polls := Idles(s.input) - Idles(r.after.input);
            var count := |Of(dev, Takes(dev, s, budget))| + if held.Some? then 1 else 0;
            && 0 <= polls <= budget
            && (count >= 2 ==> polls < budget)
            && (count < 2 && r.after.input != [] && !(count == 1 && r.data == expected) ==> polls == budget)
            && (r.arrived <==> count > 0)
    decreases |s.queue| + |s.input|
  {
    NextPolls(dev, s, budget);
    hide Next;
    match Next(dev, s, budget)
    case Silence(_) =>
    case Got(d, b, after, left) =>
      var rest := Takes(dev, after, left);
      OfFirst(dev, (d, b), rest);
      assert Takes(dev, s, budget) == [(d, b)] + rest;
      hide Of;
      if d != dev {
        ExpectedPolls(dev, expected, after, left, held);
      } else if held.None? && b != expected {
        ExpectedPolls(dev, expected, after, left, Some(b));
      }
  }

  // The events that the work loop deals with when it services an interrupt: mouse bytes, and
  // keys that interrupt, up to the first other event.
  function Serviced(input: seq<Event>): (n: nat)
    ensures n <= |input|
  {
    if input == [] || input[0].Idle? || (input[0].dev == Keyboard && !input[0].early) then 0 else 1 + Serviced(input[1..])
  }

  // INTERRUPT SERVICE. It goes on until neither a queued key nor a waiting mouse byte is
  // left, and takes no event after that.
  lemma {:induction false} DrainServices(s: Lines)
    ensures var r := Drain(s);
            && r.after.input == s.input[Serviced(s.input)..]
            && r.after.queue == [] && !MouseWaiting(r.after) && !InterruptPending(r.after)
    decreases |s.queue| + |s.input|
  {
    AbsorbServices(s);
    var a := Absorb(s);
    hide Absorb;
    if a.queue != [] {
      DrainServices(a.(queue := a.queue[1..]));
    } else if MouseWaiting(a) {
      DrainServices(a.(input := a.input[1..]));
    }
  }

  lemma {:induction false} AbsorbServices(s: Lines)
    ensures Absorb(s).input[Serviced(Absorb(s).input)..] == s.input[Serviced(s.input)..]
    decreases |s.input|
  {
    if InterruptPending(s) {
      AbsorbServices(Interrupt(s));
      assert s.input[1..][Serviced(s.input[1..])..] == s.input[Serviced(s.input)..];
    }
  }

  // ---------------------------------------------------------------------------------
  // Key order under a mouse read

  // The lines after a mouse reader has taken k bytes of the mouse, or timed out.
  function LinesAfter(s: Lines, budget: nat, k: nat): Lines
    decreases |s.queue| + |s.input|
  {
    if k == 0 then s
    else
      match Next(Mouse, s, budget)
      case Silence(after) => after
      case Got(d, _, after, left) => LinesAfter(after, left, if d == Mouse then k - 1 else k)
  }

  // On the way, some key is taken from the port while there are keys in the queue.
  predicate Overtakes(s: Lines, budget: nat, k: nat)
    decreases |s.queue| + |s.input|
  {
    k > 0 &&
    match Next(Mouse, s, budget)
    case Silence(_) => false
    case Got(d, _, after, left) =>
      (d == Keyboard && after.queue != []) || Overtakes(after, left, if d == Mouse then k - 1 else k)
  }

  // The keys it takes from the port, and dispatches.
  function KeysTakenBy(s: Lines, budget: nat, k: nat): seq<bv8> {
    Of(Keyboard, UpTo(Mouse, Takes(Mouse, s, budget), k))
  }

  ghost predicate Distinct(keys: seq<bv8>) {
    forall i, j :: 0 <= i < j < |keys| ==> keys[i] != keys[j]
  }

  lemma KeysTakenTurn(s: Lines, budget: nat, k: nat)
    requires k > 0
    ensures Next(Mouse, s, budget).Silence? ==> KeysTakenBy(s, budget, k) == []
    ensures var f := Next(Mouse, s, budget);
            f.Got? ==>
              KeysTakenBy(s, budget, k) ==
              (if f.dev == Keyboard then [f.data] else []) +
              KeysTakenBy(f.after, f.budget, if f.dev == Mouse then k - 1 else k)
  {
    hide Next;
    match Next(Mouse, s, budget)
    case Silence(_) =>
    case Got(d, b, after, left) =>
      var rest := Takes(Mouse, after, left);
      assert Takes(Mouse, s, budget)[1..] == rest;
      OfFirst(Keyboard, (d, b), UpTo(Mouse, rest, if d == Mouse then k - 1 else k));
  }

  // What one turn does to the keys.
  lemma MouseTurnKeys(s: Lines, budget: nat)
    ensures var f, a := Next(Mouse, s, budget), Absorb(s);
            && s.queue <= f.after.queue && a.queue == f.after.queue
            && s.dropped <= f.after.dropped && a.dropped == f.after.dropped
            && (a.dropped == s.dropped ==> Keys(s) == Keys(a))
            && (f.Silence? ==> Keys(a) == Keys(f.after))
            && (f.Got? ==>
                  var port := Of(Keyboard, Arrivals(f.after.input));
                  && Keys(a) == a.queue + ((if f.dev == Keyboard then [f.data] else []) + port)
                  && Keys(f.after) == a.queue + port)
  {
    hide Absorb, Arrivals, Of;
    AbsorbKeepsKeys(s);
    AbsorbDropped(s);
    AbsorbQueue(s);
    NextShape(Mouse, s, budget);
    var f, a := Next(Mouse, s, budget), Absorb(s);
    WaitConserves(a.input, budget);
    if f.Got? {
      OfFirst(Keyboard, (f.dev, f.data), Arrivals(f.after.input));
    } else {
      assert [] + Arrivals(f.after.input) == Arrivals(f.after.input);
    }
  }

  lemma {:induction false} AbsorbQueue(s: Lines)
    ensures s.queue <= Absorb(s).queue
    decreases |s.input|
  {
    if InterruptPending(s) { AbsorbQueue(Interrupt(s)); }
  }

  lemma DistinctRest(x: bv8, keys: seq<bv8>)
    requires Distinct([x] + keys)
    ensures Distinct(keys)
  {
    forall i, j | 0 <= i < j < |keys|
      ensures keys[i] != keys[j]
    {
      assert ([x] + keys)[i + 1] != ([x] + keys)[j + 1];
    }
  }

  lemma FirstDiffers(queue: seq<bv8>, b: bv8, port: seq<bv8>, rest: seq<bv8>)
    requires queue != [] && Distinct(queue + ([b] + port))
    ensures queue + ([b] + port) != [b] + rest
  {
    var all := queue + ([b] + port);
    assert all[0] != all[|queue|];
  }

  // KEY ORDER. While the queue drops nothing, a mouse reader keeps the keys in order of
  // arrival unless it takes one from the port while others are queued; if it does, the
  // order is lost whenever the keys differ from each other. What is in the queue stays
  // there, so the keys that were overtaken are still to come.
  lemma {:induction false} KeyOrderUnlessOvertaken(s: Lines, budget: nat, k: nat)
    ensures s.queue <= LinesAfter(s, budget, k).queue && s.dropped <= LinesAfter(s, budget, k).dropped
    ensures var after := LinesAfter(s, budget, k);
            after.dropped == s.dropped ==>
              && (!Overtakes(s, budget, k) ==> Keys(s) == KeysTakenBy(s, budget, k) + Keys(after))
              && (Overtakes(s, budget, k) && Distinct(Keys(s)) ==> Keys(s) != KeysTakenBy(s, budget, k) + Keys(after))
    decreases |s.queue| + |s.input|
  {
    if k == 0 {
      assert KeysTakenBy(s, budget, k) + Keys(s) == Keys(s);
    } else {
      KeysTakenTurn(s, budget, k);
      MouseTurnKeys(s, budget);
      hide Absorb, Next, KeysTakenBy, Keys, Of, Arrivals, Distinct;
      match Next(Mouse, s, budget)
      case Silence(after) =>
        assert [] + Keys(after) == Keys(after);
      case Got(d, b, after, left) =>
        var k' := if d == Mouse then k - 1 else k;
        KeyOrderUnlessOvertaken(after, left, k');
        KeyOrderTurn(d, b, after, Of(Keyboard, Arrivals(after.input)), KeysTakenBy(after, left, k'), Keys(LinesAfter(after, left, k')));
    }
  }

  lemma KeyOrderTurn(d: Device, b: bv8, after: Lines, port: seq<bv8>, taken: seq<bv8>, rest: seq<bv8>)
    ensures var key := if d == Keyboard then [b] else [];
            var before := after.queue + (key + port);
            && (d == Mouse || after.queue == [] ==>
                  && (before == (key + taken) + rest <==> after.queue + port == taken + rest)
                  && (Distinct(before) ==> Distinct(after.queue + port)))
            && (d == Keyboard && after.queue != [] && Distinct(before) ==> before != (key + taken) + rest)
  {
    if d == Mouse {
      assert [] + port == port && [] + taken == taken;
    } else if after.queue == [] {
      assert [] + ([b] + port) == [b] + port && [] + port == port && ([b] + taken) + rest == [b] + (taken + rest);
      assert ([b] + port)[1..] == port && ([b] + (taken + rest))[1..] == taken + rest;
      if Distinct([b] + port) { DistinctRest(b, port); }
    } else if Distinct(after.queue + ([b] + port)) {
      assert ([b] + taken) + rest == [b] + (taken + rest);
      FirstDiffers(after.queue, b, port, taken + rest);
    }
  }

  predicate NoEarlyKey(input: seq<Event>) {
    forall e :: e in input && e.Arrive? && e.dev == Keyboard ==> !e.early
  }

  // Before the call: with an empty queue and no key to come that the interrupt handler
  // could take, nothing is overtaken; with keys in the queue, any key dispatched is a
  // key that overtakes.
  lemma {:induction false} OvertakingForetold(s: Lines, budget: nat, k: nat)
    ensures s.queue == [] && NoEarlyKey(s.input) ==> !Overtakes(s, budget, k)
    ensures s.queue != [] ==> (Overtakes(s, budget, k) <==> KeysTakenBy(s, budget, k) != [])
    decreases |s.queue| + |s.input|
  {
    if k > 0 {
      KeysTakenTurn(s, budget, k);
      MouseTurnKeys(s, budget);
      if s.queue == [] && NoEarlyKey(s.input) {
        NoEarlyTurn(s, budget);
      }
      hide Absorb, Next, NoEarlyKey, KeysTakenBy, Keys, Of;
      match Next(Mouse, s, budget)
      case Silence(_) =>
      case Got(d, _, after, left) => OvertakingForetold(after, left, if d == Mouse then k - 1 else k);
    }
  }

  lemma NoEarlyTurn(s: Lines, budget: nat)
    requires NoEarlyKey(s.input)
    ensures Next(Mouse, s, budget).after.queue == s.queue && NoEarlyKey(Next(Mouse, s, budget).after.input)
  {
    WaitRest(s.input, budget);
  }

  lemma {:induction false} WaitRest(input: seq<Event>, budget: nat)
    ensures forall e :: e in Wait(input, budget).rest ==> e in input
  {
    if budget > 0 && input != [] && input[0].Idle? { WaitRest(input[1..], budget - 1); }
  }

  // The two readers are such readers: the plain one takes one byte of the mouse, the
  // second-chance one takes one or two.
  lemma {:induction false} MouseReadTurns(s: Lines, budget: nat)
    ensures Read(Mouse, s, budget).after == LinesAfter(s, budget, 1)
    ensures Of(Keyboard, Read(Mouse, s, budget).dispatched) == KeysTakenBy(s, budget, 1)
    decreases |s.queue| + |s.input|
  {
    hide Next;
    PlainReader(Mouse, s, budget);
    OthersOnly(UpTo(Mouse, Takes(Mouse, s, budget), 1));
    match Next(Mouse, s, budget)
    case Silence(_) =>
    case Got(d, _, after, left) => if d == Keyboard { MouseReadTurns(after, left); }
  }

  lemma {:induction false} OthersOnly(t: seq<Tagged>)
    ensures Of(Keyboard, NotOf(Mouse, t)) == Of(Keyboard, t)
  {
    if t != [] {
      OthersOnly(t[1..]);
      if t[0].0 == Keyboard { OfFirst(Keyboard, t[0], NotOf(Mouse, t[1..])); }
      assert [] + NotOf(Mouse, t[1..]) == NotOf(Mouse, t[1..]);
    }
  }

  // MOUSE READ AND KEY ORDER. While the queue drops nothing and the keys differ, a mouse
  // read keeps the keys in order of arrival if and only if it overtakes none.
  lemma MouseReadKeepsKeyOrderIff(s: Lines, budget: nat)
    requires Read(Mouse, s, budget).after.dropped == s.dropped
    ensures var r := Read(Mouse, s, budget);
            && s.queue <= r.after.queue
            && (!Overtakes(s, budget, 1) ==> Keys(s) == Of(Keyboard, r.dispatched) + Keys(r.after))
            && (Distinct(Keys(s)) ==>
                  (Keys(s) == Of(Keyboard, r.dispatched) + Keys(r.after) <==> !Overtakes(s, budget, 1)))
            && (s.queue != [] ==> (Overtakes(s, budget, 1) <==> r.dispatched != []))
            && (s.queue == [] && NoEarlyKey(s.input) ==> !Overtakes(s, budget, 1))
  {
    MouseReadTurns(s, budget);
    KeyOrderUnlessOvertaken(s, budget, 1);
    OvertakingForetold(s, budget, 1);
    PlainReader(Mouse, s, budget);
    OnlyKeys(UpTo(Mouse, Takes(Mouse, s, budget), 1));
    hide Read, LinesAfter, Overtakes, KeysTakenBy, Distinct, Keys, Of, NotOf, UpTo, Takes;
  }

  // How many bytes of the mouse a second-chance reader takes.
  function Wanted(expected: bv8, s: Lines, budget: nat): nat {
    var own := Of(Mouse, Takes(Mouse, s, budget));
    if own != [] && own[0] == expected then 1 else 2
  }

  lemma {:induction false} HeldReadTurns(expected: bv8, s: Lines, budget: nat, held: bv8)
    ensures ReadExpected(Mouse, expected, s, budget, Some(held)).after == LinesAfter(s, budget, 1)
    decreases |s.queue| + |s.input|
  {
    hide Next;
    match Next(Mouse, s, budget)
    case Silence(_) =>
    case Got(d, _, after, left) => if d == Keyboard { HeldReadTurns(expected, after, left, held); }
  }

  lemma {:induction false} ExpectedReadTurns(expected: bv8, s: Lines, budget: nat)
    ensures ReadExpected(Mouse, expected, s, budget, None).after == LinesAfter(s, budget, Wanted(expected, s, budget))
    decreases |s.queue| + |s.input|
  {
    hide Next;
    match Next(Mouse, s, budget)
    case Silence(_) =>
    case Got(d, b, after, left) =>
      OfFirst(Mouse, (d, b), Takes(Mouse, after, left));
      assert Takes(Mouse, s, budget) == [(d, b)] + Takes(Mouse, after, left);
      if d == Keyboard {
        assert [] + Of(Mouse, Takes(Mouse, after, left)) == Of(Mouse, Takes(Mouse, after, left));
        ExpectedReadTurns(expected, after, left);
      } else if b != expected {
        HeldReadTurns(expected, after, left, b);
      }
  }

  lemma {:induction false} OfJoin(dev: Device, a: seq<Tagged>, b: seq<Tagged>)
    ensures Of(dev, a + b) == Of(dev, a) + Of(dev, b)
  {
    if a == [] {
      assert a + b == b;
    } else {
      hide Of;
      OfJoin(dev, a[1..], b);
      OfFirst(dev, a[0], a[1..] + b);
      OfFirst(dev, a[0], a[1..]);
      assert a + b == [a[0]] + (a[1..] + b) && a == [a[0]] + a[1..];
      Regrouped(if a[0].0 == dev then [a[0].1] else [], Of(dev, a[1..]), Of(dev, b));
    }
  }

  lemma Regrouped(x: seq<bv8>, y: seq<bv8>, z: seq<bv8>)
    ensures x + (y + z) == (x + y) + z
  {
  }

  // The same for the second-chance reader, over the one or two mouse bytes it takes.
  lemma ExpectedReadKeepsKeyOrderIff(expected: bv8, s: Lines, budget: nat)
    requires ReadExpected(Mouse, expected, s, budget, None).after.dropped == s.dropped
    ensures var r, k := ReadExpected(Mouse, expected, s, budget, None), Wanted(expected, s, budget);
            && s.queue <= r.after.queue
            && (!Overtakes(s, budget, k) ==> Keys(s) == Of(Keyboard, r.dispatched) + Keys(r.after))
            && (Distinct(Keys(s)) ==>
                  (Keys(s) == Of(Keyboard, r.dispatched) + Keys(r.after) <==> !Overtakes(s, budget, k)))
            && (s.queue != [] ==> (Overtakes(s, budget, k) <==> Of(Keyboard, r.dispatched) != []))
            && (s.queue == [] && NoEarlyKey(s.input) ==> !Overtakes(s, budget, k))
  {
    var t, k := Takes(Mouse, s, budget), Wanted(expected, s, budget);
    var handed := Handed(Mouse, expected, Of(Mouse, t));
    ExpectedReadTurns(expected, s, budget);
    KeyOrderUnlessOvertaken(s, budget, k);
    OvertakingForetold(s, budget, k);
    SecondChanceReader(Mouse, expected, s, budget);
    OthersOnly(UpTo(Mouse, t, k));
    OfJoin(Keyboard, NotOf(Mouse, UpTo(Mouse, t, k)), handed);
    NoKeyHanded(expected, Of(Mouse, t));
    assert KeysTakenBy(s, budget, k) + [] == KeysTakenBy(s, budget, k);
    hide ReadExpected, LinesAfter, Overtakes, Distinct, Keys, Of, NotOf, UpTo, Takes, Handed;
  }

  lemma NoKeyHanded(expected: bv8, own: seq<bv8>)
    ensures Of(Keyboard, Handed(Mouse, expected, own)) == []
  {
  }

  lemma {:induction false} OnlyKeys(t: seq<Tagged>)
    ensures NotOf(Mouse, t) != [] <==> Of(Keyboard, t) != []
  {
    if t != [] { OnlyKeys(t[1..]); }
  }

  // It does overtake: a key read from the port is dispatched although an older one is
  // still in the queue.
  lemma MouseReaderOvertakesQueue(older: bv8, newer: bv8, reply: bv8)
    ensures var s := Lines([older], [Arrive(Keyboard, newer, false), Arrive(Mouse, reply, false)], []);
            var r := Read(Mouse, s, TIMEOUT);
            r.data == reply && r.dispatched == [(Keyboard, newer)] && r.after.queue == [older]
  {
    var s := Lines([older], [Arrive(Keyboard, newer, false), Arrive(Mouse, reply, false)], []);
    assert s.input[1..] == [Arrive(Mouse, reply, false)];
    assert Absorb(s) == s;
  }
}
