/**
 The keyboard driver's scan-code state machine, and the bit vector in which it keeps the
 keys that are down.
 */
module KeyBits {
  const NUM_KEYCODES := 128

  type Bits = b: seq<bv32> | |b| == 4 witness [0, 0, 0, 0]

  function Bit(i: nat): bv32
    requires i < 32
  {
    (1 as bv32) << i
  }

  function Masked(x: bv32, b: bv32): bv32 { x & b }
  predicate Test(x: bv32, b: bv32) { Masked(x, b) != 0 }
  function Raise(x: bv32, b: bv32): bv32 { x | b }
  function Lower(x: bv32, b: bv32): bv32 { x & !b }

  // KBV_IS_KEYDOWN, KBV_KEYDOWN and KBV_KEYUP
  predicate IsDown(bits: Bits, n: nat)
    requires n < NUM_KEYCODES
  {
    Test(bits[n / 32], Bit(n % 32))
  }

  function PutDown(bits: Bits, n: nat): Bits
    requires n < NUM_KEYCODES
  {
    bits[n / 32 := Raise(bits[n / 32], Bit(n % 32))]
  }

  function PutUp(bits: Bits, n: nat): Bits
    requires n < NUM_KEYCODES
  {
    bits[n / 32 := Lower(bits[n / 32], Bit(n % 32))]
  }

  lemma BitsDiffer(i: nat, j: nat)
    requires i < 32 && j < 32
    ensures Bit(i) != 0
    ensures i != j ==> Masked(Bit(i), Bit(j)) == 0
  {
  }

  lemma RaisedOwn(x: bv32, b: bv32)
    requires b != 0
    ensures Test(Raise(x, b), b)
  {
  }

  lemma LoweredOwn(x: bv32, b: bv32)
    ensures !Test(Lower(x, b), b)
  {
  }

  lemma RaisedOther(x: bv32, b: bv32, c: bv32)
    requires Masked(b, c) == 0
    ensures Masked(Raise(x, b), c) == Masked(x, c)
  {
  }

  lemma LoweredOther(x: bv32, b: bv32, c: bv32)
    requires Masked(b, c) == 0
    ensures Masked(Lower(x, b), c) == Masked(x, c)
  {
  }

  // Setting or clearing one key's bit leaves every other key's bit alone.
  lemma OneKeyChanges(bits: Bits, n: nat, m: nat)
    requires n < NUM_KEYCODES && m < NUM_KEYCODES
    ensures IsDown(PutDown(bits, n), m) <==> m == n || IsDown(bits, m)
    ensures IsDown(PutUp(bits, n), m) <==> m != n && IsDown(bits, m)
  {
    hide Bit, Masked, Raise, Lower;
    var x, b, c := bits[n / 32], Bit(n % 32), Bit(m % 32);
    if m == n {
      BitsDiffer(n % 32, n % 32);
      RaisedOwn(x, b);
      LoweredOwn(x, b);
    } else if n / 32 == m / 32 {
      BitsDiffer(n % 32, m % 32);
      RaisedOther(x, b, c);
      LoweredOther(x, b, c);
    }
  }

  // The set of key codes that the bit vector stands for.
  ghost function Held(bits: Bits): set<nat> {
    set n: nat | n < NUM_KEYCODES && IsDown(bits, n)
  }

  // REFINEMENT of the bit vector: its operations are those of a set.
  lemma HeldIsASet(bits: Bits, n: nat)
    requires n < NUM_KEYCODES
    ensures Held(PutDown(bits, n)) == Held(bits) + {n}
    ensures Held(PutUp(bits, n)) == Held(bits) - {n}
    ensures IsDown(bits, n) <==> n in Held(bits)
    ensures Held([0, 0, 0, 0]) == {}
  {
    forall m: nat | m < NUM_KEYCODES
      ensures IsDown(PutDown(bits, n), m) <==> m == n || IsDown(bits, m)
      ensures IsDown(PutUp(bits, n), m) <==> m != n && IsDown(bits, m)
      ensures !IsDown([0, 0, 0, 0], m)
    {
      OneKeyChanges(bits, n, m);
      NothingDown(m);
    }
    hide IsDown, PutDown, PutUp;
  }

  lemma NothingDown(m: nat)
    requires m < NUM_KEYCODES
    ensures !IsDown([0, 0, 0, 0], m)
  {
    NoBit(Bit(m % 32));
    hide Bit, Test;
  }

  lemma NoBit(b: bv32)
    ensures !Test(0, b)
  {
  }
}

module Keyboard {
  import opened Wrappers
  import opened KeyBits

  const SC_EXTEND := 0xe0
  const SC_PAUSE := 0xe1
  const SC_ACKNOWLEDGE := 0xfa
  const SC_RESEND := 0xfe

  datatype Options = Options(emacsMode: bool, macintoshMode: bool, saveSS: bool)

  // What the driver does for the system: a key event from the common dispatch, one of the
  // two key events of the eject combination, or a request to sleep. Keys are the driver's
  // key codes, before they are mapped for the superclass.
  datatype Event = Key(key: nat, down: bool) | Eject(key: nat, down: bool) | SleepNow

  // The keys that are down, the extend counter, and the events so far.
  datatype Keys = Keys(held: set<nat>, extend: nat, events: seq<Event>)

  datatype Result = Result(keys: Keys, dispatched: bool)

  const NO_KEYS := Keys({}, 0, [])

  function PlainKey(code: nat, o: Options): nat {
    if code == 0x3a && o.emacsMode then 0x60
    else if code == 0x38 && o.macintoshMode then 0x70
    else code
  }

  // The key code of an extended code; 0 stands for no key, None for a code that is ignored.
  function ExtendedKey(code: nat, o: Options): (key: Option<nat>)
    ensures key.Some? ==> key.value < NUM_KEYCODES
  {
    match code
    case 0x30 => Some(0x7d)
    case 0x2e => Some(0x7e)
    case 0x20 => Some(0x7f)
    case 0x5f => Some(0)
    case 0x1d => Some(0x60)
    case 0x38 => Some(if o.macintoshMode then 0x71 else 0x61)
    case 0x1c => Some(0x62)
    case 0x35 => Some(0x63)
    case 0x48 => Some(0x64)
    case 0x50 => Some(0x65)
    case 0x4b => Some(0x66)
    case 0x4d => Some(0x67)
    case 0x52 => Some(0x68)
    case 0x53 => Some(0x69)
    case 0x49 => Some(0x6a)
    case 0x51 => Some(0x6b)
    case 0x47 => Some(0x6c)
    case 0x4f => Some(0x6d)
    case 0x5b => Some(if o.macintoshMode then 0x38 else 0x70)
    case 0x5c => Some(if o.macintoshMode then 0x61 else 0x71)
    case 0x5d => Some(0x71)
    case _ => None
  }

  // The common dispatch: autorepeat is discarded, everything else is passed on.
  function Common(k: Keys, key: nat, down: bool): (r: Result)
    ensures r.keys.extend == k.extend
  {
    if key == 0 || (down && key in k.held) then Result(k, false)
    else
      Result(Keys(if down then k.held + {key} else k.held - {key}, k.extend, k.events + [Key(key, down)]), true)
  }

  function Plain(k: Keys, code: nat, down: bool, o: Options): Result {
    Common(k, PlainKey(code, o), down)
  }

  // Print Screen stands for Control, unless the picture is to be saved, 0x38, Shift and 4.
  function PrintScreen(k: Keys, down: bool, o: Options): Keys {
    var k0 := if o.saveSS then k else Plain(k, 0x1d, down, o).keys;
    var k1 := Plain(k0, 0x38, down, o).keys;
    var k2 := Plain(k1, 0x2a, down, o).keys;
    Plain(k2, 0x05, down, o).keys
  }

  function Extended(k: Keys, code: nat, down: bool, o: Options): Result {
    if code == 0x34 then
      Result(k.(events := k.events + [Eject(0x38, down)] + [Eject(0x10, down)]), true)
    else if code == 0x37 then
      Result(PrintScreen(k, down, o), true)
    else
      match ExtendedKey(code, o)
      case None => Result(k, false)
      case Some(key) => Common(if code == 0x5f && down then k.(events := k.events + [SleepNow]) else k, key, down)
  }

  // dispatchKeyboardEventWithScancode
  function Handle(k: Keys, scan: nat, o: Options): Result
    requires scan < 256
  {
    if scan == SC_EXTEND then Result(k.(extend := 1), false)
    else if scan == SC_PAUSE then Result(k.(extend := 2), false)
    else if k.extend == 0 then Plain(k, scan % 128, scan < 128, o)
    else
      var k' := k.(extend := k.extend - 1);
      if k'.extend > 0 then Result(k', false) else Extended(k', scan % 128, scan < 128, o)
  }

  // interruptOccurred
  function Interrupt(k: Keys, scan: nat, o: Options): Keys
    requires scan < 256
  {
    if scan == SC_ACKNOWLEDGE || scan == SC_RESEND then k else Handle(k, scan, o).keys
  }

  ghost predicate ScanCodes(codes: seq<nat>) {
    forall i :: 0 <= i < |codes| ==> codes[i] < 256
  }

  function Feed(k: Keys, codes: seq<nat>, o: Options): Keys
    requires ScanCodes(codes)
    decreases codes
  {
    if codes == [] then k else Feed(Interrupt(k, codes[0], o), codes[1..], o)
  }

  // ---------------------------------------------------------------------------------
  // What every stream of scan codes keeps

  // Whether the last event of a key from the common dispatch was a press.
  predicate LastPressed(events: seq<Event>, key: nat)
    decreases |events|
  {
    events != [] &&
    var last := events[|events| - 1];
    if last.Key? && last.key == key then last.down else LastPressed(events[..|events| - 1], key)
  }

  // A key is reported pressed only when it is not down already.
  ghost predicate PressesAreFresh(events: seq<Event>) {
    forall i :: 0 <= i < |events| && events[i].Key? && events[i].down ==> !LastPressed(events[..i], events[i].key)
  }

  ghost predicate Faithful(k: Keys) {
    && (forall key :: key in k.held <==> LastPressed(k.events, key))
    && (forall key :: key in k.held ==> 1 <= key < NUM_KEYCODES)
    && PressesAreFresh(k.events)
  }

  lemma PressedSnoc(events: seq<Event>, e: Event, key: nat)
    ensures LastPressed(events + [e], key) == if e.Key? && e.key == key then e.down else LastPressed(events, key)
  {
    assert (events + [e])[..|events|] == events;
  }

  lemma FreshSnoc(events: seq<Event>, e: Event)
    requires PressesAreFresh(events)
    requires e.Key? && e.down ==> !LastPressed(events, e.key)
    ensures PressesAreFresh(events + [e])
  {
    hide LastPressed;
    var all := events + [e];
    forall i | 0 <= i < |all| && all[i].Key? && all[i].down
      ensures !LastPressed(all[..i], all[i].key)
    {
      if i < |events| { assert all[..i] == events[..i]; } else { assert all[..i] == events; }
    }
  }

  // Events that are not from the common dispatch change nothing.
  lemma OtherEventKeeps(k: Keys, e: Event)
    requires Faithful(k) && !e.Key?
    ensures Faithful(k.(events := k.events + [e]))
  {
    FreshSnoc(k.events, e);
    forall key: nat
      ensures LastPressed(k.events + [e], key) == LastPressed(k.events, key)
    {
      PressedSnoc(k.events, e, key);
    }
    hide LastPressed, PressesAreFresh;
  }

  lemma CommonKeeps(k: Keys, key: nat, down: bool)
    requires Faithful(k) && key < NUM_KEYCODES
    ensures Faithful(Common(k, key, down).keys)
  {
    var t := Common(k, key, down).keys;
    if t != k {
      FreshSnoc(k.events, Key(key, down));
      forall n: nat
        ensures LastPressed(t.events, n) == if n == key then down else LastPressed(k.events, n)
      {
        PressedSnoc(k.events, Key(key, down), n);
      }
    }
    hide LastPressed, PressesAreFresh;
  }

  lemma PrintScreenKeeps(k: Keys, down: bool, o: Options)
    requires Faithful(k)
    ensures Faithful(PrintScreen(k, down, o))
  {
    hide Common, Faithful;
    var k0 := if o.saveSS then k else Plain(k, 0x1d, down, o).keys;
    CommonKeeps(k, PlainKey(0x1d, o), down);
    CommonKeeps(k0, PlainKey(0x38, o), down);
    var k1 := Plain(k0, 0x38, down, o).keys;
    CommonKeeps(k1, PlainKey(0x2a, o), down);
    CommonKeeps(Plain(k1, 0x2a, down, o).keys, PlainKey(0x05, o), down);
  }

  lemma ExtendedKeeps(k: Keys, code: nat, down: bool, o: Options)
    requires Faithful(k)
    ensures Faithful(Extended(k, code, down, o).keys)
  {
    hide Common, PrintScreen, Faithful;
    if code == 0x34 {
      OtherEventKeeps(k, Eject(0x38, down));
      OtherEventKeeps(k.(events := k.events + [Eject(0x38, down)]), Eject(0x10, down));
    } else if code == 0x37 {
      PrintScreenKeeps(k, down, o);
    } else if ExtendedKey(code, o).Some? {
      OtherEventKeeps(k, SleepNow);
      CommonKeeps(if code == 0x5f && down then k.(events := k.events + [SleepNow]) else k, ExtendedKey(code, o).value, down);
    }
  }

  lemma ExtendIsApart(k: Keys, extend: nat)
    requires Faithful(k)
    ensures Faithful(k.(extend := extend))
  {
  }

  lemma InterruptKeeps(k: Keys, scan: nat, o: Options)
    requires scan < 256 && Faithful(k)
    ensures Faithful(Interrupt(k, scan, o))
  {
    hide Faithful, Common, Extended;
    ExtendIsApart(k, 1);
    ExtendIsApart(k, 2);
    if k.extend == 0 {
      CommonKeeps(k, PlainKey(scan % 128, o), scan < 128);
    } else {
      ExtendIsApart(k, k.extend - 1);
      ExtendedKeeps(k.(extend := k.extend - 1), scan % 128, scan < 128, o);
    }
  }

  // KEY STATE. After any stream of scan codes the keys held are exactly those whose last
  // event from the common dispatch was a press; all are in 1..127.
  lemma {:induction false} StreamKeepsKeyState(k: Keys, codes: seq<nat>, o: Options)
    requires ScanCodes(codes) && Faithful(k)
    ensures Faithful(Feed(k, codes, o))
    decreases codes
  {
    hide Faithful, Interrupt;
    if codes != [] {
      InterruptKeeps(k, codes[0], o);
      StreamKeepsKeyState(Interrupt(k, codes[0], o), codes[1..], o);
    }
  }

  // No key is reported pressed twice without a release in between.
  lemma NoDoublePress(codes: seq<nat>, o: Options, i: nat, j: nat)
    requires ScanCodes(codes)
    requires var e := Feed(NO_KEYS, codes, o).events;
             i < j < |e| && e[i].Key? && e[j] == e[i] && e[i].down
    ensures var e := Feed(NO_KEYS, codes, o).events;
            exists m :: i < m < j && e[m] == Key(e[i].key, false)
  {
    var e := Feed(NO_KEYS, codes, o).events;
    StreamKeepsKeyState(NO_KEYS, codes, o);
    hide Feed, LastPressed;
    assert !LastPressed(e[..j], e[j].key);
    ReleasedBetween(e, e[i].key, i, j);
  }

  lemma {:induction false} ReleasedBetween(e: seq<Event>, key: nat, i: nat, j: nat)
    requires i < j <= |e| && e[i] == Key(key, true) && !LastPressed(e[..j], key)
    ensures exists m :: i < m < j && e[m] == Key(key, false)
    decreases j
  {
    var last := e[..j][j - 1];
    assert e[..j][..j - 1] == e[..j - 1];
    if last.Key? && last.key == key {
      assert e[j - 1] == Key(key, false);
    } else {
      ReleasedBetween(e, key, i, j - 1);
    }
  }

  // The sequence that a keyboard sends for Pause reports nothing, from any state: its last
  // byte is an extended code that the driver does not know.
  lemma PauseReportsNothing(k: Keys, o: Options)
    ensures Feed(k, [0xe1, 0x1d, 0x45, 0xe1, 0x9d, 0xc5], o) == k.(extend := 0)
  {
    hide Feed, Plain, PlainKey, Common;
    var mid := k.(extend := 0);
    FeedThree(k, 0xe1, 0x1d, 0x45, [0xe1, 0x9d, 0xc5], o);
    FeedThree(mid, 0xe1, 0x9d, 0xc5, [], o);
    assert [0xe1, 0x1d, 0x45] + [0xe1, 0x9d, 0xc5] == [0xe1, 0x1d, 0x45, 0xe1, 0x9d, 0xc5];
    assert [0xe1, 0x9d, 0xc5] + [] == [0xe1, 0x9d, 0xc5];
    FeedNone(mid, o);
  }

  lemma FeedNone(k: Keys, o: Options)
    ensures Feed(k, [], o) == k
  {
  }

  lemma FeedOne(k: Keys, a: nat, rest: seq<nat>, o: Options)
    requires a < 256 && ScanCodes(rest)
    ensures ScanCodes([a] + rest) && Feed(k, [a] + rest, o) == Feed(Interrupt(k, a, o), rest, o)
  {
    hide Interrupt;
    assert ([a] + rest)[1..] == rest;
  }

  lemma FeedThree(k: Keys, a: nat, b: nat, c: nat, rest: seq<nat>, o: Options)
    requires a < 256 && b < 256 && c < 256 && ScanCodes(rest)
    ensures ScanCodes([a, b, c] + rest)
    ensures Feed(k, [a, b, c] + rest, o) == Feed(Interrupt(Interrupt(Interrupt(k, a, o), b, o), c, o), rest, o)
  {
    hide Interrupt, Feed;
    FeedOne(Interrupt(Interrupt(k, a, o), b, o), c, rest, o);
    FeedOne(Interrupt(k, a, o), b, [c] + rest, o);
    FeedOne(k, a, [b] + ([c] + rest), o);
    assert [a] + ([b] + ([c] + rest)) == [a, b, c] + rest;
  }

  // The key code of a key: a plain code, or one that follows an extend code.
  function CodeOf(extended: bool, code: nat, o: Options): nat {
    if !extended then PlainKey(code, o)
    else match ExtendedKey(code, o) case None => 0 case Some(key) => key
  }

  // Two keys that share a key code, so that releasing either is taken to release both.
  predicate Twins(extended: bool, code: nat, extended': bool, code': nat, o: Options) {
    || (o.emacsMode && !extended && code == 0x3a && extended' && code' == 0x1d)
    || (extended && code == 0x5d && extended' && code' == (if o.macintoshMode then 0x38 else 0x5c))
  }

  // KEYS STAY APART. Of the keys of a keyboard, plain codes being below 0x60, two different
  // ones have the same key code if and only if they are Caps Lock made into a control key
  // and the right control key, or the menu key and the right command key.
  lemma KeysStayApart(extended: bool, code: nat, extended': bool, code': nat, o: Options)
    requires !extended ==> code < 0x60
    requires !extended' ==> code' < 0x60
    requires (extended, code) != (extended', code') && CodeOf(extended, code, o) != 0
    ensures CodeOf(extended, code, o) == CodeOf(extended', code', o) <==>
            Twins(extended, code, extended', code', o) || Twins(extended', code', extended, code, o)
  {
  }

  // The keys that Print Screen stands for.
  function ScreenKeys(o: Options): set<nat> {
    (if o.saveSS then {} else {0x1d}) + {PlainKey(0x38, o), 0x2a, 0x05}
  }

  // Print Screen pressed and released: the keys it stands for are all up afterwards, also
  // those the user holds, and no other key has changed.
  lemma PrintScreenReleases(k: Keys, o: Options)
    ensures var pressed := PrintScreen(k, true, o);
            && pressed.held == k.held + ScreenKeys(o) && pressed.extend == k.extend
            && PrintScreen(pressed, false, o).held == k.held - ScreenKeys(o)
  {
  }

  // ---------------------------------------------------------------------------------
  // Key state from the scan codes themselves

  // A key going down or up, as a stream of scan codes says it.
  datatype Stroke = Stroke(key: nat, down: bool)

  function PlainStroke(code: nat, down: bool, o: Options): seq<Stroke> {
    if PlainKey(code, o) == 0 then [] else [Stroke(PlainKey(code, o), down)]
  }

  // An extended code is one stroke, or for Print Screen those of the keys it stands for; the
  // eject combination and the sleep key are none.
  function ExtendedStrokes(code: nat, down: bool, o: Options): seq<Stroke> {
    if code == 0x34 then []
    else if code == 0x37 then
      (if o.saveSS then [] else [Stroke(0x1d, down)]) + [Stroke(PlainKey(0x38, o), down)] + [Stroke(0x2a, down)] + [Stroke(0x05, down)]
    else
      match ExtendedKey(code, o)
      case None => []
      case Some(key) => if key == 0 then [] else [Stroke(key, down)]
  }

  // Reading a stream: 0xE0 extends the next code, 0xE1 drops it and extends the one after;
  // 0xFA and 0xFE are not scan codes. A code below 0x80 is a make code, the others break codes.
  function Strokes(codes: seq<nat>, extend: nat, o: Options): seq<Stroke>
    decreases codes
  {
    if codes == [] then []
    else
      var c, rest := codes[0], codes[1..];
      if c == 0xfa || c == 0xfe then Strokes(rest, extend, o)
      else if c == 0xe0 then Strokes(rest, 1, o)
      else if c == 0xe1 then Strokes(rest, 2, o)
      else if extend >= 2 then Strokes(rest, extend - 1, o)
      else if extend == 1 then ExtendedStrokes(c % 0x80, c / 0x80 == 0, o) + Strokes(rest, 0, o)
      else PlainStroke(c % 0x80, c / 0x80 == 0, o) + Strokes(rest, 0, o)
  }

  // Whether the last stroke of a key was a press, or what held before if there is none.
  predicate LastDown(strokes: seq<Stroke>, key: nat, before: bool)
    decreases strokes
  {
    if strokes == [] then before
    else LastDown(strokes[1..], key, if strokes[0].key == key then strokes[0].down else before)
  }

  // What is reported: every stroke, but for presses of keys that are down already.
  function Reported(held: set<nat>, strokes: seq<Stroke>): seq<Event>
    decreases strokes
  {
    if strokes == [] then []
    else
      var x := strokes[0];
      if x.down then (if x.key in held then [] else [Key(x.key, true)]) + Reported(held + {x.key}, strokes[1..])
      else [Key(x.key, false)] + Reported(held - {x.key}, strokes[1..])
  }

  function KeyEvents(events: seq<Event>): seq<Event>
    decreases events
  {
    if events == [] then [] else OwnEvent(events[0]) + KeyEvents(events[1..])
  }

  // The keys and the key events of t are those of k after the strokes.
  ghost predicate Follows(k: Keys, t: Keys, strokes: seq<Stroke>) {
    && (forall key: nat :: key in t.held <==> LastDown(strokes, key, key in k.held))
    && KeyEvents(t.events) == KeyEvents(k.events) + Reported(k.held, strokes)
  }

  lemma {:induction false} LastDownJoin(a: seq<Stroke>, b: seq<Stroke>, key: nat, before: bool)
    ensures LastDown(a + b, key, before) == LastDown(b, key, LastDown(a, key, before))
    decreases a
  {
    if a == [] {
      assert a + b == b;
    } else {
      assert (a + b)[1..] == a[1..] + b;
      LastDownJoin(a[1..], b, key, if a[0].key == key then a[0].down else before);
    }
  }

  lemma {:induction false} ReportedJoin(held: set<nat>, mid: set<nat>, a: seq<Stroke>, b: seq<Stroke>)
    requires forall key: nat :: key in mid <==> LastDown(a, key, key in held)
    ensures Reported(held, a + b) == Reported(held, a) + Reported(mid, b)
    decreases a
  {
    if a == [] {
      assert a + b == b && held == mid;
    } else {
      assert (a + b)[1..] == a[1..] + b;
      var next := if a[0].down then held + {a[0].key} else held - {a[0].key};
      forall key: nat
        ensures key in mid <==> LastDown(a[1..], key, key in next)
      {
        assert LastDown(a, key, key in held) == LastDown(a[1..], key, if a[0].key == key then a[0].down else key in held);
      }
      hide LastDown;
      ReportedJoin(next, mid, a[1..], b);
      var head := if !a[0].down then [Key(a[0].key, false)] else if a[0].key in held then [] else [Key(a[0].key, true)];
      assert Reported(held, a + b) == head + Reported(next, a[1..] + b);
      assert head + (Reported(next, a[1..]) + Reported(mid, b)) == (head + Reported(next, a[1..])) + Reported(mid, b);
    }
  }

  lemma FollowsJoin(k: Keys, t: Keys, u: Keys, a: seq<Stroke>, b: seq<Stroke>)
    requires Follows(k, t, a) && Follows(t, u, b)
    ensures Follows(k, u, a + b)
  {
    forall key: nat
      ensures key in u.held <==> LastDown(a + b, key, key in k.held)
    {
      LastDownJoin(a, b, key, key in k.held);
    }
    ReportedJoin(k.held, t.held, a, b);
    hide LastDown, Reported, KeyEvents;
    assert KeyEvents(k.events) + (Reported(k.held, a) + Reported(t.held, b)) ==
           (KeyEvents(k.events) + Reported(k.held, a)) + Reported(t.held, b);
  }

  lemma {:induction false} KeyEventsSnoc(events: seq<Event>, e: Event)
    ensures KeyEvents(events + [e]) == KeyEvents(events) + OwnEvent(e)
  {
    if events == [] {
      assert [e][1..] == [] && [] + [e] == [e];
    } else {
      KeyEventsSnoc(events[1..], e);
      assert events + [e] == [events[0]] + (events[1..] + [e]) && events == [events[0]] + events[1..];
      KeyEventsFirst(events[0], events[1..] + [e]);
      KeyEventsFirst(events[0], events[1..]);
      hide KeyEvents, OwnEvent;
      assert OwnEvent(events[0]) + (KeyEvents(events[1..]) + OwnEvent(e)) ==
             (OwnEvent(events[0]) + KeyEvents(events[1..])) + OwnEvent(e);
    }
  }

  function OwnEvent(e: Event): seq<Event> {
    if e.Key? then [e] else []
  }

  lemma KeyEventsFirst(e: Event, rest: seq<Event>)
    ensures KeyEvents([e] + rest) == OwnEvent(e) + KeyEvents(rest)
  {
    assert ([e] + rest)[1..] == rest;
  }

  lemma NothingFollows(k: Keys, t: Keys)
    requires t.held == k.held && KeyEvents(t.events) == KeyEvents(k.events)
    ensures Follows(k, t, [])
  {
    assert KeyEvents(k.events) + [] == KeyEvents(k.events);
  }

  lemma CommonFollows(k: Keys, key: nat, down: bool)
    ensures Follows(k, Common(k, key, down).keys, if key == 0 then [] else [Stroke(key, down)])
  {
    var t := Common(k, key, down).keys;
    if key == 0 {
      NothingFollows(k, t);
    } else {
      var strokes := [Stroke(key, down)];
      assert strokes[1..] == [];
      KeyEventsSnoc(k.events, Key(key, down));
      forall n: nat
        ensures n in t.held <==> LastDown(strokes, n, n in k.held)
      {
        assert LastDown(strokes, n, n in k.held) == if n == key then down else n in k.held;
      }
      hide KeyEvents, LastDown;
      assert Reported(k.held, strokes) == if down && key in k.held then [] else [Key(key, down)];
      assert KeyEvents(k.events) + [] == KeyEvents(k.events);
    }
  }

  lemma PrintScreenFollows(k: Keys, down: bool, o: Options)
    ensures Follows(k, PrintScreen(k, down, o), ExtendedStrokes(0x37, down, o))
  {
    hide Common, Follows;
    var k0 := if o.saveSS then k else Plain(k, 0x1d, down, o).keys;
    var k1 := Plain(k0, 0x38, down, o).keys;
    var k2 := Plain(k1, 0x2a, down, o).keys;
    var s0 := if o.saveSS then [] else [Stroke(0x1d, down)];
    CommonFollows(k, 0x1d, down);
    NothingFollows(k, k);
    CommonFollows(k0, PlainKey(0x38, o), down);
    CommonFollows(k1, 0x2a, down);
    CommonFollows(k2, 0x05, down);
    FollowsJoin(k, k0, k1, s0, [Stroke(PlainKey(0x38, o), down)]);
    FollowsJoin(k, k1, k2, s0 + [Stroke(PlainKey(0x38, o), down)], [Stroke(0x2a, down)]);
    FollowsJoin(k, k2, PrintScreen(k, down, o), s0 + [Stroke(PlainKey(0x38, o), down)] + [Stroke(0x2a, down)], [Stroke(0x05, down)]);
  }

  lemma ExtendedFollows(k: Keys, code: nat, down: bool, o: Options)
    ensures Follows(k, Extended(k, code, down, o).keys, ExtendedStrokes(code, down, o))
  {
    hide Common, PrintScreen, ExtendedKey, Follows;
    if code == 0x34 {
      KeyEventsSnoc(k.events, Eject(0x38, down));
      KeyEventsSnoc(k.events + [Eject(0x38, down)], Eject(0x10, down));
      NothingFollows(k, Extended(k, code, down, o).keys);
    } else if code == 0x37 {
      PrintScreenFollows(k, down, o);
    } else if ExtendedKey(code, o).None? {
      NothingFollows(k, k);
    } else {
      var mid := if code == 0x5f && down then k.(events := k.events + [SleepNow]) else k;
      KeyEventsSnoc(k.events, SleepNow);
      NothingFollows(k, mid);
      CommonFollows(mid, ExtendedKey(code, o).value, down);
      var strokes := ExtendedStrokes(code, down, o);
      FollowsJoin(k, mid, Extended(k, code, down, o).keys, [], strokes);
      assert [] + strokes == strokes;
    }
  }

  lemma FirstFollows(k: Keys, c: nat, o: Options)
    requires c < 256
    ensures var first := if c == 0xfa || c == 0xfe || c == 0xe0 || c == 0xe1 || k.extend >= 2 then []
                         else if k.extend == 1 then ExtendedStrokes(c % 0x80, c < 0x80, o) else PlainStroke(c % 0x80, c < 0x80, o);
            Follows(k, Interrupt(k, c, o), first)
    ensures Interrupt(k, c, o).extend == if c == 0xfa || c == 0xfe then k.extend else if c == 0xe0 then 1 else if c == 0xe1 then 2
                                         else if k.extend > 0 then k.extend - 1 else 0
  {
    hide Common, PlainKey, ExtendedStrokes, Follows, KeyEvents;
    ExtendedExtend(k.(extend := 0), c % 0x80, c < 0x80, o);
    if c == 0xfa || c == 0xfe || c == 0xe0 || c == 0xe1 || k.extend >= 2 {
      NothingFollows(k, Interrupt(k, c, o));
    } else if k.extend == 1 {
      var mid := k.(extend := 0);
      ExtendedFollows(mid, c % 0x80, c < 0x80, o);
      SameFollows(k, mid, Interrupt(k, c, o), ExtendedStrokes(c % 0x80, c < 0x80, o));
    } else {
      CommonFollows(k, PlainKey(c % 0x80, o), c < 0x80);
    }
  }

  lemma ExtendedExtend(k: Keys, code: nat, down: bool, o: Options)
    ensures Extended(k, code, down, o).keys.extend == k.extend
  {
    hide Common;
  }

  lemma SameFollows(k: Keys, mid: Keys, t: Keys, strokes: seq<Stroke>)
    requires mid.held == k.held && mid.events == k.events && Follows(mid, t, strokes)
    ensures Follows(k, t, strokes)
  {
  }

  // KEYS FOLLOW THE CODES. After any stream, from any state, a key is held exactly if the
  // last stroke of it in the stream was a press, and the key events are the strokes but for
  // autorepeat.
  lemma {:induction false} KeysFollowCodes(k: Keys, codes: seq<nat>, o: Options)
    requires ScanCodes(codes)
    ensures Follows(k, Feed(k, codes, o), Strokes(codes, k.extend, o))
    decreases codes
  {
    if codes == [] {
      NothingFollows(k, k);
    } else {
      var c, rest := codes[0], codes[1..];
      var t := Interrupt(k, c, o);
      hide Follows, Common, Extended, PlainKey, ExtendedStrokes;
      KeysFollowCodes(t, rest, o);
      var first := if c == 0xfa || c == 0xfe || c == 0xe0 || c == 0xe1 || k.extend >= 2 then []
                   else if k.extend == 1 then ExtendedStrokes(c % 0x80, c < 0x80, o) else PlainStroke(c % 0x80, c < 0x80, o);
      FirstFollows(k, c, o);
      FollowsJoin(k, t, Feed(t, rest, o), first, Strokes(rest, t.extend, o));
      assert [] + Strokes(rest, t.extend, o) == Strokes(rest, t.extend, o);
    }
  }

  // Whether an extended code is awaited after a stream that starts with none awaited.
  function ExtendAfter(codes: seq<nat>): nat
    decreases |codes|
  {
    if codes == [] then 0
    else
      var before, last := ExtendAfter(codes[..|codes| - 1]), codes[|codes| - 1];
      if last == 0xfa || last == 0xfe then before
      else if last == 0xe0 then 1
      else if last == 0xe1 then 2
      else if before > 0 then before - 1 else 0
  }

  // The i-th code is read on its own.
  predicate Ordinary(codes: seq<nat>, i: nat) {
    i < |codes| && ExtendAfter(codes[..i]) == 0
  }

  // The last code of a key that is read on its own, make or break, is the make code.
  ghost predicate LastCodeIsMake(codes: seq<nat>, n: nat) {
    exists i: nat :: Ordinary(codes, i) && codes[i] == n &&
                     forall j: nat :: i < j && Ordinary(codes, j) ==> codes[j] != n && codes[j] != n + 0x80
  }

  // A key that only its own plain code concerns: no extended code, no option and not Print
  // Screen has to do with it.
  predicate OwnCode(n: nat) {
    0 < n < 0x60 && n != 0x05 && n != 0x1d && n != 0x2a && n != 0x38 && n != 0x3a
  }

  lemma {:induction false} FeedSnoc(k: Keys, codes: seq<nat>, c: nat, o: Options)
    requires ScanCodes(codes) && c < 256
    ensures ScanCodes(codes + [c]) && Feed(k, codes + [c], o) == Interrupt(Feed(k, codes, o), c, o)
    decreases codes
  {
    hide Interrupt;
    if codes == [] {
      assert [] + [c] == [c] && [c][1..] == [];
    } else {
      assert (codes + [c])[1..] == codes[1..] + [c];
      FeedSnoc(Interrupt(k, codes[0], o), codes[1..], c, o);
    }
  }

  lemma OwnCodeStep(k: Keys, c: nat, o: Options, n: nat)
    requires c < 256 && OwnCode(n)
    ensures n in Interrupt(k, c, o).held <==>
            if k.extend == 0 && c == n then true else if k.extend == 0 && c == n + 0x80 then false else n in k.held
  {
  }

  // One more code does not change which of the others are read on their own.
  lemma OrdinarySnoc(codes: seq<nat>, c: nat)
    ensures forall i: nat :: Ordinary(codes + [c], i) <==> Ordinary(codes, i) || (i == |codes| && ExtendAfter(codes) == 0)
    ensures forall i: nat :: i < |codes| ==> (codes + [c])[i] == codes[i]
    ensures (codes + [c])[|codes|] == c
  {
    var all := codes + [c];
    assert all[..|codes|] == codes;
    forall i: nat | i < |codes|
      ensures Ordinary(all, i) <==> Ordinary(codes, i)
    {
      assert all[..i] == codes[..i];
    }
  }

  lemma LastCodeForward(codes: seq<nat>, c: nat, n: nat)
    requires !(ExtendAfter(codes) == 0 && (c == n || c == n + 0x80)) && LastCodeIsMake(codes, n)
    ensures LastCodeIsMake(codes + [c], n)
  {
    OrdinarySnoc(codes, c);
    var i: nat :| Ordinary(codes, i) && codes[i] == n &&
                  forall j: nat :: i < j && Ordinary(codes, j) ==> codes[j] != n && codes[j] != n + 0x80;
    var all := codes + [c];
    hide ExtendAfter;
    assert Ordinary(all, i) && all[i] == n;
  }

  lemma LastCodeBack(codes: seq<nat>, c: nat, n: nat)
    requires !(ExtendAfter(codes) == 0 && (c == n || c == n + 0x80)) && LastCodeIsMake(codes + [c], n)
    ensures LastCodeIsMake(codes, n)
  {
    OrdinarySnoc(codes, c);
    var all := codes + [c];
    var i: nat :| Ordinary(all, i) && all[i] == n &&
                  forall j: nat :: i < j && Ordinary(all, j) ==> all[j] != n && all[j] != n + 0x80;
    hide ExtendAfter;
    assert Ordinary(codes, i) && codes[i] == n;
  }

  lemma LastCodeSnoc(codes: seq<nat>, c: nat, n: nat)
    ensures LastCodeIsMake(codes + [c], n) <==>
            if ExtendAfter(codes) == 0 && c == n then true
            else if ExtendAfter(codes) == 0 && c == n + 0x80 then false
            else LastCodeIsMake(codes, n)
  {
    OrdinarySnoc(codes, c);
    if ExtendAfter(codes) == 0 && (c == n || c == n + 0x80) {
      assert Ordinary(codes + [c], |codes|);
    } else {
      hide LastCodeIsMake, ExtendAfter;
      if LastCodeIsMake(codes, n) { LastCodeForward(codes, c, n); }
      if LastCodeIsMake(codes + [c], n) { LastCodeBack(codes, c, n); }
    }
  }

  // MAKE AND BREAK. After any stream, a key with a code of its own is held exactly if the
  // last of its codes read on their own was the make code, which is below 0x80.
  lemma {:induction false} OwnKeyFollowsItsCodes(codes: seq<nat>, o: Options, n: nat)
    requires ScanCodes(codes) && OwnCode(n)
    ensures n in Feed(NO_KEYS, codes, o).held <==> LastCodeIsMake(codes, n)
    ensures Feed(NO_KEYS, codes, o).extend == ExtendAfter(codes)
    decreases |codes|
  {
    if codes != [] {
      var front, c := codes[..|codes| - 1], codes[|codes| - 1];
      assert codes == front + [c];
      hide Feed, Interrupt, LastCodeIsMake;
      OwnKeyFollowsItsCodes(front, o, n);
      FeedSnoc(NO_KEYS, front, c, o);
      OwnCodeStep(Feed(NO_KEYS, front, o), c, o, n);
      FirstFollows(Feed(NO_KEYS, front, o), c, o);
      LastCodeSnoc(front, c, n);
    }
  }

  // What each code of such a key reports: a press unless the key is down already, a release always.
  lemma OwnCodeReports(k: Keys, o: Options, n: nat)
    requires OwnCode(n) && k.extend == 0
    ensures Interrupt(k, n, o).events == k.events + if n in k.held then [] else [Key(n, true)]
    ensures Interrupt(k, n + 0x80, o).events == k.events + [Key(n, false)]
  {
    assert k.events + [] == k.events;
  }

  // The eject key reports a combination pressed and released; the sleep key asks for sleep
  // when it is pressed. Neither is held.
  lemma SpecialKeys(k: Keys, o: Options)
    requires k.extend == 1
    ensures Interrupt(k, 0x34, o) == Keys(k.held, 0, k.events + [Eject(0x38, true), Eject(0x10, true)])
    ensures Interrupt(k, 0xb4, o) == Keys(k.held, 0, k.events + [Eject(0x38, false), Eject(0x10, false)])
    ensures Interrupt(k, 0x5f, o) == Keys(k.held, 0, k.events + [SleepNow])
    ensures Interrupt(k, 0xdf, o) == Keys(k.held, 0, k.events)
  {
    assert k.events + [Eject(0x38, true)] + [Eject(0x10, true)] == k.events + [Eject(0x38, true), Eject(0x10, true)];
    assert k.events + [Eject(0x38, false)] + [Eject(0x10, false)] == k.events + [Eject(0x38, false), Eject(0x10, false)];
  }

  // ---------------------------------------------------------------------------------
  // The codes that the superclass is given

  // PS2ToADBMap, in rows of sixteen
  function AdbRow(row: nat): (codes: seq<nat>)
    ensures |codes| == 16
  {
    match row
    case 0 => [0x80, 0x35, 0x12, 0x13, 0x14, 0x15, 0x17, 0x16, 0x1a, 0x1c, 0x19, 0x1d, 0x1b, 0x18, 0x33, 0x30]
    case 1 => [0x0c, 0x0d, 0x0e, 0x0f, 0x11, 0x10, 0x20, 0x22, 0x1f, 0x23, 0x21, 0x1e, 0x24, 0x3b, 0x00, 0x01]
    case 2 => [0x02, 0x03, 0x05, 0x04, 0x26, 0x28, 0x25, 0x29, 0x27, 0x32, 0x38, 0x2a, 0x06, 0x07, 0x08, 0x09]
    case 3 => [0x0b, 0x2d, 0x2e, 0x2b, 0x2f, 0x2c, 0x3c, 0x43, 0x3a, 0x31, 0x39, 0x7a, 0x78, 0x63, 0x76, 0x60]
    case 4 => [0x61, 0x62, 0x64, 0x65, 0x6d, 0x47, 0x6b, 0x59, 0x5b, 0x5c, 0x4e, 0x56, 0x57, 0x58, 0x45, 0x53]
    case 5 => [0x54, 0x55, 0x52, 0x41, 0x80, 0x80, 0x0a, 0x67, 0x6f, 0x80, 0x80, 0x80, 0x80, 0x80, 0x80, 0x80]
    case 6 => [0x3e, 0x3d, 0x4c, 0x4b, 0x7e, 0x7d, 0x7b, 0x7c, 0x72, 0x75, 0x74, 0x79, 0x73, 0x77, 0x69, 0x71]
    case _ => [0x37, 0x36, 0x6e, 0x5e, 0x80, 0x80, 0x80, 0x80, 0x80, 0x80, 0x80, 0x80, 0x7f, 0x48, 0x49, 0x4a]
  }

  function Adb(key: nat): nat
    requires key < NUM_KEYCODES
  {
    AdbRow(key / 16)[key % 16]
  }

  // The keys with extended codes, and the modifiers.
  datatype Legend = LeftShift | RightShift | LeftControl | LeftAlt | RightControl | RightAlt | LeftWindows | RightWindows | Menu
    | KeypadEnter | KeypadSlash | Up | Down | Left | Right | Insert | Delete | PageUp | PageDown | Home | End
    | VolumeUp | VolumeDown | Mute | CapsLock

  // The scan code of a key, and whether it is extended.
  function ScanCodeOf(key: Legend): (bool, nat) {
    match key
    case LeftShift => (false, 0x2a) case RightShift => (false, 0x36) case LeftControl => (false, 0x1d) case LeftAlt => (false, 0x38)
    case RightControl => (true, 0x1d) case RightAlt => (true, 0x38)
    case LeftWindows => (true, 0x5b) case RightWindows => (true, 0x5c) case Menu => (true, 0x5d)
    case KeypadEnter => (true, 0x1c) case KeypadSlash => (true, 0x35)
    case Up => (true, 0x48) case Down => (true, 0x50) case Left => (true, 0x4b) case Right => (true, 0x4d)
    case Insert => (true, 0x52) case Delete => (true, 0x53) case PageUp => (true, 0x49) case PageDown => (true, 0x51)
    case Home => (true, 0x47) case End => (true, 0x4f)
    case VolumeUp => (true, 0x30) case VolumeDown => (true, 0x2e) case Mute => (true, 0x20)
    case CapsLock => (false, 0x3a)
  }

  // The code by which the system's key map knows it. The Windows keys are command keys and
  // the Alt keys option keys; exchanging the two is an option, and so is Caps Lock as another
  // control key.
  function SystemCodeOf(key: Legend, exchanged: bool, control: bool): nat {
    match key
    case LeftShift => 0x38 case RightShift => 0x3c case LeftControl => 0x3b case RightControl => 0x3e
    case LeftAlt => if exchanged then 0x37 else 0x3a
    case LeftWindows => if exchanged then 0x3a else 0x37
    case RightAlt => if exchanged then 0x36 else 0x3d
    case RightWindows => if exchanged then 0x3d else 0x36
    case Menu => 0x36
    case KeypadEnter => 0x4c case KeypadSlash => 0x4b
    case Up => 0x7e case Down => 0x7d case Left => 0x7b case Right => 0x7c
    case Insert => 0x72 case Delete => 0x75 case PageUp => 0x74 case PageDown => 0x79
    case Home => 0x73 case End => 0x77
    case VolumeUp => 0x48 case VolumeDown => 0x49 case Mute => 0x4a
    case CapsLock => if control then 0x3e else 0x39
  }

  lemma RowsHold()
    ensures AdbRow(6) == [0x3e, 0x3d, 0x4c, 0x4b, 0x7e, 0x7d, 0x7b, 0x7c, 0x72, 0x75, 0x74, 0x79, 0x73, 0x77, 0x69, 0x71]
    ensures Adb(0x70) == 0x37 && Adb(0x71) == 0x36 && Adb(0x7d) == 0x48 && Adb(0x7e) == 0x49 && Adb(0x7f) == 0x4a
    ensures Adb(0x2a) == 0x38 && Adb(0x1d) == 0x3b && Adb(0x38) == 0x3a && Adb(0x3a) == 0x39 && Adb(0x36) == 0x3c && Adb(0x60) == 0x3e
  {
  }

  // NAMED KEYS. Each of these keys reaches the system under its own code.
  lemma NamedKeysReachTheSystem(key: Legend, o: Options)
    ensures var (extended, code) := ScanCodeOf(key);
            && 0 < CodeOf(extended, code, o) < NUM_KEYCODES
            && Adb(CodeOf(extended, code, o)) == SystemCodeOf(key, o.macintoshMode, o.emacsMode)
  {
    hide AdbRow;
    RowsHold();
  }

  // ---------------------------------------------------------------------------------
  // The driver

  class KeyboardDriver {
    const keyBitVector: array<bv32>
    const options: Options
    var extendCount: nat
    var events: seq<Event>

    ghost predicate Valid()
      reads this
    {
      keyBitVector.Length == 4 && extendCount <= 2
    }

    ghost function TheKeys(): Keys
      requires Valid()
      reads this, keyBitVector
    {
      Keys(Held(keyBitVector[..]), extendCount, events)
    }

    constructor (options: Options)
      ensures Valid() && fresh(keyBitVector) && TheKeys() == NO_KEYS && this.options == options
    {
      this.options, extendCount, events := options, 0, [];
      keyBitVector := new bv32[4](_ => 0);
      new;
      assert keyBitVector[..] == [0, 0, 0, 0];
      HeldIsASet(keyBitVector[..], 0);
    }

    // The end of the handler: keep the bit vector and tell the superclass.
    method CommonDispatch(keyCode: nat, goingDown: bool) returns (dispatched: bool)
      requires Valid() && keyCode < NUM_KEYCODES
      modifies this`events, keyBitVector
      ensures Valid()
      ensures Result(TheKeys(), dispatched) == Common(old(TheKeys()), keyCode, goingDown)
    {
      hide IsDown, PutDown, PutUp;
      HeldIsASet(keyBitVector[..], keyCode);
      if keyCode == 0 {
        return false;
      }
      if goingDown {
        if KeyIsDown(keyCode) {
          return false;
        }
        KeyDown(keyCode);
      } else {
        KeyUp(keyCode);
      }
      events := events + [Key(keyCode, goingDown)];
      dispatched := true;
    }

    predicate KeyIsDown(n: nat)
      requires Valid() && n < NUM_KEYCODES
      reads this, keyBitVector
      ensures KeyIsDown(n) <==> IsDown(keyBitVector[..], n)
    {
      Test(keyBitVector[n / 32], Bit(n % 32))
    }

    method KeyDown(n: nat)
      requires Valid() && n < NUM_KEYCODES
      modifies keyBitVector
      ensures keyBitVector[..] == PutDown(old(keyBitVector[..]), n)
    {
      hide Bit, Raise;
      keyBitVector[n / 32] := Raise(keyBitVector[n / 32], Bit(n % 32));
    }

    method KeyUp(n: nat)
      requires Valid() && n < NUM_KEYCODES
      modifies keyBitVector
      ensures keyBitVector[..] == PutUp(old(keyBitVector[..]), n)
    {
      hide Bit, Lower;
      keyBitVector[n / 32] := Lower(keyBitVector[n / 32], Bit(n % 32));
    }

    // Print Screen feeds the codes it stands for back into the handler, with the extend
    // count at 0; so the recursion is one level deep.
    method DispatchKeyboardEventWithScancode(scanCode: nat) returns (dispatched: bool)
      requires Valid() && scanCode < 256
      modifies this`extendCount, this`events, keyBitVector
      ensures Valid()
      ensures Result(TheKeys(), dispatched) == Handle(old(TheKeys()), scanCode, options)
      decreases extendCount
    {
      hide Common, Held, ExtendedKey;
      if scanCode == SC_EXTEND {
        extendCount := 1;
        return false;
      }
      if scanCode == SC_PAUSE {
        extendCount := 2;
        return false;
      }
      var goingDown := scanCode < 128;
      var keyCode;
      if extendCount == 0 {
        keyCode := PlainKey(scanCode % 128, options);
      } else {
        extendCount := extendCount - 1;
        if extendCount > 0 {
          return false;
        }
        if scanCode % 128 == 0x34 {
          events := events + [Eject(0x38, goingDown)];
          events := events + [Eject(0x10, goingDown)];
          return true;
        }
        if scanCode % 128 == 0x37 {
          var up := if goingDown then 0 else 0x80;
          if !options.saveSS {
            var _ := DispatchKeyboardEventWithScancode(0x1d + up);
          }
          var _ := DispatchKeyboardEventWithScancode(0x38 + up);
          var _ := DispatchKeyboardEventWithScancode(0x2a + up);
          var _ := DispatchKeyboardEventWithScancode(0x05 + up);
          return true;
        }
        var key := ExtendedKey(scanCode % 128, options);
        if key.None? {
          return false;
        }
        if scanCode % 128 == 0x5f && goingDown {
          events := events + [SleepNow];
        }
        keyCode := key.value;
      }
      dispatched := CommonDispatch(keyCode, goingDown);
    }

    method InterruptOccurred(scanCode: nat)
      requires Valid() && scanCode < 256
      modifies this`extendCount, this`events, keyBitVector
      ensures Valid() && TheKeys() == Interrupt(old(TheKeys()), scanCode, options)
    {
      hide Handle;
      if scanCode != SC_ACKNOWLEDGE && scanCode != SC_RESEND {
        var _ := DispatchKeyboardEventWithScancode(scanCode);
      }
    }
  }
}
