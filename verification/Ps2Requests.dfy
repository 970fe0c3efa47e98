/**
 Requests: lists of command primitives that the controller executes one at a time,
 keeping track of which device the next read concerns.
 */
module Ps2Requests {
  import opened Wrappers
  import opened Ps2Stream

  const CP_GET_COMMAND_BYTE: bv8 := 0x20
  const CP_SET_COMMAND_BYTE: bv8 := 0x60
  const CP_TRANSMIT_TO_MOUSE: bv8 := 0xD4
  const SC_ACKNOWLEDGE: bv8 := 0xFA
  const MAX_COMMANDS := 20

  datatype Op =
    | ReadDataPort
    | ReadDataPortAndCompare
    | WriteDataPort
    | WriteCommandPort
    | SendMouseCommandAndCompareAck

  datatype Command = Command(op: Op, inOrOut: bv8)

  // What the outside sees, in order.
  datatype Io = WroteCommand(byte: bv8) | WroteData(byte: bv8) | Dispatched(dev: Device, byte: bv8)

  datatype Machine = Machine(lines: Lines, io: seq<Io>)

  // The machine, the stream the next read is from, and whether a transmit-to-mouse prefix is pending.
  datatype State = State(machine: Machine, mode: Device, transmit: bool)

  function Log(t: seq<Tagged>): seq<Io> {
    if t == [] then [] else [Dispatched(t[0].0, t[0].1)] + Log(t[1..])
  }

  function Settle(m: Machine, r: Reading): Machine {
    Machine(r.after, m.io + Log(r.dispatched))
  }

  function Emit(m: Machine, e: Io): Machine {
    m.(io := m.io + [e])
  }

  // What waking the port does to it, outside any request: read the command byte, enable
  // both clocks and both interrupts in it, and write it back.
  function WakePort(m: Machine): Machine {
    var asked := Emit(m, WroteCommand(CP_GET_COMMAND_BYTE));
    var r := Read(Keyboard, asked.lines, TIMEOUT);
    Emit(Emit(Settle(asked, r), WroteCommand(CP_SET_COMMAND_BYTE)), WroteData(Awakened(r.data)))
  }

  function Awakened(commandByte: bv8): bv8 {
    (commandByte & !0x30) | 0x03
  }

  datatype Stepped = Stepped(command: Command, after: State, failed: bool)

  function Step(c: Command, s: State): Stepped {
    match c.op
    case ReadDataPort =>
      var r := Read(s.mode, s.machine.lines, TIMEOUT);
      Stepped(c.(inOrOut := r.data), s.(machine := Settle(s.machine, r)), false)
    case ReadDataPortAndCompare =>
      var r := ReadExpected(s.mode, c.inOrOut, s.machine.lines, TIMEOUT, None);
      Stepped(c, s.(machine := Settle(s.machine, r)), r.data != c.inOrOut)
    case WriteDataPort =>
      Stepped(c, State(Emit(s.machine, WroteData(c.inOrOut)), if s.transmit then Mouse else Keyboard, false), false)
    case WriteCommandPort =>
      Stepped(c, State(Emit(s.machine, WroteCommand(c.inOrOut)), s.mode,
                       s.transmit || c.inOrOut == CP_TRANSMIT_TO_MOUSE), false)
    case SendMouseCommandAndCompareAck =>
      var m := Emit(Emit(s.machine, WroteCommand(CP_TRANSMIT_TO_MOUSE)), WroteData(c.inOrOut));
      var r := ReadExpected(Mouse, SC_ACKNOWLEDGE, m.lines, TIMEOUT, None);
      Stepped(c, State(Settle(m, r), Mouse, s.transmit), r.data != SC_ACKNOWLEDGE)
  }

  datatype Outcome = Outcome(commands: seq<Command>, after: State, failedAt: Option<nat>)

  function Exec(cs: seq<Command>, s: State): (r: Outcome)
    ensures |r.commands| == |cs|
    ensures r.failedAt.Some? ==> r.failedAt.value < |cs|
  {
    if cs == [] then
      Outcome([], s, None)
    else
      var h := Step(cs[0], s);
      if h.failed then
        Outcome([h.command] + cs[1..], h.after, Some(0))
      else
        var t := Exec(cs[1..], h.after);
        Outcome([h.command] + t.commands, t.after, Shift(1, t.failedAt))
  }

  function Shift(k: nat, at: Option<nat>): Option<nat> {
    match at case None => None case Some(i) => Some(k + i)
  }

  // A request as a value: its commands, and its count, which becomes the answer.
  datatype Filled = Filled(commands: seq<Command>, count: nat)

  datatype Carried = Carried(request: Filled, machine: Machine)

  // processRequest
  function Carry(r: Filled, m: Machine, offline: bool): (c: Carried)
    requires r.count <= |r.commands|
    ensures |c.request.commands| == |r.commands|
  {
    if offline then Carried(r.(count := 0), m)
    else
      var x := Exec(r.commands[..r.count], State(m, Keyboard, false));
      Carried(Filled(x.commands + r.commands[r.count..], if x.failedAt.Some? then x.failedAt.value else r.count),
              x.after.machine)
  }

  // A list executes as its front and then, unless that fails, its back.
  lemma {:induction false} ExecJoin(a: seq<Command>, b: seq<Command>, s: State)
    ensures var ra := Exec(a, s);
            Exec(a + b, s) ==
            if ra.failedAt.Some? then
              Outcome(ra.commands + b, ra.after, ra.failedAt)
            else
              var rb := Exec(b, ra.after);
              Outcome(ra.commands + rb.commands, rb.after, Shift(|a|, rb.failedAt))
  {
    hide Step;
    if a == [] {
      assert a + b == b;
      assert Exec(b, s).commands == [] + Exec(b, s).commands;
    } else {
      assert (a + b)[1..] == a[1..] + b;
      var h := Step(a[0], s);
      if h.failed {
        assert [h.command] + (a[1..] + b) == ([h.command] + a[1..]) + b;
      } else {
        ExecJoin(a[1..], b, h.after);
        var ta := Exec(a[1..], h.after);
        if ta.failedAt.Some? {
          assert [h.command] + (ta.commands + b) == ([h.command] + ta.commands) + b;
        } else {
          var tb := Exec(b, ta.after);
          assert [h.command] + (ta.commands + tb.commands) == ([h.command] + ta.commands) + tb.commands;
        }
      }
    }
  }

  // FIRST FAILURE. A request reports index i exactly when the i commands before it
  // succeed and the i-th fails; the machine is then as that command left it, and no later
  // command has been touched.
  lemma FirstFailure(cs: seq<Command>, s: State, i: nat)
    requires i < |cs|
    ensures var before := Exec(cs[..i], s);
            var r := Exec(cs, s);
            && (r.failedAt == Some(i) <==> before.failedAt.None? && Step(cs[i], before.after).failed)
            && (r.failedAt == Some(i) ==>
                  && r.after == Step(cs[i], before.after).after
                  && r.commands[i + 1..] == cs[i + 1..])
  {
    var back := cs[i..];
    assert cs == cs[..i] + back;
    ExecJoin(cs[..i], back, s);
    var before := Exec(cs[..i], s);
    if before.failedAt.None? {
      var r := Exec(back, before.after);
      var h := Step(cs[i], before.after);
      if h.failed {
        assert r.commands == [h.command] + cs[i + 1..];
        assert Exec(cs, s).commands == before.commands + r.commands;
      } else {
        assert r.failedAt != Some(0);
      }
    }
  }

  // ---------------------------------------------------------------------------------
  // The composite mouse command

  function DesugarOne(c: Command): (r: seq<Command>)
    ensures |r| == if c.op.SendMouseCommandAndCompareAck? then 3 else 1
  {
    if c.op.SendMouseCommandAndCompareAck? then
      [Command(WriteCommandPort, CP_TRANSMIT_TO_MOUSE),
       Command(WriteDataPort, c.inOrOut),
       Command(ReadDataPortAndCompare, SC_ACKNOWLEDGE)]
    else
      [c]
  }

  function Desugar(cs: seq<Command>): seq<Command> {
    if cs == [] then [] else DesugarOne(cs[0]) + Desugar(cs[1..])
  }

  // Where in the desugared list the command that can fail stands.
  function Position(cs: seq<Command>, i: nat): nat
    requires i < |cs|
  {
    if i == 0 then
      if cs[0].op.SendMouseCommandAndCompareAck? then 2 else 0
    else
      |DesugarOne(cs[0])| + Position(cs[1..], i - 1)
  }

  // Whether a prefix is pending after a command that was not a failure.
  predicate Pending(c: Command, transmit: bool) {
    match c.op
    case WriteDataPort => false
    case WriteCommandPort => transmit || c.inOrOut == CP_TRANSMIT_TO_MOUSE
    case _ => transmit
  }

  // No composite is reached with a transmit-to-mouse prefix pending.
  predicate PrefixFree(cs: seq<Command>, transmit: bool) {
    cs != [] ==>
      && (cs[0].op.SendMouseCommandAndCompareAck? ==> !transmit)
      && PrefixFree(cs[1..], Pending(cs[0], transmit))
  }

  lemma ExecOne(c: Command, s: State)
    ensures var h := Step(c, s);
            Exec([c], s) == Outcome([h.command], h.after, if h.failed then Some(0) else None)
  {
    assert [c][1..] == [];
  }

  // One composite against its three primitives: all but the pending prefix is the same,
  // and that is the same exactly when none was pending.
  lemma CompositeIsThreePrimitives(c: Command, s: State)
    requires c.op.SendMouseCommandAndCompareAck?
    ensures var h, r := Step(c, s), Exec(DesugarOne(c), s);
            && r.commands == DesugarOne(h.command)
            && r.after.machine == h.after.machine
            && r.after.mode == h.after.mode
            && r.failedAt == (if h.failed then Some(2) else None)
            && (r.after == h.after <==> !s.transmit)
  {
    hide Read, ReadExpected, Exec, Log;
    var d := DesugarOne(c);
    ExecThree(d[0], d[1], d[2], s);
  }

  lemma ExecThree(c0: Command, c1: Command, c2: Command, s: State)
    requires !Step(c0, s).failed && !Step(c1, Step(c0, s).after).failed
    ensures var h0 := Step(c0, s);
            var h1 := Step(c1, h0.after);
            var h2 := Step(c2, h1.after);
            Exec([c0, c1, c2], s) ==
            Outcome([h0.command, h1.command, h2.command], h2.after, if h2.failed then Some(2) else None)
  {
    hide Step;
    var h0 := Step(c0, s);
    assert [c0, c1, c2][1..] == [c1, c2] && [c1, c2][1..] == [c2];
    ExecOne(c2, Step(c1, h0.after).after);
  }

  // DESUGARING. Replacing every composite by its primitives gives the same port writes,
  // reads, dispatches, device mode and success or failure, and the failing index maps back.
  lemma {:induction false} DesugaringPreservesRequests(cs: seq<Command>, s: State)
    requires PrefixFree(cs, s.transmit)
    ensures var a, b := Exec(cs, s), Exec(Desugar(cs), s);
            && b.after == a.after
            && b.commands == Desugar(a.commands)
            && b.failedAt == (match a.failedAt case None => None case Some(i) => Some(Position(cs, i)))
  {
    hide Exec, Step, DesugarOne, Desugar, Position, PrefixFree;
    if cs == [] {
      EmptyList(s);
    } else {
      var c, rest := cs[0], cs[1..];
      var h := Step(c, s);
      FrontOfList(cs, s);
      OneStep(c, s);
      ExecJoin(DesugarOne(c), Desugar(rest), s);
      if h.failed {
        DesugarCons(h.command, rest);
      } else {
        DesugaringPreservesRequests(rest, h.after);
        DesugarCons(h.command, Exec(rest, h.after).commands);
      }
    }
  }

  lemma EmptyList(s: State)
    ensures Desugar([]) == [] && Exec([], s) == Outcome([], s, None)
  {
  }

  lemma FrontOfList(cs: seq<Command>, s: State)
    requires cs != [] && PrefixFree(cs, s.transmit)
    ensures cs[0].op.SendMouseCommandAndCompareAck? ==> !s.transmit
    ensures PrefixFree(cs[1..], Pending(cs[0], s.transmit))
    ensures Desugar(cs) == DesugarOne(cs[0]) + Desugar(cs[1..])
    ensures Position(cs, 0) == if cs[0].op.SendMouseCommandAndCompareAck? then 2 else 0
    ensures forall i {:trigger Position(cs[1..], i)} :: 0 <= i < |cs| - 1 ==>
              Position(cs, i + 1) == |DesugarOne(cs[0])| + Position(cs[1..], i)
    ensures var h := Step(cs[0], s);
            Exec(cs, s) ==
            if h.failed then
              Outcome([h.command] + cs[1..], h.after, Some(0))
            else
              var t := Exec(cs[1..], h.after);
              Outcome([h.command] + t.commands, t.after, Shift(1, t.failedAt))
  {
    hide Step;
  }

  lemma DesugarCons(c: Command, cs: seq<Command>)
    ensures Desugar([c] + cs) == DesugarOne(c) + Desugar(cs)
  {
    assert ([c] + cs)[1..] == cs;
  }

  lemma OneStep(c: Command, s: State)
    requires c.op.SendMouseCommandAndCompareAck? ==> !s.transmit
    ensures var h, r := Step(c, s), Exec(DesugarOne(c), s);
            && r.commands == DesugarOne(h.command)
            && r.after == h.after
            && r.failedAt == (if !h.failed then None else if c.op.SendMouseCommandAndCompareAck? then Some(2) else Some(0))
            && h.after.transmit == Pending(c, s.transmit)
  {
    if c.op.SendMouseCommandAndCompareAck? {
      CompositeIsThreePrimitives(c, s);
    } else {
      ExecOne(c, s);
    }
    hide Read, ReadExpected;
  }

  // The condition is needed: with a prefix pending, the composite leaves it pending and
  // the next data byte is taken to be for the mouse; the primitives use it up.
  lemma PendingPrefixDiffers(m: Machine, x: bv8, y: bv8)
    ensures var s := State(m, Keyboard, true);
            var composite, after := Command(SendMouseCommandAndCompareAck, x), Command(WriteDataPort, y);
            !Step(composite, s).failed ==>
              && Exec([composite, after], s).after.mode == Mouse
              && Exec(Desugar([composite, after]), s).after.mode == Keyboard
  {
    var s := State(m, Keyboard, true);
    var composite, after := Command(SendMouseCommandAndCompareAck, x), Command(WriteDataPort, y);
    CompositeIsThreePrimitives(composite, s);
    assert [composite, after][1..] == [after] && [after][1..] == [];
    assert Desugar([after]) == [after] + [];
    assert Desugar([composite, after]) == DesugarOne(composite) + [after];
    ExecJoin(DesugarOne(composite), [after], s);
    ExecOne(after, Step(composite, s).after);
    ExecOne(after, Exec(DesugarOne(composite), s).after);
    assert !Exec(DesugarOne(composite), s).after.transmit;
  }

  // With an acknowledging mouse the composite succeeds, so the two do differ.
  lemma PendingPrefixDiffersExample()
    ensures var m := Machine(Lines([], [Arrive(Mouse, SC_ACKNOWLEDGE, false)], []), []);
            var s := State(m, Keyboard, true);
            var cs := [Command(SendMouseCommandAndCompareAck, 0xF4), Command(WriteDataPort, 0x00)];
            && Exec(cs, s).failedAt.None? && Exec(Desugar(cs), s).failedAt.None?
            && Exec(cs, s).after.mode == Mouse && Exec(Desugar(cs), s).after.mode == Keyboard
  {
    var lines := Lines([], [Arrive(Mouse, SC_ACKNOWLEDGE, false)], []);
    var m := Machine(lines, []);
    var s := State(m, Keyboard, true);
    var composite, write := Command(SendMouseCommandAndCompareAck, 0xF4), Command(WriteDataPort, 0x00);
    assert Next(Mouse, lines, TIMEOUT) == Got(Mouse, SC_ACKNOWLEDGE, Lines([], [], []), TIMEOUT) by {
      assert lines.input[1..] == [];
    }
    assert !Step(composite, s).failed;
    PendingPrefixDiffers(m, 0xF4, 0x00);
    hide ReadExpected;
    CompositeIsThreePrimitives(composite, s);
    assert [composite, write][1..] == [write] && Desugar([write]) == [write] + [] == [write];
    assert Desugar([composite, write]) == DesugarOne(composite) + [write];
    ExecJoin(DesugarOne(composite), [write], s);
    ExecOne(write, Exec(DesugarOne(composite), s).after);
    ExecOne(write, Step(composite, s).after);
  }

  // For a request that ends in a composite, with no pending prefix before, the condition is
  // exact: unless the request fails earlier, both ways end alike if and only if no prefix is
  // pending at the end.
  lemma PrefixFreeAtEndIff(front: seq<Command>, c: Command, s: State)
    requires PrefixFree(front, s.transmit) && c.op.SendMouseCommandAndCompareAck?
    ensures Exec(Desugar(front + [c]), s).after == Exec(front + [c], s).after <==>
            Exec(front, s).failedAt.Some? || !Exec(front, s).after.transmit
  {
    hide Exec, Step, PrefixFree;
    var mid := Exec(front, s).after;
    ExecJoin(front, [c], s);
    DesugarJoin(front, [c]);
    DesugaringPreservesRequests(front, s);
    ExecJoin(Desugar(front), Desugar([c]), s);
    ExecOne(c, mid);
    DesugarOfOne(c);
    CompositeIsThreePrimitives(c, mid);
  }

  lemma DesugarOfOne(c: Command)
    ensures Desugar([c]) == DesugarOne(c)
  {
    assert [c][1..] == [] && DesugarOne(c) + [] == DesugarOne(c);
  }

  lemma {:induction false} DesugarJoin(a: seq<Command>, b: seq<Command>)
    ensures Desugar(a + b) == Desugar(a) + Desugar(b)
  {
    hide DesugarOne;
    if a == [] {
      assert a + b == b && [] + Desugar(b) == Desugar(b);
    } else {
      assert (a + b)[1..] == a[1..] + b;
      DesugarJoin(a[1..], b);
      assert DesugarOne(a[0]) + (Desugar(a[1..]) + Desugar(b)) == (DesugarOne(a[0]) + Desugar(a[1..])) + Desugar(b);
    }
  }

  // ---------------------------------------------------------------------------------
  // Whom a read is addressed to, said of the commands before it

  predicate WritesData(c: Command) {
    c.op.WriteDataPort? || c.op.SendMouseCommandAndCompareAck?
  }

  predicate IsPrefix(c: Command) {
    c.op.WriteCommandPort? && c.inOrOut == 0xD4
  }

  // A transmit-to-mouse prefix has not been used up by a data byte. (A composite has its own.)
  ghost predicate PrefixPending(cs: seq<Command>) {
    exists p :: 0 <= p < |cs| && IsPrefix(cs[p]) && forall q :: p < q < |cs| ==> !cs[q].op.WriteDataPort?
  }

  ghost predicate LastDataAt(cs: seq<Command>, j: nat) {
    j < |cs| && WritesData(cs[j]) && forall k :: j < k < |cs| ==> !WritesData(cs[k])
  }

  ghost predicate LastDataForMouse(cs: seq<Command>, j: nat) {
    LastDataAt(cs, j) && (cs[j].op.WriteDataPort? ==> PrefixPending(cs[..j]))
  }

  // The last data byte was for the mouse: after a prefix, or by a composite.
  ghost predicate ToMouse(cs: seq<Command>) {
    exists j: nat :: LastDataForMouse(cs, j)
  }

  ghost function Addressee(cs: seq<Command>): Device {
    if ToMouse(cs) then Mouse else Keyboard
  }

  lemma PrefixPendingSnoc(cs: seq<Command>, c: Command)
    ensures PrefixPending(cs + [c]) <==> IsPrefix(c) || (PrefixPending(cs) && !c.op.WriteDataPort?)
  {
    var all := cs + [c];
    if IsPrefix(c) { assert IsPrefix(all[|cs|]); }
    if PrefixPending(cs) && !c.op.WriteDataPort? {
      var p :| 0 <= p < |cs| && IsPrefix(cs[p]) && forall q :: p < q < |cs| ==> !cs[q].op.WriteDataPort?;
      assert IsPrefix(all[p]);
    }
    if PrefixPending(all) && !IsPrefix(c) {
      var p :| 0 <= p < |all| && IsPrefix(all[p]) && forall q :: p < q < |all| ==> !all[q].op.WriteDataPort?;
      assert all[|cs|] == c && p < |cs| && IsPrefix(cs[p]);
      assert forall q :: p < q < |cs| ==> !cs[q].op.WriteDataPort? by {
        assert forall q :: p < q < |cs| ==> all[q] == cs[q];
      }
    }
  }

  lemma LastDataSnoc(cs: seq<Command>, c: Command, j: nat)
    requires j < |cs| && !WritesData(c)
    ensures LastDataForMouse(cs + [c], j) <==> LastDataForMouse(cs, j)
  {
    var all := cs + [c];
    hide PrefixPending, WritesData;
    assert all[..j] == cs[..j] && all[|cs|] == c;
    assert forall k :: 0 <= k < |cs| ==> all[k] == cs[k];
  }

  lemma ToMouseSnoc(cs: seq<Command>, c: Command)
    ensures ToMouse(cs + [c]) <==>
            if c.op.WriteDataPort? then PrefixPending(cs)
            else c.op.SendMouseCommandAndCompareAck? || ToMouse(cs)
  {
    var all := cs + [c];
    assert all[|cs|] == c && all[..|cs|] == cs;
    if WritesData(c) {
      OnlyTheLast(all, |cs|);
    } else {
      forall j: nat | j < |cs|
        ensures LastDataForMouse(all, j) <==> LastDataForMouse(cs, j)
      {
        LastDataSnoc(cs, c, j);
      }
      hide PrefixPending;
    }
  }

  lemma OnlyTheLast(cs: seq<Command>, last: nat)
    requires |cs| == last + 1 && WritesData(cs[last])
    ensures ToMouse(cs) <==> (cs[last].op.WriteDataPort? ==> PrefixPending(cs[..last]))
  {
    hide PrefixPending;
    if cs[last].op.WriteDataPort? ==> PrefixPending(cs[..last]) {
      assert LastDataForMouse(cs, last);
    }
  }

  lemma StepMode(c: Command, s: State)
    ensures var t := Step(c, s).after;
            && t.mode == (if c.op.WriteDataPort? then if s.transmit then Mouse else Keyboard
                          else if c.op.SendMouseCommandAndCompareAck? then Mouse else s.mode)
            && (t.transmit <==> IsPrefix(c) || (s.transmit && !c.op.WriteDataPort?))
  {
    hide Read, ReadExpected, Log;
  }

  // ADDRESSEE. After any commands that have not failed, the next read is from the device
  // that the last data byte was for, and a prefix is pending as the commands say.
  lemma {:induction false} ModeIsAddressee(cs: seq<Command>, m: Machine)
    requires Exec(cs, State(m, Keyboard, false)).failedAt.None?
    ensures var t := Exec(cs, State(m, Keyboard, false)).after;
            t.mode == Addressee(cs) && (t.transmit <==> PrefixPending(cs))
    decreases |cs|
  {
    if cs != [] {
      hide Exec, Step, ToMouse, PrefixPending;
      var front, c := cs[..|cs| - 1], cs[|cs| - 1];
      var s := State(m, Keyboard, false);
      assert cs == front + [c];
      ExecJoin(front, [c], s);
      ModeIsAddressee(front, m);
      ExecOne(c, Exec(front, s).after);
      StepMode(c, Exec(front, s).after);
      PrefixPendingSnoc(front, c);
      ToMouseSnoc(front, c);
    }
  }

  // The first of a list of commands.
  lemma FirstStep(cs: seq<Command>, s: State)
    requires cs != []
    ensures var h, r := Step(cs[0], s), Exec(cs, s);
            r.commands[0] == h.command && (h.failed <==> r.failedAt == Some(0))
  {
    hide Step;
  }

  // What the i-th command does, in a request whose commands before it succeed.
  lemma CommandInRequest(cs: seq<Command>, s: State, i: nat)
    requires i < |cs| && Exec(cs[..i], s).failedAt.None?
    ensures var h, r := Step(cs[i], Exec(cs[..i], s).after), Exec(cs[..i + 1], s);
            && r.after == h.after && (r.failedAt.Some? <==> h.failed)
            && Exec(cs, s).commands[i] == h.command
            && (h.failed <==> Exec(cs, s).failedAt == Some(i))
  {
    hide Step, Exec;
    var before := Exec(cs[..i], s).after;
    assert cs[..i + 1] == cs[..i] + [cs[i]] && cs == cs[..i] + cs[i..] && cs[i..][0] == cs[i];
    ExecJoin(cs[..i], [cs[i]], s);
    ExecOne(cs[i], before);
    ExecJoin(cs[..i], cs[i..], s);
    FirstStep(cs[i..], before);
  }

  // PLAIN READ IN A REQUEST. It answers the first byte that its addressee delivers before
  // the time-out, else 0; it dispatches what the other device delivered before that, and
  // nothing else; and it never fails.
  lemma PlainReadInRequest(cs: seq<Command>, m: Machine, i: nat)
    requires i < |cs| && cs[i].op.ReadDataPort?
    requires Exec(cs[..i], State(m, Keyboard, false)).failedAt.None?
    ensures var s := State(m, Keyboard, false);
            var before, after := Exec(cs[..i], s).after.machine, Exec(cs[..i + 1], s).after.machine;
            var taken := Takes(Addressee(cs[..i]), before.lines, TIMEOUT);
            var own := Of(Addressee(cs[..i]), taken);
            && Exec(cs, s).commands[i].inOrOut == (if own == [] then 0 else own[0])
            && after.io == before.io + Log(NotOf(Addressee(cs[..i]), UpTo(Addressee(cs[..i]), taken, 1)))
            && (exists r :: Balanced(Addressee(cs[..i]), Bag(before.lines), r) && r.data == Exec(cs, s).commands[i].inOrOut
                            && after == Machine(r.after, before.io + Log(r.dispatched)))
            && Exec(cs, s).failedAt != Some(i)
  {
    var s := State(m, Keyboard, false);
    var lines := Exec(cs[..i], s).after.machine.lines;
    ModeIsAddressee(cs[..i], m);
    CommandInRequest(cs, s, i);
    PlainReader(Addressee(cs[..i]), lines, TIMEOUT);
    ReadConserves(Addressee(cs[..i]), lines, TIMEOUT);
    hide Exec, Read, ReadExpected, Takes, Of, NotOf, UpTo, Log, Addressee, Balanced, Bag;
    assert Balanced(Addressee(cs[..i]), Bag(lines), Read(Addressee(cs[..i]), lines, TIMEOUT));
  }

  // COMPARING READ IN A REQUEST. With the byte given, from its addressee, or for a composite
  // with an acknowledgement from the mouse, it fails unless the byte is one of the first two
  // that the device delivers before the time-out; only a device that delivers none passes
  // for a byte of 0.
  lemma CompareInRequest(cs: seq<Command>, m: Machine, i: nat)
    requires i < |cs| && (cs[i].op.ReadDataPortAndCompare? || cs[i].op.SendMouseCommandAndCompareAck?)
    requires Exec(cs[..i], State(m, Keyboard, false)).failedAt.None?
    ensures var s := State(m, Keyboard, false);
            var before, after := Exec(cs[..i], s).after.machine, Exec(cs[..i + 1], s).after.machine;
            var dev := if cs[i].op.ReadDataPortAndCompare? then Addressee(cs[..i]) else Mouse;
            var expected := if cs[i].op.ReadDataPortAndCompare? then cs[i].inOrOut else 0xFA;
            var writes := if cs[i].op.ReadDataPortAndCompare? then [] else [WroteCommand(0xD4), WroteData(cs[i].inOrOut)];
            var taken := Takes(dev, before.lines, TIMEOUT);
            var own := Of(dev, taken);
            && Exec(cs, s).commands[i] == cs[i]
            && (exists r :: SecondChanceOutcome(dev, expected, taken, r) && Balanced(dev, Bag(before.lines), r)
                            && after == Machine(r.after, before.io + writes + Log(r.dispatched)))
            && (Exec(cs, s).failedAt == Some(i) <==>
                if own == [] then expected != 0
                else own[0] != expected && (|own| < 2 || own[1] != expected))
  {
    var s := State(m, Keyboard, false);
    var before := Exec(cs[..i], s).after.machine;
    var dev := if cs[i].op.ReadDataPortAndCompare? then Addressee(cs[..i]) else Mouse;
    var expected := if cs[i].op.ReadDataPortAndCompare? then cs[i].inOrOut else 0xFA;
    ModeIsAddressee(cs[..i], m);
    CommandInRequest(cs, s, i);
    SecondChanceReader(dev, expected, before.lines, TIMEOUT);
    ReadExpectedConserves(dev, expected, before.lines, TIMEOUT);
    CompareStep(cs[i], Exec(cs[..i], s).after);
    var r := ReadExpected(dev, expected, before.lines, TIMEOUT, None);
    SecondChanceData(dev, expected, Takes(dev, before.lines, TIMEOUT), r);
    hide Exec, Step, Read, ReadExpected, Takes, Of, Log, Addressee, Balanced, Bag, SecondChanceOutcome;
    assert Balanced(dev, Bag(before.lines), r) && SecondChanceOutcome(dev, expected, Takes(dev, before.lines, TIMEOUT), r);
  }

  lemma CompareStep(c: Command, s: State)
    requires c.op.ReadDataPortAndCompare? || c.op.SendMouseCommandAndCompareAck?
    ensures var h := Step(c, s);
            var dev := if c.op.ReadDataPortAndCompare? then s.mode else Mouse;
            var expected := if c.op.ReadDataPortAndCompare? then c.inOrOut else 0xFA;
            var writes := if c.op.ReadDataPortAndCompare? then [] else [WroteCommand(0xD4), WroteData(c.inOrOut)];
            var r := ReadExpected(dev, expected, s.machine.lines, TIMEOUT, None);
            && h.command == c && h.failed == (r.data != expected)
            && h.after.machine == Machine(r.after, s.machine.io + writes + Log(r.dispatched))
  {
    hide ReadExpected, Log;
    assert s.machine.io + [] == s.machine.io;
    assert (s.machine.io + [WroteCommand(0xD4)]) + [WroteData(c.inOrOut)] ==
           s.machine.io + [WroteCommand(0xD4), WroteData(c.inOrOut)];
  }

  lemma SecondChanceData(dev: Device, expected: bv8, t: seq<Tagged>, r: Reading)
    requires SecondChanceOutcome(dev, expected, t, r)
    ensures var own := Of(dev, t);
            r.data != expected <==>
            if own == [] then expected != 0 else own[0] != expected && (|own| < 2 || own[1] != expected)
  {
    hide Of, NotOf, UpTo, Handed;
  }

  // PORT WRITES. A write puts its byte on its port and does nothing else.
  lemma WriteInRequest(cs: seq<Command>, m: Machine, i: nat)
    requires i < |cs| && (cs[i].op.WriteDataPort? || cs[i].op.WriteCommandPort?)
    requires Exec(cs[..i], State(m, Keyboard, false)).failedAt.None?
    ensures var s := State(m, Keyboard, false);
            var before, after := Exec(cs[..i], s).after.machine, Exec(cs[..i + 1], s).after.machine;
            && after.lines == before.lines && Exec(cs, s).commands[i] == cs[i] && Exec(cs, s).failedAt != Some(i)
            && after.io == before.io + [if cs[i].op.WriteDataPort? then WroteData(cs[i].inOrOut) else WroteCommand(cs[i].inOrOut)]
  {
    hide Exec;
    CommandInRequest(cs, State(m, Keyboard, false), i);
  }
}
