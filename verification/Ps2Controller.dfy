/**
 The controller driver itself: the interrupt-time keyboard queue over 32 preallocated
 elements, the two data-port readers and the request interpreter, with their state.
 */
module Ps2Controller {
  import opened Wrappers
  import opened Ps2Stream
  import opened Ps2Requests

  // Two lists of element numbers over one block of elements, as the driver links them.
  class KeyboardQueue {
    const data: array<bv8>
    var used: seq<nat>
    var unused: seq<nat>

    ghost predicate Valid()
      reads this
    {
      && data.Length == QUEUE_SIZE
      && Partition(used + unused)
    }

    ghost function Contents(): (s: seq<bv8>)
      requires Valid()
      reads this, data
      ensures |s| == |used|
    {
      PartitionInRange(used, unused);
      Values(data[..], used)
    }

    constructor ()
      ensures Valid() && fresh(data)
      ensures Contents() == []
    {
      data := new bv8[QUEUE_SIZE](_ => 0);
      used, unused := [], [];
      new;
      for index := 0 to QUEUE_SIZE
        invariant used == [] && |unused| == index
        invariant forall i :: 0 <= i < index ==> unused[i] == i
      {
        unused := unused + [index];
      }
      assert used + unused == unused;
      forall e | 0 <= e < QUEUE_SIZE
        ensures e in unused
      {
        assert unused[e] == e;
      }
    }

    method EnqueueKeyboardData(key: bv8)
      requires Valid()
      modifies this, data
      ensures Valid()
      ensures Contents() == if |old(Contents())| < QUEUE_SIZE then old(Contents()) + [key] else old(Contents())
    {
      ghost var before, was := Contents(), data[..];
      ghost var all := used + unused;
      PartitionInRange(used, unused);
      if unused != [] {
        var element := unused[0];
        unused := unused[1..];
        data[element] := key;
        used := used + [element];
        assert used + unused == all;
        ValuesSnoc(was, old(used), element, key);
        assert data[..] == was[element := key];
      }
    }

    method DequeueKeyboardData() returns (key: Option<bv8>)
      requires Valid()
      modifies this
      ensures Valid()
      ensures key.Some? <==> old(Contents()) != []
      ensures key.Some? ==> old(Contents()) == [key.value] + Contents()
      ensures key.None? ==> Contents() == old(Contents())
    {
      PartitionInRange(used, unused);
      if used != [] {
        var element := used[0];
        PartitionRotates(used, unused);
        used := used[1..];
        key := Some(data[element]);
        unused := unused + [element];
      } else {
        key := None;
      }
    }
  }

  // Each of the 32 elements is on exactly one of the lists, once.
  ghost predicate Partition(all: seq<nat>) {
    && |all| == QUEUE_SIZE
    && (forall e :: 0 <= e < QUEUE_SIZE ==> e in all)
    && (forall i, j :: 0 <= i < j < |all| ==> all[i] != all[j])
    && (forall i :: 0 <= i < |all| ==> all[i] < QUEUE_SIZE)
  }

  lemma PartitionInRange(used: seq<nat>, unused: seq<nat>)
    requires Partition(used + unused)
    ensures |used| + |unused| == QUEUE_SIZE
    ensures forall i :: 0 <= i < |used| ==> used[i] < QUEUE_SIZE
    ensures forall i :: 0 <= i < |unused| ==> unused[i] < QUEUE_SIZE
    ensures forall i, j :: 0 <= i < |used| && 0 <= j < |unused| ==> used[i] != unused[j]
  {
    var all := used + unused;
    assert forall i :: 0 <= i < |used| ==> all[i] == used[i];
    assert forall j :: 0 <= j < |unused| ==> all[|used| + j] == unused[j];
  }

  lemma PartitionRotates(used: seq<nat>, unused: seq<nat>)
    requires Partition(used + unused) && used != []
    ensures Partition(used[1..] + (unused + [used[0]]))
  {
    var all, after := used + unused, used[1..] + (unused + [used[0]]);
    assert after == all[1..] + [all[0]];
    forall e | 0 <= e < QUEUE_SIZE
      ensures e in after
    {
      assert e in all;
      var i :| 0 <= i < |all| && all[i] == e;
      assert if i == 0 then after[|all| - 1] == e else after[i - 1] == e;
    }
  }

  ghost function Values(data: seq<bv8>, elements: seq<nat>): (s: seq<bv8>)
    requires forall i :: 0 <= i < |elements| ==> elements[i] < |data|
    ensures |s| == |elements|
    ensures forall i :: 0 <= i < |s| ==> s[i] == data[elements[i]]
  {
    seq(|elements|, i requires 0 <= i < |elements| => data[elements[i]])
  }

  lemma ValuesSnoc(data: seq<bv8>, elements: seq<nat>, e: nat, key: bv8)
    requires e < |data|
    requires forall i :: 0 <= i < |elements| ==> elements[i] < |data| && elements[i] != e
    ensures Values(data[e := key], elements + [e]) == Values(data, elements) + [key]
  {
  }

  datatype PortPower = Asleep | Doze | Normal

  datatype Port = Port(machine: Machine, power: PortPower)

  // setPowerStateGated
  function ChangePower(p: Port, to: PortPower): Port {
    Port(if p.power == Asleep && to != Asleep then WakePort(p.machine) else p.machine, to)
  }

  // A request: the commands are rewritten in place, and the count is the answer.
  class PS2Request {
    const commands: array<Command>
    var commandsCount: nat

    ghost predicate Valid()
      reads this
    {
      commands.Length == MAX_COMMANDS && commandsCount <= MAX_COMMANDS
    }

    constructor ()
      ensures Valid() && fresh(commands) && commandsCount == 0
    {
      commands := new Command[MAX_COMMANDS](_ => Command(ReadDataPort, 0));
      commandsCount := 0;
    }

    method SetCommand(index: nat, command: Command)
      requires index < commands.Length
      modifies commands
      ensures commands[..] == old(commands[..])[index := command]
    {
      commands[index] := command;
    }
  }

  class Ps2Controller {
    const keyboardQueue: KeyboardQueue
    var input: seq<Event>       // what the hardware still has to deliver
    var dropped: seq<bv8>       // keys lost to a full queue
    var io: seq<Io>             // port writes and dispatches so far
    var locked: bool            // the controller lock; interrupts are disabled while it is held
    var hardwareOffline: bool
    var powerState: PortPower

    ghost predicate Valid()
      reads this, keyboardQueue
    {
      keyboardQueue.Valid()
    }

    ghost function TheLines(): Lines
      requires Valid()
      reads this, keyboardQueue, keyboardQueue.data
    {
      Lines(keyboardQueue.Contents(), input, dropped)
    }

    ghost function TheMachine(): Machine
      requires Valid()
      reads this, keyboardQueue, keyboardQueue.data
    {
      Machine(TheLines(), io)
    }

    constructor (hardware: seq<Event>)
      ensures Valid() && fresh(keyboardQueue) && fresh(keyboardQueue.data)
      ensures TheMachine() == Machine(Lines([], hardware, []), []) && !locked && !hardwareOffline && powerState == Normal
    {
      keyboardQueue := new KeyboardQueue();
      input, dropped, io, locked, hardwareOffline, powerState := hardware, [], [], false, false, Normal;
    }

    // The keyboard interrupt handler, run for the byte that is next on the port. It cannot
    // run while the lock is held.
    method InterruptHandlerKeyboard()
      requires Valid() && !locked && InterruptPending(TheLines())
      modifies this`input, this`dropped, keyboardQueue, keyboardQueue.data
      ensures Valid() && TheLines() == Interrupt(old(TheLines()))
    {
      var key := input[0].data;
      input := input[1..];
      if |keyboardQueue.used| == QUEUE_SIZE {
        dropped := dropped + [key];
      }
      keyboardQueue.EnqueueKeyboardData(key);
    }

    // Interrupts come in until the lock is taken.
    method LockController()
      requires Valid() && !locked
      modifies this`input, this`dropped, this`locked, keyboardQueue, keyboardQueue.data
      ensures Valid() && locked && TheLines() == Absorb(old(TheLines()))
    {
      while input != [] && input[0].Arrive? && input[0].dev == Keyboard && input[0].early
        invariant Valid() && !locked
        invariant Absorb(TheLines()) == Absorb(old(TheLines()))
        decreases |input|
      {
        InterruptHandlerKeyboard();
      }
      locked := true;
    }

    method UnlockController()
      requires locked
      modifies this`locked
      ensures !locked
    {
      locked := false;
    }

    // Hand a byte to a device's handler; never done with the lock held.
    method DispatchDriverInterrupt(dev: Device, data: bv8)
      requires Valid() && !locked
      modifies this`io
      ensures Valid() && TheLines() == old(TheLines())
      ensures io == old(io) + [Dispatched(dev, data)]
    {
      io := io + [Dispatched(dev, data)];
    }

    // Poll the status port under the lock; None when the time-out counter is used up.
    method WaitForOutput(timeoutCounter: nat) returns (got: Option<(Device, bv8)>, left: nat)
      requires Valid() && locked
      modifies this`input
      ensures Valid() && locked
      ensures var p := Wait(old(input), timeoutCounter);
              && input == p.rest
              && (got.None? <==> p.TimedOut?)
              && (got.Some? ==> got.value == (p.dev, p.data) && left == p.budget)
    {
      left := timeoutCounter;
      while left > 0 && (input == [] || input[0].Idle?)
        invariant Wait(input, left) == Wait(old(input), timeoutCounter)
        decreases left
      {
        if input != [] {
          input := input[1..];
        }
        left := left - 1;
      }
      if left == 0 {
        return None, 0;
      }
      got := Some((input[0].dev, input[0].data));
      input := input[1..];
    }

    // What both readers do with the lock held: take one byte, from the queue if it is a
    // keyboard read and the queue is not empty, else from the port.
    method NextByte(dev: Device, timeoutCounter: nat) returns (got: Option<(Device, bv8)>, left: nat)
      requires Valid() && !locked
      modifies this`input, this`dropped, this`locked, keyboardQueue, keyboardQueue.data
      ensures Valid() && !locked
      ensures var f := Next(dev, old(TheLines()), timeoutCounter);
              && TheLines() == f.after
              && (got.Some? <==> f.Got?)
              && (got.Some? ==> got.value == (f.dev, f.data) && left == f.budget)
    {
      LockController();
      if dev == Keyboard {
        var key := keyboardQueue.DequeueKeyboardData();
        if key.Some? {
          UnlockController();
          return Some((Keyboard, key.value)), timeoutCounter;
        }
      }
      got, left := WaitForOutput(timeoutCounter);
      UnlockController();
    }

    method ReadDataPort(dev: Device) returns (data: bv8)
      requires Valid() && !locked
      modifies this`input, this`dropped, this`locked, this`io, keyboardQueue, keyboardQueue.data
      ensures Valid() && !locked
      ensures var r := Read(dev, old(TheLines()), TIMEOUT);
              data == r.data && TheMachine() == Settle(old(TheMachine()), r)
    {
      var timeoutCounter: nat := TIMEOUT;
      ghost var goal := Conclude(TheMachine(), Read(dev, TheLines(), TIMEOUT));
      hide Next, Read, Conclude;
      while true
        invariant Valid() && !locked
        invariant goal == Conclude(TheMachine(), Read(dev, TheLines(), timeoutCounter))
        decreases |TheLines().queue| + |TheLines().input|
      {
        ReadTurn(dev, TheMachine(), timeoutCounter);
        var got, left := NextByte(dev, timeoutCounter);
        if got.None? {
          data := 0;
          break;
        }
        var (source, readByte) := got.value;
        if source == dev {
          data := readByte;
          break;
        }
        DispatchDriverInterrupt(Other(dev), readByte);
        timeoutCounter := left;
      }
      ConcludeMeans(old(TheMachine()), Read(dev, old(TheLines()), TIMEOUT));
    }

    // What the second-chance reader does with a byte, the lock released: keep looking,
    // perhaps with a first byte put aside, or settle for an answer.
    method JudgeByte(dev: Device, expectedByte: bv8, source: Device, readByte: bv8, firstByte: Option<bv8>)
      returns (answer: Option<bv8>, held: Option<bv8>)
      requires Valid() && !locked
      modifies this`io
      ensures Valid() && TheLines() == old(TheLines())
      ensures var v := Judge(dev, expectedByte, source, readByte, firstByte);
              answer == v.answer && held == v.held && io == old(io) + v.dispatches
    {
      answer, held := None, firstByte;
      if source == dev {
        if readByte == expectedByte {
          if held.Some? {
            DispatchDriverInterrupt(dev, held.value);
          }
          answer := Some(readByte);
        } else if held.None? {
          held := Some(readByte);
        } else {
          DispatchDriverInterrupt(dev, readByte);
          answer := held;
        }
      } else {
        DispatchDriverInterrupt(Other(dev), readByte);
      }
    }

    method ReadDataPortExpecting(dev: Device, expectedByte: bv8) returns (data: bv8)
      requires Valid() && !locked
      modifies this`input, this`dropped, this`locked, this`io, keyboardQueue, keyboardQueue.data
      ensures Valid() && !locked
      ensures var r := ReadExpected(dev, expectedByte, old(TheLines()), TIMEOUT, None);
              data == r.data && TheMachine() == Settle(old(TheMachine()), r)
    {
      var timeoutCounter: nat := TIMEOUT;
      var firstByte: Option<bv8> := None;
      ghost var goal := Conclude(TheMachine(), ReadExpected(dev, expectedByte, TheLines(), TIMEOUT, None));
      hide Next, ReadExpected, Conclude, Judge;
      while true
        invariant Valid() && !locked
        invariant goal == Conclude(TheMachine(), ReadExpected(dev, expectedByte, TheLines(), timeoutCounter, firstByte))
        decreases |TheLines().queue| + |TheLines().input|
      {
        ExpectedTurn(dev, expectedByte, TheMachine(), timeoutCounter, firstByte);
        var got, left := NextByte(dev, timeoutCounter);
        if got.None? {
          data := if firstByte.Some? then firstByte.value else 0;
          break;
        }
        timeoutCounter := left;
        var answer;
        answer, firstByte := JudgeByte(dev, expectedByte, got.value.0, got.value.1, firstByte);
        if answer.Some? {
          data := answer.value;
          break;
        }
      }
      ConcludeMeans(old(TheMachine()), ReadExpected(dev, expectedByte, old(TheLines()), TIMEOUT, None));
    }

    // The work loop services an interrupt.
    method InterruptOccurred()
      requires Valid() && !locked
      modifies this`input, this`dropped, this`locked, this`io, keyboardQueue, keyboardQueue.data
      ensures Valid() && !locked
      ensures hardwareOffline ==> TheMachine() == old(TheMachine())
      ensures !hardwareOffline ==> TheMachine() == DrainInto(old(TheMachine()))
    {
      if hardwareOffline {
        return;
      }
      ghost var goal := DrainInto(TheMachine());
      hide Drain, DrainInto, Absorb;
      LockController();
      ghost var start := old(TheLines());
      while true
        invariant Valid() && locked
        invariant TheLines() == Absorb(start)
        invariant goal == DrainInto(Machine(start, io))
        decreases |TheLines().queue| + |TheLines().input|
      {
        DrainTurn(Machine(start, io));
        var key := keyboardQueue.DequeueKeyboardData();
        if key.Some? {
          UnlockController();
          start := TheLines();
          DispatchDriverInterrupt(Keyboard, key.value);
          LockController();
        } else if input != [] && input[0].Arrive? && input[0].dev == Mouse {
          UnlockController();
          var data := input[0].data;
          input := input[1..];
          start := TheLines();
          DispatchDriverInterrupt(Mouse, data);
          LockController();
        } else {
          break;
        }
      }
      UnlockController();
    }

    method WriteDataPort(byte: bv8)
      requires Valid()
      modifies this`io
      ensures Valid() && TheLines() == old(TheLines())
      ensures io == old(io) + [WroteData(byte)]
    {
      io := io + [WroteData(byte)];
    }

    method WriteCommandPort(byte: bv8)
      requires Valid()
      modifies this`io
      ensures Valid() && TheLines() == old(TheLines())
      ensures io == old(io) + [WroteCommand(byte)]
    {
      io := io + [WroteCommand(byte)];
    }

    // The switch of the interpreter: one command, with the two variables it keeps.
    method ExecuteCommand(command: Command, mode: Device, transmit: bool)
      returns (result: Command, deviceMode: Device, transmitToMouse: bool, failed: bool)
      requires Valid() && !locked
      modifies this`input, this`dropped, this`locked, this`io, keyboardQueue, keyboardQueue.data
      ensures Valid() && !locked
      ensures Stepped(result, State(TheMachine(), deviceMode, transmitToMouse), failed) ==
              Step(command, State(old(TheMachine()), mode, transmit))
    {
      hide Read, ReadExpected, Log;
      result, deviceMode, transmitToMouse, failed := command, mode, transmit, false;
      match command.op
      case ReadDataPort =>
        var byte := ReadDataPort(deviceMode);
        result := command.(inOrOut := byte);
      case ReadDataPortAndCompare =>
        var byte := ReadDataPortExpecting(deviceMode, command.inOrOut);
        failed := byte != command.inOrOut;
      case WriteDataPort =>
        WriteDataPort(command.inOrOut);
        if transmitToMouse {
          deviceMode := Mouse;
          transmitToMouse := false;
        } else {
          deviceMode := Keyboard;
        }
      case WriteCommandPort =>
        WriteCommandPort(command.inOrOut);
        if command.inOrOut == CP_TRANSMIT_TO_MOUSE {
          transmitToMouse := true;
        }
      case SendMouseCommandAndCompareAck =>
        WriteCommandPort(CP_TRANSMIT_TO_MOUSE);
        WriteDataPort(command.inOrOut);
        deviceMode := Mouse;
        var byte := ReadDataPortExpecting(Mouse, SC_ACKNOWLEDGE);
        failed := byte != SC_ACKNOWLEDGE;
    }

    // One command of a request, rewritten in place.
    method ExecuteAt(request: PS2Request, index: nat, mode: Device, transmit: bool)
      returns (deviceMode: Device, transmitToMouse: bool, failed: bool)
      requires Valid() && !locked && request.Valid() && index < request.commandsCount
      modifies this`input, this`dropped, this`locked, this`io, keyboardQueue, keyboardQueue.data, request.commands
      ensures Valid() && !locked && request.Valid()
      ensures var h := Step(old(request.commands[..])[index], State(old(TheMachine()), mode, transmit));
              && State(TheMachine(), deviceMode, transmitToMouse) == h.after && failed == h.failed
              && request.commands[..] == old(request.commands[..])[index := h.command]
    {
      hide Step;
      var result;
      result, deviceMode, transmitToMouse, failed := ExecuteCommand(request.commands[..][index], mode, transmit);
      ghost var m := TheMachine();
      request.SetCommand(index, result);
      assert request.commands as object != keyboardQueue.data;
      assert TheMachine() == m;
    }

    // The loop over the commands of a request.
    method ProcessCommands(request: PS2Request) returns (failed: bool, index: nat)
      requires Valid() && !locked && request.Valid()
      modifies this`input, this`dropped, this`locked, this`io, keyboardQueue, keyboardQueue.data, request.commands
      ensures Valid() && !locked
      ensures var count := request.commandsCount;
              var r := Exec(old(request.commands[..])[..count], State(old(TheMachine()), Keyboard, false));
              && TheMachine() == r.after.machine
              && request.commands[..] == r.commands + old(request.commands[..])[count..]
              && r.failedAt == if failed then Some(index) else None
    {
      hide Exec, Step, Later;
      var deviceMode, transmitToMouse := Keyboard, false;
      failed, index := false, 0;
      ghost var count, was := request.commandsCount, request.commands[..];
      ghost var goal := Exec(was[..count], State(TheMachine(), Keyboard, false));
      LaterEmpty(goal, was, count);
      while index < request.commandsCount
        invariant Valid() && !locked && request.Valid()
        invariant index <= count && !failed && request.commands[..][count..] == was[count..]
        invariant var now := request.commands[..];
                  goal == Later(now[..index], Exec(now[index..count], State(TheMachine(), deviceMode, transmitToMouse)))
      {
        ExecTurn(request.commands[..], index, count, State(TheMachine(), deviceMode, transmitToMouse));
        deviceMode, transmitToMouse, failed := ExecuteAt(request, index, deviceMode, transmitToMouse);
        if failed {
          break;
        }
        index := index + 1;
      }
      if !failed {
        ExecTurn(request.commands[..], index, count, State(TheMachine(), deviceMode, transmitToMouse));
      }
      FrontAndBack(request.commands[..], count);
    }

    // Going to sleep takes the hardware offline; leaving sleep wakes the port first. The
    // handlers that the driver also notifies are not part of this model.
    method SetPowerStateGated(state: PortPower)
      requires Valid() && !locked
      modifies this`input, this`dropped, this`locked, this`io, keyboardQueue, keyboardQueue.data
      modifies this`hardwareOffline, this`powerState
      ensures Valid() && !locked && powerState == state
      ensures old(hardwareOffline <==> powerState == Asleep) ==> (hardwareOffline <==> powerState == Asleep)
      ensures Port(TheMachine(), powerState) == ChangePower(old(Port(TheMachine(), powerState)), state)
    {
      hide Read, Awakened, Log;
      if powerState != state {
        if state == Asleep {
          hardwareOffline := true;
        } else if powerState == Asleep {
          WriteCommandPort(CP_GET_COMMAND_BYTE);
          var commandByte := ReadDataPort(Keyboard);
          WriteCommandPort(CP_SET_COMMAND_BYTE);
          WriteDataPort(Awakened(commandByte));
          hardwareOffline := false;
        }
        powerState := state;
      }
    }

    // Execute a request; its count is lowered to the index of the command that fails.
    method ProcessRequest(request: PS2Request)
      requires Valid() && !locked && request.Valid()
      modifies this`input, this`dropped, this`locked, this`io, keyboardQueue, keyboardQueue.data
      modifies request`commandsCount, request.commands
      ensures Valid() && !locked && request.Valid()
      ensures hardwareOffline ==>
                && TheMachine() == old(TheMachine())
                && request.commands[..] == old(request.commands[..])
                && request.commandsCount == 0
      ensures !hardwareOffline ==>
                var count := old(request.commandsCount);
                var r := Exec(old(request.commands[..])[..count], State(old(TheMachine()), Keyboard, false));
                && TheMachine() == r.after.machine
                && request.commands[..] == r.commands + old(request.commands[..])[count..]
                && request.commandsCount == if r.failedAt.Some? then r.failedAt.value else count
    {
      hide Exec;
      var failed, index;
      if hardwareOffline {
        failed, index := true, 0;
      } else {
        failed, index := ProcessCommands(request);
      }
      if failed {
        request.commandsCount := index;
      }
    }
  }

  // An outcome whose commands come after `done`.
  function Later(done: seq<Command>, r: Outcome): Outcome {
    Outcome(done + r.commands, r.after, Shift(|done|, r.failedAt))
  }

  // One turn of the command loop, the commands before the i-th being rewritten already.
  lemma ExecTurn(all: seq<Command>, i: nat, count: nat, s: State)
    requires i <= count <= |all|
    ensures i == count ==> Later(all[..i], Exec(all[i..count], s)) == Outcome(all[..count], s, None)
    ensures i < count ==>
              var h := Step(all[i], s);
              var next := all[i := h.command];
              && next[count..] == all[count..]
              && Later(all[..i], Exec(all[i..count], s)) ==
                 if h.failed then Outcome(next[..count], h.after, Some(i))
                 else Later(next[..i + 1], Exec(next[i + 1..count], h.after))
  {
    hide Step;
    var todo := all[i..count];
    if i == count {
      assert all[..i] + [] == all[..i];
    } else {
      var h := Step(all[i], s);
      var next := all[i := h.command];
      assert todo[1..] == next[i + 1..count];
      assert next[..i + 1] == all[..i] + [h.command];
      assert all[..i] + ([h.command] + todo[1..]) == next[..count];
      var t := Exec(next[i + 1..count], h.after);
      assert all[..i] + ([h.command] + t.commands) == next[..i + 1] + t.commands;
    }
  }

  lemma LaterEmpty(r: Outcome, was: seq<Command>, count: nat)
    requires count <= |was|
    ensures Later(was[..0], r) == r && was[0..count] == was[..count]
  {
    assert was[..0] + r.commands == r.commands;
  }

  lemma FrontAndBack(all: seq<Command>, count: nat)
    requires count <= |all|
    ensures all == all[..count] + all[count..]
  {
  }

  // How a read ends: with its byte, in a machine that has logged the dispatches.
  datatype Concluded = Concluded(data: bv8, machine: Machine)

  function Conclude(m: Machine, r: Reading): Concluded {
    Concluded(r.data, Settle(m, r))
  }

  lemma ConcludeMeans(m: Machine, r: Reading)
    ensures Conclude(m, r) == Concluded(r.data, Settle(m, r))
  {
  }

  // Logging the first dispatch at once or with the rest makes no difference.
  lemma LogFirst(io: seq<Io>, x: Tagged, rest: seq<Tagged>)
    ensures io + Log([x] + rest) == (io + [Dispatched(x.0, x.1)]) + Log(rest)
    ensures io + Log([]) == io
  {
    assert ([x] + rest)[1..] == rest;
  }

  lemma ReadTurn(dev: Device, m: Machine, budget: nat)
    ensures var c := Conclude(m, Read(dev, m.lines, budget));
            match Next(dev, m.lines, budget)
            case Silence(after) => c == Concluded(0, Machine(after, m.io))
            case Got(d, b, after, left) =>
              if d == dev then c == Concluded(b, Machine(after, m.io))
              else c == Conclude(Machine(after, m.io + [Dispatched(Other(dev), b)]), Read(dev, after, left))
  {
    hide Next, Log;
    match Next(dev, m.lines, budget)
    case Silence(after) => LogFirst(m.io, (dev, 0), []);
    case Got(d, b, after, left) => LogFirst(m.io, (Other(dev), b), Read(dev, after, left).dispatched);
  }

  datatype Verdict = Verdict(answer: Option<bv8>, held: Option<bv8>, dispatches: seq<Io>)

  function Judge(dev: Device, expected: bv8, d: Device, b: bv8, held: Option<bv8>): Verdict {
    if d != dev then Verdict(None, held, [Dispatched(Other(dev), b)])
    else if held.None? then
      if b == expected then Verdict(Some(b), None, []) else Verdict(None, Some(b), [])
    else if b == expected then Verdict(Some(b), held, [Dispatched(dev, held.value)])
    else Verdict(held, held, [Dispatched(dev, b)])
  }

  lemma ExpectedTurn(dev: Device, expected: bv8, m: Machine, budget: nat, held: Option<bv8>)
    ensures var c := Conclude(m, ReadExpected(dev, expected, m.lines, budget, held));
            match Next(dev, m.lines, budget)
            case Silence(after) => c == Concluded(if held.Some? then held.value else 0, Machine(after, m.io))
            case Got(d, b, after, left) =>
              var v := Judge(dev, expected, d, b, held);
              var settled := Machine(after, m.io + v.dispatches);
              if v.answer.Some? then c == Concluded(v.answer.value, settled)
              else c == Conclude(settled, ReadExpected(dev, expected, after, left, v.held))
  {
    hide Next, Log;
    match Next(dev, m.lines, budget)
    case Silence(after) => LogFirst(m.io, (dev, 0), []);
    case Got(d, b, after, left) =>
      LogFirst(m.io, (dev, b), []);
      if d != dev {
        LogFirst(m.io, (Other(dev), b), ReadExpected(dev, expected, after, left, held).dispatched);
      } else if held.Some? {
        LogOne(m.io, (dev, if b == expected then held.value else b));
      } else {
        assert m.io + [] == m.io;
      }
  }

  lemma LogOne(io: seq<Io>, x: Tagged)
    ensures io + Log([x]) == io + [Dispatched(x.0, x.1)]
  {
    assert [x] + [] == [x];
    LogFirst(io, x, []);
  }

  // The machine after the work loop has serviced an interrupt.
  function DrainInto(m: Machine): Machine {
    var r := Drain(m.lines);
    Machine(r.after, m.io + Log(r.dispatched))
  }

  lemma DrainTurn(m: Machine)
    ensures var a := Absorb(m.lines);
            DrainInto(m) ==
            if a.queue != [] then
              DrainInto(Machine(a.(queue := a.queue[1..]), m.io + [Dispatched(Keyboard, a.queue[0])]))
            else if MouseWaiting(a) then
              DrainInto(Machine(a.(input := a.input[1..]), m.io + [Dispatched(Mouse, a.input[0].data)]))
            else
              Machine(a, m.io)
  {
    hide Absorb, Log;
    var a := Absorb(m.lines);
    if a.queue != [] {
      LogFirst(m.io, (Keyboard, a.queue[0]), Drain(a.(queue := a.queue[1..])).dispatched);
    } else if MouseWaiting(a) {
      LogFirst(m.io, (Mouse, a.input[0].data), Drain(a.(input := a.input[1..])).dispatched);
    } else {
      LogFirst(m.io, (Mouse, 0), []);
    }
  }
}
