/**
 The controller's command byte and the test-and-set loop with which drivers update it:
 what its two requests do to the register, and what any interleaving of callers and of
 power-state changes leaves in it.
 */
module CommandByte {
  import opened Wrappers
  import opened Ps2Stream
  import opened Ps2Requests

  datatype Update = Update(setBits: bv8, clearBits: bv8)

  function Apply(u: Update, c: bv8): bv8 {
    (c | u.setBits) & !u.clearBits
  }

  function Part(mask: bv8, c: bv8): bv8 { mask & c }
  predicate Within(mask: bv8, bits: bv8) { mask & bits == mask }
  predicate Apart(mask: bv8, bits: bv8) { mask & bits == 0 }

  // What a caller of setCommandByte is promised, for any bits it looks at: those to be
  // cleared are clear, those to be set and not cleared are set, and the others are as before.
  ghost predicate Updated(u: Update, before: bv8, after: bv8) {
    forall mask: bv8 ::
      && (Within(mask, u.clearBits) ==> Part(mask, after) == 0)
      && (Within(mask, u.setBits) && Apart(mask, u.clearBits) ==> Part(mask, after) == mask)
      && (Apart(mask, u.setBits) && Apart(mask, u.clearBits) ==> Part(mask, after) == Part(mask, before))
  }

  lemma ClearedBits(mask: bv8, u: Update, c: bv8)
    requires Within(mask, u.clearBits)
    ensures Part(mask, Apply(u, c)) == 0
  {
  }

  lemma SetBitsShow(mask: bv8, u: Update, c: bv8)
    requires Within(mask, u.setBits) && Apart(mask, u.clearBits)
    ensures Part(mask, Apply(u, c)) == mask
  {
  }

  lemma OtherBitsStay(mask: bv8, u: Update, c: bv8)
    requires Apart(mask, u.setBits) && Apart(mask, u.clearBits)
    ensures Part(mask, Apply(u, c)) == Part(mask, c)
  {
  }

  lemma ApplyUpdates(u: Update, c: bv8)
    ensures Updated(u, c, Apply(u, c))
  {
    hide Part, Within, Apart, Apply;
    forall mask: bv8
      ensures Within(mask, u.clearBits) ==> Part(mask, Apply(u, c)) == 0
      ensures Within(mask, u.setBits) && Apart(mask, u.clearBits) ==> Part(mask, Apply(u, c)) == mask
      ensures Apart(mask, u.setBits) && Apart(mask, u.clearBits) ==> Part(mask, Apply(u, c)) == Part(mask, c)
    {
      if Within(mask, u.clearBits) { ClearedBits(mask, u, c); }
      if Apart(mask, u.clearBits) {
        if Within(mask, u.setBits) { SetBitsShow(mask, u, c); }
        if Apart(mask, u.setBits) { OtherBitsStay(mask, u, c); }
      }
    }
  }

  // That promise leaves no choice.
  lemma UpdatedIsUnique(u: Update, before: bv8, after: bv8)
    ensures Updated(u, before, after) <==> after == Apply(u, before)
  {
    ApplyUpdates(u, before);
    if Updated(u, before, after) {
      var clear, both := u.clearBits, u.setBits & !u.clearBits;
      var others := !(u.setBits | u.clearBits);
      MasksApply(u);
      hide Apply, Within, Apart, Part;
      assert Part(clear, after) == 0 && Part(both, after) == both && Part(others, after) == Part(others, before);
      ThreeParts(u, before, after);
    }
  }

  lemma MasksApply(u: Update)
    ensures Within(u.clearBits, u.clearBits)
    ensures Within(u.setBits & !u.clearBits, u.setBits) && Apart(u.setBits & !u.clearBits, u.clearBits)
    ensures Apart(!(u.setBits | u.clearBits), u.setBits) && Apart(!(u.setBits | u.clearBits), u.clearBits)
  {
  }

  lemma ThreeParts(u: Update, before: bv8, after: bv8)
    requires Part(u.clearBits, after) == 0 && Part(u.setBits & !u.clearBits, after) == u.setBits & !u.clearBits
    requires Part(!(u.setBits | u.clearBits), after) == Part(!(u.setBits | u.clearBits), before)
    ensures after == Apply(u, before)
  {
  }

  function ApplyAll(us: seq<Update>, c: bv8): bv8 {
    if us == [] then c else ApplyAll(us[1..], Apply(us[0], c))
  }

  lemma {:induction false} ApplyAllJoin(a: seq<Update>, b: seq<Update>, c: bv8)
    ensures ApplyAll(a + b, c) == ApplyAll(b, ApplyAll(a, c))
  {
    if a == [] {
      assert a + b == b;
    } else {
      assert (a + b)[1..] == a[1..] + b;
      ApplyAllJoin(a[1..], b, Apply(a[0], c));
    }
  }

  lemma ApplyAllSnoc(a: seq<Update>, u: Update, c: bv8)
    ensures ApplyAll(a + [u], c) == Apply(u, ApplyAll(a, c))
  {
    ApplyAllJoin(a, [u], c);
    assert [u][1..] == [];
  }

  // ---------------------------------------------------------------------------------
  // The two requests

  function ReadRequest(): seq<Command> {
    [Command(WriteCommandPort, CP_GET_COMMAND_BYTE), Command(ReadDataPort, 0)]
  }

  function TestAndSetRequest(seen: bv8, new_: bv8): seq<Command> {
    [Command(WriteCommandPort, CP_GET_COMMAND_BYTE),
     Command(ReadDataPortAndCompare, seen),
     Command(WriteCommandPort, CP_SET_COMMAND_BYTE),
     Command(WriteDataPort, new_)]
  }

  // The register after a sequence of port writes: a data byte that follows a
  // set-command-byte command is stored.
  function Register(io: seq<Io>, c: bv8, setting: bool): bv8 {
    if io == [] then
      c
    else
      match io[0]
      case WroteCommand(b) => Register(io[1..], c, b == CP_SET_COMMAND_BYTE)
      case WroteData(b) => Register(io[1..], if setting then b else c, false)
      case Dispatched(_, _) => Register(io[1..], c, setting)
  }

  predicate AllIdle(input: seq<Event>) {
    forall i :: 0 <= i < |input| ==> input[i].Idle?
  }

  // During the request the port delivers the command byte, in time, and nothing else.
  ghost predicate Answers(s: Lines, c: bv8) {
    s.queue == [] &&
    exists k, early ::
      && 0 <= k < |s.input| && k < TIMEOUT
      && AllIdle(s.input[..k]) && s.input[k] == Arrive(Keyboard, c, early) && AllIdle(s.input[k + 1..])
  }

  // A port can answer.
  lemma AnswersItself(c: bv8)
    ensures Answers(Lines([], [Arrive(Keyboard, c, false)], []), c)
  {
    var s := Lines([], [Arrive(Keyboard, c, false)], []);
    assert 0 <= 0 < |s.input| && AllIdle(s.input[..0]) && s.input[0] == Arrive(Keyboard, c, false) && AllIdle(s.input[1..]);
  }

  lemma {:induction false} WaitIdle(input: seq<Event>, budget: nat)
    requires AllIdle(input)
    ensures Wait(input, budget).TimedOut? && AllIdle(Wait(input, budget).rest)
  {
    if budget > 0 && input != [] {
      assert AllIdle(input[1..]);
      WaitIdle(input[1..], budget - 1);
    }
  }

  lemma {:induction false} WaitAnswer(input: seq<Event>, k: nat, budget: nat)
    requires k < |input| && k < budget && AllIdle(input[..k]) && input[k].Arrive?
    ensures Wait(input, budget) == Ready(input[k].dev, input[k].data, input[k + 1..], budget - k)
  {
    if k > 0 {
      assert input[..k][0].Idle?;
      var front, front' := input[..k], input[1..][..k - 1];
      forall i | 0 <= i < |front'|
        ensures front'[i].Idle?
      {
        assert front'[i] == front[i + 1];
      }
      WaitAnswer(input[1..], k - 1, budget - 1);
      assert input[1..][k..] == input[k + 1..];
    }
  }

  lemma NothingComes(s: Lines, budget: nat)
    requires s.queue == [] && AllIdle(s.input)
    ensures Takes(Keyboard, s, budget) == []
  {
    assert Absorb(s) == s;
    WaitIdle(s.input, budget);
  }

  // The answer is at the port already, and the interrupt handler queues it.
  lemma EarlyAnswer(s: Lines, c: bv8)
    requires s.queue == [] && s.input != [] && s.input[0] == Arrive(Keyboard, c, true) && AllIdle(s.input[1..])
    ensures Takes(Keyboard, s, TIMEOUT) == [(Keyboard, c)]
  {
    var after, rest := Lines([c], s.input[1..], s.dropped), Lines([], s.input[1..], s.dropped);
    assert Interrupt(s) == after && !InterruptPending(after) && Absorb(s) == after;
    assert Next(Keyboard, s, TIMEOUT) == Got(Keyboard, c, rest, TIMEOUT);
    NothingComes(rest, TIMEOUT);
    hide Next;
  }

  // The answer arrives while the reader waits for it.
  lemma LateAnswer(s: Lines, c: bv8, k: nat, early: bool)
    requires s.queue == [] && k < |s.input| && k < TIMEOUT && !(k == 0 && early)
    requires AllIdle(s.input[..k]) && s.input[k] == Arrive(Keyboard, c, early) && AllIdle(s.input[k + 1..])
    ensures Takes(Keyboard, s, TIMEOUT) == [(Keyboard, c)]
  {
    assert !InterruptPending(s) by {
      if k > 0 { assert s.input[..k][0].Idle?; }
    }
    var rest := Lines([], s.input[k + 1..], s.dropped);
    WaitAnswer(s.input, k, TIMEOUT);
    assert Next(Keyboard, s, TIMEOUT) == Got(Keyboard, c, rest, TIMEOUT - k);
    NothingComes(rest, TIMEOUT - k);
    hide Next;
  }

  lemma OnlyTheAnswer(s: Lines, c: bv8)
    requires Answers(s, c)
    ensures Takes(Keyboard, s, TIMEOUT) == [(Keyboard, c)]
    ensures Of(Keyboard, Takes(Keyboard, s, TIMEOUT)) == [c]
    ensures forall k :: NotOf(Keyboard, UpTo(Keyboard, Takes(Keyboard, s, TIMEOUT), k)) == []
  {
    var k, early :| 0 <= k < |s.input| && k < TIMEOUT
                    && AllIdle(s.input[..k]) && s.input[k] == Arrive(Keyboard, c, early) && AllIdle(s.input[k + 1..]);
    if k == 0 && early {
      EarlyAnswer(s, c);
    } else {
      LateAnswer(s, c, k, early);
    }
    hide Takes, AllIdle;
    var t := Takes(Keyboard, s, TIMEOUT);
    assert t == [(Keyboard, c)] && t[1..] == [];
    assert Of(Keyboard, t) == [c] + Of(Keyboard, []);
  }

  // The read request returns the command byte and writes nothing that could change it.
  lemma ReadRequestReturnsRegister(m: Machine, c: bv8)
    requires Answers(m.lines, c)
    ensures var r := Exec(ReadRequest(), State(m, Keyboard, false));
            && r.failedAt == None
            && r.commands[1].inOrOut == c
            && r.after.machine.io == m.io + [WroteCommand(CP_GET_COMMAND_BYTE)]
  {
    OnlyTheAnswer(m.lines, c);
    PlainReader(Keyboard, m.lines, TIMEOUT);
    hide Read, ReadExpected, Takes, UpTo, Answers;
    var cs, s := ReadRequest(), State(m, Keyboard, false);
    var s1 := Step(cs[0], s).after;
    assert cs[1..] == [cs[1]];
    ExecOne(cs[1], s1);
    assert Settle(s1.machine, Read(Keyboard, m.lines, TIMEOUT)).io == s1.machine.io + [];
  }

  // Comparing the command byte dispatches nothing.
  lemma CompareAnswer(m: Machine, c: bv8, seen: bv8)
    requires Answers(m.lines, c)
    ensures var h := Step(Command(ReadDataPortAndCompare, seen), State(m, Keyboard, false));
            && h.command == Command(ReadDataPortAndCompare, seen)
            && h.failed == (c != seen)
            && h.after.machine.io == m.io && h.after.mode == Keyboard && !h.after.transmit
  {
    OnlyTheAnswer(m.lines, c);
    SecondChanceReader(Keyboard, seen, m.lines, TIMEOUT);
    var r := ReadExpected(Keyboard, seen, m.lines, TIMEOUT, None);
    hide Takes, Answers, ReadExpected;
    assert r.dispatched == [];
    assert m.io + [] == m.io;
  }

  // The test-and-set request stores the new byte if the register still holds the byte that
  // was read, and otherwise stops at the comparison and writes nothing more.
  lemma TestAndSetIsAtomic(m: Machine, c: bv8, seen: bv8, new_: bv8)
    requires Answers(m.lines, c)
    ensures var r := Exec(TestAndSetRequest(seen, new_), State(m, Keyboard, false));
            && r.failedAt == (if c == seen then None else Some(1))
            && r.after.machine.io ==
               m.io + ([WroteCommand(CP_GET_COMMAND_BYTE)] +
                       if c == seen then [WroteCommand(CP_SET_COMMAND_BYTE), WroteData(new_)] else [])
  {
    var s0 := State(m, Keyboard, false);
    var cs := TestAndSetRequest(seen, new_);
    var s1 := State(Emit(m, WroteCommand(CP_GET_COMMAND_BYTE)), Keyboard, false);
    assert Step(cs[0], s0) == Stepped(cs[0], s1, false);
    CompareAnswer(s1.machine, c, seen);
    var h := Step(cs[1], s1);
    var s2 := State(Emit(h.after.machine, WroteCommand(CP_SET_COMMAND_BYTE)), Keyboard, false);
    assert Step(cs[2], h.after) == Stepped(cs[2], s2, false);
    var s3 := State(Emit(s2.machine, WroteData(new_)), Keyboard, false);
    assert Step(cs[3], s2) == Stepped(cs[3], s3, false);
    hide Step, Answers;
    assert cs[1..][0] == cs[1] && cs[2..][0] == cs[2] && cs[1..][1..] == cs[2..] && cs[2..][1..] == [cs[3]];
    ExecOne(cs[3], s2);
    assert Exec(cs[2..], h.after).after == s3 && Exec(cs[2..], h.after).failedAt == None;
    assert m.io + [WroteCommand(CP_GET_COMMAND_BYTE)] + [WroteCommand(CP_SET_COMMAND_BYTE)] + [WroteData(new_)] ==
           m.io + ([WroteCommand(CP_GET_COMMAND_BYTE)] + [WroteCommand(CP_SET_COMMAND_BYTE), WroteData(new_)]);
  }

  // Waking the port: enable both interrupts, enable both clocks.
  const WAKE := Update(0x03, 0x30)

  // Waking the port, while it answers with the command byte, is one update of it.
  lemma WakingIsOneUpdate(m: Machine, c: bv8)
    requires Answers(m.lines, c)
    ensures var writes := [WroteCommand(CP_GET_COMMAND_BYTE), WroteCommand(CP_SET_COMMAND_BYTE), WroteData(Apply(WAKE, c))];
            WakePort(m).io == m.io + writes && Register(writes, c, false) == Apply(WAKE, c)
  {
    OnlyTheAnswer(m.lines, c);
    PlainReader(Keyboard, m.lines, TIMEOUT);
    WakeIsUpdate(c);
    hide Read, Takes, UpTo, Answers, Apply, Awakened;
    var asked := Emit(m, WroteCommand(CP_GET_COMMAND_BYTE));
    assert Settle(asked, Read(Keyboard, m.lines, TIMEOUT)).io == asked.io;
    var writes := [WroteCommand(CP_GET_COMMAND_BYTE), WroteCommand(CP_SET_COMMAND_BYTE), WroteData(Apply(WAKE, c))];
    assert writes[1..] == [writes[1], writes[2]] && writes[1..][1..] == [writes[2]] && [writes[2]][1..] == [];
    assert Register([writes[2]], c, true) == Apply(WAKE, c);
    assert Register(writes[1..], c, false) == Register(writes[1..][1..], c, true);
    assert m.io + [writes[0]] + [writes[1]] + [writes[2]] == m.io + writes;
  }

  // ---------------------------------------------------------------------------------
  // A request served by the interpreter, the register taking the writes

  datatype Served = Served(commands: seq<Command>, count: nat, commandByte: bv8)

  function Serve(request: seq<Command>, lines: Lines, c: bv8, offline: bool): (r: Served)
    ensures |r.commands| == |request|
  {
    var x := Carry(Filled(request, |request|), Machine(lines, []), offline);
    Served(x.request.commands, x.request.count, Register(x.machine.io, c, false))
  }

  // The register after the port has been woken.
  function Woken(lines: Lines, c: bv8): bv8 {
    Register(WakePort(Machine(lines, [])).io, c, false)
  }

  lemma ServeOffline(request: seq<Command>, lines: Lines, c: bv8)
    ensures Serve(request, lines, c, true) == Served(request, 0, c)
  {
  }

  lemma ServeRead(lines: Lines, c: bv8)
    requires Answers(lines, c)
    ensures var r := Serve(ReadRequest(), lines, c, false);
            r.count == 2 && r.commands[1].inOrOut == c && r.commandByte == c
  {
    ReadRequestReturnsRegister(Machine(lines, []), c);
    WholeRequest(ReadRequest());
    WritesOfTestAndSet(c, 0);
    hide Exec, Answers, ReadRequest, Register;
    var x := Exec(ReadRequest(), State(Machine(lines, []), Keyboard, false));
    assert x.after.machine.io == [WroteCommand(CP_GET_COMMAND_BYTE)];
    assert x.commands + [] == x.commands;
  }

  lemma WholeRequest(request: seq<Command>)
    ensures request[..|request|] == request && request[|request|..] == []
    ensures forall cs: seq<Command> :: cs + [] == cs
    ensures |ReadRequest()| == 2 && forall seen, new_ :: |TestAndSetRequest(seen, new_)| == 4
  {
  }

  lemma ServeTestAndSet(lines: Lines, c: bv8, seen: bv8, new_: bv8)
    requires Answers(lines, c)
    ensures var r := Serve(TestAndSetRequest(seen, new_), lines, c, false);
            if c == seen then r.count == 4 && r.commandByte == new_ else r.count == 1 && r.commandByte == c
  {
    var request := TestAndSetRequest(seen, new_);
    TestAndSetIsAtomic(Machine(lines, []), c, seen, new_);
    WholeRequest(request);
    WritesOfTestAndSet(c, new_);
    hide Exec, Answers, TestAndSetRequest, Register;
    var io := Exec(request, State(Machine(lines, []), Keyboard, false)).after.machine.io;
    assert c == seen ==> io == [WroteCommand(CP_GET_COMMAND_BYTE), WroteCommand(CP_SET_COMMAND_BYTE), WroteData(new_)];
    assert c != seen ==> io == [WroteCommand(CP_GET_COMMAND_BYTE)];
  }

  lemma WritesOfTestAndSet(c: bv8, new_: bv8)
    ensures Register([WroteCommand(CP_GET_COMMAND_BYTE)], c, false) == c
    ensures Register([WroteCommand(CP_GET_COMMAND_BYTE), WroteCommand(CP_SET_COMMAND_BYTE), WroteData(new_)], c, false) == new_
  {
    var io := [WroteCommand(CP_GET_COMMAND_BYTE), WroteCommand(CP_SET_COMMAND_BYTE), WroteData(new_)];
    var io1 := io[1..];
    assert io1 == [WroteCommand(CP_SET_COMMAND_BYTE), WroteData(new_)] && io1[1..] == [WroteData(new_)] && io1[1..][1..] == [];
    assert Register(io1[1..], c, true) == new_;
    assert Register(io1, c, false) == new_;
  }

  lemma WakeServed(lines: Lines, c: bv8)
    requires Answers(lines, c)
    ensures Woken(lines, c) == Apply(WAKE, c)
  {
    WakingIsOneUpdate(Machine(lines, []), c);
    hide WakePort, Answers, Register;
    var writes := [WroteCommand(CP_GET_COMMAND_BYTE), WroteCommand(CP_SET_COMMAND_BYTE), WroteData(Apply(WAKE, c))];
    assert [] + writes == writes;
  }

  // ---------------------------------------------------------------------------------
  // Any number of callers, one request at a time

  // A caller between two requests of its loop; `at` is the number of updates committed
  // when it read the register, `valid` says that the hardware was online then.
  datatype Caller =
    | Resting
    | Reading(update: Update)
    | Testing(update: Update, seen: bv8, at: nat, valid: bool)

  datatype Author = Client(i: nat) | PowerManagement

  datatype Entry = Entry(author: Author, update: Update)

  datatype System = System(
    commandByte: bv8,
    offline: bool,
    callers: seq<Caller>,
    finished: seq<seq<Update>>, // for each caller, the calls that have returned
    log: seq<Entry>)            // every update of the register, in order

  // What happens; `lines` is the state of the port's input when the request is executed.
  datatype Action =
    | Call(i: nat, update: Update)
    | ReadStep(i: nat, lines: Lines)
    | TestStep(i: nat, lines: Lines)
    | Sleep
    | Wake(lines: Lines)

  function Updates(log: seq<Entry>): seq<Update> {
    if log == [] then [] else [log[0].update] + Updates(log[1..])
  }

  function By(i: nat, log: seq<Entry>): seq<Update> {
    if log == [] then [] else (if log[0].author == Client(i) then [log[0].update] else []) + By(i, log[1..])
  }

  // One step. A caller submits the two requests of the loop one by one, and the interpreter
  // serves them; a wake-up writes the register outside any request. During an exchange the
  // port answers with the register and delivers nothing else; a step that is not enabled
  // changes nothing.
  ghost function Do(s: System, e: Action): System
    requires |s.finished| == |s.callers|
  {
    match e
    case Call(i, u) =>
      if i < |s.callers| && s.callers[i].Resting? then s.(callers := s.callers[i := Caller.Reading(u)]) else s
    case ReadStep(i, lines) =>
      if i < |s.callers| && s.callers[i].Reading? && (s.offline || Answers(lines, s.commandByte)) then
        var u, r := s.callers[i].update, Serve(ReadRequest(), lines, s.commandByte, s.offline);
        s.(commandByte := r.commandByte,
           callers := s.callers[i := Testing(u, r.commands[1].inOrOut, |s.log|, !s.offline)])
      else s
    case TestStep(i, lines) =>
      if i < |s.callers| && s.callers[i].Testing? && (s.offline || Answers(lines, s.commandByte)) then
        var c := s.callers[i];
        var r := Serve(TestAndSetRequest(c.seen, Apply(c.update, c.seen)), lines, s.commandByte, s.offline);
        if r.count == 4 then
          System(r.commandByte, s.offline, s.callers[i := Resting],
                 s.finished[i := s.finished[i] + [c.update]], s.log + [Entry(Client(i), c.update)])
        else
          s.(commandByte := r.commandByte, callers := s.callers[i := Caller.Reading(c.update)])
      else s
    case Sleep => s.(offline := true)
    case Wake(lines) =>
      if s.offline && Answers(lines, s.commandByte) then
        s.(commandByte := Woken(lines, s.commandByte), offline := false, log := s.log + [Entry(PowerManagement, WAKE)])
      else s
  }

  // What the step of a caller or a wake-up amounts to: a read, a compare-and-set and an
  // update of the register.
  function Atomic(s: System, e: Action): System
    requires |s.finished| == |s.callers|
  {
    match e
    case ReadStep(i, _) =>
      if i < |s.callers| && s.callers[i].Reading? then
        var u := s.callers[i].update;
        s.(callers := s.callers[i := Testing(u, if s.offline then 0 else s.commandByte, |s.log|, !s.offline)])
      else s
    case TestStep(i, _) =>
      if i < |s.callers| && s.callers[i].Testing? then
        var c := s.callers[i];
        if !s.offline && s.commandByte == c.seen then
          System(Apply(c.update, c.seen), s.offline, s.callers[i := Resting],
                 s.finished[i := s.finished[i] + [c.update]], s.log + [Entry(Client(i), c.update)])
        else
          s.(callers := s.callers[i := Caller.Reading(c.update)])
      else s
    case Wake(_) =>
      if s.offline then
        s.(commandByte := Apply(WAKE, s.commandByte), offline := false, log := s.log + [Entry(PowerManagement, WAKE)])
      else s
    case Call(i, u) =>
      if i < |s.callers| && s.callers[i].Resting? then s.(callers := s.callers[i := Caller.Reading(u)]) else s
    case Sleep => s.(offline := true)
  }

  // REFINEMENT. Served by the interpreter, whatever the time at which the port answers, the
  // requests of the loop are a read and a compare-and-set of the register.
  lemma RequestsAreAtomic(s: System, e: Action)
    requires |s.finished| == |s.callers|
    ensures Do(s, e) == s || Do(s, e) == Atomic(s, e)
    ensures e.Call? || e.Sleep? ==> Do(s, e) == Atomic(s, e)
    ensures (e.ReadStep? || e.TestStep?) && (s.offline || Answers(e.lines, s.commandByte)) ==> Do(s, e) == Atomic(s, e)
  {
    hide Serve, Woken, Answers, Apply;
    match e
    case ReadStep(i, lines) =>
      if s.offline { OfflineRead(lines, s.commandByte); }
      else if Answers(lines, s.commandByte) { ServeRead(lines, s.commandByte); }
    case TestStep(i, lines) =>
      if i < |s.callers| && s.callers[i].Testing? {
        var c := s.callers[i];
        if s.offline { ServeOffline(TestAndSetRequest(c.seen, Apply(c.update, c.seen)), lines, s.commandByte); }
        else if Answers(lines, s.commandByte) { ServeTestAndSet(lines, s.commandByte, c.seen, Apply(c.update, c.seen)); }
      }
    case Wake(lines) =>
      if Answers(lines, s.commandByte) { WakeServed(lines, s.commandByte); }
    case _ =>
  }

  lemma OfflineRead(lines: Lines, c: bv8)
    ensures var r := Serve(ReadRequest(), lines, c, true);
            r.commands[1].inOrOut == 0 && r.commandByte == c
  {
    ServeOffline(ReadRequest(), lines, c);
  }

  ghost predicate Invariant(initial: bv8, s: System) {
    && |s.finished| == |s.callers|
    && s.commandByte == ApplyAll(Updates(s.log), initial)
    && (forall i :: 0 <= i < |s.callers| ==> s.finished[i] == By(i, s.log))
    && (forall i :: 0 <= i < |s.callers| && s.callers[i].Testing? ==>
          && s.callers[i].at <= |s.log|
          && (s.callers[i].valid ==> s.callers[i].seen == ApplyAll(Updates(s.log[..s.callers[i].at]), initial)))
  }

  ghost function RunFrom(s: System, es: seq<Action>): (r: System)
    requires |s.finished| == |s.callers|
    ensures |r.finished| == |r.callers| == |s.callers|
    decreases es
  {
    if es == [] then s else RunFrom(Do(s, es[0]), es[1..])
  }

  function Initially(initial: bv8, n: nat): System {
    System(initial, false, seq(n, _ => Resting), seq(n, _ => []), [])
  }

  lemma {:induction false} UpdatesSnoc(log: seq<Entry>, e: Entry)
    ensures Updates(log + [e]) == Updates(log) + [e.update]
    ensures forall i: nat :: By(i, log + [e]) == By(i, log) + if e.author == Client(i) then [e.update] else []
  {
    if log == [] {
      assert [e][1..] == [];
    } else {
      assert (log + [e])[1..] == log[1..] + [e];
      UpdatesSnoc(log[1..], e);
      forall i: nat
        ensures By(i, log + [e]) == By(i, log) + if e.author == Client(i) then [e.update] else []
      {
        var x, tail := if log[0].author == Client(i) then [log[0].update] else [],
                       if e.author == Client(i) then [e.update] else [];
        assert x + (By(i, log[1..]) + tail) == (x + By(i, log[1..])) + tail;
      }
    }
  }

  // Committing one more update keeps the invariant of everything but the committing caller.
  lemma Commits(initial: bv8, s: System, e: Entry, t: System)
    requires Invariant(initial, s)
    requires t.log == s.log + [e] && t.commandByte == Apply(e.update, s.commandByte)
    requires |t.callers| == |s.callers| == |t.finished|
    requires forall i :: 0 <= i < |s.callers| ==> t.callers[i] == s.callers[i] || t.callers[i].Resting?
    requires forall i :: 0 <= i < |s.callers| ==>
               t.finished[i] == s.finished[i] + if e.author == Client(i) then [e.update] else []
    ensures Invariant(initial, t)
  {
    UpdatesSnoc(s.log, e);
    ApplyAllSnoc(Updates(s.log), e.update, initial);
    forall i | 0 <= i < |t.callers| && t.callers[i].Testing?
      ensures t.log[..t.callers[i].at] == s.log[..t.callers[i].at]
    {
    }
  }

  lemma WakeIsUpdate(c: bv8)
    ensures Awakened(c) == Apply(WAKE, c)
  {
  }

  lemma AtomicKeepsInvariant(initial: bv8, s: System, e: Action)
    requires Invariant(initial, s)
    ensures Invariant(initial, Atomic(s, e))
  {
    match e
    case TestStep(i, _) =>
      if i < |s.callers| && s.callers[i].Testing? && !s.offline && s.commandByte == s.callers[i].seen {
        Commits(initial, s, Entry(Client(i), s.callers[i].update), Atomic(s, e));
      }
    case Wake(_) =>
      if s.offline {
        Commits(initial, s, Entry(PowerManagement, WAKE), Atomic(s, e));
      }
    case ReadStep(i, _) => assert s.log[..|s.log|] == s.log;
    case _ =>
  }

  lemma StepKeepsInvariant(initial: bv8, s: System, e: Action)
    requires Invariant(initial, s)
    ensures Invariant(initial, Do(s, e))
  {
    hide Do, Atomic;
    RequestsAreAtomic(s, e);
    AtomicKeepsInvariant(initial, s, e);
  }

  lemma {:induction false} RunKeepsInvariant(initial: bv8, s: System, es: seq<Action>)
    requires Invariant(initial, s)
    ensures Invariant(initial, RunFrom(s, es))
    decreases es
  {
    if es != [] {
      StepKeepsInvariant(initial, s, es[0]);
      RunKeepsInvariant(initial, Do(s, es[0]), es[1..]);
    }
  }

  // NO LOST UPDATE. Under every interleaving of any number of callers with sleeps and
  // wake-ups, the register is the initial byte with the logged updates applied one after
  // the other, and the log holds each finished call exactly once, in each caller's order.
  lemma NoLostUpdate(initial: bv8, n: nat, es: seq<Action>)
    ensures var s := RunFrom(Initially(initial, n), es);
            && s.commandByte == ApplyAll(Updates(s.log), initial)
            && (forall i :: 0 <= i < n ==> s.finished[i] == By(i, s.log))
            && (forall k :: 0 <= k < |s.log| ==>
                  Updated(s.log[k].update, ApplyAll(Updates(s.log[..k]), initial), ApplyAll(Updates(s.log[..k + 1]), initial)))
  {
    var s0 := Initially(initial, n);
    assert Invariant(initial, s0);
    RunKeepsInvariant(initial, s0, es);
    var log := RunFrom(s0, es).log;
    hide RunFrom, Updated;
    forall k | 0 <= k < |log|
      ensures Updated(log[k].update, ApplyAll(Updates(log[..k]), initial), ApplyAll(Updates(log[..k + 1]), initial))
    {
      assert log[..k + 1] == log[..k] + [log[k]];
      UpdatesSnoc(log[..k], log[k]);
      ApplyAllSnoc(Updates(log[..k]), log[k].update, initial);
      ApplyUpdates(log[k].update, ApplyAll(Updates(log[..k]), initial));
    }
  }

  // The call that a caller is in the middle of.
  function Underway(c: Caller): seq<Update> {
    match c case Resting => [] case Reading(u) => [u] case Testing(u, _, _, _) => [u]
  }

  // The calls that caller i makes in a run: those it asks for when it is not in one already.
  ghost function Made(s: System, es: seq<Action>, i: nat): seq<Update>
    requires |s.finished| == |s.callers|
    decreases es
  {
    if es == [] then []
    else
      (if es[0].Call? && es[0].i == i < |s.callers| && s.callers[i].Resting? then [es[0].update] else []) +
      Made(Do(s, es[0]), es[1..], i)
  }

  lemma StepKeepsCalls(s: System, e: Action, i: nat)
    requires |s.finished| == |s.callers| && i < |s.callers|
    ensures |Do(s, e).callers| == |s.callers|
    ensures Do(s, e).finished[i] + Underway(Do(s, e).callers[i]) ==
            s.finished[i] + Underway(s.callers[i]) + if e.Call? && e.i == i && s.callers[i].Resting? then [e.update] else []
  {
    hide Do;
    RequestsAreAtomic(s, e);
  }

  // CALLS AS MADE. In every run, the calls that a caller has made are those it has finished,
  // in that order and with the bits asked for, and the one it is in.
  lemma {:induction false} CallsFinishAsMade(s: System, es: seq<Action>, i: nat)
    requires |s.finished| == |s.callers| && i < |s.callers|
    ensures var t := RunFrom(s, es);
            t.finished[i] + Underway(t.callers[i]) == s.finished[i] + Underway(s.callers[i]) + Made(s, es, i)
    decreases es
  {
    var was := s.finished[i] + Underway(s.callers[i]);
    if es == [] {
      assert was + [] == was;
    } else {
      hide Do, Underway;
      StepKeepsCalls(s, es[0], i);
      CallsFinishAsMade(Do(s, es[0]), es[1..], i);
      Regroup(was, if es[0].Call? && es[0].i == i && s.callers[i].Resting? then [es[0].update] else [],
              Made(Do(s, es[0]), es[1..], i));
    }
  }

  lemma Regroup(x: seq<Update>, y: seq<Update>, z: seq<Update>)
    ensures x + (y + z) == (x + y) + z
  {
  }

  // A call whose second request is answered either finishes, and has then acted on the
  // register's current value, whatever was committed since its first one; or changes nothing.
  lemma CommitIsAtomic(s: System, i: nat, lines: Lines)
    requires |s.finished| == |s.callers| && i < |s.callers| && s.callers[i].Testing?
    requires s.offline || Answers(lines, s.commandByte)
    ensures var t := Do(s, TestStep(i, lines));
            && (t.callers[i].Resting? <==> !s.offline && s.commandByte == s.callers[i].seen)
            && (if t.callers[i].Resting? then
                  && t.commandByte == Apply(s.callers[i].update, s.commandByte)
                  && Updated(s.callers[i].update, s.commandByte, t.commandByte)
                  && t.finished[i] == s.finished[i] + [s.callers[i].update]
                else
                  t.commandByte == s.commandByte && t.log == s.log && t.finished == s.finished)
  {
    ApplyUpdates(s.callers[i].update, s.commandByte);
    hide Do, Answers, Updated;
    RequestsAreAtomic(s, TestStep(i, lines));
  }

  // PROGRESS. An attempt that fails with the hardware online, after a read with the
  // hardware online, was overtaken: some other update was committed in between.
  lemma FailureMeansOvertaken(initial: bv8, s: System, i: nat, lines: Lines)
    requires Invariant(initial, s) && i < |s.callers|
    requires s.callers[i].Testing? && s.callers[i].valid && !s.offline
    requires Do(s, TestStep(i, lines)).callers[i].Reading?
    ensures s.callers[i].at < |s.log|
  {
    hide Do;
    RequestsAreAtomic(s, TestStep(i, lines));
    assert s.log[..|s.log|] == s.log;
  }

  // While the hardware is offline the interpreter fails every request at once, so no
  // attempt ever finishes or reaches the register.
  lemma OfflineNeverFinishes(s: System, i: nat, lines: Lines)
    requires |s.finished| == |s.callers| && s.offline && i < |s.callers|
    ensures forall e: Action :: e == ReadStep(i, lines) || e == TestStep(i, lines) ==>
              var t := Do(s, e);
              t.log == s.log && t.finished == s.finished && t.commandByte == s.commandByte
    ensures s.callers[i].Testing? ==> Do(s, TestStep(i, lines)).callers[i] == Caller.Reading(s.callers[i].update)
  {
    hide Do, Answers;
    RequestsAreAtomic(s, ReadStep(i, lines));
    RequestsAreAtomic(s, TestStep(i, lines));
  }

  // Bits that an update sets or clears show it, until a later update changes them.
  predicate Leaves(u: Update, mask: bv8) { Apart(mask, u.setBits) && Apart(mask, u.clearBits) }
  predicate KeepsSet(u: Update, mask: bv8) { Apart(mask, u.clearBits) }
  predicate KeepsClear(u: Update, mask: bv8) { mask & u.setBits & !u.clearBits == 0 }

  // Bits set by an update stay set as long as no later update clears them.
  lemma BitsPersist(us: seq<Update>, u: Update, later: seq<Update>, mask: bv8, c: bv8)
    requires Within(mask, u.setBits) && Apart(mask, u.clearBits)
    requires forall v :: v in later ==> KeepsSet(v, mask)
    ensures Part(mask, ApplyAll(us + [u] + later, c)) == mask
  {
    ApplyAllJoin(us + [u], later, c);
    ApplyAllSnoc(us, u, c);
    hide Apply, Part, KeepsSet;
    SetBitsShow(mask, u, ApplyAll(us, c));
    StaysSet(later, mask, ApplyAll(us + [u], c));
  }

  // Bits cleared by an update stay clear as long as no later update sets them.
  lemma ClearedBitsPersist(us: seq<Update>, u: Update, later: seq<Update>, mask: bv8, c: bv8)
    requires Within(mask, u.clearBits)
    requires forall v :: v in later ==> KeepsClear(v, mask)
    ensures Part(mask, ApplyAll(us + [u] + later, c)) == 0
  {
    ApplyAllJoin(us + [u], later, c);
    ApplyAllSnoc(us, u, c);
    hide Apply, Part, KeepsClear;
    ClearedBits(mask, u, ApplyAll(us, c));
    StaysClear(later, mask, ApplyAll(us + [u], c));
  }

  lemma {:induction false} StaysSet(us: seq<Update>, mask: bv8, c: bv8)
    requires Part(mask, c) == mask
    requires forall v :: v in us ==> KeepsSet(v, mask)
    ensures Part(mask, ApplyAll(us, c)) == mask
  {
    if us != [] {
      assert us[0] in us;
      KeepsSetBits(us[0], mask, c);
      hide Part, Apply, KeepsSet;
      StaysSet(us[1..], mask, Apply(us[0], c));
    }
  }

  lemma {:induction false} StaysClear(us: seq<Update>, mask: bv8, c: bv8)
    requires Part(mask, c) == 0
    requires forall v :: v in us ==> KeepsClear(v, mask)
    ensures Part(mask, ApplyAll(us, c)) == 0
  {
    if us != [] {
      assert us[0] in us;
      KeepsClearBits(us[0], mask, c);
      hide Part, Apply, KeepsClear;
      StaysClear(us[1..], mask, Apply(us[0], c));
    }
  }

  lemma {:induction false} StaysTheSame(us: seq<Update>, mask: bv8, c: bv8)
    requires forall v :: v in us ==> Leaves(v, mask)
    ensures Part(mask, ApplyAll(us, c)) == Part(mask, c)
  {
    if us != [] {
      assert us[0] in us;
      OtherBitsStay(mask, us[0], c);
      hide Part, Apply, Leaves;
      StaysTheSame(us[1..], mask, Apply(us[0], c));
    }
  }

  lemma KeepsSetBits(u: Update, mask: bv8, c: bv8)
    requires Part(mask, c) == mask && KeepsSet(u, mask)
    ensures Part(mask, Apply(u, c)) == mask
  {
  }

  lemma KeepsClearBits(u: Update, mask: bv8, c: bv8)
    requires Part(mask, c) == 0 && KeepsClear(u, mask)
    ensures Part(mask, Apply(u, c)) == 0
  {
  }

  // THE LAST WORD. In any run, the bits that a logged update sets or clears, and that no
  // later one touches, show it in the register at the end; bits that no update touches are
  // as at the start.
  lemma LastUpdateShows(initial: bv8, n: nat, es: seq<Action>, k: nat, mask: bv8)
    ensures var s := RunFrom(Initially(initial, n), es);
            var us := Updates(s.log);
            && (k < |us| && (forall v :: v in us[k + 1..] ==> Leaves(v, mask)) ==>
                  && (Within(mask, us[k].clearBits) ==> Part(mask, s.commandByte) == 0)
                  && (Within(mask, us[k].setBits) && Apart(mask, us[k].clearBits) ==> Part(mask, s.commandByte) == mask))
            && ((forall v :: v in us ==> Leaves(v, mask)) ==> Part(mask, s.commandByte) == Part(mask, initial))
  {
    hide RunFrom, Apply, Part, Within, Apart, Leaves, Updates;
    NoLostUpdate(initial, n, es);
    var s := RunFrom(Initially(initial, n), es);
    var us := Updates(s.log);
    if k < |us| && forall v :: v in us[k + 1..] ==> Leaves(v, mask) {
      var before := ApplyAll(us[..k], initial);
      assert us == us[..k] + [us[k]] + us[k + 1..];
      ApplyAllJoin(us[..k] + [us[k]], us[k + 1..], initial);
      ApplyAllSnoc(us[..k], us[k], initial);
      StaysTheSame(us[k + 1..], mask, Apply(us[k], before));
      ApplyUpdates(us[k], before);
    }
    if forall v :: v in us ==> Leaves(v, mask) {
      StaysTheSame(us, mask, initial);
    }
  }

  // ---------------------------------------------------------------------------------
  // The loop itself

  class CommandBytePort {
    var commandByte: bv8

    constructor (c: bv8)
      ensures commandByte == c
    {
      commandByte := c;
    }

    // Submit a request and wait for it: the interpreter runs it, and the writes it makes act
    // on the register.
    method SubmitRequestAndBlock(request: seq<Command>, lines: Lines) returns (result: seq<Command>, count: nat)
      modifies this
      ensures Served(result, count, commandByte) == Serve(request, lines, old(commandByte), false)
    {
      var r := Serve(request, lines, commandByte, false);
      result, count, commandByte := r.commands, r.count, r.commandByte;
    }

    // What others commit before the next request.
    method Overtake(interference: seq<seq<Update>>, ghost start: bv8, k: nat, overtakers: seq<Update>)
      returns (next: nat, all: seq<Update>)
      requires k <= |interference| && overtakers == Concat(interference[..k])
      requires commandByte == ApplyAll(overtakers, start)
      modifies this
      ensures next == (if k < |interference| then k + 1 else k)
      ensures all == Concat(interference[..next]) && commandByte == ApplyAll(all, start)
      ensures next == k ==> commandByte == old(commandByte)
    {
      next, all := k, overtakers;
      if k < |interference| {
        ConcatSnoc(interference, k);
        ApplyAllJoin(overtakers, interference[k], start);
        commandByte := ApplyAll(interference[k], commandByte);
        next, all := k + 1, overtakers + interference[k];
      }
    }

    // The test-and-set loop. The port answers with the register, at whatever time; what
    // others commit before the loop's k-th request is interference[k], and past the end
    // nobody interferes.
    method SetCommandByte(u: Update, interference: seq<seq<Update>>, answer: bv8 -> Lines)
      returns (k: nat, overtakers: seq<Update>)
      requires forall c :: Answers(answer(c), c)
      modifies this
      ensures k <= |interference| && overtakers == Concat(interference[..k])
      ensures commandByte == Apply(u, ApplyAll(overtakers, old(commandByte)))
      ensures Updated(u, ApplyAll(overtakers, old(commandByte)), commandByte)
    {
      hide ApplyAll, Concat, Serve, Answers, Updated;
      NothingYet(commandByte, interference);
      k, overtakers := 0, [];
      var count: nat := 0;
      ghost var start := commandByte;
      while count != 4
        invariant k <= |interference| && count <= 4
        invariant overtakers == Concat(interference[..k])
        invariant count != 4 ==> commandByte == ApplyAll(overtakers, start)
        invariant count == 4 ==> commandByte == Apply(u, ApplyAll(overtakers, start))
        decreases |interference| - k, 4 - count
      {
        k, overtakers := Overtake(interference, start, k, overtakers);
        ServeRead(answer(commandByte), commandByte);
        var request, _ := SubmitRequestAndBlock(ReadRequest(), answer(commandByte));
        var seen := request[1].inOrOut;
        var commandByteNew := (seen | u.setBits) & !u.clearBits;
        assert commandByteNew == Apply(u, seen);
        hide Apply;
        k, overtakers := Overtake(interference, start, k, overtakers);
        ServeTestAndSet(answer(commandByte), commandByte, seen, commandByteNew);
        request, count := SubmitRequestAndBlock(TestAndSetRequest(seen, commandByteNew), answer(commandByte));
      }
      ApplyUpdates(u, ApplyAll(overtakers, start));
    }
  }

  lemma NothingYet(c: bv8, interference: seq<seq<Update>>)
    ensures ApplyAll([], c) == c && Concat(interference[..0]) == []
  {
  }

  function Concat(uss: seq<seq<Update>>): seq<Update> {
    if uss == [] then [] else uss[0] + Concat(uss[1..])
  }

  lemma {:induction false} ConcatJoin(a: seq<seq<Update>>, us: seq<Update>)
    ensures Concat(a + [us]) == Concat(a) + us
  {
    if a == [] {
      assert [us][1..] == [];
      assert us + [] == us;
    } else {
      assert (a + [us])[1..] == a[1..] + [us];
      ConcatJoin(a[1..], us);
    }
  }

  lemma ConcatSnoc(uss: seq<seq<Update>>, k: nat)
    requires k < |uss|
    ensures Concat(uss[..k + 1]) == Concat(uss[..k]) + uss[k]
  {
    assert uss[..k + 1] == uss[..k] + [uss[k]];
    ConcatJoin(uss[..k], uss[k]);
  }
}
