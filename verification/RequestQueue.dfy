/**
 The queue of submitted requests: the work loop takes it over as a whole and executes it
 from the front, while new submissions gather for its next pass.
 */
module RequestQueue {
  import opened Wrappers
  import opened Ps2Stream
  import opened Ps2Requests
  import opened Ps2Controller

  datatype CarriedAll = CarriedAll(requests: seq<Filled>, machine: Machine)

  ghost predicate Proper(rs: seq<Filled>) {
    forall i :: 0 <= i < |rs| ==> rs[i].count <= |rs[i].commands|
  }

  // One request after the other.
  function CarryAll(rs: seq<Filled>, m: Machine, offline: bool): (c: CarriedAll)
    requires Proper(rs)
    ensures |c.requests| == |rs|
  {
    if rs == [] then CarriedAll([], m)
    else
      var first := Carry(rs[0], m, offline);
      var rest := CarryAll(rs[1..], first.machine, offline);
      CarriedAll([first.request] + rest.requests, rest.machine)
  }

  lemma {:induction false} CarryAllJoin(a: seq<Filled>, b: seq<Filled>, m: Machine, offline: bool)
    requires Proper(a) && Proper(b)
    ensures Proper(a + b)
    ensures var ca := CarryAll(a, m, offline);
            var cb := CarryAll(b, ca.machine, offline);
            CarryAll(a + b, m, offline) == CarriedAll(ca.requests + cb.requests, cb.machine)
    decreases a
  {
    hide Carry;
    if a == [] {
      assert a + b == b;
      assert [] + CarryAll(b, m, offline).requests == CarryAll(b, m, offline).requests;
    } else {
      var first := Carry(a[0], m, offline);
      assert (a + b)[1..] == a[1..] + b;
      CarryAllJoin(a[1..], b, first.machine, offline);
      var ra := CarryAll(a[1..], first.machine, offline);
      var rb := CarryAll(b, ra.machine, offline);
      assert [first.request] + (ra.requests + rb.requests) == ([first.request] + ra.requests) + rb.requests;
    }
  }

  // ---------------------------------------------------------------------------------
  // Runs of submissions, passes and power changes

  // A request whose count is within its commands.
  type Request = r: Filled | r.count <= |r.commands| witness Filled([], 0)

  // What the work loop does, one thing at a time.
  datatype Deed = Execute(request: Request) | Power(to: PortPower)

  datatype Performed = Performed(answers: seq<Filled>, port: Port)

  function Perform(ds: seq<Deed>, p: Port): Performed {
    if ds == [] then Performed([], p)
    else
      match ds[0]
      case Execute(r) =>
        var c := Carry(r, p.machine, p.power == Asleep);
        var rest := Perform(ds[1..], p.(machine := c.machine));
        rest.(answers := [c.request] + rest.answers)
      case Power(to) => Perform(ds[1..], ChangePower(p, to))
  }

  function Requests(ds: seq<Deed>): seq<Request> {
    if ds == [] then [] else (if ds[0].Execute? then [ds[0].request] else []) + Requests(ds[1..])
  }

  function Powers(ds: seq<Deed>): seq<PortPower> {
    if ds == [] then [] else (if ds[0].Power? then [ds[0].to] else []) + Powers(ds[1..])
  }

  function Executes(rs: seq<Request>): seq<Deed> {
    if rs == [] then [] else [Execute(rs[0])] + Executes(rs[1..])
  }

  lemma {:induction false} DeedsJoin(a: seq<Deed>, b: seq<Deed>, p: Port)
    ensures Requests(a + b) == Requests(a) + Requests(b)
    ensures Powers(a + b) == Powers(a) + Powers(b)
    ensures var pa := Perform(a, p);
            var pb := Perform(b, pa.port);
            Perform(a + b, p) == Performed(pa.answers + pb.answers, pb.port)
    decreases a
  {
    hide Carry, ChangePower;
    if a == [] {
      assert a + b == b;
      assert [] + Perform(b, p).answers == Perform(b, p).answers;
    } else {
      assert (a + b)[1..] == a[1..] + b;
      match a[0]
      case Execute(r) =>
        var c := Carry(r, p.machine, p.power == Asleep);
        var next := p.(machine := c.machine);
        DeedsJoin(a[1..], b, next);
        var pa := Perform(a[1..], next);
        Regroup([c.request], pa.answers, Perform(b, pa.port).answers);
        Regroup([r], Requests(a[1..]), Requests(b));
        assert [] + (Powers(a[1..]) + Powers(b)) == ([] + Powers(a[1..])) + Powers(b);
      case Power(to) =>
        DeedsJoin(a[1..], b, ChangePower(p, to));
        Regroup([to], Powers(a[1..]), Powers(b));
        assert [] + (Requests(a[1..]) + Requests(b)) == ([] + Requests(a[1..])) + Requests(b);
    }
  }

  lemma Regroup<T>(x: seq<T>, y: seq<T>, z: seq<T>)
    ensures x + (y + z) == (x + y) + z
  {
  }

  // A pass is the execution of what it takes over, request by request.
  lemma {:induction false} PassIsOneByOne(rs: seq<Request>, p: Port)
    ensures Proper(rs) && Requests(Executes(rs)) == rs && Powers(Executes(rs)) == []
    ensures var c := CarryAll(rs, p.machine, p.power == Asleep);
            Perform(Executes(rs), p) == Performed(c.requests, p.(machine := c.machine))
    decreases rs
  {
    hide Carry;
    if rs != [] {
      PassIsOneByOne(rs[1..], p.(machine := Carry(rs[0], p.machine, p.power == Asleep).machine));
      assert Executes(rs)[1..] == Executes(rs[1..]);
      assert rs == [rs[0]] + rs[1..];
    }
  }

  lemma OneDeed(d: Deed, p: Port)
    ensures d.Power? ==> Perform([d], p) == Performed([], ChangePower(p, d.to)) && Requests([d]) == [] && Powers([d]) == [d.to]
  {
    assert [d][1..] == [];
  }

  // Changes of power among the working states do nothing; after sleep, the first change to
  // one of them wakes the port, once.
  lemma {:induction false} OnlyLeavingSleepWakes(p: Port, tos: seq<PortPower>)
    requires forall k :: 0 <= k < |tos| ==> tos[k] != Asleep
    ensures Perform(PowerDeeds(tos), p).answers == []
    ensures Perform(PowerDeeds(tos), p).port.machine == if p.power == Asleep && tos != [] then WakePort(p.machine) else p.machine
    ensures Perform(PowerDeeds([Asleep] + tos), p).port.machine == if tos != [] then WakePort(p.machine) else p.machine
    decreases tos
  {
    hide WakePort, Read;
    assert ([Asleep] + tos)[1..] == tos;
    PowerDeedsFirst(Asleep, tos);
    StaysAwake(ChangePower(p, Asleep), tos);
    StaysAwake(p, tos);
  }

  function PowerDeeds(tos: seq<PortPower>): seq<Deed> {
    if tos == [] then [] else [Power(tos[0])] + PowerDeeds(tos[1..])
  }

  lemma PowerDeedsFirst(to: PortPower, tos: seq<PortPower>)
    ensures PowerDeeds([to] + tos)[0] == Power(to) && PowerDeeds([to] + tos)[1..] == PowerDeeds(tos)
  {
    assert ([to] + tos)[1..] == tos;
  }

  lemma {:induction false} StaysAwake(p: Port, tos: seq<PortPower>)
    requires forall k :: 0 <= k < |tos| ==> tos[k] != Asleep
    ensures Perform(PowerDeeds(tos), p).answers == []
    ensures Perform(PowerDeeds(tos), p).port.machine == if p.power == Asleep && tos != [] then WakePort(p.machine) else p.machine
    decreases tos
  {
    hide WakePort;
    if tos != [] {
      StaysAwake(ChangePower(p, tos[0]), tos[1..]);
      assert PowerDeeds(tos)[1..] == PowerDeeds(tos[1..]);
    }
  }

  datatype Event = Submit(request: Request) | Pass | SetPower(to: PortPower)

  // The queue and the port, with the history of what the work loop has done.
  datatype Queue = Queue(waiting: seq<Request>, answered: seq<Filled>, port: Port, deeds: seq<Deed>)

  function Do(q: Queue, e: Event): Queue {
    match e
    case Submit(r) => q.(waiting := q.waiting + [r])
    case Pass =>
      PassIsOneByOne(q.waiting, q.port);
      var c := CarryAll(q.waiting, q.port.machine, q.port.power == Asleep);
      Queue([], q.answered + c.requests, q.port.(machine := c.machine), q.deeds + Executes(q.waiting))
    case SetPower(to) => q.(port := ChangePower(q.port, to), deeds := q.deeds + [Power(to)])
  }

  function Run(q: Queue, es: seq<Event>): Queue
    decreases es
  {
    if es == [] then q else Run(Do(q, es[0]), es[1..])
  }

  function Submitted(es: seq<Event>): seq<Request> {
    if es == [] then [] else (if es[0].Submit? then [es[0].request] else []) + Submitted(es[1..])
  }

  function PowersSet(es: seq<Event>): seq<PortPower> {
    if es == [] then [] else (if es[0].SetPower? then [es[0].to] else []) + PowersSet(es[1..])
  }

  // All requests submitted are those executed, in that order, and those waiting; all power
  // changes are among the deeds in their order; and the answers and the port are those of
  // doing the deeds one by one.
  ghost predicate InOrder(start: Port, all: seq<Request>, powers: seq<PortPower>, q: Queue) {
    && Requests(q.deeds) + q.waiting == all
    && Powers(q.deeds) == powers
    && Perform(q.deeds, start) == Performed(q.answered, q.port)
  }

  lemma StepKeepsOrder(start: Port, all: seq<Request>, powers: seq<PortPower>, q: Queue, e: Event)
    requires InOrder(start, all, powers, q)
    ensures InOrder(start, all + (if e.Submit? then [e.request] else []),
                    powers + (if e.SetPower? then [e.to] else []), Do(q, e))
  {
    hide Perform, Requests, Powers, Executes, CarryAll, ChangePower;
    match e
    case Submit(r) =>
      Regroup(Requests(q.deeds), q.waiting, [r]);
      assert powers + [] == powers;
    case Pass =>
      PassIsOneByOne(q.waiting, q.port);
      DeedsJoin(q.deeds, Executes(q.waiting), start);
      assert all + [] == all && powers + [] == powers;
    case SetPower(to) =>
      OneDeed(Power(to), q.port);
      DeedsJoin(q.deeds, [Power(to)], start);
      assert all + [] == all && Requests(q.deeds) + [] == Requests(q.deeds) && q.answered + [] == q.answered;
  }

  // SUBMISSION ORDER. However submissions, passes of the work loop and power changes
  // interleave, requests are carried out one at a time in the order in which they were
  // submitted, each once; power changes keep their order; the answers are those of doing
  // all this one by one; and what is waiting is the rest of what was submitted.
  lemma {:induction false} RequestsInSubmissionOrder(start: Port, all: seq<Request>, powers: seq<PortPower>, q: Queue,
                                                     es: seq<Event>)
    requires InOrder(start, all, powers, q)
    ensures InOrder(start, all + Submitted(es), powers + PowersSet(es), Run(q, es))
    decreases es
  {
    hide InOrder, Do;
    if es == [] {
      assert all + [] == all && powers + [] == powers;
    } else {
      var r, to := if es[0].Submit? then [es[0].request] else [], if es[0].SetPower? then [es[0].to] else [];
      StepKeepsOrder(start, all, powers, q, es[0]);
      RequestsInSubmissionOrder(start, all + r, powers + to, Do(q, es[0]), es[1..]);
      Regroup(all, r, Submitted(es[1..]));
      Regroup(powers, to, PowersSet(es[1..]));
    }
  }

  // At the start nothing is submitted.
  lemma StartsInOrder(start: Port)
    ensures InOrder(start, [], [], Queue([], [], start, []))
  {
  }

  // ---------------------------------------------------------------------------------
  // The queue object

  ghost function Value(r: PS2Request): Filled
    reads r, r.commands
  {
    Filled(r.commands[..], r.commandsCount)
  }

  // The requests have these values.
  ghost predicate Show(rs: seq<PS2Request>, vs: seq<Filled>)
    reads rs, set r | r in rs :: r.commands
  {
    |vs| == |rs| && forall i :: 0 <= i < |rs| ==> Value(rs[i]) == vs[i]
  }

  // Distinct, well-formed requests.
  ghost predicate Separate(rs: seq<PS2Request>)
    reads rs
  {
    && (forall i :: 0 <= i < |rs| ==> rs[i].Valid())
    && (forall i, j :: 0 <= i < j < |rs| ==> rs[i] != rs[j] && rs[i].commands != rs[j].commands)
  }

  function Behind(done: seq<Filled>, c: CarriedAll): CarriedAll {
    CarriedAll(done + c.requests, c.machine)
  }

  // Carrying out the i-th request, those before it being answered already.
  lemma CarryTurn(all: seq<Filled>, i: nat, m: Machine, offline: bool)
    requires i < |all| && Proper(all[i..])
    ensures all[i].count <= |all[i].commands|
    ensures var first := Carry(all[i], m, offline);
            var next := all[i := first.request];
            && Proper(next[i + 1..]) && next[i + 1..] == all[i + 1..]
            && Behind(all[..i], CarryAll(all[i..], m, offline)) ==
               Behind(next[..i + 1], CarryAll(next[i + 1..], first.machine, offline))
  {
    assert all[i..][0] == all[i];
    hide Carry;
    var first := Carry(all[i], m, offline);
    var next := all[i := first.request];
    assert all[i..][1..] == next[i + 1..];
    assert next[..i + 1] == all[..i] + [first.request];
    var rest := CarryAll(next[i + 1..], first.machine, offline);
    assert all[..i] + ([first.request] + rest.requests) == next[..i + 1] + rest.requests;
  }

  lemma CarryEnds(all: seq<Filled>, m: Machine, offline: bool)
    ensures Proper(all[|all|..])
    ensures Behind(all[..|all|], CarryAll(all[|all|..], m, offline)) == CarriedAll(all, m)
    ensures Proper(all) ==> Behind(all[..0], CarryAll(all[0..], m, offline)) == CarryAll(all, m, offline)
  {
    assert all[..|all|] + [] == all;
    if Proper(all) {
      assert all[0..] == all;
      var c := CarryAll(all, m, offline);
      assert all[..0] + c.requests == c.requests;
    }
  }

  class PS2RequestQueue {
    const controller: Ps2Controller
    var requestQueue: seq<PS2Request>

    constructor (controller: Ps2Controller)
      ensures this.controller == controller && requestQueue == []
    {
      this.controller, requestQueue := controller, [];
    }

    method SubmitRequest(request: PS2Request)
      modifies this
      ensures requestQueue == old(requestQueue) + [request]
    {
      requestQueue := requestQueue + [request];
    }

    // Execute the i-th of some requests; the others keep their values.
    method ProcessOne(request: PS2Request, ghost all: seq<PS2Request>, ghost i: nat, ghost vs: seq<Filled>)
      requires controller.Valid() && !controller.locked && Separate(all) && Show(all, vs)
      requires i < |all| && all[i] == request && vs[i].count <= |vs[i].commands|
      modifies controller`input, controller`dropped, controller`locked, controller`io
      modifies controller.keyboardQueue, controller.keyboardQueue.data
      modifies request`commandsCount, request.commands
      ensures controller.Valid() && !controller.locked && Separate(all)
      ensures var c := Carry(vs[i], old(controller.TheMachine()), controller.hardwareOffline);
              Show(all, vs[i := c.request]) && controller.TheMachine() == c.machine
    {
      hide Exec;
      assert Value(all[i]) == vs[i];
      controller.ProcessRequest(request);
    }

    method ProcessRequestQueue(ghost was: seq<Filled>)
      requires controller.Valid() && !controller.locked
      requires Separate(requestQueue) && Show(requestQueue, was)
      modifies this, controller`input, controller`dropped, controller`locked, controller`io
      modifies controller.keyboardQueue, controller.keyboardQueue.data
      modifies requestQueue, set r | r in requestQueue :: r.commands
      ensures controller.Valid() && !controller.locked
      ensures requestQueue == [] && Proper(was)
      ensures var c := CarryAll(was, old(controller.TheMachine()), controller.hardwareOffline);
              Show(old(requestQueue), c.requests) && controller.TheMachine() == c.machine
    {
      hide Carry, CarryAll, Value, Behind, Show, Separate, Proper;
      ShownIsProper(requestQueue, was);
      var localQueue := requestQueue;
      requestQueue := [];
      ghost var values, offline := was, controller.hardwareOffline;
      ghost var goal := CarryAll(was, controller.TheMachine(), offline);
      CarryEnds(was, controller.TheMachine(), offline);
      var i := 0;
      while i < |localQueue|
        invariant i <= |localQueue| == |values| && requestQueue == []
        invariant controller.Valid() && !controller.locked && Separate(localQueue)
        invariant Show(localQueue, values) && Proper(values[i..])
        invariant goal == Behind(values[..i], CarryAll(values[i..], controller.TheMachine(), offline))
      {
        CarryTurn(values, i, controller.TheMachine(), offline);
        ghost var first := Carry(values[i], controller.TheMachine(), offline);
        ProcessOne(localQueue[i], localQueue, i, values);
        values := values[i := first.request];
        i := i + 1;
      }
      CarryEnds(values, controller.TheMachine(), offline);
      BehindNothing(values, controller.TheMachine(), goal);
    }
  }

  lemma ShownIsProper(rs: seq<PS2Request>, vs: seq<Filled>)
    requires Separate(rs) && Show(rs, vs)
    ensures |vs| == |rs| && Proper(vs) && Proper(vs[0..])
  {
    forall i | 0 <= i < |vs|
      ensures vs[i].count <= |vs[i].commands|
    {
      assert Value(rs[i]) == vs[i];
    }
  }

  lemma BehindNothing(values: seq<Filled>, m: Machine, goal: CarriedAll)
    requires goal == CarriedAll(values, m)
    ensures goal.requests == values && goal.machine == m
  {
  }
}
