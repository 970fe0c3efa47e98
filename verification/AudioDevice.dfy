/**
 Power management of an audio device: running engines, system sleep and wake, idle
 sleep after a delay, and the timers that a wake resynchronises. Drivers complete a
 power-state change at once and successfully.
 */
module AudioDevice {
  import opened Wrappers
  import opened AudioTimers

  datatype PowerState = Sleep | Idle | Active

  const NO_IDLE_POWER_DOWN := 0xffff_ffff_ffff_ffff
  const CLOCK_RANGE := 0x1_0000_0000_0000_0000

  // A change of power state as the driver is told of it, with the engines running then.
  datatype Transition = Transition(from: PowerState, to: PowerState, running: nat, at: nat)

  // The device, with two things only the proofs look at: the transitions so far, and the
  // time at which it last became quiet or was given another idle delay.
  datatype Device = Device(
    current: PowerState,
    pending: PowerState,
    running: nat,
    duringStartup: bool,
    idleSleepDelay: nat,
    idleAlarm: Option<nat>,
    timers: Timers,
    now: nat,
    transitions: seq<Transition>,
    quietSince: nat)

  const INITIAL := Device(Idle, Idle, 0, true, 0, None, NO_TIMERS, 0, [], 0)

  datatype Step =
    | EngineStarting
    | EngineStopped
    | SetPowerState(ordinal: nat)
    | SetIdleTime(delay: nat)
    | IdleAlarmFires
    | AddTimer(target: nat, interval: nat)
    | RemoveTimer(target: nat)
    | RemoveAllTimers
    | TimerFires
    | Tick(ticks: nat)

  // ---------------------------------------------------------------------------------
  // Operations

  // initiatePowerStateChange, with protectedCompletePowerStateChange
  function Change(d: Device): Device {
    if d.current == d.pending then d
    else
      d.(current := d.pending,
         timers := if d.current == Sleep then Resync(d.timers, d.now) else d.timers,
         transitions := d.transitions + [Transition(d.current, d.pending, d.running, d.now)])
  }

  function StartEngine(d: Device): Device {
    var s := d.(running := d.running + 1);
    if s.running == 1 then
      if s.current == Idle then Change(s.(pending := Active))
      else if s.pending != Sleep then s.(pending := Active)
      else s
    else s
  }

  // The time is an unsigned 64-bit sum.
  function ScheduleIdle(d: Device): Device {
    if d.idleSleepDelay == 0 then Change(d)
    else if d.idleSleepDelay != NO_IDLE_POWER_DOWN then
      d.(idleAlarm := Some((d.now + d.idleSleepDelay) % CLOCK_RANGE))
    else d
  }

  function StopEngine(d: Device): Device
    requires d.running > 0
  {
    var s := d.(running := d.running - 1);
    if s.running == 0 && s.current == Active then
      ScheduleIdle(s.(pending := Idle, quietSince := s.now))
    else s
  }

  function PowerRequest(d: Device, ordinal: nat): Device {
    if d.duringStartup then d.(duringStartup := false)
    else if ordinal >= 2 then d
    else if ordinal == 0 then
      Change(if d.current != Sleep then d.(pending := Sleep) else d)
    else
      Change(if d.current == Sleep then d.(pending := if d.running == 0 then Idle else Active) else d)
  }

  function SetDelay(d: Device, delay: nat): Device {
    var s := if d.idleSleepDelay != delay then ScheduleIdle(d.(idleSleepDelay := delay, quietSince := d.now)) else d;
    if delay == NO_IDLE_POWER_DOWN then s.(idleAlarm := None) else s
  }

  function IdleAlarm(d: Device): Device {
    var s := d.(idleAlarm := None);
    if d.idleSleepDelay != NO_IDLE_POWER_DOWN && d.pending == Idle then Change(s) else s
  }

  // What can happen: an engine that stops was running, and an alarm goes off when it is due.
  predicate Enabled(d: Device, s: Step) {
    match s
    case EngineStopped => d.running > 0
    case IdleAlarmFires => d.idleAlarm.Some? && d.idleAlarm.value <= d.now
    case TimerFires => d.timers.alarm.Some? && d.timers.alarm.value <= d.now
    case SetIdleTime(delay) => delay <= NO_IDLE_POWER_DOWN
    case _ => true
  }

  ghost function Next(d: Device, s: Step): Device
    requires Enabled(d, s)
  {
    match s
    case EngineStarting => StartEngine(d)
    case EngineStopped => StopEngine(d)
    case SetPowerState(ordinal) => PowerRequest(d, ordinal)
    case SetIdleTime(delay) => SetDelay(d, delay)
    case IdleAlarmFires => IdleAlarm(d)
    case AddTimer(target, interval) => d.(timers := Add(d.timers, target, interval, d.now))
    case RemoveTimer(target) => d.(timers := Remove(d.timers, target))
    case RemoveAllTimers => d.(timers := RemoveAll(d.timers))
    case TimerFires => d.(timers := Fire(d.timers, d.current == Sleep))
    case Tick(ticks) => d.(now := d.now + ticks)
  }

  // The device after a run, and whether each step of the run could happen.
  ghost predicate Possible(steps: seq<Step>)
    decreases |steps|, 0
  {
    steps == [] || (Possible(steps[..|steps| - 1]) && Enabled(After(steps[..|steps| - 1]), steps[|steps| - 1]))
  }

  ghost function After(steps: seq<Step>): Device
    requires Possible(steps)
    decreases |steps|, 1
  {
    if steps == [] then INITIAL else Next(After(steps[..|steps| - 1]), steps[|steps| - 1])
  }

  // ---------------------------------------------------------------------------------
  // Power: what the state must be, from the history alone

  // Whether the last power request that counts asked for sleep; the first of all does not count.
  predicate SentToSleep(steps: seq<Step>) {
    steps != [] &&
    var last, before := steps[|steps| - 1], steps[..|steps| - 1];
    if last.SetPowerState? && last.ordinal < 2 && Requests(before) > 0 then last.ordinal == 0 else SentToSleep(before)
  }

  function Requests(steps: seq<Step>): nat {
    if steps == [] then 0
    else Requests(steps[..|steps| - 1]) + if steps[|steps| - 1].SetPowerState? then 1 else 0
  }

  function Started(s: Step): int {
    match s case EngineStarting => 1 case EngineStopped => -1 case _ => 0
  }

  // Engines started and not stopped again.
  function Engines(steps: seq<Step>): int {
    if steps == [] then 0
    else
      Engines(steps[..|steps| - 1]) + Started(steps[|steps| - 1])
  }

  ghost predicate PowerInvariant(d: Device) {
    || (d.current == Sleep && d.pending == Sleep)
    || (d.current != Sleep && d.pending == (if d.running > 0 then Active else Idle) && (d.running > 0 ==> d.current == Active))
  }

  // While a change to Idle is outstanding, the alarm for it is set; with no delay none is.
  ghost predicate IdleInvariant(d: Device) {
    && d.quietSince <= d.now
    && (d.current == Active && d.pending == Idle ==>
          && d.idleSleepDelay != 0
          && (d.idleSleepDelay != NO_IDLE_POWER_DOWN ==>
                d.idleAlarm == Some((d.quietSince + d.idleSleepDelay) % CLOCK_RANGE)))
    && (d.idleSleepDelay == NO_IDLE_POWER_DOWN ==> d.idleAlarm.None?)
  }

  // Transitions follow on each other and suit the engines running at the time.
  ghost predicate Sound(d: Device) {
    && (forall i :: 0 <= i < |d.transitions| ==> SoundTransition(d.transitions[i]))
    && (forall i :: 0 <= i < |d.transitions| - 1 ==> d.transitions[i].to == d.transitions[i + 1].from)
    && d.current == (if d.transitions == [] then Idle else d.transitions[|d.transitions| - 1].to)
    && (d.transitions != [] ==> d.transitions[0].from == Idle)
  }

  predicate SoundTransition(t: Transition) {
    && t.from != t.to
    && (t.to == Idle ==> t.running == 0)
    && (t.to == Active ==> t.running > 0)
  }

  ghost predicate TimersInvariant(d: Device) {
    Sane(d.timers, d.now) && Live(d.timers, d.current == Sleep)
  }

  ghost predicate Invariant(d: Device) {
    PowerInvariant(d) && IdleInvariant(d) && Sound(d) && TimersInvariant(d)
  }

  // The one place where the power state changes.
  lemma ChangeKeeps(d: Device)
    requires Sound(d) && TimersInvariant(d)
    requires d.pending == Idle ==> d.running == 0
    requires d.pending == Active ==> d.running > 0
    ensures Sound(Change(d)) && TimersInvariant(Change(d))
  {
    if d.current != d.pending {
      var t := Change(d);
      ResyncKeepsSane(d.timers, d.now);
      forall i | 0 <= i < |t.transitions| - 1
        ensures t.transitions[i].to == t.transitions[i + 1].from
      {
        if i + 1 < |d.transitions| { assert d.transitions[i].to == d.transitions[i + 1].from; }
      }
    }
  }

  lemma StepKeepsTimers(d: Device, s: Step)
    requires Enabled(d, s) && TimersInvariant(d)
    requires s.AddTimer? || s.RemoveTimer? || s.RemoveAllTimers? || s.TimerFires? || s.Tick?
    ensures TimersInvariant(Next(d, s))
  {
    match s
    case AddTimer(target, interval) => AddKeepsSane(d.timers, target, interval, d.now, d.current == Sleep);
    case RemoveTimer(target) => RemoveKeepsSane(d.timers, target, d.now, d.current == Sleep);
    case TimerFires => FireKeepsSane(d.timers, d.now, d.current == Sleep);
    case _ =>
  }

  lemma StartKeeps(d: Device)
    requires Invariant(d)
    ensures Invariant(StartEngine(d))
  {
    hide SoundTransition, Sane, Live, Resync;
    if d.running == 0 && d.current == Idle {
      ChangeKeeps(d.(running := 1, pending := Active));
    }
  }

  lemma StopKeeps(d: Device)
    requires Invariant(d) && d.running > 0
    ensures Invariant(StopEngine(d))
  {
    hide SoundTransition, Sane, Live, Resync;
    if d.running == 1 && d.current == Active {
      ChangeKeeps(d.(running := 0, pending := Idle, quietSince := d.now));
    }
  }

  lemma PowerRequestKeeps(d: Device, ordinal: nat)
    requires Invariant(d)
    ensures Invariant(PowerRequest(d, ordinal))
  {
    hide SoundTransition, Sane, Live, Resync;
    if !d.duringStartup && ordinal < 2 {
      if ordinal == 0 {
        ChangeKeeps(d.(pending := Sleep));
      } else if d.current == Sleep {
        ChangeKeeps(d.(pending := if d.running == 0 then Idle else Active));
      } else {
        ChangeKeeps(d);
      }
    }
  }

  lemma SetDelayKeeps(d: Device, delay: nat)
    requires Invariant(d) && delay <= NO_IDLE_POWER_DOWN
    ensures Invariant(SetDelay(d, delay))
  {
    hide SoundTransition, Sane, Live, Resync;
    ChangeKeeps(d.(idleSleepDelay := delay, quietSince := d.now));
  }

  lemma IdleAlarmKeeps(d: Device)
    requires Invariant(d) && d.idleAlarm.Some?
    ensures Invariant(IdleAlarm(d))
  {
    hide SoundTransition, Sane, Live, Resync;
    if d.pending == Idle {
      ChangeKeeps(d.(idleAlarm := None));
    }
  }

  lemma StepKeepsInvariant(d: Device, s: Step)
    requires Enabled(d, s) && Invariant(d)
    ensures Invariant(Next(d, s))
  {
    hide Sound, Sane, Live, StartEngine, StopEngine, PowerRequest, SetDelay, IdleAlarm, Add, Remove, Fire;
    match s
    case EngineStarting => StartKeeps(d);
    case EngineStopped => StopKeeps(d);
    case SetPowerState(ordinal) => PowerRequestKeeps(d, ordinal);
    case SetIdleTime(delay) => SetDelayKeeps(d, delay);
    case IdleAlarmFires => IdleAlarmKeeps(d);
    case _ =>
      StepKeepsTimers(d, s);
      SoundOnlyOfPower(d, Next(d, s));
  }

  lemma SoundOnlyOfPower(d: Device, t: Device)
    requires Sound(d) && t.current == d.current && t.transitions == d.transitions
    ensures Sound(t)
  {
  }

  // SAFETY OVER RUNS.
  lemma {:induction false} RunKeepsInvariant(steps: seq<Step>)
    requires Possible(steps)
    ensures Invariant(After(steps))
    decreases |steps|
  {
    if steps != [] {
      hide Next, Enabled, Invariant;
      RunKeepsInvariant(steps[..|steps| - 1]);
      StepKeepsInvariant(After(steps[..|steps| - 1]), steps[|steps| - 1]);
    } else {
      InitialInvariant();
    }
  }

  lemma InitialInvariant()
    ensures Invariant(INITIAL)
  {
  }

  function PendingFor(asleep: bool, running: nat): PowerState {
    if asleep then Sleep else if running > 0 then Active else Idle
  }

  lemma StepFollows(d: Device, s: Step)
    requires Enabled(d, s) && PowerInvariant(d)
    ensures var t := Next(d, s);
            && t.running == d.running + Started(s)
            && t.duringStartup == (d.duringStartup && !s.SetPowerState?)
            && (t.current == Sleep <==>
                if s.SetPowerState? && s.ordinal < 2 && !d.duringStartup then s.ordinal == 0 else d.current == Sleep)
  {
    hide Resync, Add, Remove, Fire;
  }

  // POWER STATE FROM HISTORY. After any run the device sleeps exactly if the last request
  // that counts asked for it; the state it is in, or is bound for, follows from that and
  // from the engines started and not stopped; and an awake device with an engine running
  // is active, whatever the idle delay and however often it changed.
  lemma {:induction false} StateFollowsFromHistory(steps: seq<Step>)
    requires Possible(steps)
    ensures var d := After(steps);
            && (d.current == Sleep <==> SentToSleep(steps))
            && d.running == Engines(steps)
            && d.duringStartup == (Requests(steps) == 0)
            && d.pending == PendingFor(SentToSleep(steps), d.running)
            && (d.running > 0 && !SentToSleep(steps) ==> d.current == Active)
    decreases |steps|
  {
    RunKeepsInvariant(steps);
    if steps != [] {
      var before, last := steps[..|steps| - 1], steps[|steps| - 1];
      StateFollowsFromHistory(before);
      RunKeepsInvariant(before);
      hide Sound, TimersInvariant, IdleInvariant, Possible, Next, Enabled;
      StepFollows(After(before), last);
    }
  }

  // ---------------------------------------------------------------------------------
  // Idle: what the delay and its times must be, from the history alone

  // Time gone by.
  function Clock(steps: seq<Step>): nat {
    if steps == [] then 0
    else Clock(steps[..|steps| - 1]) + if steps[|steps| - 1].Tick? then steps[|steps| - 1].ticks else 0
  }

  // The idle delay that was set last.
  function Delay(steps: seq<Step>): nat {
    if steps == [] then 0
    else if steps[|steps| - 1].SetIdleTime? then steps[|steps| - 1].delay
    else Delay(steps[..|steps| - 1])
  }

  // Whether the last step stopped the last engine of a device that is awake.
  predicate FellQuiet(steps: seq<Step>) {
    && steps != []
    && steps[|steps| - 1].EngineStopped?
    && Engines(steps) == 0
    && !SentToSleep(steps)
  }

  // When the device last fell quiet or its delay was changed.
  function QuietSince(steps: seq<Step>): nat {
    if steps == [] then 0
    else
      var before, last := steps[..|steps| - 1], steps[|steps| - 1];
      if FellQuiet(steps) || (last.SetIdleTime? && last.delay != Delay(before)) then Clock(before) else QuietSince(before)
  }

  // Whether the device still waits for a delay to end: it fell quiet with a delay, and
  // since then no engine started, the alarm did not go off, no power request counted, and
  // no delay of 0 was set.
  predicate Waits(steps: seq<Step>) {
    steps != [] &&
    var before, last := steps[..|steps| - 1], steps[|steps| - 1];
    if FellQuiet(steps) then Delay(before) != 0
    else if last.EngineStarting? || last.IdleAlarmFires? then false
    else if last.SetPowerState? && last.ordinal < 2 && Requests(before) > 0 then false
    else if last.SetIdleTime? && last.delay == 0 then false
    else Waits(before)
  }

  function StateFor(steps: seq<Step>): PowerState {
    if SentToSleep(steps) then Sleep else if Engines(steps) > 0 || Waits(steps) then Active else Idle
  }

  lemma StepWaits(d: Device, s: Step)
    requires Enabled(d, s) && PowerInvariant(d) && IdleInvariant(d)
    ensures var t := Next(d, s);
            t.current == Active && t.running == 0 <==>
            if s.EngineStopped? && t.running == 0 && t.current != Sleep then d.idleSleepDelay != 0
            else if s.EngineStarting? || s.IdleAlarmFires? then false
            else if s.SetPowerState? && s.ordinal < 2 && !d.duringStartup then false
            else if s.SetIdleTime? && s.delay == 0 then false
            else d.current == Active && d.running == 0
  {
    hide Resync, Add, Remove, Fire;
  }

  lemma StepTimes(d: Device, s: Step)
    requires Enabled(d, s) && PowerInvariant(d)
    ensures var t := Next(d, s);
            && t.now == d.now + (if s.Tick? then s.ticks else 0)
            && t.idleSleepDelay == (if s.SetIdleTime? then s.delay else d.idleSleepDelay)
            && t.quietSince ==
               if (s.EngineStopped? && t.running == 0 && t.current != Sleep) || (s.SetIdleTime? && s.delay != d.idleSleepDelay) then d.now
               else d.quietSince
  {
    hide Resync, Add, Remove, Fire;
  }

  // THE STATE EXACTLY. After any run the device is in the state that the history demands:
  // asleep if it was sent to sleep, otherwise active exactly while an engine runs or an
  // idle delay is left.
  lemma {:induction false} StateIsExactly(steps: seq<Step>)
    requires Possible(steps)
    ensures var d := After(steps);
            && d.current == StateFor(steps)
            && d.now == Clock(steps)
            && d.idleSleepDelay == Delay(steps)
            && d.quietSince == QuietSince(steps)
    decreases |steps|
  {
    StateFollowsFromHistory(steps);
    if steps != [] {
      var before, last := steps[..|steps| - 1], steps[|steps| - 1];
      StateIsExactly(before);
      StateFollowsFromHistory(before);
      RunKeepsInvariant(before);
      hide Sound, TimersInvariant, Possible, Next, Enabled, IdleInvariant, PendingFor;
      StepWaits(After(before), last);
      StepTimes(After(before), last);
    }
  }

  // No transition of any run takes a device to Idle while an engine runs, or to Active
  // while none does; each starts where the one before ended.
  lemma TransitionsSuitEngines(steps: seq<Step>, i: nat)
    requires Possible(steps) && i < |After(steps).transitions|
    ensures var t := After(steps).transitions;
            && (t[i].to == Idle ==> t[i].running == 0)
            && (t[i].to == Active ==> t[i].running > 0)
            && t[i].from == (if i == 0 then Idle else t[i - 1].to)
            && t[i].from != t[i].to
  {
    hide After, Possible;
    RunKeepsInvariant(steps);
    var t := After(steps).transitions;
    assert SoundTransition(t[i]);
    if i > 0 { assert t[i - 1].to == t[i - 1 + 1].from; }
  }

  // A step that changes the state is recorded, with the engines running then and the time;
  // no other step is.
  lemma ChangesAreRecorded(d: Device, s: Step)
    requires Enabled(d, s)
    ensures var t := Next(d, s);
            t.transitions ==
            d.transitions + if t.current == d.current then [] else [Transition(d.current, t.current, t.running, d.now)]
  {
    hide Resync, Add, Remove, Fire;
    assert d.transitions + [] == d.transitions;
  }

  // IDLE DELAY. A device that is active with no engine running waits for its idle delay.
  // The wait ends with the alarm, with a delay of 0 being set, or with a wake request that
  // counts, however much of the delay is left, and with nothing else.
  lemma DelayEndsExactly(steps: seq<Step>, s: Step)
    requires Possible(steps) && Enabled(After(steps), s)
    requires After(steps).current == Active && After(steps).running == 0
    ensures Next(After(steps), s).current == Idle <==>
            s.IdleAlarmFires? || (s.SetPowerState? && s.ordinal == 1 && Requests(steps) > 0) || (s.SetIdleTime? && s.delay == 0)
  {
    hide After, Possible, Sound, TimersInvariant, SentToSleep, Engines, Resync, Add, Remove, Fire;
    StateFollowsFromHistory(steps);
    RunKeepsInvariant(steps);
  }

  // A wake request that finds the device awake is one way to lose the rest of a delay.
  lemma AwakeRequestSkipsDelay(steps: seq<Step>)
    requires Possible(steps) && Requests(steps) > 0
    requires After(steps).current == Active && After(steps).running == 0
    ensures Next(After(steps), SetPowerState(1)).current == Idle
  {
    DelayEndsExactly(steps, SetPowerState(1));
  }

  // The idle alarm changes the state exactly if no engine runs and the device is still
  // active, and then to Idle. It goes off no earlier than the delay if the 64-bit sum does
  // not wrap around and, while the clock is in range, only then.
  lemma IdleAlarmIsNotEarly(steps: seq<Step>)
    requires Possible(steps) && Enabled(After(steps), IdleAlarmFires)
    ensures var d := After(steps);
            && (Next(d, IdleAlarmFires).current != d.current <==> d.running == 0 && d.current == Active)
            && (d.running == 0 && d.current == Active ==>
                  && Next(d, IdleAlarmFires).current == Idle
                  && (d.quietSince + d.idleSleepDelay < CLOCK_RANGE ==> d.quietSince + d.idleSleepDelay <= d.now)
                  && (d.now < CLOCK_RANGE ==>
                        (d.quietSince + d.idleSleepDelay <= d.now <==> d.quietSince + d.idleSleepDelay < CLOCK_RANGE)))
  {
    hide After, Possible, Sound, TimersInvariant;
    RunKeepsInvariant(steps);
  }

  lemma OneMoreStep(steps: seq<Step>, s: Step)
    requires Possible(steps) && Enabled(After(steps), s)
    ensures Possible(steps + [s]) && After(steps + [s]) == Next(After(steps), s)
  {
    assert (steps + [s])[..|steps|] == steps;
  }

  // A run in which a delay of almost 2^64 is over at once: the device goes idle at the
  // very time at which its engine stopped.
  lemma WrappedDelayExample()
    ensures var steps := [SetIdleTime(NO_IDLE_POWER_DOWN - 1), Tick(10), EngineStarting, EngineStopped, IdleAlarmFires];
            Possible(steps) && After(steps).transitions == [Transition(Idle, Active, 1, 10), Transition(Active, Idle, 0, 10)]
  {
    var s1 := [SetIdleTime(NO_IDLE_POWER_DOWN - 1)];
    var s2, s3 := s1 + [Tick(10)], s1 + [Tick(10)] + [EngineStarting];
    var s4 := s3 + [EngineStopped];
    assert [] + [SetIdleTime(NO_IDLE_POWER_DOWN - 1)] == s1;
    hide After, Possible;
    NoSteps();
    OneMoreStep([], SetIdleTime(NO_IDLE_POWER_DOWN - 1));
    OneMoreStep(s1, Tick(10));
    OneMoreStep(s2, EngineStarting);
    OneMoreStep(s3, EngineStopped);
    assert After(s4).idleAlarm == Some(8);
    OneMoreStep(s4, IdleAlarmFires);
    assert s4 + [IdleAlarmFires] ==
           [SetIdleTime(NO_IDLE_POWER_DOWN - 1), Tick(10), EngineStarting, EngineStopped, IdleAlarmFires];
  }

  lemma NoSteps()
    ensures Possible([]) && After([]) == INITIAL
  {
  }

  // ---------------------------------------------------------------------------------
  // Timers over runs

  // The interval with which a target is registered.
  function Registered(steps: seq<Step>, target: nat): Option<nat> {
    if steps == [] then None
    else
      match steps[|steps| - 1]
      case AddTimer(t, interval) => if t == target then Some(interval) else Registered(steps[..|steps| - 1], target)
      case RemoveTimer(t) => if t == target then None else Registered(steps[..|steps| - 1], target)
      case RemoveAllTimers => None
      case _ => Registered(steps[..|steps| - 1], target)
  }

  // Steps that concern power leave the registered intervals alone; and unless one of them
  // wakes the device up, the alarm and the reckoning too.
  lemma PowerStepsLeaveTimers(d: Device, s: Step)
    requires Enabled(d, s)
    requires s.EngineStarting? || s.EngineStopped? || s.SetPowerState? || s.SetIdleTime? || s.IdleAlarmFires? || s.Tick?
    ensures Next(d, s).timers.events == d.timers.events
    ensures Next(d, s).timers.minimumInterval == d.timers.minimumInterval
    ensures !(d.current == Sleep && Next(d, s).current != Sleep) ==> Next(d, s).timers == d.timers
  {
  }

  // A target is registered exactly as the history says.
  lemma {:induction false} RegistrationsFollowFromHistory(steps: seq<Step>, target: nat)
    requires Possible(steps)
    ensures var events := After(steps).timers.events;
            match Registered(steps, target)
            case None => target !in events
            case Some(interval) => target in events && events[target] == interval
    decreases |steps|
  {
    if steps != [] {
      var before, last := steps[..|steps| - 1], steps[|steps| - 1];
      RegistrationsFollowFromHistory(before, target);
      StepRegisters(After(before), last, target);
      hide Next, Enabled;
    }
  }

  lemma StepRegisters(d: Device, s: Step, target: nat)
    requires Enabled(d, s)
    ensures var was, now := d.timers.events, Next(d, s).timers.events;
            match s
            case AddTimer(t, interval) => now == was[t := interval]
            case RemoveTimer(t) => now == was - {t}
            case RemoveAllTimers => now == map[]
            case _ => now == was
  {
    match s
    case AddTimer(t, interval) =>
    case RemoveTimer(t) => if t !in d.timers.events { assert d.timers.events - {t} == d.timers.events; }
    case RemoveAllTimers =>
    case TimerFires =>
    case _ => PowerStepsLeaveTimers(d, s);
  }

  // An alarm that goes off while the device sleeps is spent without a round.
  lemma NoRoundsAsleep(steps: seq<Step>)
    requires Possible(steps) && Enabled(After(steps), TimerFires) && SentToSleep(steps)
    ensures Next(After(steps), TimerFires).timers == After(steps).timers.(alarm := None)
  {
    hide After, Possible;
    StateFollowsFromHistory(steps);
  }

  // Waking up makes a round, and reckons the next one from now: every registered target is
  // due again within its interval.
  lemma WakingServesInTime(steps: seq<Step>, target: nat)
    requires Possible(steps) && SentToSleep(steps) && Requests(steps) > 0 && target in After(steps).timers.events
    ensures var d, t := After(steps), Next(After(steps), SetPowerState(1)).timers;
            t.previousTimerFire == d.now && OnGrid(t) && DueBy(t, target, d.now + d.timers.events[target])
  {
    hide After, Possible;
    StateFollowsFromHistory(steps);
    RunKeepsInvariant(steps);
    ResyncKeepsSane(After(steps).timers, After(steps).now);
  }

  function Fires(steps: seq<Step>): nat {
    if steps == [] then 0
    else Fires(steps[..|steps| - 1]) + if steps[|steps| - 1].TimerFires? then 1 else 0
  }

  // Steps that neither register, nor remove, nor put the device to sleep or wake it up.
  ghost predicate Undisturbed(steps: seq<Step>) {
    forall s :: s in steps ==> !s.SetPowerState? && !s.AddTimer? && !s.RemoveTimer? && !s.RemoveAllTimers?
  }

  // NO DRIFT. However late each alarm is handled, and whatever engines and idle delays do
  // meanwhile, the rounds of an awake device are reckoned one least interval apart.
  lemma {:induction false} RoundsDoNotDrift(steps: seq<Step>, more: seq<Step>)
    requires Possible(steps) && Possible(steps + more) && Undisturbed(more) && !SentToSleep(steps)
    requires After(steps).timers.events != map[] && OnGrid(After(steps).timers)
    ensures !SentToSleep(steps + more)
    ensures var s, t := After(steps).timers, After(steps + more).timers;
            && t.events == s.events && t.minimumInterval == s.minimumInterval && OnGrid(t)
            && t.previousTimerFire == s.previousTimerFire + Fires(more) * s.minimumInterval
    decreases |more|
  {
    hide After, Possible, Next, Enabled, OnGrid, PendingFor, SentToSleep, Fires, Engines, Requests;
    FiresTimes(more, After(steps).timers.minimumInterval);
    if more == [] {
      assert steps + more == steps;
    } else {
      var front, last := more[..|more| - 1], more[|more| - 1];
      LastOfRun(steps, more);
      assert Undisturbed(front) && Undisturbed([last]) by { assert last in more; }
      RoundsDoNotDrift(steps, front);
      StateFollowsFromHistory(steps + front);
      RoundStep(After(steps + front), last);
    }
  }

  lemma FiresTimes(steps: seq<Step>, m: nat)
    ensures steps == [] ==> Fires(steps) * m == 0
    ensures steps != [] ==>
              Fires(steps) * m == Fires(steps[..|steps| - 1]) * m + if steps[|steps| - 1].TimerFires? then m else 0
  {
    if steps != [] {
      var front := Fires(steps[..|steps| - 1]);
      if steps[|steps| - 1].TimerFires? {
        assert Fires(steps) == front + 1;
        hide Fires;
        NextMultiple(front, m);
      } else {
        assert Fires(steps) == front;
      }
    }
  }

  lemma NextMultiple(k: nat, m: nat)
    ensures (k + 1) * m == k * m + m
  {
  }

  lemma LastOfRun(steps: seq<Step>, more: seq<Step>)
    requires Possible(steps + more) && more != []
    ensures var front, last := more[..|more| - 1], more[|more| - 1];
            && Possible(steps + front) && Enabled(After(steps + front), last)
            && After(steps + more) == Next(After(steps + front), last)
            && (SentToSleep(steps + more) <==>
                if last.SetPowerState? && last.ordinal < 2 && Requests(steps + front) > 0 then last.ordinal == 0
                else SentToSleep(steps + front))
  {
    hide Next, Enabled;
    assert (steps + more)[..|steps + more| - 1] == steps + more[..|more| - 1];
  }

  lemma RoundStep(d: Device, s: Step)
    requires Enabled(d, s) && Undisturbed([s]) && d.current != Sleep && d.timers.events != map[] && OnGrid(d.timers)
    ensures var t := Next(d, s).timers;
            && t.events == d.timers.events && t.minimumInterval == d.timers.minimumInterval && OnGrid(t)
            && t.previousTimerFire == d.timers.previousTimerFire + if s.TimerFires? then d.timers.minimumInterval else 0
  {
    assert s in [s];
    if !s.TimerFires? { PowerStepsLeaveTimers(d, s); hide Next; }
  }

  ghost predicate RegistersOnce(steps: seq<Step>)
    requires Possible(steps)
    decreases |steps|
  {
    steps == [] ||
    var before, last := steps[..|steps| - 1], steps[|steps| - 1];
    RegistersOnce(before) && (last.AddTimer? ==> last.target !in After(before).timers.events)
  }

  // If no target is registered again while it is registered, the least registered
  // interval is always known exactly.
  lemma {:induction false} RegisteringOnceIsExact(steps: seq<Step>)
    requires Possible(steps) && RegistersOnce(steps)
    ensures Exact(After(steps).timers)
    decreases |steps|
  {
    if steps != [] {
      var before, last := steps[..|steps| - 1], steps[|steps| - 1];
      RegisteringOnceIsExact(before);
      StepKeepsExact(After(before), last);
    }
  }

  lemma StepKeepsExact(d: Device, s: Step)
    requires Enabled(d, s) && Exact(d.timers)
    requires s.AddTimer? ==> s.target !in d.timers.events
    ensures Exact(Next(d, s).timers)
  {
    hide Add, Remove;
    match s
    case AddTimer(target, interval) => AddKeepsExactIff(d.timers, target, interval, d.now);
    case RemoveTimer(target) => RemoveKeepsExact(d.timers, target);
    case _ =>
  }

  // While the device is awake, every target registered at a round is due again within its
  // interval, and stays so whatever other targets come and go (see OthersKeepDue).
  lemma RoundServesInTime(steps: seq<Step>, target: nat)
    requires Possible(steps) && Enabled(After(steps), TimerFires)
    requires !SentToSleep(steps) && target in After(steps).timers.events
    ensures var t := Next(After(steps), TimerFires).timers;
            && t.previousTimerFire <= After(steps).now
            && DueBy(t, target, After(steps).now + After(steps).timers.events[target])
  {
    hide After, Possible, Sound;
    StateFollowsFromHistory(steps);
    RunKeepsInvariant(steps);
    RoundIsPunctual(After(steps).timers, After(steps).now, target);
    FireKeepsSane(After(steps).timers, After(steps).now, false);
  }
}
