/**
 The audio device object: its fields, updated step by step, against the functions of
 AudioDevice and AudioTimers.
 */
module AudioDriver {
  import opened Wrappers
  import opened AudioTimers
  import opened AudioDevice

  class Driver {
    var currentPowerState: PowerState
    var pendingPowerState: PowerState
    var numRunningAudioEngines: nat
    var duringStartup: bool
    var idleSleepDelayTime: nat
    var idleTimer: Option<nat>
    var timerEvents: map<nat, nat>
    var minimumInterval: nat
    var previousTimerFire: int
    var timerEventSource: Option<int>
    var clock: nat
    ghost var transitions: seq<Transition>
    ghost var quietSince: nat

    ghost function TheTimers(): Timers
      reads this
    {
      Timers(timerEvents, minimumInterval, previousTimerFire, timerEventSource)
    }

    ghost function TheDevice(): Device
      reads this
    {
      Device(currentPowerState, pendingPowerState, numRunningAudioEngines, duringStartup, idleSleepDelayTime, idleTimer,
             TheTimers(), clock, transitions, quietSince)
    }

    constructor ()
      ensures TheDevice() == INITIAL
    {
      currentPowerState, pendingPowerState, numRunningAudioEngines, duringStartup := Idle, Idle, 0, true;
      idleSleepDelayTime, idleTimer := 0, None;
      timerEvents, minimumInterval, previousTimerFire, timerEventSource := map[], 0, 0, None;
      clock, transitions, quietSince := 0, [], 0;
    }

    // ---------------------------------------------------------------------------------
    // Timers

    method AddTimerEvent(target: nat, event: bool, interval: nat) returns (ok: bool)
      modifies this`timerEvents, this`minimumInterval, this`previousTimerFire, this`timerEventSource
      ensures ok == event
      ensures TheTimers() == if event then Add(old(TheTimers()), target, interval, clock) else old(TheTimers())
    {
      if !event {
        return false;
      }
      timerEvents := timerEvents[target := interval];
      if |timerEvents| == 1 {
        minimumInterval := interval;
        previousTimerFire := clock;
        timerEventSource := Some(previousTimerFire + minimumInterval);
      } else if interval < minimumInterval {
        var desiredNextFire := clock + interval;
        var currentNextFire := previousTimerFire + minimumInterval;
        minimumInterval := interval;
        if desiredNextFire < currentNextFire {
          timerEventSource := Some(desiredNextFire);
        }
      }
      ok := true;
    }

    // The loop over the timers that are left.
    method LeastInterval() returns (least: nat)
      requires timerEvents != map[]
      ensures least == Minimum(timerEvents)
    {
      var left := timerEvents.Keys;
      var target :| target in left;
      left := left - {target};
      least := timerEvents[target];
      while left != {}
        invariant left <= timerEvents.Keys
        invariant exists t :: t in timerEvents && timerEvents[t] == least
        invariant forall t :: t in timerEvents && t !in left ==> least <= timerEvents[t]
        decreases |left|
      {
        target :| target in left;
        left := left - {target};
        if timerEvents[target] < least {
          least := timerEvents[target];
        }
      }
      MinimumIsUnique(timerEvents, least, Minimum(timerEvents));
    }

    method RemoveTimerEvent(target: nat)
      modifies this`timerEvents, this`minimumInterval, this`timerEventSource
      ensures TheTimers() == Remove(old(TheTimers()), target)
    {
      if target in timerEvents {
        var interval := timerEvents[target];
        timerEvents := timerEvents - {target};
        if timerEvents == map[] {
          timerEventSource := None;
        } else if interval <= minimumInterval {
          minimumInterval := LeastInterval();
          timerEventSource := Some(previousTimerFire + minimumInterval);
        }
      }
    }

    method RemoveAllTimerEvents()
      modifies this`timerEvents, this`timerEventSource
      ensures TheTimers() == RemoveAll(old(TheTimers()))
    {
      timerEventSource := None;
      timerEvents := map[];
    }

    // Calls every registered target once, and returns whom it called in which order.
    method DispatchTimerEvents(force: bool) returns (called: seq<nat>)
      modifies this`previousTimerFire, this`timerEventSource
      ensures force || currentPowerState != Sleep ==>
                && TheTimers() == Dispatch(old(TheTimers()))
                && multiset(called) == multiset(timerEvents.Keys)
      ensures !force && currentPowerState == Sleep ==> TheTimers() == old(TheTimers()) && called == []
    {
      called := [];
      if force || currentPowerState != Sleep {
        var left := timerEvents.Keys;
        while left != {}
          invariant left <= timerEvents.Keys
          invariant multiset(called) + multiset(left) == multiset(timerEvents.Keys)
          decreases |left|
        {
          var target :| target in left;
          assert multiset(left) == multiset(left - {target}) + multiset{target};
          left := left - {target};
          called := called + [target];
        }
        if |timerEvents| > 0 {
          previousTimerFire := previousTimerFire + minimumInterval;
          timerEventSource := Some(previousTimerFire + minimumInterval);
        }
      }
    }

    // The alarm went off.
    method TimerFired() returns (called: seq<nat>)
      modifies this`previousTimerFire, this`timerEventSource
      ensures TheTimers() == Fire(old(TheTimers()), currentPowerState == Sleep)
      ensures if currentPowerState == Sleep then called == [] else multiset(called) == multiset(timerEvents.Keys)
    {
      timerEventSource := None;
      called := DispatchTimerEvents(false);
    }

    // ---------------------------------------------------------------------------------
    // Power

    method ProtectedCompletePowerStateChange()
      modifies this`currentPowerState, this`previousTimerFire, this`timerEventSource
      ensures currentPowerState == old(pendingPowerState)
      ensures TheTimers() ==
              if old(currentPowerState) == Sleep && old(pendingPowerState) != Sleep then Resync(old(TheTimers()), clock)
              else old(TheTimers())
    {
      if currentPowerState != pendingPowerState {
        if currentPowerState == Sleep {
          previousTimerFire := clock - minimumInterval;
          if |timerEvents| > 0 {
            var _ := DispatchTimerEvents(true);
          }
        }
        currentPowerState := pendingPowerState;
      }
    }

    method InitiatePowerStateChange()
      modifies this`currentPowerState, this`previousTimerFire, this`timerEventSource, this`transitions
      ensures TheDevice() == Change(old(TheDevice()))
    {
      if currentPowerState != pendingPowerState {
        transitions := transitions + [Transition(currentPowerState, pendingPowerState, numRunningAudioEngines, clock)];
        ProtectedCompletePowerStateChange();
      }
    }

    method AudioEngineStarting()
      modifies this
      ensures TheDevice() == StartEngine(old(TheDevice()))
    {
      numRunningAudioEngines := numRunningAudioEngines + 1;
      if numRunningAudioEngines == 1 {
        if currentPowerState == Idle {
          pendingPowerState := Active;
          InitiatePowerStateChange();
        } else if pendingPowerState != Sleep {
          pendingPowerState := Active;
        }
      }
    }

    method ScheduleIdleAudioSleep()
      modifies this`currentPowerState, this`previousTimerFire, this`timerEventSource, this`transitions, this`idleTimer
      ensures TheDevice() == ScheduleIdle(old(TheDevice()))
    {
      if idleSleepDelayTime == 0 {
        InitiatePowerStateChange();
      } else if idleSleepDelayTime != NO_IDLE_POWER_DOWN {
        idleTimer := Some((clock + idleSleepDelayTime) % CLOCK_RANGE);
      }
    }

    method AudioEngineStopped()
      requires numRunningAudioEngines > 0
      modifies this
      ensures TheDevice() == StopEngine(old(TheDevice()))
    {
      numRunningAudioEngines := numRunningAudioEngines - 1;
      if numRunningAudioEngines == 0 {
        if currentPowerState == Active {
          pendingPowerState := Idle;
          quietSince := clock;
          ScheduleIdleAudioSleep();
        }
      }
    }

    method SetIdleAudioSleepTime(sleepDelay: nat)
      requires sleepDelay <= NO_IDLE_POWER_DOWN
      modifies this
      ensures TheDevice() == SetDelay(old(TheDevice()), sleepDelay)
    {
      if idleSleepDelayTime != sleepDelay {
        idleSleepDelayTime := sleepDelay;
        quietSince := clock;
        ScheduleIdleAudioSleep();
      }
      if idleSleepDelayTime == NO_IDLE_POWER_DOWN {
        idleTimer := None;
      }
    }

    method IdleAudioSleepHandlerTimer()
      modifies this
      ensures TheDevice() == IdleAlarm(old(TheDevice()))
    {
      idleTimer := None;
      if idleSleepDelayTime != NO_IDLE_POWER_DOWN && pendingPowerState == Idle {
        InitiatePowerStateChange();
      }
    }

    // Refuses an unknown ordinal, except during start-up, when every request is ignored.
    method SetPowerState(ordinal: nat) returns (known: bool)
      modifies this
      ensures TheDevice() == PowerRequest(old(TheDevice()), ordinal)
      ensures known <==> old(duringStartup) || ordinal < 2
    {
      known := true;
      if !duringStartup {
        if ordinal >= 2 {
          known := false;
        } else {
          if ordinal == 0 {
            if currentPowerState != Sleep {
              pendingPowerState := Sleep;
            }
          } else if currentPowerState == Sleep {
            pendingPowerState := if numRunningAudioEngines == 0 then Idle else Active;
          }
          if currentPowerState != pendingPowerState {
            InitiatePowerStateChange();
          }
        }
      }
      duringStartup := false;
    }
  }
}
