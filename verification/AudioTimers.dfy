/**
 The timer multiplexer of an audio device: any number of registered intervals, one alarm.
 Times are clock readings; a target is known by a number.
 */
module AudioTimers {
  import opened Wrappers

  // The registered intervals, the two times the driver keeps, and the alarm of its one timer.
  datatype Timers = Timers(events: map<nat, nat>, minimumInterval: nat, previousTimerFire: int, alarm: Option<int>)

  const NO_TIMERS := Timers(map[], 0, 0, None)

  ghost predicate IsMinimum(events: map<nat, nat>, m: nat) {
    && (exists t :: t in events && events[t] == m)
    && (forall t :: t in events ==> m <= events[t])
  }

  lemma MinimumIsUnique(events: map<nat, nat>, m: nat, m': nat)
    requires IsMinimum(events, m) && IsMinimum(events, m')
    ensures m == m'
  {
  }

  lemma {:induction false} MinimumExists(events: map<nat, nat>)
    requires events != map[]
    ensures exists m :: IsMinimum(events, m)
    decreases |events|
  {
    var t :| t in events;
    var rest := events - {t};
    if rest == map[] {
      assert forall u :: u in events ==> u == t by {
        assert forall u :: u in events && u != t ==> u in rest;
      }
      assert IsMinimum(events, events[t]);
    } else {
      assert |rest| < |events| by { assert rest.Keys == events.Keys - {t}; }
      MinimumExists(rest);
      var m :| IsMinimum(rest, m);
      var low := if events[t] < m then events[t] else m;
      assert IsMinimum(events, low) by {
        var u :| u in rest && rest[u] == m;
        assert events[if events[t] < m then t else u] == low;
        assert forall v :: v in events && v != t ==> v in rest;
      }
    }
  }

  ghost function Minimum(events: map<nat, nat>): (m: nat)
    requires events != map[]
    ensures IsMinimum(events, m)
  {
    MinimumExists(events);
    var m :| IsMinimum(events, m);
    m
  }

  // ---------------------------------------------------------------------------------
  // Operations

  function Add(s: Timers, target: nat, interval: nat, now: nat): Timers {
    var events := s.events[target := interval];
    if |events| == 1 then
      Timers(events, interval, now, Some(now + interval))
    else if interval < s.minimumInterval then
      Timers(events, interval, s.previousTimerFire,
             if now + interval < s.previousTimerFire + s.minimumInterval then Some(now + interval) else s.alarm)
    else
      s.(events := events)
  }

  ghost function Remove(s: Timers, target: nat): Timers {
    if target !in s.events then s
    else
      var events := s.events - {target};
      if events == map[] then
        s.(events := events, alarm := None)
      else if s.events[target] <= s.minimumInterval then
        var low := Minimum(events);
        s.(events := events, minimumInterval := low, alarm := Some(s.previousTimerFire + low))
      else
        s.(events := events)
  }

  function RemoveAll(s: Timers): Timers {
    s.(events := map[], alarm := None)
  }

  // One round of callbacks, which are taken to leave the timers alone.
  function Dispatch(s: Timers): Timers {
    if s.events == map[] then s
    else
      var fired := s.previousTimerFire + s.minimumInterval;
      s.(previousTimerFire := fired, alarm := Some(fired + s.minimumInterval))
  }

  // The alarm goes off: it is spent, and there is a round unless the device sleeps.
  function Fire(s: Timers, asleep: bool): Timers {
    var spent := s.(alarm := None);
    if asleep then spent else Dispatch(spent)
  }

  // On waking up the times are set so that the round that follows is due now.
  function Resync(s: Timers, now: nat): Timers {
    Dispatch(s.(previousTimerFire := now - s.minimumInterval))
  }

  // ---------------------------------------------------------------------------------
  // What every operation keeps

  ghost predicate Bounded(s: Timers) {
    forall t :: t in s.events ==> s.minimumInterval <= s.events[t]
  }

  ghost predicate Sane(s: Timers, now: nat) {
    && Bounded(s)
    && (s.events == map[] ==> s.alarm.None?)
    && s.previousTimerFire <= now
    && (s.alarm.Some? ==> s.previousTimerFire + s.minimumInterval <= s.alarm.value)
  }

  // While the device is awake and timers are registered, the alarm is set.
  ghost predicate Live(s: Timers, asleep: bool) {
    !asleep && s.events != map[] ==> s.alarm.Some?
  }

  lemma AddKeepsSane(s: Timers, target: nat, interval: nat, now: nat, asleep: bool)
    requires Sane(s, now) && Live(s, asleep)
    ensures Sane(Add(s, target, interval, now), now) && Live(Add(s, target, interval, now), asleep)
  {
    var events := s.events[target := interval];
    assert target in events;
    OneEvent(events, target);
    if s.events == map[] {
      assert events == map[target := interval] && |events| == 1;
    }
  }

  lemma OneEvent(events: map<nat, nat>, t: nat)
    requires t in events
    ensures |events| == 1 <==> forall u :: u in events ==> u == t
  {
    if |events| == 1 {
      var k :| events.Keys == {k} by { assert |events.Keys - {t}| == 0; assert events.Keys == {t}; }
    }
    if forall u :: u in events ==> u == t {
      assert events.Keys == {t};
    }
  }

  lemma RemoveKeepsSane(s: Timers, target: nat, now: nat, asleep: bool)
    requires Sane(s, now) && Live(s, asleep)
    ensures Sane(Remove(s, target), now) && Live(Remove(s, target), asleep)
  {
    if target in s.events {
      var events := s.events - {target};
      assert forall t :: t in events ==> t in s.events && events[t] == s.events[t];
      if events != map[] { assert s.events != map[]; }
    }
  }

  // An alarm that goes off is due, so a round never lets previousTimerFire pass the clock.
  lemma FireKeepsSane(s: Timers, now: nat, asleep: bool)
    requires Sane(s, now) && s.alarm.Some? && s.alarm.value <= now
    ensures Sane(Fire(s, asleep), now) && Live(Fire(s, asleep), asleep)
  {
  }

  lemma ResyncKeepsSane(s: Timers, now: nat)
    requires Sane(s, now)
    ensures Sane(Resync(s, now), now) && Live(Resync(s, now), false)
    ensures s.events != map[] ==> Resync(s, now).previousTimerFire == now && OnGrid(Resync(s, now))
  {
  }

  // The alarm goes off by the deadline, and a shortened list of timers does not change that.
  ghost predicate DueBy(s: Timers, target: nat, deadline: int) {
    && target in s.events && s.alarm.Some? && s.alarm.value <= deadline
    && s.previousTimerFire + s.events[target] <= deadline
  }

  // Other targets may be registered or removed; this one is still due by its deadline.
  lemma OthersKeepDue(s: Timers, target: nat, deadline: int, other: nat, interval: nat, now: nat)
    requires Sane(s, now) && DueBy(s, target, deadline) && other != target
    ensures DueBy(Add(s, other, interval, now), target, deadline)
    ensures DueBy(Remove(s, other), target, deadline)
  {
    var events := s.events[other := interval];
    assert other in events && target in events;
    OneEvent(events, target);
    assert target in s.events - {other};
  }

  // A round sets the alarm no later than any registered interval from now.
  lemma RoundIsPunctual(s: Timers, now: nat, target: nat)
    requires Sane(s, now) && target in s.events
    requires s.alarm.Some? && s.alarm.value <= now
    ensures var t := Fire(s, false);
            DueBy(t, target, now + s.events[target])
  {
    assert s.events != map[];
  }

  // FIRST FIRE. A newly registered timer that is not the only one is first served within
  // its interval if and only if the alarm was set to within it already, or the new time is
  // before the next round as the driver reckons it from its (perhaps lowered) interval.
  lemma FirstFireOnTimeIff(s: Timers, target: nat, interval: nat, now: nat)
    requires Sane(s, now) && s.alarm.Some? && target !in s.events && s.events != map[]
    ensures var t := Add(s, target, interval, now);
            && t.previousTimerFire == s.previousTimerFire
            && (t.alarm == s.alarm || t.alarm == Some(now + interval))
            && (t.alarm.value <= now + interval <==>
                s.alarm.value <= now + interval || now + interval < s.previousTimerFire + s.minimumInterval)
  {
    OneEvent(s.events[target := interval], target);
    var u :| u in s.events;
    assert u in s.events[target := interval] && u != target;
  }

  // The only timer is first served after exactly its interval.
  lemma OnlyTimerOnTime(s: Timers, target: nat, interval: nat, now: nat)
    requires forall t :: t in s.events ==> t == target
    ensures Add(s, target, interval, now) == Timers(map[target := interval], interval, now, Some(now + interval))
  {
    var events := s.events[target := interval];
    assert target in events;
    OneEvent(events, target);
    assert events == map[target := interval];
  }

  // Two additions of ever smaller intervals can miss it.
  lemma LateFirstFireExample()
    ensures var s := Add(Add(NO_TIMERS, 0, 100, 0), 1, 60, 50);
            Sane(s, 55) && Add(s, 2, 10, 55).alarm == Some(100)
  {
    var one := Add(NO_TIMERS, 0, 100, 0);
    assert one.events == map[0 := 100] && |one.events| == 1;
    var two := one.events[1 := 60];
    assert 0 in two && 1 in two;
    OneEvent(two, 0);
    var three := two[2 := 10];
    assert 0 in three && 1 in three;
    OneEvent(three, 0);
  }

  // ---------------------------------------------------------------------------------
  // When the next round is one minimumInterval after the last

  predicate OnGrid(s: Timers) {
    s.alarm == Some(s.previousTimerFire + s.minimumInterval)
  }

  // Registering keeps the alarm on the grid unless it lowers the least interval between rounds.
  lemma AddKeepsGridIff(s: Timers, target: nat, interval: nat, now: nat)
    requires Sane(s, now) && OnGrid(s) && (exists u :: u in s.events && u != target)
    ensures OnGrid(Add(s, target, interval, now)) <==> s.minimumInterval <= interval || s.previousTimerFire == now
  {
    var events := s.events[target := interval];
    assert target in events;
    OneEvent(events, target);
    var u :| u in s.events && u != target;
    assert u in events;
  }

  lemma RemoveKeepsGrid(s: Timers, target: nat)
    requires OnGrid(s) && s.events - {target} != map[]
    ensures OnGrid(Remove(s, target)) && Remove(s, target).previousTimerFire == s.previousTimerFire
  {
  }

  // ---------------------------------------------------------------------------------
  // When minimumInterval is exact

  ghost predicate Exact(s: Timers) {
    s.events != map[] ==> IsMinimum(s.events, s.minimumInterval)
  }

  // Registering keeps it exact unless it lengthens the interval of the one target that
  // held the minimum, while there are others.
  lemma AddKeepsExactIff(s: Timers, target: nat, interval: nat, now: nat)
    requires Exact(s)
    ensures Exact(Add(s, target, interval, now)) <==>
            (forall t :: t in s.events && t != target ==> s.minimumInterval < s.events[t]) &&
            target in s.events && |s.events| > 1 ==>
              interval <= s.minimumInterval
  {
    var events := s.events[target := interval];
    assert target in events;
    OneEvent(events, target);
    if target in s.events {
      assert events.Keys == s.events.Keys;
      assert |events| == |events.Keys| == |s.events|;
    }
    if |events| != 1 {
      var u :| u in events && u != target;
      assert u in s.events;
      if interval < s.minimumInterval {
        assert IsMinimum(events, interval) by { assert events[target] == interval; }
      } else {
        assert Add(s, target, interval, now).minimumInterval == s.minimumInterval;
        if t :| t in s.events && t != target && s.minimumInterval >= s.events[t] {
          assert events[t] == s.minimumInterval;
        } else {
          assert forall t :: t in events && t != target ==> s.minimumInterval < events[t];
          if interval == s.minimumInterval { assert events[target] == s.minimumInterval; }
        }
      }
    } else {
      assert IsMinimum(events, interval) by { assert events[target] == interval; }
    }
  }

  lemma RemoveKeepsExact(s: Timers, target: nat)
    requires Exact(s)
    ensures Exact(Remove(s, target))
  {
    if target in s.events {
      var events := s.events - {target};
      if events != map[] && s.events[target] > s.minimumInterval {
        var t :| t in s.events && s.events[t] == s.minimumInterval;
        assert t in events && events[t] == s.minimumInterval;
      }
    }
  }

  // Once too low, removing timers does not bring it back while more than one is left.
  lemma StaleStaysStale(s: Timers, target: nat)
    requires Bounded(s) && !Exact(s) && target in s.events
    ensures Remove(s, target).minimumInterval == s.minimumInterval
    ensures s.events - {target} != map[] ==> !Exact(Remove(s, target))
  {
    if s.events[target] == s.minimumInterval {
      assert IsMinimum(s.events, s.minimumInterval);
    }
    var events := s.events - {target};
    assert forall t :: t in events ==> t in s.events && events[t] == s.events[t];
  }
}
