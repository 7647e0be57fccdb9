/** The alarm trigger of display.c: `checkAlarmAndBrightness` decides, once per loop
    iteration, whether to request a beep, and `startAlarm` grants the request only when the
    beeper is idle and the one-flag latch `alarmFlag` is set, clearing the flag. */
module AlarmLatch {
  import opened CInt

  const ALARM_BEEP_MS: nat := 60000
  const HOURLY_BEEP_MS: nat := 160

  /** What one call of `checkAlarmAndBrightness` sees: the time record, the alarm record, the
      raw weekday mask of the alarm and whether the beep timer has run down. */
  datatype Observation = Observation(
    hour: i8, min: i8, wday: i8,
    alarmHour: i8, alarmMin: i8, days: bv8,
    beepIdle: bool)

  /** The latch flag after some calls, and the beeps those calls started, in order. */
  datatype Latch = Latch(armed: bool, beeps: seq<nat>)

  /** `checkIfAlarmToday`: bit `wday - 1` of the alarm's weekday mask, computed in 16-bit
      `int` as the C code does. A weekday outside 1..15 would shift by a negative or too large
      amount. */
  function CheckIfAlarmToday(days: bv8, wday: int): (r: bool)
    requires 1 <= wday <= 15
    ensures r <==> wday <= 8 && (days >> (wday - 1)) & 1 == 1
  {
    (days as bv16) & ((1 as bv16) << (wday - 1)) != 0
  }

  /** `checkIfAlarmToday` is consulted only in the alarm minute, and there the weekday is one
      it can test. */
  predicate WellFormed(o: Observation)
  {
    (o.hour == o.alarmHour && o.min == o.alarmMin) ==> 1 <= o.wday <= 15
  }

  /** The time matches the alarm's hour and minute exactly. */
  predicate Matches(o: Observation)
  {
    o.hour == o.alarmHour && o.min == o.alarmMin
  }

  /** The hourly chime: a later hour than the alarm's, at minute zero. */
  predicate HourlyChime(o: Observation)
  {
    !Matches(o) && o.hour > o.alarmHour && o.min == 0
  }

  /** `startAlarm(ms)` on latch `armed`. */
  function StartAlarm(armed: bool, beepIdle: bool, ms: nat): (r: Latch)
    ensures r.beeps != [] <==> beepIdle && armed
    ensures r.beeps != [] ==> r == Latch(false, [ms])
    ensures r.beeps == [] ==> r.armed == armed
  {
    if beepIdle && armed then Latch(false, [ms]) else Latch(armed, [])
  }

  /** The alarm part of `checkAlarmAndBrightness` on latch `armed`. */
  function AlarmTick(armed: bool, o: Observation): (r: Latch)
    requires WellFormed(o)
    ensures Matches(o) && !CheckIfAlarmToday(o.days, o.wday) ==> r == Latch(armed, [])
    ensures Matches(o) && CheckIfAlarmToday(o.days, o.wday) ==> r == StartAlarm(armed, o.beepIdle, ALARM_BEEP_MS)
    ensures HourlyChime(o) ==> r == StartAlarm(armed, o.beepIdle, HOURLY_BEEP_MS)
    ensures !Matches(o) && !HourlyChime(o) ==> r == Latch(true, [])
  {
    if o.hour == o.alarmHour && o.min == o.alarmMin then
      if CheckIfAlarmToday(o.days, o.wday) then StartAlarm(armed, o.beepIdle, ALARM_BEEP_MS)
      else Latch(armed, [])
    else if o.hour > o.alarmHour && o.min == 0 then StartAlarm(armed, o.beepIdle, HOURLY_BEEP_MS)
    else Latch(true, [])
  }

  /** A run of loop iterations from latch `armed`. */
  function RunTicks(armed: bool, trace: seq<Observation>): Latch
    requires forall i :: 0 <= i < |trace| ==> WellFormed(trace[i])
    decreases |trace|
  {
    if trace == [] then Latch(armed, [])
    else
      var step := AlarmTick(armed, trace[0]);
      var rest := RunTicks(step.armed, trace[1..]);
      Latch(rest.armed, step.beeps + rest.beeps)
  }

  /** Nothing re-arms the latch except an iteration that neither matches the alarm nor is an
      hourly chime; without one, a run starts at most one beep, and none if the latch was
      already spent. */
  lemma {:induction false} AtMostOnceUntilRearmed(armed: bool, trace: seq<Observation>)
    requires forall i :: 0 <= i < |trace| ==> WellFormed(trace[i])
    requires forall i :: 0 <= i < |trace| ==> Matches(trace[i]) || HourlyChime(trace[i])
    ensures |RunTicks(armed, trace).beeps| <= (if armed then 1 else 0)
    decreases |trace|
  {
    if trace != [] {
      var step := AlarmTick(armed, trace[0]);
      AtMostOnceUntilRearmed(step.armed, trace[1..]);
    }
  }

  /** Staying in the alarm minute never sounds the alarm twice. */
  lemma SameMinuteFiresAtMostOnce(armed: bool, trace: seq<Observation>)
    requires forall i :: 0 <= i < |trace| ==> WellFormed(trace[i]) && Matches(trace[i])
    ensures |RunTicks(armed, trace).beeps| <= 1
  {
    AtMostOnceUntilRearmed(armed, trace);
  }

  /** The first idle iteration of an alarm-day match sounds the long beep when the latch is
      armed, and a later iteration of the same minute stays silent. */
  lemma FiresOnceInMatchingMinute(o: Observation)
    requires WellFormed(o) && Matches(o) && CheckIfAlarmToday(o.days, o.wday) && o.beepIdle
    ensures RunTicks(true, [o]) == Latch(false, [ALARM_BEEP_MS])
    ensures RunTicks(true, [o, o]) == Latch(false, [ALARM_BEEP_MS])
  {
    assert [o][1..] == [];
    assert [o, o][1..] == [o];
    assert RunTicks(false, [o]) == Latch(false, []);
  }

  /** Once the minute has passed (an iteration that re-arms), the next day's match fires
      again, whatever happened before. */
  lemma FiresAgainAfterRearm(armed: bool, later: Observation, next: Observation)
    requires WellFormed(later) && !Matches(later) && !HourlyChime(later)
    requires WellFormed(next) && Matches(next) && CheckIfAlarmToday(next.days, next.wday) && next.beepIdle
    ensures RunTicks(armed, [later, next]).beeps == [ALARM_BEEP_MS]
  {
    assert [next][1..] == [];
    assert [later, next][1..] == [next];
    assert RunTicks(true, [next]) == Latch(false, [ALARM_BEEP_MS]);
  }
}
