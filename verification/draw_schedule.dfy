/**
 * Local calendar time and the two draw timetables: 2D draws every day at 12:00 and 16:30,
 * 3D draws on Wednesdays at 16:30.
 */
module DrawSchedule {

  const MsPerMinute: int := 60_000
  const MsPerDay: int := 86_400_000

  /** A local date-time: the calendar day counted from 1970-01-01 and the milliseconds since midnight. */
  datatype Moment = Moment(day: int, ms: int)

  /** A slot time of day in the timetable, as an hour and a minute. */
  datatype TimeOfDay = TimeOfDay(hour: int, minute: int)

  predicate ValidMoment(t: Moment) {
    0 <= t.ms < MsPerDay
  }

  /** The strict order of `Date` values: earlier day, or same day and earlier time. */
  predicate Before(a: Moment, b: Moment) {
    a.day < b.day || (a.day == b.day && a.ms < b.ms)
  }

  /** `getDay()`: 0 is Sunday, 3 is Wednesday; 1970-01-01 was a Thursday. */
  function Weekday(day: int): (w: int)
    ensures 0 <= w < 7
  {
    (day + 4) % 7
  }

  const Wednesday: int := 3

  /** `d.setHours(hour, minute, 0, 0)`: same day, the given time, seconds and milliseconds cleared. */
  function SetHours(t: Moment, at: TimeOfDay): (r: Moment)
    requires 0 <= at.hour < 24 && 0 <= at.minute < 60
    ensures ValidMoment(r) && r.day == t.day
  {
    Moment(t.day, (at.hour * 60 + at.minute) * MsPerMinute)
  }

  /** The 2D timetable, in the order the scheduler tries it. */
  const TwoDTimes: seq<TimeOfDay> := [TimeOfDay(12, 0), TimeOfDay(16, 30)]

  const Noon: int := 12 * 60 * MsPerMinute
  const HalfPastFour: int := (16 * 60 + 30) * MsPerMinute

  /** A moment at which a 2D draw is held. */
  predicate IsTwoDSlot(t: Moment) {
    t.ms == Noon || t.ms == HalfPastFour
  }

  /** A moment at which a 3D draw is held. */
  predicate IsThreeDSlot(t: Moment) {
    Weekday(t.day) == Wednesday && t.ms == HalfPastFour
  }

  /**
   * The next 2D draw: try today's slots in order and stop at the first one strictly after `now`;
   * if none is, take tomorrow's first slot. The result is the earliest 2D slot after `now`.
   */
  method NextTwoDDrawTime(now: Moment) returns (next: Moment)
    requires ValidMoment(now)
    ensures ValidMoment(next) && Before(now, next)
    ensures IsTwoDSlot(next)
    ensures next.day == now.day || next.day == now.day + 1
    ensures forall t :: IsTwoDSlot(t) && Before(now, t) ==> !Before(t, next)
  {
    next := now;
    var found := false;
    var i := 0;
    while i < |TwoDTimes|
      invariant 0 <= i <= |TwoDTimes|
      invariant next.day == now.day
      invariant !found
      invariant forall j :: 0 <= j < i ==> !Before(now, SetHours(now, TwoDTimes[j]))
      invariant i > 0 ==> next == SetHours(now, TwoDTimes[i - 1])
    {
      next := SetHours(next, TwoDTimes[i]);
      if Before(now, next) {
        found := true;
        break;
      }
      i := i + 1;
    }
    if !found {
      next := Moment(next.day + 1, next.ms);
      next := SetHours(next, TwoDTimes[0]);
    }
  }

  /**
   * `getNext3DDrawTime`'s day offset. The middle branch tests for a negative weekday and is never
   * taken, so every weekday goes to the coming Wednesday and a Wednesday to the next one.
   */
  function DaysToThreeD(weekday: int): int
    requires 0 <= weekday < 7
  {
    if weekday < Wednesday then Wednesday - weekday
    else if weekday < 0 then 0 - weekday
    else 7 - (weekday - Wednesday)
  }

  /**
   * The next 3D draw: 16:30 on the first Wednesday strictly after today's date, between one and
   * seven days ahead, whatever the time of day of `now`.
   */
  function NextThreeDDrawTime(now: Moment): (next: Moment)
    requires ValidMoment(now)
    ensures ValidMoment(next) && Before(now, next)
    ensures IsThreeDSlot(next)
    ensures 1 <= next.day - now.day <= 7
    ensures forall t :: IsThreeDSlot(t) && now.day < t.day ==> !Before(t, next)
  {
    var next := SetHours(Moment(now.day + DaysToThreeD(Weekday(now.day)), now.ms), TimeOfDay(16, 30));
    assert forall t :: IsThreeDSlot(t) && now.day < t.day ==> next.day <= t.day by {
      forall t | IsThreeDSlot(t) && now.day < t.day
        ensures next.day <= t.day
      {
        WednesdayGap(now.day, t.day);
      }
    }
    next
  }

  /** Two Wednesdays are a whole number of weeks apart, so no Wednesday lies strictly inside a gap shorter than one. */
  lemma WednesdayGap(d: int, e: int)
    requires d < e && Weekday(e) == Wednesday
    ensures e >= d + DaysToThreeD(Weekday(d))
  {
  }
}
