/** The clock that the animation loop advances on every frame while the
    animation is switched on (app.js:501-506): the hour of the day grows by a
    tenth of an hour, wraps to zero at 24 and then moves the day of the year
    on, with day 365 followed by day 1. The clock starts on day 172 at noon
    (app.js:20-21). */
module Animation {

  const FirstDay: int := 1
  const LastDay: int := 365
  const HoursPerDay: real := 24.0
  /** How far one frame moves the clock, in hours. */
  const HourStep: real := 0.1

  /** A reading of the clock. */
  datatype Time = Time(day: int, hour: real)

  /** The readings the sliders and the loop keep the clock within. */
  predicate InRange(t: Time) {
    FirstDay <= t.day <= LastDay && 0.0 <= t.hour < HoursPerDay
  }

  /** The day after `day`, wrapping from the last day of the year to the first. */
  function FollowingDay(day: int): (r: int)
    ensures FirstDay <= day <= LastDay ==> FirstDay <= r <= LastDay
    ensures day < LastDay ==> r == day + 1
  {
    if day + 1 > LastDay then FirstDay else day + 1
  }

  /** One frame of the loop. */
  function Next(t: Time): (r: Time)
    ensures InRange(t) ==> InRange(r)
    ensures InRange(t) ==> (r.day != t.day <==> t.hour + HourStep >= HoursPerDay)
    ensures r.day != t.day ==> r.hour == 0.0 && r.day == FollowingDay(t.day)
    ensures r.day == t.day ==> r.hour == t.hour + HourStep
  {
    var hour := t.hour + HourStep;
    if hour >= HoursPerDay then Time(FollowingDay(t.day), 0.0) else Time(t.day, hour)
  }

  /** The reading after `n` frames. */
  function Ticks(t: Time, n: nat): (r: Time)
    ensures InRange(t) ==> InRange(r)
    decreases n
  {
    if n == 0 then t else Next(Ticks(t, n - 1))
  }

  /** Hours since the start of day 1. */
  function Elapsed(t: Time): real {
    (t.day - FirstDay) as real * HoursPerDay + t.hour
  }

  // ----------------------------------------------------------------- lemmas

  /** Within a year a frame moves the clock forward, by at most a tenth of an
      hour: the wrap to midnight only drops the part of the step that would
      have gone past 24. */
  lemma TickAdvances(t: Time)
    requires InRange(t)
    requires t.day < LastDay || t.hour + HourStep < HoursPerDay
    ensures Elapsed(t) < Elapsed(Next(t)) <= Elapsed(t) + HourStep
  {
  }

  /** At the end of the last day the clock goes back to midnight of day 1. */
  lemma YearWraps(hour: real)
    requires HoursPerDay - HourStep <= hour < HoursPerDay
    ensures Next(Time(LastDay, hour)) == Time(FirstDay, 0.0)
  {
  }

  /** Starting at midnight, the first 239 frames stay on the same day, each
      adding a tenth of an hour. */
  lemma {:induction false} WithinDay(day: int, k: nat)
    requires k < 240
    ensures Ticks(Time(day, 0.0), k) == Time(day, k as real * HourStep)
  {
    if k > 0 {
      WithinDay(day, k - 1);
      assert Ticks(Time(day, 0.0), k) == Next(Time(day, (k - 1) as real * HourStep));
    }
  }

  /** With exact arithmetic a day lasts 240 frames: from midnight, frame 240
      is midnight of the following day. */
  lemma DayLength(day: int)
    ensures Ticks(Time(day, 0.0), 240) == Time(FollowingDay(day), 0.0)
  {
    WithinDay(day, 239);
    assert Ticks(Time(day, 0.0), 240) == Next(Time(day, 239.0 * HourStep));
  }

  /** The module-level `dayOfYear` and `hourOfDay` that the loop updates. */
  class Clock {
    var dayOfYear: int
    var hourOfDay: real

    function Now(): Time
      reads this
    {
      Time(dayOfYear, hourOfDay)
    }

    ghost predicate Valid()
      reads this
    {
      InRange(Now())
    }

    /** The initial values: day 172, noon. */
    constructor ()
      ensures dayOfYear == 172 && hourOfDay == 12.0
      ensures Valid()
    {
      dayOfYear := 172;
      hourOfDay := 12.0;
    }

    /** The time step of `animate` when the animation is on. */
    method Tick()
      modifies this
      ensures Now() == Next(old(Now()))
      ensures old(Valid()) ==> Valid()
    {
      hourOfDay := hourOfDay + HourStep;
      if hourOfDay >= HoursPerDay {
        hourOfDay := 0.0;
        dayOfYear := dayOfYear + 1;
        if dayOfYear > LastDay {
          dayOfYear := FirstDay;
        }
      }
    }
  }
}
