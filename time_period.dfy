/**
 * time_period: a daily window of minutes-since-midnight that may wrap past
 * midnight. A window is half-open, [start, end), and a zero-length window
 * matches no time of day.
 */
module TimePeriods {
  import CInt

  const MinutesPerDay: int := 1440

  /** The four bounds exactly as the constructor stores them. */
  datatype TimePeriod = TimePeriod(hourStart: int, minuteStart: int, hourEnd: int, minuteEnd: int)
  {
    function StartMinute(): int { hourStart * 60 + minuteStart }
    function EndMinute(): int { hourEnd * 60 + minuteEnd }
  }

  /** A clock reading of the kind `localtime` produces. */
  predicate ValidTime(hour: int, minute: int) {
    0 <= hour < 24 && 0 <= minute < 60
  }

  /** Both bounds are clock readings. */
  predicate ValidPeriod(p: TimePeriod) {
    ValidTime(p.hourStart, p.minuteStart) && ValidTime(p.hourEnd, p.minuteEnd)
  }

  /** `time_difference`: the length of the window, taken with C++ `%`. */
  function TimeDifference(p: TimePeriod): int {
    CInt.Rem(p.EndMinute() + MinutesPerDay - p.StartMinute(), MinutesPerDay)
  }

  /** `current_difference`: how far the current time lies past the start, with C++ `%`. */
  function CurrentDifference(p: TimePeriod, hour: int, minute: int): int {
    CInt.Rem(hour * 60 + minute + MinutesPerDay - p.StartMinute(), MinutesPerDay)
  }

  /** `in_time_period`: equal differences never match, otherwise the offset must be below the length. */
  function InTimePeriod(p: TimePeriod, hour: int, minute: int): bool {
    var timeDifference := TimeDifference(p);
    var currentDifference := CurrentDifference(p, hour, minute);
    if timeDifference == currentDifference then false
    else timeDifference > currentDifference
  }

  /** For clock readings both differences are minutes of a day. */
  lemma DifferencesInRange(p: TimePeriod, hour: int, minute: int)
    requires ValidPeriod(p) && ValidTime(hour, minute)
    ensures 0 <= TimeDifference(p) < MinutesPerDay
    ensures 0 <= CurrentDifference(p, hour, minute) < MinutesPerDay
  {
  }

  /**
   * Membership is the Euclidean statement: the offset of now from the start,
   * modulo a day, is below the length of the window modulo a day.
   */
  lemma InTimePeriodModular(p: TimePeriod, hour: int, minute: int)
    requires ValidPeriod(p) && ValidTime(hour, minute)
    ensures InTimePeriod(p, hour, minute)
            <==> (hour * 60 + minute - p.StartMinute()) % MinutesPerDay
                 < (p.EndMinute() - p.StartMinute()) % MinutesPerDay
  {
    CurrentDifferenceMod(p, hour, minute);
    TimeDifferenceMod(p);
  }

  /** The C++ offset of the current minute is the mathematical remainder of the signed offset. */
  lemma CurrentDifferenceMod(p: TimePeriod, hour: int, minute: int)
    requires ValidPeriod(p) && ValidTime(hour, minute)
    ensures CurrentDifference(p, hour, minute) == (hour * 60 + minute - p.StartMinute()) % MinutesPerDay
  {
    var a := hour * 60 + minute - p.StartMinute();
    assert 0 <= p.StartMinute() < MinutesPerDay;
    DayShift(a);
  }

  /** The C++ window length is the mathematical remainder of the signed length. */
  lemma TimeDifferenceMod(p: TimePeriod)
    requires ValidPeriod(p)
    ensures TimeDifference(p) == (p.EndMinute() - p.StartMinute()) % MinutesPerDay
  {
    var b := p.EndMinute() - p.StartMinute();
    assert 0 <= p.StartMinute() < MinutesPerDay && 0 <= p.EndMinute() < MinutesPerDay;
    DayShift(b);
  }

  /** Adding a day before the C++ `%` turns it into the Euclidean one for offsets within a day. */
  lemma DayShift(x: int)
    requires -MinutesPerDay < x < MinutesPerDay
    ensures CInt.Rem(x + MinutesPerDay, MinutesPerDay) == x % MinutesPerDay
  {
    assert CInt.Rem(x + MinutesPerDay, MinutesPerDay) == (x + MinutesPerDay) % MinutesPerDay;
    if x >= 0 {
      assert (x + MinutesPerDay) % MinutesPerDay == x;
      assert x % MinutesPerDay == x;
    } else {
      assert (x + MinutesPerDay) % MinutesPerDay == x + MinutesPerDay;
      assert x % MinutesPerDay == x + MinutesPerDay;
    }
  }

  /** A window whose start equals its end matches no time of day. */
  lemma EmptyPeriodNeverMatches(p: TimePeriod, hour: int, minute: int)
    requires ValidPeriod(p) && ValidTime(hour, minute)
    requires p.hourStart == p.hourEnd && p.minuteStart == p.minuteEnd
    ensures !InTimePeriod(p, hour, minute)
  {
  }

  /** The start minute of a non-empty window lies inside it. */
  lemma StartIsInside(p: TimePeriod)
    requires ValidPeriod(p) && p.StartMinute() != p.EndMinute()
    ensures InTimePeriod(p, p.hourStart, p.minuteStart)
  {
  }

  /** The end minute never lies inside: the window is half-open. */
  lemma EndIsOutside(p: TimePeriod)
    requires ValidPeriod(p)
    ensures !InTimePeriod(p, p.hourEnd, p.minuteEnd)
  {
  }

  /** 22:00-06:00 crosses midnight: it holds 23:30 and 02:00 but not 10:00. */
  lemma OvernightExample()
    ensures InTimePeriod(TimePeriod(22, 0, 6, 0), 23, 30)
    ensures InTimePeriod(TimePeriod(22, 0, 6, 0), 2, 0)
    ensures !InTimePeriod(TimePeriod(22, 0, 6, 0), 10, 0)
  {
  }
}
