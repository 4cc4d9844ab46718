/**
 * matrix_timer: a countdown or a stopwatch driven one tick per second. The
 * ended sentinel is `hour == -1`; after reaching zero a countdown "holds" on
 * screen for a number of ticks counted in `holdEnding`.
 */
module Timers {
  import CInt
  import opened TextUtil

  /** Every field the timer methods read or write. */
  datatype TimerState = TimerState(
    hour: int, minute: int, second: int,
    originalHour: int, originalMinute: int, originalSecond: int,
    tickNum: int, holdEnding: int,
    started: bool, paused: bool, stopwatch: bool)

  /** The value -2 in any argument asks for a stopwatch. */
  predicate IsStopwatchRequest(hour: int, minute: int, second: int) {
    hour == -2 || minute == -2 || second == -2
  }

  /**
   * The constructor: a countdown of `3600h + 60m + s` ticks, or, when any
   * argument is -2, a stopwatch at 0. Nothing is started or paused. The
   * stopwatch's own hour, minute and second are left unset by the source and
   * are 0 here.
   */
  function Create(hour: int, minute: int, second: int): (t: TimerState)
    ensures t.stopwatch <==> IsStopwatchRequest(hour, minute, second)
    ensures !t.stopwatch ==> t.tickNum == hour * 3600 + minute * 60 + second
    ensures !t.stopwatch ==> t.originalHour == hour && t.originalMinute == minute && t.originalSecond == second
    ensures t.stopwatch ==> t.tickNum == 0 && t.originalHour == 0 && t.originalMinute == 0 && t.originalSecond == 0
    ensures t.holdEnding == 0 && !t.started && !t.paused
  {
    if !IsStopwatchRequest(hour, minute, second) then
      TimerState(hour, minute, second, hour, minute, second,
                 hour * 3600 + minute * 60 + second, 0, false, false, false)
    else
      TimerState(0, 0, 0, 0, 0, 0, 0, 0, false, false, true)
  }

  /** `calculate_current_time`: hours, minutes and seconds of `tickNum` with C++ `/` and `%`. */
  function Split(t: TimerState): (u: TimerState)
    ensures u.tickNum == t.tickNum && u.holdEnding == t.holdEnding
    ensures u.started == t.started && u.paused == t.paused && u.stopwatch == t.stopwatch
  {
    t.(hour := CInt.Div(t.tickNum, 3600),
       minute := CInt.Rem(CInt.Div(t.tickNum, 60), 60),
       second := CInt.Rem(t.tickNum, 60))
  }

  /** Splitting a non-negative count recovers it, with minute and second below 60. */
  lemma SplitRoundTrip(t: TimerState)
    requires t.tickNum >= 0
    ensures var u := Split(t);
      && 0 <= u.minute < 60 && 0 <= u.second < 60 && 0 <= u.hour
      && u.hour * 3600 + u.minute * 60 + u.second == t.tickNum
  {
    var n := t.tickNum;
    assert n / 60 == (n / 3600) * 60 + (n / 60) % 60 by {
      assert n == (n / 60) * 60 + n % 60;
      assert n / 60 / 60 == n / 3600;
    }
  }

  /** A countdown built from a valid h:m:s splits back into exactly those values. */
  lemma CreateSplitRoundTrip(hour: int, minute: int, second: int)
    requires 0 <= hour && 0 <= minute < 60 && 0 <= second < 60
    ensures var u := Split(Create(hour, minute, second));
      u.hour == hour && u.minute == minute && u.second == second
  {
    var t := Create(hour, minute, second);
    SplitRoundTrip(t);
    var u := Split(t);
    assert u.second == t.tickNum % 60;
    assert u.hour == t.tickNum / 3600;
  }

  /** `end_timer`: the ended sentinel, stopped, with a hold beyond any 16-bit limit. */
  function Ended(t: TimerState): (u: TimerState)
    ensures u.hour == -1 && u.minute == 0 && u.second == 0
    ensures !u.started && u.holdEnding == CInt.Int16Max
    ensures u.tickNum == t.tickNum && u.paused == t.paused && u.stopwatch == t.stopwatch
  {
    t.(hour := -1, minute := 0, second := 0, started := false, holdEnding := CInt.Int16Max)
  }

  /** The counting part of `tick`, before the hold limit is looked at. */
  function Advance(t: TimerState): TimerState {
    if !t.started then t
    else if !t.stopwatch then
      if t.tickNum > 0 then t.(tickNum := t.tickNum - 1) else t.(holdEnding := t.holdEnding + 1)
    else t.(tickNum := t.tickNum + 1)
  }

  /**
   * `tick(hold_max)`: the new state and the value returned. A paused timer is
   * left alone; a hold that reaches `holdMax` ends the timer and returns the
   * (now maximal) hold; otherwise the negated hold while holding, else the count.
   */
  function Ticked(t: TimerState, holdMax: int): (TimerState, int)
  {
    if t.paused then (t, t.tickNum)
    else
      var a := Advance(t);
      if a.holdEnding >= holdMax then (Ended(a), Ended(a).holdEnding)
      else (a, if a.holdEnding > 0 then -a.holdEnding else a.tickNum)
  }

  /** `can_tick(hold_max)`. */
  function Tickable(t: TimerState, holdMax: int): bool {
    t.holdEnding + 1 < holdMax || (!t.started && t.hour != -1)
  }

  /** The text `format_timer` streams for an already split state. */
  function FormatText(t: TimerState): string {
    var hourPart := if t.hour != 0 then IntToString(t.hour) + ":" + (if t.minute < 10 then "0" else "") else "";
    var stopwatchPad := if t.stopwatch && t.minute < 10 && t.hour == 0 then "0" else "";
    var text := hourPart + stopwatchPad + IntToString(t.minute) + ":"
                + (if t.second < 10 then "0" else "") + IntToString(t.second);
    if !t.started && t.stopwatch then "00:00" else text
  }

  /** `format_timer`: splits `tickNum` into the h/m/s fields, then formats them. */
  function Formatted(t: TimerState): (TimerState, string) {
    var u := Split(t);
    (u, FormatText(u))
  }

  /** `reset_timer` as the source writes it: a countdown's `tickNum` is not recomputed. */
  function ResetAsWritten(t: TimerState): (u: TimerState)
    ensures !u.started && u.holdEnding == 0
    ensures !t.stopwatch ==> u.tickNum == t.tickNum
  {
    var u := t.(started := false, holdEnding := 0,
                hour := t.originalHour, minute := t.originalMinute, second := t.originalSecond);
    if t.stopwatch then u.(originalHour := 0, originalMinute := 0, originalSecond := 0, tickNum := 0)
    else u
  }

  /**
   * `reset_timer` as intended: the restored h/m/s become the count again, so a
   * countdown starts over from its original length.
   */
  function Reset(t: TimerState): (u: TimerState)
    ensures !u.started && u.holdEnding == 0
    ensures u.tickNum == u.originalHour * 3600 + u.originalMinute * 60 + u.originalSecond
    ensures t.stopwatch ==> u.tickNum == 0
  {
    var u := ResetAsWritten(t);
    u.(tickNum := u.originalHour * 3600 + u.originalMinute * 60 + u.originalSecond)
  }

  // ---------------------------------------------------------------------------
  // Properties of ticking
  // ---------------------------------------------------------------------------

  /** A paused tick returns the count and changes nothing. */
  lemma PausedTickIsNoop(t: TimerState, holdMax: int)
    requires t.paused
    ensures Ticked(t, holdMax) == (t, t.tickNum)
  {
  }

  /**
   * A started countdown counts down while above 0 and never below it; at 0 the
   * hold grows instead.
   */
  lemma CountdownStep(t: TimerState, holdMax: int)
    requires t.started && !t.paused && !t.stopwatch && t.tickNum >= 0
    ensures Ticked(t, holdMax).0.tickNum >= 0
    ensures t.tickNum > 0 ==> Ticked(t, holdMax).0.tickNum == t.tickNum - 1
    ensures t.tickNum > 0 && t.holdEnding < holdMax ==> Ticked(t, holdMax).0.holdEnding == t.holdEnding
    ensures t.tickNum == 0 && t.holdEnding + 1 < holdMax ==>
              Ticked(t, holdMax).0.holdEnding == t.holdEnding + 1 && Ticked(t, holdMax).0.tickNum == 0
  {
  }

  /** A started stopwatch counts up and never holds. */
  lemma StopwatchStep(t: TimerState, holdMax: int)
    requires t.started && !t.paused && t.stopwatch && t.holdEnding == 0 && holdMax > 0
    ensures Ticked(t, holdMax) == (t.(tickNum := t.tickNum + 1), t.tickNum + 1)
  {
  }

  /** The values `n` successive ticks return. */
  function Run(t: TimerState, holdMax: int, n: nat): seq<int>
    decreases n
  {
    if n == 0 then [] else [Ticked(t, holdMax).1] + Run(Ticked(t, holdMax).0, holdMax, n - 1)
  }

  /** The state after `n` successive ticks. */
  function After(t: TimerState, holdMax: int, n: nat): TimerState
    decreases n
  {
    if n == 0 then t else After(Ticked(t, holdMax).0, holdMax, n - 1)
  }

  /** n - 1, n - 2, ..., 0: what a countdown of n returns while counting. */
  function Descending(n: nat): (s: seq<int>)
    ensures |s| == n && forall i :: 0 <= i < n ==> s[i] == n - 1 - i
  {
    seq(n, i requires 0 <= i < n => n - 1 - i)
  }

  /** -(h + 1), -(h + 2), ...: `n` values returned while holding from `h`. */
  function Holding(h: int, n: nat): (s: seq<int>)
    ensures |s| == n && forall i :: 0 <= i < n ==> s[i] == -(h + 1 + i)
  {
    seq(n, i requires 0 <= i < n => -(h + 1 + i))
  }

  /** While the count is above 0 a started countdown returns it, one less per tick. */
  lemma {:induction false} CountingDown(t: TimerState, holdMax: int, n: nat)
    requires t.started && !t.paused && !t.stopwatch
    requires t.tickNum == n && t.holdEnding == 0 && holdMax > 0
    ensures Run(t, holdMax, n) == Descending(n)
    ensures After(t, holdMax, n) == t.(tickNum := 0)
    decreases n
  {
    if n > 0 {
      var next := t.(tickNum := n - 1);
      assert Ticked(t, holdMax) == (next, n - 1);
      CountingDown(next, holdMax, n - 1);
      assert Run(t, holdMax, n) == [n - 1] + Descending(n - 1);
      assert [n - 1] + Descending(n - 1) == Descending(n);
    }
  }

  /**
   * At 0 the countdown holds: from hold `h` it returns -(h + 1), -(h + 2), ...
   * for `holdMax - h - 1` ticks, then ends the timer and returns INT16_MAX.
   */
  lemma {:induction false} HoldingOn(t: TimerState, holdMax: int, k: nat)
    requires t.started && !t.paused && !t.stopwatch && t.tickNum == 0
    requires 0 <= t.holdEnding && t.holdEnding + k == holdMax && k >= 1
    ensures Run(t, holdMax, k) == Holding(t.holdEnding, k - 1) + [CInt.Int16Max]
    ensures After(t, holdMax, k) == Ended(t.(holdEnding := holdMax))
    decreases k
  {
    var h := t.holdEnding;
    var next := t.(holdEnding := h + 1);
    if k == 1 {
      assert Ticked(t, holdMax) == (Ended(next), CInt.Int16Max);
      assert Run(t, holdMax, 1) == [CInt.Int16Max];
    } else {
      assert Ticked(t, holdMax) == (next, -(h + 1));
      HoldingOn(next, holdMax, k - 1);
      assert Run(t, holdMax, k) == [-(h + 1)] + Holding(h + 1, k - 2) + [CInt.Int16Max];
      assert [-(h + 1)] + Holding(h + 1, k - 2) == Holding(h, k - 1);
    }
  }

  /** Running `m` ticks and then `n` more is running `m + n` ticks. */
  lemma {:induction false} RunConcat(t: TimerState, holdMax: int, m: nat, n: nat)
    ensures Run(t, holdMax, m + n) == Run(t, holdMax, m) + Run(After(t, holdMax, m), holdMax, n)
    ensures After(t, holdMax, m + n) == After(After(t, holdMax, m), holdMax, n)
    decreases m
  {
    if m > 0 {
      RunConcat(Ticked(t, holdMax).0, holdMax, m - 1, n);
      assert m + n - 1 == (m - 1) + n;
    }
  }

  /**
   * The life of a started countdown of `n` ticks with hold limit `holdMax`:
   * n - 1 down to 0, then -1 down to -(holdMax - 1) while holding, then the
   * timer ends, returning INT16_MAX, and cannot tick any more.
   */
  lemma CountdownLifecycle(t: TimerState, holdMax: int, n: nat)
    requires t.started && !t.paused && !t.stopwatch
    requires t.tickNum == n && t.holdEnding == 0 && 0 < holdMax <= CInt.Int16Max
    ensures Run(t, holdMax, n + holdMax) == Descending(n) + Holding(0, holdMax - 1) + [CInt.Int16Max]
    ensures After(t, holdMax, n + holdMax) == Ended(t.(tickNum := 0, holdEnding := holdMax))
    ensures !Tickable(After(t, holdMax, n + holdMax), holdMax)
  {
    CountingDown(t, holdMax, n);
    HoldingOn(t.(tickNum := 0), holdMax, holdMax);
    RunConcat(t, holdMax, n, holdMax);
  }

  /**
   * A started (0, 0, 5) countdown with a hold limit of 3 returns 4, 3, 2, 1, 0,
   * then -1, -2 while holding, and then ends, returning the maximal hold.
   */
  lemma CountdownExample(t: TimerState)
    requires t.started && !t.paused && !t.stopwatch && t.tickNum == 5 && t.holdEnding == 0
    ensures Run(t, 3, 8) == [4, 3, 2, 1, 0, -1, -2, CInt.Int16Max]
  {
    CountdownLifecycle(t, 3, 5);
    assert Descending(5) == [4, 3, 2, 1, 0];
    assert Holding(0, 2) == [-1, -2];
  }

  /** An ended timer cannot tick for any hold limit up to INT16_MAX. */
  lemma EndedCannotTick(t: TimerState, holdMax: int)
    requires holdMax <= CInt.Int16Max
    ensures !Tickable(Ended(t), holdMax)
  {
  }

  /**
   * Formatting recomputes the hour from the count, so it overwrites the ended
   * sentinel: an ended timer that is formatted can tick again.
   */
  lemma FormatClearsEndedSentinel(t: TimerState, holdMax: int)
    requires t.tickNum >= 0
    ensures Formatted(Ended(t)).0.hour != -1
    ensures Tickable(Formatted(Ended(t)).0, holdMax)
  {
  }

  // ---------------------------------------------------------------------------
  // Properties of formatting
  // ---------------------------------------------------------------------------

  /** A countdown under an hour reads "M:SS": unpadded minutes, two-digit seconds. */
  lemma CountdownUnderAnHour(t: TimerState)
    requires !t.stopwatch && 0 <= t.tickNum < 3600
    ensures Formatted(t).1 == IntToString(t.tickNum / 60) + ":" + PadNumbers(t.tickNum % 60)
  {
    var u := SplitUnderAnHour(t);
    assert Formatted(t).1 == FormatText(u);
    assert !u.stopwatch && u.hour == 0;
    assert FormatText(u) == "" + "" + IntToString(u.minute) + ":" + PadNumbers(u.second);
    assert "" + "" + IntToString(u.minute) == IntToString(u.minute);
  }

  /** Under an hour the split has no hours: the minutes and seconds are the count's. */
  lemma SplitUnderAnHour(t: TimerState) returns (u: TimerState)
    requires 0 <= t.tickNum < 3600
    ensures u == Split(t) && u.hour == 0
    ensures u.minute == t.tickNum / 60 && u.second == t.tickNum % 60
    ensures 0 <= u.minute < 60 && 0 <= u.second < 60
  {
    u := Split(t);
    assert CInt.Div(t.tickNum, 60) == t.tickNum / 60;
  }

  /** A running stopwatch under an hour reads "MM:SS". */
  lemma StopwatchUnderAnHour(t: TimerState)
    requires t.stopwatch && t.started && 0 <= t.tickNum < 3600
    ensures Formatted(t).1 == PadNumbers(t.tickNum / 60) + ":" + PadNumbers(t.tickNum % 60)
    ensures |Formatted(t).1| == 5
  {
    var u := SplitUnderAnHour(t);
    var m := u.minute;
    assert Formatted(t).1 == FormatText(u);
    assert u.stopwatch && u.started && u.hour == 0;
    assert FormatText(u) == "" + (if m < 10 then "0" else "") + IntToString(m) + ":" + PadNumbers(u.second);
    assert "" + (if m < 10 then "0" else "") == (if m < 10 then "0" else "");
    assert (if m < 10 then "0" else "") + IntToString(m) == PadNumbers(m);
    PadNumbersTwoDigits(m);
    PadNumbersTwoDigits(u.second);
  }

  /** From an hour on, the text is "H:MM:SS". */
  lemma FormatWithHours(t: TimerState)
    requires 3600 <= t.tickNum && (t.started || !t.stopwatch)
    ensures var u := Split(t);
      Formatted(t).1 == IntToString(u.hour) + ":" + PadNumbers(u.minute) + ":" + PadNumbers(u.second)
  {
    SplitRoundTrip(t);
    var u := Split(t);
    assert Formatted(t).1 == FormatText(u);
    assert u.hour >= 1 && (u.started || !u.stopwatch);
    var pad := if u.minute < 10 then "0" else "";
    var lead := IntToString(u.hour) + ":";
    var m := IntToString(u.minute);
    assert FormatText(u) == (lead + pad) + "" + m + ":" + PadNumbers(u.second);
    assert (lead + pad) + "" + m == lead + PadNumbers(u.minute);
  }

  /** A stopwatch that has not started always reads "00:00". */
  lemma UnstartedStopwatch(t: TimerState)
    requires t.stopwatch && !t.started
    ensures Formatted(t).1 == "00:00"
  {
  }

  /** A countdown at 65 ticks reads "1:05". */
  lemma CountdownFormatExample(t: TimerState)
    requires !t.stopwatch && t.tickNum == 65
    ensures Formatted(t).1 == "1:05"
  {
    CountdownUnderAnHour(t);
    PadNumbersTwoDigits(5);
    assert DigitChar(1) == '1' && DigitChar(5) == '5';
  }

  /** A countdown at 5 ticks reads "0:05", and at 0 ticks "0:00". */
  lemma CountdownFiveExample(t: TimerState)
    requires !t.stopwatch && (t.tickNum == 5 || t.tickNum == 0)
    ensures t.tickNum == 5 ==> Formatted(t).1 == "0:05"
    ensures t.tickNum == 0 ==> Formatted(t).1 == "0:00"
  {
    CountdownUnderAnHour(t);
    PadNumbersTwoDigits(t.tickNum);
    assert IntToString(0) == "0" by { assert DigitChar(0) == '0'; }
    if t.tickNum == 5 {
      assert PadNumbers(5) == "05" by { assert DigitChar(5) == '5'; }
    } else {
      assert PadNumbers(0) == "00";
    }
  }

  /** A countdown at 3725 ticks reads "1:02:05". */
  lemma HourFormatExample(t: TimerState)
    requires !t.stopwatch && t.tickNum == 3725
    ensures Formatted(t).1 == "1:02:05"
  {
    FormatWithHours(t);
    assert Split(t).hour == 1 && Split(t).minute == 2 && Split(t).second == 5;
    PadNumbersTwoDigits(2);
    PadNumbersTwoDigits(5);
    assert DigitChar(1) == '1' && DigitChar(2) == '2' && DigitChar(5) == '5';
  }

  /** A running stopwatch at 65 ticks reads "01:05". */
  lemma StopwatchFormatExample(t: TimerState)
    requires t.stopwatch && t.started && t.tickNum == 65
    ensures Formatted(t).1 == "01:05"
  {
    StopwatchUnderAnHour(t);
  }

  // ---------------------------------------------------------------------------
  // Reset
  // ---------------------------------------------------------------------------

  /** Ticking, ending and formatting never touch the original length. */
  lemma OriginalsStable(t: TimerState, holdMax: int)
    ensures var u := Ticked(t, holdMax).0;
      u.originalHour == t.originalHour && u.originalMinute == t.originalMinute && u.originalSecond == t.originalSecond
    ensures var u := Formatted(t).0;
      u.originalHour == t.originalHour && u.originalMinute == t.originalMinute && u.originalSecond == t.originalSecond
  {
  }

  /** The text depends only on the count and the started and stopwatch flags. */
  lemma FormatDependsOnCount(t: TimerState, u: TimerState)
    requires t.tickNum == u.tickNum && t.started == u.started && t.stopwatch == u.stopwatch
    ensures Formatted(t).1 == Formatted(u).1
  {
  }

  /**
   * As written: once a (0, 0, 5) countdown has run down to 0, resetting
   * restores h/m/s but keeps the count at 0, so the display shows "0:00" and
   * not "0:05", and the first formatting overwrites the restored h/m/s too.
   */
  lemma ResetAsWrittenKeepsElapsedCount(t: TimerState)
    requires !t.stopwatch && t.tickNum == 0
    requires t.originalHour == 0 && t.originalMinute == 0 && t.originalSecond == 5
    ensures ResetAsWritten(t).tickNum == 0
    ensures Formatted(ResetAsWritten(t)).1 == "0:00"
    ensures Formatted(ResetAsWritten(t)).0.second == 0
  {
    CountdownFiveExample(ResetAsWritten(t));
  }

  /**
   * Intended: resetting an unpaused countdown made by `Create(h, m, s)`, after
   * any ticks, gives back exactly the freshly created timer.
   */
  lemma ResetRestoresCountdown(hour: int, minute: int, second: int, t: TimerState)
    requires !IsStopwatchRequest(hour, minute, second)
    requires !t.stopwatch && !t.paused
    requires t.originalHour == hour && t.originalMinute == minute && t.originalSecond == second
    ensures Reset(t) == Create(hour, minute, second)
  {
  }

  /** Intended, on the same run: the display shows the original "0:05" again. */
  lemma ResetExample(t: TimerState)
    requires !t.stopwatch && t.tickNum == 0
    requires t.originalHour == 0 && t.originalMinute == 0 && t.originalSecond == 5
    ensures Reset(t).tickNum == 5
    ensures Formatted(Reset(t)).1 == "0:05"
  {
    CountdownFiveExample(Reset(t));
  }

  /** A reset stopwatch is a fresh stopwatch, whatever ran before. */
  lemma ResetRestoresStopwatch(t: TimerState)
    requires t.stopwatch && !t.paused
    requires t.originalHour == 0 && t.originalMinute == 0 && t.originalSecond == 0
    ensures Reset(t) == Create(-2, -2, -2)
  {
  }

  /** The timer object; its methods follow the functions above one for one. */
  class MatrixTimer {
    var hour: int
    var minute: int
    var second: int
    var originalHour: int
    var originalMinute: int
    var originalSecond: int
    var tickNum: int
    var holdEnding: int
    var started: bool
    var paused: bool
    var stopwatch: bool

    function State(): TimerState
      reads this
    {
      TimerState(hour, minute, second, originalHour, originalMinute, originalSecond,
                 tickNum, holdEnding, started, paused, stopwatch)
    }

    constructor(hour: int, minute: int, second: int)
      ensures State() == Create(hour, minute, second)
    {
      started := false;
      paused := false;
      stopwatch := false;
      if hour != -2 && minute != -2 && second != -2 {
        this.hour, originalHour := hour, hour;
        this.minute, originalMinute := minute, minute;
        this.second, originalSecond := second, second;
        tickNum := hour * 3600 + minute * 60 + second;
      } else {
        this.hour, this.minute, this.second := 0, 0, 0;
        originalHour, originalMinute, originalSecond := 0, 0, 0;
        stopwatch := true;
        tickNum := 0;
      }
      holdEnding := 0;
    }

    method CalculateCurrentTime()
      modifies this
      ensures State() == Split(old(State()))
    {
      hour := CInt.Div(tickNum, 3600);
      minute := CInt.Rem(CInt.Div(tickNum, 60), 60);
      second := CInt.Rem(tickNum, 60);
    }

    method EndTimer()
      modifies this
      ensures State() == Ended(old(State()))
    {
      hour := -1;
      minute, second := 0, 0;
      started := false;
      holdEnding := CInt.Int16Max;
    }

    method Tick(holdMax: int) returns (r: int)
      modifies this
      ensures (State(), r) == Ticked(old(State()), holdMax)
    {
      if paused {
        return tickNum;
      }
      if started {
        if !stopwatch {
          if tickNum > 0 {
            tickNum := tickNum - 1;
          } else {
            holdEnding := holdEnding + 1;
          }
        } else {
          tickNum := tickNum + 1;
        }
      }
      if holdEnding >= holdMax {
        EndTimer();
        return holdEnding;
      }
      r := if holdEnding > 0 then -holdEnding else tickNum;
    }

    function CanTick(holdMax: int): (b: bool)
      reads this
      ensures b == Tickable(State(), holdMax)
    {
      holdEnding + 1 < holdMax || (!started && hour != -1)
    }

    method FormatTimer() returns (text: string)
      modifies this
      ensures (State(), text) == Formatted(old(State()))
    {
      CalculateCurrentTime();
      var hourPart := "";
      if hour != 0 {
        hourPart := IntToString(hour) + ":";
        if minute < 10 {
          hourPart := hourPart + "0";
        }
      }
      var stopwatchPad := "";
      if stopwatch && minute < 10 && hour == 0 {
        stopwatchPad := "0";
      }
      var secondPad := if second < 10 then "0" else "";
      text := hourPart + stopwatchPad + IntToString(minute) + ":" + secondPad + IntToString(second);
      assert hourPart == if hour != 0 then IntToString(hour) + ":" + (if minute < 10 then "0" else "") else "";
      assert (!started && stopwatch) || text == FormatText(State());
      if !started && stopwatch {
        text := "00:00";
      }
    }

    /** `reset_timer` as written: a countdown keeps its count (see `ResetAsWritten`). */
    method ResetTimer()
      modifies this
      ensures State() == ResetAsWritten(old(State()))
    {
      started := false;
      holdEnding := 0;
      hour := originalHour;
      minute := originalMinute;
      second := originalSecond;
      if stopwatch {
        originalHour, originalMinute, originalSecond := 0, 0, 0;
        tickNum := 0;
      }
    }
  }
}
