/**
 * matrix_clock: drawing a clock face, and the decision the main loop takes on
 * each wake-up (every 200 ms): whether anything happens at all, whether the
 * date and weather are polled, whether the face is chosen again, and whether
 * the matrix is redrawn or cleared. The matrix itself is reduced to the list
 * of draw calls currently on screen.
 */
module MainLoop {
  import opened Wrappers
  import CInt
  import opened Colors
  import opened Fonts
  import opened Template
  import opened Variables
  import opened TextLines
  import opened Faces
  import opened Schedule
  import opened FaceContainer

  /** One `DrawText` call: position, colour, font file and text. */
  datatype Draw = Draw(x: int, y: int, color: Rgb, fontPath: string, text: string)

  /**
   * What `update_clock` draws for one stored line: the rendered text clamped to
   * the display, then placed by `parse_x`.
   */
  function RenderLine(l: Line, e: Env): Draw
  {
    var w := Width(l.font);
    var fitted := FitDisplay(Render(l.text, e), w);
    if l.x == -1 then Draw(CenterX(|fitted|, w), l.y, l.color, FontPath(l.font), fitted)
    else Draw(l.x, l.y, l.color, FontPath(l.font), FitFrom(fitted, w, l.x))
  }

  /** A whole face: one draw per line, in the order the lines were added. */
  function Frame(lines: seq<Line>, e: Env): (f: seq<Draw>)
    ensures |f| == |lines|
  {
    seq(|lines|, i requires 0 <= i < |lines| => RenderLine(lines[i], e))
  }

  /**
   * A drawn line keeps the line's colour, y and font, shows a prefix of the
   * rendered template, and stays on the 64-pixel display when it is centred or
   * placed at an x on the display; a centred line that fits is shown whole,
   * with equal margins up to one pixel.
   */
  lemma RenderLineOnDisplay(l: Line, e: Env)
    ensures var d := RenderLine(l, e);
      && d.color == l.color && d.y == l.y && d.fontPath == FontPath(l.font)
      && d.text <= Render(l.text, e)
    ensures var d := RenderLine(l, e);
      l.x == -1 ==>
        && 0 <= d.x <= MatrixWidth / 2
        && d.x + |d.text| * Width(l.font) <= MatrixWidth
        && MatrixWidth - (d.x + |d.text| * Width(l.font)) - d.x in {0, 1}
    ensures var d := RenderLine(l, e);
      0 <= l.x <= MatrixWidth ==> d.x == l.x && d.x + |d.text| * Width(l.font) <= MatrixWidth
    ensures var d := RenderLine(l, e);
      l.x == -1 && |Render(l.text, e)| * Width(l.font) <= MatrixWidth ==> d.text == Render(l.text, e)
  {
    var w := Width(l.font);
    var r := Render(l.text, e);
    var fitted := FitDisplay(r, w);
    FitDisplayFits(r, w);
    if l.x == -1 {
      CenterXFits(|fitted|, w);
    } else if 0 <= l.x <= MatrixWidth {
      FitFromFits(fitted, w, l.x);
    } else {
      if |fitted| * w > MatrixWidth - l.x {
        var count := CInt.Div(MatrixWidth - l.x, w);
        if count >= 0 {
          CountWithin(|fitted|, MatrixWidth - l.x, w);
        }
      }
    }
  }

  /**
   * `update_clock`: a fresh working copy of each line of the face is rendered
   * against the utility and drawn, in order. Neither the face nor the utility
   * changes.
   */
  method UpdateClock(face: ClockFace, util: VariableUtility, now: Tm) returns (frame: seq<Draw>)
    ensures frame == Frame(face.lines, util.Snapshot(now))
  {
    ghost var e := util.Snapshot(now);
    var lines := face.lines;
    frame := [];
    var i := 0;
    while i < |lines|
      invariant 0 <= i <= |lines|
      invariant |frame| == i
      invariant forall k :: 0 <= k < i ==> frame[k] == RenderLine(lines[k], e)
    {
      var d := DrawLine(lines[i], util, now, e);
      frame := frame + [d];
      i := i + 1;
    }
    FrameEach(lines, e, frame);
  }

  /** Draws that render each line in turn make up the frame. */
  lemma FrameEach(lines: seq<Line>, e: Env, frame: seq<Draw>)
    requires |frame| == |lines|
    requires forall k :: 0 <= k < |lines| ==> frame[k] == RenderLine(lines[k], e)
    ensures frame == Frame(lines, e)
  {
  }

  /** The body of `update_clock`'s loop: one working copy rendered, placed and drawn. */
  method DrawLine(line: Line, util: VariableUtility, now: Tm, ghost e: Env) returns (d: Draw)
    requires e == util.Snapshot(now)
    ensures d == RenderLine(line, e)
  {
    var current := new TextLine(line.color, line.font, line.x, line.y, line.text);
    current.ParseVariables(util, now);
    var x := current.ParseX();
    d := Draw(x, current.yPos, current.color, FontPath(current.fontSize), current.parsedText);
  }

  /** `new_minute`: the iteration falls on second 0. */
  predicate NewMinute(now: Tm) {
    now.second == 0
  }

  /** `times[1] % 5 == 0 && new_minute`: the weather is polled every five minutes. */
  predicate WeatherDue(now: Tm) {
    CInt.Rem(now.minute, 5) == 0 && NewMinute(now)
  }

  /** The redraw condition, for the face current after it was chosen again. */
  predicate RedrawDue(hasSeconds: bool, newMinute: bool, forceUpdate: bool) {
    hasSeconds || (!hasSeconds && newMinute) || forceUpdate
  }

  /** The redraw condition is a plain disjunction of its three reasons. */
  lemma RedrawDueIff(hasSeconds: bool, newMinute: bool, forceUpdate: bool)
    ensures RedrawDue(hasSeconds, newMinute, forceUpdate) <==> hasSeconds || newMinute || forceUpdate
  {
  }

  /** With a valid reading the weather is due at minutes 0, 5, ..., 55, second 0, and at no other time. */
  lemma WeatherDueTimes(now: Tm)
    requires ValidTm(now)
    ensures WeatherDue(now) <==> now.second == 0 && now.minute in {0, 5, 10, 15, 20, 25, 30, 35, 40, 45, 50, 55}
  {
  }

  /**
   * The main loop's state: the face container and the utility it shares with
   * the bot, the last second it acted on, and what the matrix currently shows.
   */
  class ClockLoop {
    const faces: ClockFaceContainer
    const util: VariableUtility
    /** The `times` array `get_time` refills on every pass. */
    const times: array<int>
    var previousSecond: int
    var shown: seq<Draw>

    /** The state the start-up code hands to the loop. */
    constructor(faces: ClockFaceContainer, util: VariableUtility, previousSecond: int, shown: seq<Draw>)
      ensures this.faces == faces && this.util == util && fresh(times) && times.Length == 4
      ensures this.previousSecond == previousSecond && this.shown == shown
    {
      this.faces := faces;
      this.util := util;
      times := new int[4];
      this.previousSecond := previousSecond;
      this.shown := shown;
    }

    /** The `times` slots hold the reading `now`, as `get_time` left them. */
    predicate TimesHold(now: Tm)
      reads times
    {
      times.Length == 4 && times[1] == now.minute && times[2] == now.second && times[3] == now.hour
    }

    /** The polls of a new second: the date at 00:00:00, the weather every five minutes. */
    method PollDue(now: Tm, weather: Option<WeatherReading>)
      requires ValidTm(now) && TimesHold(now)
      modifies util
      ensures util.DateFields() == (if IsNewDay(now) then DateOf(now) else old(util.DateFields()))
      ensures util.WeatherFields()
              == (if WeatherDue(now) && weather.Some? then WeatherOf(weather.value) else old(util.WeatherFields()))
      ensures util.weatherUrl == old(util.weatherUrl)
      ensures !IsNewDay(now) && !(WeatherDue(now) && weather.Some?) ==> unchanged(util)
    {
      if IsNewDay(now) {
        util.PollDate(now);
      }
      if CInt.Rem(times[1], 5) == 0 && times[2] == 0 {
        util.PollWeather(weather);
      }
    }

    /**
     * The redraw step of a new second: redraw when due and the clock is on,
     * clear once when a forced update finds the clock off, and always consume
     * the forced update.
     */
    method RedrawIfDue(now: Tm, newMinute: bool)
      modifies this`shown, faces`forceUpdate
      ensures !faces.forceUpdate
      ensures var due := RedrawDue(faces.current.containsSeconds, newMinute, old(faces.forceUpdate));
        shown == (if due && faces.clockOn then Frame(faces.current.lines, util.Snapshot(now))
                  else if due && old(faces.forceUpdate) then []
                  else old(shown))
    {
      var current := faces.current;
      if current.containsSeconds || (!current.containsSeconds && newMinute) || faces.forceUpdate {
        if faces.clockOn {
          shown := UpdateClock(current, util, now);
        }
        if faces.forceUpdate {
          faces.forceUpdate := false;
          if !faces.clockOn {
            shown := [];
          }
        }
      }
    }

    /**
     * After the polls of a new second: choose the face again on a new minute
     * unless overridden, then redraw what is due.
     */
    method ChooseAndRedraw(now: Tm, newMinute: bool)
      requires ValidTm(now) && TimesHold(now) && newMinute == NewMinute(now)
      modifies this`shown, faces`current, faces`forceUpdate
      ensures if newMinute && !faces.overrideInterface
              then faces.ShowsTimeChoice(old(PeriodTable(faces.clockFaces)), now.hour, now.minute)
              else faces.current == old(faces.current)
      ensures var due := RedrawDue(faces.current.containsSeconds, newMinute, old(faces.forceUpdate));
        && !faces.forceUpdate
        && shown == (if due && faces.clockOn then Frame(faces.current.lines, util.Snapshot(now))
                     else if due && old(faces.forceUpdate) then []
                     else old(shown))
    {
      ChooseIfDue(now, newMinute);
      ghost var chosen := faces.current;
      RedrawIfDue(now, newMinute);
      assert faces.current == chosen;
    }

    /** The face is chosen again by time on a new minute, unless it is overridden. */
    method ChooseIfDue(now: Tm, newMinute: bool)
      requires TimesHold(now)
      modifies faces`current
      ensures if newMinute && !faces.overrideInterface
              then faces.ShowsTimeChoice(old(PeriodTable(faces.clockFaces)), now.hour, now.minute)
              else faces.current == old(faces.current)
    {
      if newMinute && !faces.overrideInterface {
        faces.UpdateClockFaceByTime(times[3], times[1]);
      }
    }

    /**
     * A new second outside a reload: consume the second, poll what is due,
     * choose the face again on a new minute unless overridden, then redraw.
     */
    method NewSecond(now: Tm, weather: Option<WeatherReading>)
      requires ValidTm(now) && TimesHold(now)
      modifies this`previousSecond, this`shown, faces`current, faces`forceUpdate, util
      ensures previousSecond == now.second
      ensures util.DateFields() == (if IsNewDay(now) then DateOf(now) else old(util.DateFields()))
      ensures util.WeatherFields()
              == (if WeatherDue(now) && weather.Some? then WeatherOf(weather.value) else old(util.WeatherFields()))
      ensures util.weatherUrl == old(util.weatherUrl)
      ensures if NewMinute(now) && !faces.overrideInterface
              then faces.ShowsTimeChoice(old(PeriodTable(faces.clockFaces)), now.hour, now.minute)
              else faces.current == old(faces.current)
      ensures var due := RedrawDue(faces.current.containsSeconds, NewMinute(now), old(faces.forceUpdate));
        && !faces.forceUpdate
        && shown == (if due && faces.clockOn then Frame(faces.current.lines, util.Snapshot(now))
                     else if due && old(faces.forceUpdate) then []
                     else old(shown))
    {
      ghost var table := PeriodTable(faces.clockFaces);
      previousSecond := times[2];
      PollDue(now, weather);
      assert PeriodTable(faces.clockFaces) == table;
      ChooseAndRedraw(now, times[2] == 0);
    }

    /**
     * One pass of the `while` loop at clock reading `now`; `weather` is what a
     * weather request would return, None when it fails.
     */
    method Iterate(now: Tm, weather: Option<WeatherReading>)
      requires ValidTm(now) && times.Length == 4
      modifies this, times, faces, util
      ensures TimesHold(now)
      // Nothing at all happens within the same second.
      ensures now.second == old(previousSecond) ==>
        && previousSecond == old(previousSecond) && shown == old(shown)
        && unchanged(faces) && unchanged(util)
      // Never any change to the face list or the settings.
      ensures faces.clockFaces == old(faces.clockFaces) && faces.configFile == old(faces.configFile)
      ensures faces.overrideInterface == old(faces.overrideInterface) && faces.clockOn == old(faces.clockOn)
      ensures util.weatherUrl == old(util.weatherUrl)
      // Just after a reload: clear the flag and choose the face by time even if
      // overridden; nothing else, and the second is not consumed.
      ensures now.second != old(previousSecond) && old(faces.recentReload) ==>
        && !faces.recentReload
        && faces.ShowsTimeChoice(old(PeriodTable(faces.clockFaces)), now.hour, now.minute)
        && faces.forceUpdate == old(faces.forceUpdate)
        && previousSecond == old(previousSecond) && shown == old(shown)
        && unchanged(util)
      // A new second: consume it and poll what is due.
      ensures now.second != old(previousSecond) && !old(faces.recentReload) ==>
        && previousSecond == now.second && !faces.recentReload
        && util.DateFields() == (if IsNewDay(now) then DateOf(now) else old(util.DateFields()))
        && util.WeatherFields()
           == (if WeatherDue(now) && weather.Some? then WeatherOf(weather.value) else old(util.WeatherFields()))
      // The face is chosen again only on a new minute, and never while overridden.
      ensures now.second != old(previousSecond) && !old(faces.recentReload) ==>
        if NewMinute(now) && !old(faces.overrideInterface)
        then faces.ShowsTimeChoice(old(PeriodTable(faces.clockFaces)), now.hour, now.minute)
        else faces.current == old(faces.current)
      // Redraw when due and the clock is on; clear once when a forced update
      // finds the clock off; the forced update is always consumed.
      ensures now.second != old(previousSecond) && !old(faces.recentReload) ==>
        var due := RedrawDue(faces.current.containsSeconds, NewMinute(now), old(faces.forceUpdate));
        && !faces.forceUpdate
        && shown == (if due && faces.clockOn then Frame(faces.current.lines, util.Snapshot(now))
                     else if due && old(faces.forceUpdate) then []
                     else old(shown))
    {
      ghost var table := PeriodTable(faces.clockFaces);
      util.GetTime(now, times);
      assert PeriodTable(faces.clockFaces) == table;
      assert TimesHold(now) by {
        assert times[1] == times[..4][1] && times[2] == times[..4][2] && times[3] == times[..4][3];
      }
      Decide(now, weather);
    }

    /** The loop body once `get_time` has filled `times` with the reading `now`. */
    method Decide(now: Tm, weather: Option<WeatherReading>)
      requires ValidTm(now) && TimesHold(now)
      modifies this`previousSecond, this`shown, faces`current, faces`forceUpdate, faces`recentReload, util
      // Nothing at all happens within the same second.
      ensures now.second == old(previousSecond) ==>
        && previousSecond == old(previousSecond) && shown == old(shown)
        && unchanged(faces) && unchanged(util)
      // Never any change to the face list or the settings.
      ensures faces.clockFaces == old(faces.clockFaces) && faces.configFile == old(faces.configFile)
      ensures faces.overrideInterface == old(faces.overrideInterface) && faces.clockOn == old(faces.clockOn)
      ensures util.weatherUrl == old(util.weatherUrl)
      // Just after a reload: clear the flag and choose the face by time even if
      // overridden; nothing else, and the second is not consumed.
      ensures now.second != old(previousSecond) && old(faces.recentReload) ==>
        && !faces.recentReload
        && faces.ShowsTimeChoice(old(PeriodTable(faces.clockFaces)), now.hour, now.minute)
        && faces.forceUpdate == old(faces.forceUpdate)
        && previousSecond == old(previousSecond) && shown == old(shown)
        && unchanged(util)
      // A new second: consume it and poll what is due.
      ensures now.second != old(previousSecond) && !old(faces.recentReload) ==>
        && previousSecond == now.second && !faces.recentReload
        && util.DateFields() == (if IsNewDay(now) then DateOf(now) else old(util.DateFields()))
        && util.WeatherFields()
           == (if WeatherDue(now) && weather.Some? then WeatherOf(weather.value) else old(util.WeatherFields()))
      // The face is chosen again only on a new minute, and never while overridden.
      ensures now.second != old(previousSecond) && !old(faces.recentReload) ==>
        if NewMinute(now) && !old(faces.overrideInterface)
        then faces.ShowsTimeChoice(old(PeriodTable(faces.clockFaces)), now.hour, now.minute)
        else faces.current == old(faces.current)
      // Redraw when due and the clock is on; clear once when a forced update
      // finds the clock off; the forced update is always consumed.
      ensures now.second != old(previousSecond) && !old(faces.recentReload) ==>
        var due := RedrawDue(faces.current.containsSeconds, NewMinute(now), old(faces.forceUpdate));
        && !faces.forceUpdate
        && shown == (if due && faces.clockOn then Frame(faces.current.lines, util.Snapshot(now))
                     else if due && old(faces.forceUpdate) then []
                     else old(shown))
    {
      var newSecond := times[2];
      if previousSecond != newSecond {
        if !faces.recentReload {
          NewSecond(now, weather);
        } else {
          Reloaded(now);
        }
      }
    }

    /**
     * The first new second after a reload: the flag is cleared and the face is
     * chosen by time, overridden or not.
     */
    method Reloaded(now: Tm)
      requires TimesHold(now)
      modifies faces`recentReload, faces`current
      ensures !faces.recentReload
      ensures faces.ShowsTimeChoice(old(PeriodTable(faces.clockFaces)), now.hour, now.minute)
    {
      faces.recentReload := false;
      faces.UpdateClockFaceByTime(times[3], times[1]);
    }

    /**
     * A forced update is honoured exactly once. Two iterations in two new
     * seconds, away from the minute, on a face without seconds: the first
     * redraws (or clears an off clock), and the second leaves the screen as
     * the first left it.
     */
    method ForcedUpdateHonouredOnce(now1: Tm, now2: Tm, weather1: Option<WeatherReading>,
                                    weather2: Option<WeatherReading>) returns (afterFirst: seq<Draw>)
      requires ValidTm(now1) && ValidTm(now2) && times.Length == 4
      requires now1.second != previousSecond && now2.second != now1.second
      requires !NewMinute(now1) && !NewMinute(now2)
      requires faces.forceUpdate && !faces.recentReload && !faces.current.containsSeconds
      modifies this, times, faces, util
      ensures afterFirst == (if faces.clockOn then Frame(faces.current.lines, util.Snapshot(now1)) else [])
      ensures shown == afterFirst && !faces.forceUpdate
    {
      Iterate(now1, weather1);
      ForcedUpdateOnce(faces.current.containsSeconds, NewMinute(now1));
      afterFirst := shown;
      ghost var e := util.Snapshot(now1);
      Iterate(now2, weather2);
      ForcedUpdateOnce(faces.current.containsSeconds, NewMinute(now2));
      assert util.Snapshot(now1) == e;
    }
  }

  /**
   * With no seconds on the face and away from the minute, the redraw is due
   * exactly when an update is forced.
   */
  lemma ForcedUpdateOnce(hasSeconds: bool, newMinute: bool)
    requires !hasSeconds && !newMinute
    ensures RedrawDue(hasSeconds, newMinute, true)
    ensures !RedrawDue(hasSeconds, newMinute, false)
  {
  }
}
