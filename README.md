# MatrixClock scheduler and rendering core, in Dafny

MatrixClock drives a 64-pixel-wide RGB LED matrix as a clock. A JSON
configuration describes *clock faces*: named layouts, each with daily time
windows (`time_period`) and text lines. A line has a colour, a font size, a
position and a template such as `"{hour}:{minute} {ampm}"`. Once per second,
the main loop does four things:

- reads the time;
- polls the date at midnight and the weather every five minutes;
- re-selects the face whose window contains the current time, unless a user
  has overridden it;
- redraws when the face shows seconds, when a new minute starts, or when an
  update was forced.

The model covers, module by module:

- `TimePeriods` (`time_period.cpp`): minute-of-day window membership.
- `Fonts` and `Colors` (`matrix_font.cpp`, `matrix_color.cpp` and the colour
  map in `matrix_clock.h`): the font widths and paths and the prebuilt
  palette, including the unknown-name fallback of the map's `operator[]`.
- `TextUtil`, `Template`, `Variables` and `TextLines` (`variable_utility.cpp`,
  `text_line.cpp`):
  - `replace_string` as a loop, proved equal to a recursive reference
    `ReplaceAll`;
  - `pad_numbers`;
  - the token substitution;
  - the 12/24-hour split of `get_time`;
  - `is_new_day` and `poll_date`, plus the weather fields written by
    `poll_weather`;
  - the width clamp and x positioning of a text line.
- `Faces`, `Schedule`, `ClockData` and `FaceContainer` (`matrix_clock.h`,
  `matrix_data.cpp`, `clock_face_container.cpp`): clock faces as classes, and
  both generations of the face scheduler. The selection loops are proved
  against the first-match functions `FirstByName` and `FirstByTime`. The
  loaders work over an already-decoded configuration.
- `Timers` (`matrix_timer.cpp`): the countdown/stopwatch state machine as a
  class whose methods are proved equal to pure transition functions. The
  whole life of a countdown is proved as a trace.
- `MainLoop` (`matrix_clock.cpp`):
  - `update_clock` as a method producing the list of draw calls;
  - one iteration of the `while` loop as `ClockLoop.Iterate`, with every
    branch of lines 142-189 in its contract.

`CInt` holds the C++ integer semantics that matter here. It has:

- truncating `/` and `%`;
- `size_t` subtraction modulo 2^64;
- the cast of a `size_t` to `int`;
- `INT16_MAX`.

## Model

| member | source | states |
|---|---|---|
| TimePeriods.InTimePeriod | time_period.cpp:19-31 | `in_time_period`: the minutes from the start to the time and the window's length, both shifted by a day and taken with C++ `%`; false when the two are equal, else true iff the offset is below the length |
| TimePeriods.DifferencesInRange | time_period.cpp:20-25 | for valid bounds and time, both the window length and the offset of the current minute lie in [0, 1439] |
| TimePeriods.InTimePeriodModular | time_period.cpp:19-31 | membership is exactly `(now - start) mod 1440 < (end - start) mod 1440`, both directions |
| TimePeriods.CurrentDifferenceMod | time_period.cpp:20-25 | the C++ `%` of the offset shifted by a day equals the true remainder of the offset modulo 1440 |
| TimePeriods.TimeDifferenceMod | time_period.cpp:20-24 | the C++ `%` of the length shifted by a day equals the true remainder of the length modulo 1440 |
| TimePeriods.EmptyPeriodNeverMatches | time_period.cpp:27-28 | a window whose start equals its end contains no time of day |
| TimePeriods.StartIsInside | time_period.cpp:20-30 | a non-empty window contains its own start minute |
| TimePeriods.EndIsOutside | time_period.cpp:24-28 | the end minute is never inside: windows are half-open |
| TimePeriods.OvernightExample | time_period.cpp:19-31 | 22:00-06:00 contains 23:30 and 02:00 but not 10:00 |
| Fonts.FontPath | matrix_font.cpp:26-39 | `parse_font`: the `.bdf` file of each size (5x8, 6x9, 8x13, 8x13B); the default branch cannot be reached |
| Fonts.Width | matrix_font.cpp:12-25 | every font has width 5, 6 or 8, so the `default: 0` branch cannot be reached |
| Fonts.WidthTable | matrix_font.cpp:12-25 | small 5, medium 6, large 8, large_bold 8, all positive |
| Fonts.FontFromString | matrix_font.cpp:42-52 | exactly "small", "medium" and "large" map to those sizes; everything else maps to large_bold |
| Fonts.FontNameRoundTrip | matrix_font.cpp:42-52 | parsing a font's own name gives that font back |
| Fonts.FontFromStringFallback | matrix_font.cpp:42-52 | the match is case-sensitive: "Small", "" and "huge" all give large_bold |
| Fonts.FontPathsDistinct | matrix_font.cpp:18-21 | each size has its own `.bdf` path; large and large_bold share a width but not a path |
| Colors.FromPrebuilt | matrix_color.cpp:18-62 | every prebuilt colour has all components in [0, 255] |
| Colors.PaletteTable | matrix_color.cpp:18-62 | the eleven palette triples, red (128,0,0) to brown (101,67,33) |
| Colors.PaletteAliases | matrix_color.cpp:58-59 | night_time is red, and black is the default-constructed colour |
| Colors.UnassignedComponentsKept | matrix_clock.h:50 | a component that a palette case does not assign keeps its initial value |
| Colors.PrebuiltFromName | matrix_clock.h:43-49 | a known name maps to its palette entry; an unknown name maps to the enum's first value, red |
| Colors.FromName | matrix_clock.h:68 | the string constructor: the palette entry looked up by name and parsed onto black, red for a name that is not in the palette |
| Colors.FromNameResolves | matrix_clock.h:68 | the string constructor yields the named triple, or red (128,0,0) for an unknown name |
| Colors.FromNameExamples | matrix_clock.h:43-49 | "blue" is (0,64,255); "Blue" is unknown and so red; "night_time" equals "red" |
| Faces.ClockFace.constructor | matrix_data.cpp:137 | a new face has no lines, no periods and no seconds flag |
| Faces.ClockFace.Named | matrix_clock.h:260 | the one-argument constructor: the given name, the default black background, no lines, no periods, seconds flag false |
| Faces.ClockFace.AddTimePeriod | matrix_clock.h:264 | appends one period and changes nothing else |
| Faces.ClockFace.AddText | matrix_clock.h:271 | appends one line and changes nothing else |
| Faces.ClockFace.GetLine | matrix_clock.h:274 | returns the i-th line added |
| Faces.ClockFace.SetContainsSecondVariable | matrix_clock.h:285-291 | afterwards the flag reads back as given; lines and periods are untouched |
| Faces.ColorOf | matrix_data.cpp:126-134 | "none" selects the explicit r, g, b; any other name resolves through the palette |
| Faces.FillFace | matrix_data.cpp:140-185 | periods and lines are appended in file order; the seconds flag is set iff some raw line text holds "{second}" |
| Faces.AddPeriods | matrix_data.cpp:140-152 | every window of the record is appended in file order; lines and the seconds flag are untouched |
| Faces.AddLines | matrix_data.cpp:155-185 | every line of the record is appended in file order with its resolved colour and font; the seconds flag is raised iff some raw text holds "{second}" |
| TextUtil.PadNumbers | variable_utility.cpp:179-189 | `pad_numbers`: a "0" before the decimal text of a number below 10, the plain decimal text otherwise |
| TextUtil.ReplaceAll | variable_utility.cpp:191-198 | the reference for `replace_string`: scanning left to right, each occurrence is replaced and the scan resumes after the inserted text |
| TextUtil.ToUpper | matrix_data.cpp:61 | `toupper` in the C locale: a-z become A-Z, every other character is kept |
| TextUtil.ToLower | matrix_data.cpp:63 | `tolower` in the C locale: A-Z become a-z, every other character is kept |
| TextUtil.EqualsIgnoreCase | matrix_data.cpp:25 | `!strcasecmp(a, b)`: the two texts are equal once every ASCII letter is lower-cased |
| TextUtil.NatToStringRoundTrip | variable_utility.cpp:186 | the decimal text of n reads back as n |
| TextUtil.PadNumbersTwoDigits | text_line.cpp:100-110 | for 0..99 the padded text has two digits, reads back as n, and is "0" then the digit below 10 |
| TextUtil.PadNumbersPlain | variable_utility.cpp:179-189 | from 10 up, the padding adds nothing |
| TextUtil.FindFrom | variable_utility.cpp:192 | the result is the first occurrence at or after `from`; None means there is none |
| TextUtil.ReplaceString | variable_utility.cpp:191-198 | the in-place loop computes the reference replacement `ReplaceAll` |
| TextUtil.ReplaceAllAbsent | text_line.cpp:112-119 | a source with no occurrence comes back unchanged |
| TextUtil.ReplaceAllFirst | text_line.cpp:112-119 | the leftmost occurrence is replaced and the scan resumes after the inserted text |
| TextUtil.ReplaceAllNoOverlap | text_line.cpp:116-117 | occurrences are not overlapping: "aaa" with "aa" to "b" gives "ba" |
| TextUtil.ReplaceAllNoRescan | text_line.cpp:117 | inserted text is never rescanned: "{x}" to "{x}{x}" terminates with "{x}{x}" |
| TextUtil.ToLowerOfCase | matrix_data.cpp:26 | lower-casing after upper- or lower-casing is the same as lower-casing once |
| Template.WindText | text_line.cpp:88-91 | the wind text up to and including the character after the first dot; with no dot, `npos + 2` wraps to 1 and only the first character is kept |
| Template.Render | variable_utility.cpp:114-145 | the eighteen tokens in source order, each replaced everywhere by `ReplaceAll` with its value from the snapshot |
| Template.AmPm | text_line.cpp:74 | "am" iff the 24-hour hour is below 12, else "pm" |
| Template.WindTextOneDecimal | text_line.cpp:88-91 | the wind text is cut right after the first digit that follows the dot |
| Template.WindTextExample | variable_utility.cpp:141-142 | "7.000000" shows as "7.0" and "12.345678" as "12.3" |
| Template.RenderWithoutTokens | variable_utility.cpp:114-145 | a template holding no known token comes back unchanged |
| Template.RenderHour | variable_utility.cpp:122 | "{hour}" becomes the unpadded 12-hour hour |
| Template.RenderMinute | variable_utility.cpp:123 | "{minute}" becomes exactly two digits |
| Template.RenderSecond | variable_utility.cpp:124 | "{second}" becomes exactly two digits |
| Template.RenderHour24 | variable_utility.cpp:125 | "{hour24}" becomes the unpadded 24-hour hour |
| Template.RenderAmPm | variable_utility.cpp:126 | "{ampm}" becomes am/pm, unaffected by the tokens replaced before it |
| Template.Substitute | text_line.cpp:62-87 | the sequence of `replace_string` calls equals the reference rendering `Render` |
| Variables.Hour12 | variable_utility.cpp:162-168 | for 0..23 the 12-hour value is in 1..12 and congruent to the hour modulo 12 |
| Variables.Hour12Table | variable_utility.cpp:167-168 | 0 and 12 become 12; 1..11 and 13..23 become 1..11 |
| Variables.IsNewDay | variable_utility.cpp:153-158 | true iff hour, minute and second are all 0 |
| Variables.FormattedDateExample | variable_utility.cpp:109-111 | the date is unpadded month-day-year: 7 March 2024 is "3-7-2024" |
| Variables.ShortForecastOf | variable_utility.cpp:88-90 | a forecast containing "Thunder" becomes "T-Storms"; anything else is kept |
| Variables.ShortForecastNeverThunder | variable_utility.cpp:88-90 | the short forecast never contains "Thunder" |
| Variables.WeatherOf | variable_utility.cpp:80-91 | the weather fields written from a reading never show "Thunder" |
| Variables.VariableUtility.constructor | variable_utility.cpp:29-38 | forecast "N/A", short forecast "~Error~", zero readings and wind "0.000000" |
| Variables.VariableUtility.PollWeather | variable_utility.cpp:55-97 | a reading replaces exactly the weather fields; a failed fetch changes nothing |
| Variables.VariableUtility.PollDate | variable_utility.cpp:99-112 | the date fields become the function of the `tm` record; only the seven date fields may change |
| Variables.VariableUtility.GetTime | variable_utility.cpp:160-169 | the first four array cells become 12-hour hour, minute, second and 24-hour hour; the rest are untouched |
| Variables.VariableUtility.Snapshot | variable_utility.cpp:114-121 | the values substituted are the `get_time` values plus the stored date and weather fields |
| Variables.VariableUtility.ParseVariables | variable_utility.cpp:114-145 | works on a copy: returns the rendering of the template and changes no field |
| Variables.ClockTokens | variable_utility.cpp:122-126 | for a valid time: "{hour}" is the 12-hour hour, "{minute}" is padded, "{second}" has two characters, "{ampm}" follows the hour |
| TextLines.FitDisplay | text_line.cpp:93-96 | text wider than the 64-pixel display is cut to 64 / width characters; narrower text is kept |
| TextLines.CenterX | text_line.cpp:50-52 | (64 - len * width) / 2 computed in `size_t` and narrowed to `int` |
| TextLines.FitFrom | text_line.cpp:53-58 | text that overruns the right edge from x is cut to the truncating (64 - x) / width characters; a negative count leaves it as it is |
| TextLines.FitDisplayFits | text_line.cpp:93-96 | the clamped text is a prefix of the input, fits in 64 columns, is whole when it fits, and is the longest prefix that fits |
| TextLines.CenterXFits | text_line.cpp:50-52 | a centred text that fits starts at (64 - len*width)/2, within [0, 32] |
| TextLines.CenterXOverhang | text_line.cpp:50-52 | text wider than the display gets a negative x from the truncating division |
| TextLines.CenterXExample | text_line.cpp:50-52 | five medium characters are centred at x = 17 |
| TextLines.FitFromFits | text_line.cpp:53-58 | for 0 <= x <= 64, the text is cut to the longest prefix that fits in 64 - x columns and is kept whole when it fits |
| TextLines.FitFromPastEdge | text_line.cpp:55-57 | beyond the right edge, the `size_t` wrap either empties the text or leaves it whole |
| TextLines.CenteredAfterClamp | text_line.cpp:50-52 | after the width clamp a centred line always starts within [0, 32] |
| TextLines.TextLine.constructor | text_line.cpp:39-45 | stores colour, font, position and raw text; no parsed text yet |
| TextLines.TextLine.ParseVariables | text_line.cpp:62-97 | restarts from the raw text, so the parsed text is always the clamped rendering of the current values |
| TextLines.TextLine.ParseX | text_line.cpp:47-60 | -1 gives the centred x and keeps the text; any other x is returned and the text is cut to fit from it |
| Schedule.FirstByTime | matrix_data.cpp:34-51 | the index of the first face having a window that holds the time, None when no face has one |
| Schedule.FirstByName | matrix_data.cpp:23-32 | the index of the first face whose name equals the given one ignoring case, None when there is none |
| Schedule.FirstByTimeFrom | matrix_data.cpp:40-45 | the result is a matching face with no earlier match; None means no face matches |
| Schedule.AnyWindowHolds | matrix_data.cpp:40-45 | the scan of one face's windows finds a match iff some window contains the time |
| Schedule.FirstByNameFrom | matrix_data.cpp:25-29 | the result is a name equal ignoring case with no earlier one; None means none |
| Schedule.FirstByTimeIsEarliest | matrix_data.cpp:40-45 | if face i matches, a face is selected and it is face i or an earlier one |
| Schedule.FirstByNameIsEarliest | matrix_data.cpp:25-29 | if name i matches, a face is selected and it is i or an earlier one |
| Schedule.FirstByNameCaseBlind | matrix_data.cpp:26 | names that differ only in case select the same face |
| Schedule.Capitalize | matrix_data.cpp:59-65 | same length; the first character is upper-cased and every other one lower-cased |
| Schedule.CapitalizeSameName | matrix_data.cpp:53-70 | a display name equals its face's name ignoring case |
| Schedule.SelectByDisplayName | matrix_data.cpp:23-70 | selecting by a name from `get_names` picks that face or an earlier one with the same name ignoring case |
| ClockData.MatrixData.constructor | matrix_data.cpp:15-21 | no override, no forced update, clock on, and a black `~empty~` face as current |
| ClockData.MatrixData.AddClockFace | matrix_clock.h:304 | appends one face |
| ClockData.MatrixData.UpdateClockFaceByName | matrix_data.cpp:23-32 | current becomes the first face matching the name ignoring case, else the empty face; only `current` changes |
| ClockData.MatrixData.UpdateClockFaceByTime | matrix_data.cpp:34-51 | current becomes the first face in file order with a window containing the time, else the empty face |
| ClockData.MatrixData.GetNames | matrix_data.cpp:53-70 | one capitalised name per face, in face order |
| ClockData.MatrixData.LoadClockData | matrix_data.cpp:72-214 | clears faces, notifications and current first; a failed parse leaves no faces; a good one rebuilds every face in file order |
| ClockData.MatrixData.LoadFaces | matrix_data.cpp:119-188 | one fresh face per record, in file order, carrying the record's name, background, windows, lines and seconds flag |
| ClockData.MatrixData.LoadNotifications | matrix_data.cpp:193-207 | the notifications become exactly the records, in file order |
| FaceContainer.ClockFaceContainer.constructor | clock_face_container.cpp:14-20 | no override, no forced update, clock on, and an `~empty~` face as current |
| FaceContainer.ClockFaceContainer.GetClockFaceCount | matrix_clock.h:307 | the count is the number of faces added |
| FaceContainer.ClockFaceContainer.GetClockFace | matrix_clock.h:310 | returns the i-th face added, which is one of the faces |
| FaceContainer.ClockFaceContainer.AddClockFace | matrix_clock.h:304 | appends one face |
| FaceContainer.ClockFaceContainer.UpdateClockFaceByName | clock_face_container.cpp:22-31 | first face matching the name ignoring case, else the empty face |
| FaceContainer.ClockFaceContainer.UpdateClockFaceByTime | clock_face_container.cpp:33-50 | first face, then first window, containing the time, else the empty face |
| FaceContainer.ClockFaceContainer.GetNames | clock_face_container.cpp:52-69 | count, order and length preserved; only the first character is upper-cased |
| FaceContainer.ClockFaceContainer.LoadClockFaces | clock_face_container.cpp:71-151 | empties the container and resets current first; each face's seconds flag is set iff a raw line holds "{second}" |
| Timers.Create | matrix_timer.cpp:20-33 | a countdown iff no argument is -2, with tick_num = 3600h + 60m + s; otherwise a stopwatch at 0 with zero originals; hold 0 |
| Timers.Split | matrix_timer.cpp:14-18 | `calculate_current_time`: hour, minute and second from the count with C++ truncating `/` and `%`; the count, hold and flags are kept |
| Timers.Ticked | matrix_timer.cpp:35-59 | `tick`: a paused timer is left alone; otherwise the count moves one step (down to 0 then the hold grows, or up for a stopwatch); a hold reaching the maximum ends the timer and returns the hold, a positive hold returns its negation, else the count |
| Timers.Tickable | matrix_timer.cpp:61-63 | `can_tick`: the next hold is below the maximum, or the timer is not started and not ended |
| Timers.FormatText | matrix_timer.cpp:67-93 | the streamed text: "H:" and a two-digit minute when there are hours, a padded minute for a stopwatch under an hour, a two-digit second, and "00:00" for a stopwatch not yet started |
| Timers.Formatted | matrix_timer.cpp:65-95 | `format_timer`: the split state and its `FormatText` |
| Timers.SplitRoundTrip | matrix_timer.cpp:14-18 | the hour, minute and second split back into the same tick count, with minute and second in [0, 59] |
| Timers.CreateSplitRoundTrip | matrix_timer.cpp:14-33 | splitting a new countdown's count gives back the hour, minute and second it was built from |
| Timers.Ended | matrix_timer.cpp:97-102 | hour -1, minute and second 0, not started, hold INT16_MAX; the count is kept |
| Timers.PausedTickIsNoop | matrix_timer.cpp:36-37 | a paused tick returns tick_num and changes nothing |
| Timers.CountdownStep | matrix_timer.cpp:40-45 | a running countdown decrements while above 0, never goes negative, then increments the hold |
| Timers.StopwatchStep | matrix_timer.cpp:46-48 | a running stopwatch increments its count and keeps its hold at 0 |
| Timers.CountingDown | matrix_timer.cpp:40-58 | n ticks of a countdown started at n return n-1, ..., 0 and leave the count at 0 |
| Timers.HoldingOn | matrix_timer.cpp:44-58 | after 0, the ticks return -1, -2, ... and then INT16_MAX as the timer ends |
| Timers.RunConcat | matrix_timer.cpp:35-59 | running m + n ticks is running m ticks then n more |
| Timers.CountdownLifecycle | matrix_timer.cpp:35-63 | the whole trace of a countdown: the count down to 0, the hold values, INT16_MAX; the timer ends and cannot tick |
| Timers.CountdownExample | matrix_timer.cpp:40-58 | a countdown from 5 with hold 3 returns 4, 3, 2, 1, 0, -1, -2, INT16_MAX |
| Timers.EndedCannotTick | matrix_timer.cpp:61-63 | after `end_timer`, `can_tick(hold_max)` is false for every hold_max up to INT16_MAX |
| Timers.FormatClearsEndedSentinel | matrix_timer.cpp:61-66 | formatting an ended timer recomputes the hour from the count, so -1 is gone and it can tick again |
| Timers.CountdownUnderAnHour | matrix_timer.cpp:65-95 | a countdown under an hour shows "M:SS" |
| Timers.StopwatchUnderAnHour | matrix_timer.cpp:78-88 | a running stopwatch under an hour shows "MM:SS", five characters |
| Timers.FormatWithHours | matrix_timer.cpp:70-76 | from an hour up, the text is "H:MM:SS" |
| Timers.UnstartedStopwatch | matrix_timer.cpp:90-92 | an unstarted stopwatch shows "00:00" |
| Timers.CountdownFormatExample | matrix_timer.cpp:65-95 | 65 seconds left shows "1:05" |
| Timers.CountdownFiveExample | matrix_timer.cpp:65-95 | 5 seconds left shows "0:05"; 0 left shows "0:00" |
| Timers.HourFormatExample | matrix_timer.cpp:65-95 | 3725 seconds left shows "1:02:05" |
| Timers.StopwatchFormatExample | matrix_timer.cpp:78-88 | a stopwatch at 65 shows "01:05" |
| Timers.OriginalsStable | matrix_timer.cpp:35-95 | ticking and formatting never change the originals |
| Timers.FormatDependsOnCount | matrix_timer.cpp:65-95 | the text depends only on the count, started and stopwatch |
| Timers.ResetAsWritten | matrix_timer.cpp:104-115 | the reset as written: not started, hold 0, and a countdown keeps its count |
| Timers.ResetAsWrittenKeepsElapsedCount | matrix_timer.cpp:104-115 | a 0:05 countdown that ran out is reset as written to a count of 0 and shows "0:00" |
| Timers.Reset | matrix_timer.cpp:104-115 | the corrected reset: not started, hold 0, and the count is rebuilt from the originals |
| Timers.ResetRestoresCountdown | matrix_timer.cpp:20-33 | a reset countdown equals a new timer built from its originals |
| Timers.ResetExample | matrix_timer.cpp:104-115 | a 0:05 countdown that ran out is reset to 5 and shows "0:05" |
| Timers.ResetRestoresStopwatch | matrix_timer.cpp:111-114 | a reset stopwatch equals a new stopwatch |
| Timers.MatrixTimer.constructor | matrix_timer.cpp:20-33 | the state is `Create(h, m, s)` |
| Timers.MatrixTimer.CalculateCurrentTime | matrix_timer.cpp:14-18 | hour, minute and second become the truncating split of the count; nothing else changes |
| Timers.MatrixTimer.EndTimer | matrix_timer.cpp:97-102 | the state becomes `Ended` of the old state |
| Timers.MatrixTimer.Tick | matrix_timer.cpp:35-59 | the new state and the returned value are `Ticked` of the old state |
| Timers.MatrixTimer.CanTick | matrix_timer.cpp:61-63 | `(hold + 1) < hold_max`, or not started with hour not -1 |
| Timers.MatrixTimer.FormatTimer | matrix_timer.cpp:65-95 | recomputes hour, minute and second, then returns the formatted text |
| Timers.MatrixTimer.ResetTimer | matrix_timer.cpp:104-115 | the state becomes `ResetAsWritten` of the old state: started cleared, hold 0, h/m/s restored; a stopwatch also zeroes its originals and count, while a countdown keeps its count |
| MainLoop.NewMinute | matrix_clock.cpp:151 | a new minute starts when the second reads 0 |
| MainLoop.WeatherDue | matrix_clock.cpp:157 | the minute is a multiple of 5 (C++ `%`) and a new minute starts |
| MainLoop.RedrawDue | matrix_clock.cpp:170 | the face shows seconds, or it does not and a new minute starts, or an update is forced |
| MainLoop.RenderLine | matrix_clock.cpp:41-49 | one line's draw call: the rendering clamped to the display, at the centred x for -1 or else at x with the text cut from x, in the line's colour, y and font file |
| MainLoop.Frame | matrix_clock.cpp:40-50 | one draw call per line of the face |
| MainLoop.RenderLineOnDisplay | matrix_clock.cpp:41-49 | each draw keeps the line's colour, font and y; its text is a prefix of the rendering; a centred line starts in [0, 32] with margins differing by at most one; drawn text fits on the display |
| MainLoop.UpdateClock | matrix_clock.cpp:37-51 | the draw calls are those of `Frame` on the face's lines, in order |
| MainLoop.DrawLine | matrix_clock.cpp:41-49 | a fresh copy of the line, rendered and placed, draws exactly `RenderLine` of the stored line |
| MainLoop.RedrawDueIff | matrix_clock.cpp:170 | a redraw happens iff the face shows seconds, or a new minute starts, or an update is forced |
| MainLoop.WeatherDueTimes | matrix_clock.cpp:157 | weather is polled exactly at second 0 of minutes 0, 5, ..., 55 |
| MainLoop.ForcedUpdateOnce | matrix_clock.cpp:170-183 | with no seconds on the face and no new minute, the redraw is due iff an update is forced |
| MainLoop.ClockLoop.PollDue | matrix_clock.cpp:154-158 | the date is polled only at 00:00:00; the weather only on a new minute divisible by 5; nothing else changes |
| MainLoop.ClockLoop.RedrawIfDue | matrix_clock.cpp:164-184 | draws the current face when due and the clock is on; clears the display once when a forced update meets a clock that is off; clears the forced flag |
| MainLoop.ClockLoop.ChooseIfDue | matrix_clock.cpp:160-162 | on a new minute without an override the face is re-selected by time; otherwise the current face is kept |
| MainLoop.ClockLoop.ChooseAndRedraw | matrix_clock.cpp:160-184 | the selection above, then the redraw decision on the face it leaves current |
| MainLoop.ClockLoop.NewSecond | matrix_clock.cpp:151-184 | records the second, polls, re-selects by time only on a new minute without an override, then redraws if due |
| MainLoop.ClockLoop.Iterate | matrix_clock.cpp:142-189 | the same second changes nothing but the time array; after a reload the flag is cleared and the face is re-selected even when overridden, with no drawing; otherwise the new-second branch runs |
| MainLoop.ClockLoop.Decide | matrix_clock.cpp:145-189 | with the time array filled: the same second changes nothing; a reload clears its flag and re-selects; otherwise the new-second branch runs |
| MainLoop.ClockLoop.Reloaded | matrix_clock.cpp:185-188 | the reload flag is cleared and the face is re-selected by time, override or not |
| MainLoop.ClockLoop.ForcedUpdateHonouredOnce | matrix_clock.cpp:142-189 | over two iterations in new seconds away from the minute, on a face without seconds, a forced update redraws the face (or clears an off clock) in the first, and the second leaves that screen unchanged |

## Left out

- JSON decoding, file reading and the curl weather fetch. The loaders take an
  already-decoded configuration (`Config`, or a sequence of `FaceConfig`),
  with None for a file that does not parse. `PollWeather` takes an optional,
  already-decoded reading, where None stands for a failed fetch.
- The exception a missing or mistyped JSON member raises part-way through a
  load; the model only has the two outcomes, parsed or not.
- The float-to-string conversion of temperatures and wind speed. The wind
  speed is carried as its already-formatted decimal text, and the
  temperatures as integers.
- The system clock (`get_tm`, `localtime`). Every operation that reads the
  time takes the `tm` fields as a parameter `now`. A single reading `now` stands
  for every clock read in one loop iteration, where the source reads the
  clock separately (variable_utility.cpp:100, 117-118 and 153-158).
- The LED matrix, fonts and canvas: `LoadFont`, `DrawText`, `SwapOnVSync`,
  `Clear` and the colour conversion. `update_clock` yields the draw calls it
  would make, and `ClockLoop.shown` is the frame last displayed. A cleared
  display is the empty frame.
- The startup code of `main` before line 142, the 200 ms sleep between
  iterations, the signal handler and argument parsing.
- The bot thread (`telegram_handler.cpp`, `matrix_telegram.h`). It is not
  part of this model; its effects appear only as the shared flags the loop
  reads. There is no concurrency in the model.
- The push-notification class and `is_push_time`, which are not part of this
  model; notifications are stored as records.
- The timer's `start`/`pause` setters live in a header that is not part of
  this model. `started` and `paused` are plain fields of the state.
- TimePeriods: the `int` arithmetic cannot overflow for valid times, so no
  32-bit wrap-around is modelled there.
- Timers.MatrixTimer.Tick: `tick_num` and `hold_ending` are unbounded
  integers. The 32-bit overflow of a stopwatch left running for 68 years is
  not modelled.
- TextLines.CenterXOverhang: states the overhang only while `len * width`
  stays below 2^32. Beyond that, the `int` cast of the product wraps; this is
  not modelled.
- TextUtil.EqualsIgnoreCase: `strcasecmp` stops at an embedded NUL
  character; the model compares whole strings.
- Faces.ClockFace.Named: the older face type has no background colour; the
  model gives it the default black.
- Faces.ClockFace.GetLine: the source reads out of bounds for a bad index;
  the model requires a valid index.
- FaceContainer.ClockFaceContainer.GetClockFace: the source reads out of
  bounds for a bad index; the model requires a valid index.
- Byte-level text: a Dafny `char` stands for one byte of a `std::string`, so
  templates and face text are taken to be ASCII. For multi-byte UTF-8 text
  (a degree sign, say) the source's `size`, `substr` and `toupper` count and
  cut bytes, so its width clamp, centring and name matching differ from the
  model's.
- Timers.MatrixTimer.ResetTimer: follows `reset_timer` as written, so a
  reset countdown keeps its count; the corrected `Reset` (see Findings) is
  stated and proved on timer values only.
- Timers.Create: a stopwatch's hour, minute and second are left unset by the
  source's constructor (and `can_tick` reads the hour); the model sets them
  to 0.
- Variables.VariableUtility.constructor: the date fields are left unset by
  the source until the first date poll; the model starts them as "" and 0.
- ClockData.MatrixData.constructor: `current` and the recent-reload flag are
  uninitialised in the source; the model starts them as the empty face and
  false. The same holds for the older container.
- TextLines.FitFromPastEdge: for x beyond 64, `parse_x` is modelled with the
  `size_t` wrap-around it performs, but no display property is claimed.
- Slot-encoded x positions and day-of-week restrictions on windows do not
  occur in this code and are not modelled.

## Findings

| source | as written | input that shows it | evidently intended | confidence | as-written member | corrected member |
|---|---|---|---|---|---|---|
| matrix_timer.cpp:104-115 | `reset_timer` restores the original hour, minute and second but recomputes `tick_num` only for a stopwatch. A countdown keeps its elapsed count. | A countdown built as (0, 0, 5), run down to 0, then reset: `tick_num` stays 0, and the next `format_timer` shows "0:00" | A reset countdown starts again from its original length: `tick_num` = 5, shown as "0:05" | medium, not executed | Timers.ResetAsWrittenKeepsElapsedCount | Timers.ResetRestoresCountdown |
