/**
 * variable_utility: the time, date and weather values the templates draw on.
 * The system clock is an input (a `Tm` reading), and a weather poll arrives as
 * an already-decoded reading, or None when the request or its decoding failed.
 */
module Variables {
  import opened Wrappers
  import opened TextUtil
  import CInt
  import Template

  /** The `std::tm` fields the utility reads. `mon` counts from 0 and `year` from 1900. */
  datatype Tm = Tm(hour: int, minute: int, second: int, mday: int, mon: int, year: int, wday: int)

  /** The ranges `localtime` fills in; `tm_sec` may reach 60 on a leap second. */
  predicate ValidTm(t: Tm) {
    && 0 <= t.hour < 24 && 0 <= t.minute < 60 && 0 <= t.second <= 60
    && 1 <= t.mday <= 31 && 0 <= t.mon < 12 && 0 <= t.wday < 7
  }

  const Months: seq<string> := [
    "January", "February", "March", "April", "May", "June", "July",
    "August", "September", "October", "November", "December"]

  const Days: seq<string> := [
    "Sunday", "Monday", "Tuesday", "Wednesday", "Thursday", "Friday", "Saturday"]

  /** One decoded weather response: the fields `poll_weather` copies, already rounded. */
  datatype WeatherReading = WeatherReading(
    description: string, main: string,
    temp: int, feelsLike: int, humidity: int,
    windSpeed: string)

  /** `times[0]`: the hour modulo 12, with 0 shown as 12. */
  function Hour12(hour: int): (h: int)
    ensures 0 <= hour < 24 ==> 1 <= h <= 12 && h % 12 == hour % 12
  {
    var r := CInt.Rem(hour, 12);
    if r == 0 then 12 else r
  }

  /** Midnight and noon both show as 12; other hours show their distance past the last of them. */
  lemma Hour12Table(h: int)
    ensures Hour12(0) == 12 && Hour12(12) == 12
    ensures 0 < h < 12 ==> Hour12(h) == h && Hour12(h + 12) == h
  {
  }

  /** The four slots `get_time` writes: 12-hour hour, minute, second, 24-hour hour. */
  function TimesOf(t: Tm): (times: seq<int>)
    ensures |times| == 4
  {
    [Hour12(t.hour), t.minute, t.second, t.hour]
  }

  /** `is_new_day`: the first second of the day, read from the `get_time` slots. */
  function IsNewDay(t: Tm): (b: bool)
    ensures b <==> t.hour == 0 && t.minute == 0 && t.second == 0
  {
    var times := TimesOf(t);
    times[3] == 0 && times[1] == 0 && times[2] == 0
  }

  /** The date as `month_num-day_of_month-year`, none of them padded. */
  function FormattedDate(t: Tm): string
  {
    IntToString(t.mon + 1) + "-" + IntToString(t.mday) + "-" + IntToString(t.year + 1900)
  }

  /** 7 March 2024 reads "3-7-2024", not "03-07-2024". */
  lemma FormattedDateExample()
    ensures FormattedDate(Tm(9, 30, 0, 7, 2, 124, 4)) == "3-7-2024"
  {
    assert IntToString(2024) == "2024" by {
      assert NatToString(2) == "2";
      assert NatToString(20) == "20";
      assert NatToString(202) == "202";
    }
  }

  /** The short forecast shown on the matrix: anything mentioning "Thunder" becomes "T-Storms". */
  function ShortForecastOf(main: string): (s: string)
    ensures Contains(main, "Thunder") ==> s == "T-Storms"
    ensures !Contains(main, "Thunder") ==> s == main
  {
    if FindFrom(main, "Thunder", 0).Some? then "T-Storms" else main
  }

  /** After the rule, the short forecast never holds "Thunder". */
  lemma ShortForecastNeverThunder(main: string)
    ensures !Contains(ShortForecastOf(main), "Thunder")
  {
    if Contains(main, "Thunder") {
      var s := "T-Storms";
      forall k: nat ensures !OccursAt(s, "Thunder", k) {
        if k == 0 {
          assert s[0..7][1] == '-';
        } else if k == 1 {
          assert s[1..8][0] == '-';
        }
      }
      ContainsIff(s, "Thunder");
    }
  }

  /** The weather fields of the utility as a group. */
  datatype WeatherShown = WeatherShown(
    forecast: string, shortForecast: string,
    temp: int, realFeel: int, humidity: int, windSpeed: string)

  /** The date fields of the utility as a group. */
  datatype DateShown = DateShown(
    formattedDate: string, monthName: string, dayName: string,
    monthNum: int, dayOfMonth: int, dayOfWeek: int, year: int)

  /** What a decoded weather reading turns into. */
  function WeatherOf(r: WeatherReading): (w: WeatherShown)
    ensures !Contains(w.shortForecast, "Thunder")
  {
    ShortForecastNeverThunder(r.main);
    WeatherShown(r.description, ShortForecastOf(r.main), r.temp, r.feelsLike, r.humidity, r.windSpeed)
  }

  /** What `poll_date` writes for a clock reading: 1-based month, full year, English names. */
  function DateOf(t: Tm): DateShown
    requires 0 <= t.mon < 12 && 0 <= t.wday < 7
  {
    DateShown(FormattedDate(t), Months[t.mon], Days[t.wday], t.mon + 1, t.mday, t.wday, t.year + 1900)
  }

  /**
   * The utility object. `windSpeed` holds the `std::to_string` text of the
   * float (six decimals); the date fields hold what the last `poll_date` wrote.
   */
  class VariableUtility {
    var weatherUrl: string
    var temp: int
    var realFeel: int
    var humidity: int
    var windSpeed: string
    var forecast: string
    var shortForecast: string
    var formattedDate: string
    var monthName: string
    var dayName: string
    var monthNum: int
    var dayOfMonth: int
    var dayOfWeek: int
    var year: int

    /**
     * Placeholder weather until the first successful poll. The date fields are
     * left uninitialised in the source; here they start empty and zero.
     */
    constructor(url: string)
      ensures weatherUrl == url
      ensures forecast == "N/A" && shortForecast == "~Error~"
      ensures temp == 0 && realFeel == 0 && humidity == 0 && windSpeed == "0.000000"
      ensures formattedDate == "" && monthName == "" && dayName == ""
      ensures monthNum == 0 && dayOfMonth == 0 && dayOfWeek == 0 && year == 0
    {
      weatherUrl := url;
      forecast := "N/A";
      shortForecast := "~Error~";
      temp := 0;
      realFeel := 0;
      windSpeed := "0.000000";
      humidity := 0;
      formattedDate := "";
      monthName := "";
      dayName := "";
      monthNum := 0;
      dayOfMonth := 0;
      dayOfWeek := 0;
      year := 0;
    }

    /**
     * `poll_weather`: a failed request or an undecodable body changes nothing;
     * a decoded reading overwrites every weather field.
     */
    method PollWeather(reading: Option<WeatherReading>)
      modifies this`forecast, this`shortForecast, this`temp, this`realFeel, this`windSpeed, this`humidity
      ensures reading.None? ==> unchanged(this)
      ensures reading.Some? ==> WeatherFields() == WeatherOf(reading.value)
    {
      if reading.Some? {
        var r := reading.value;
        var short := r.main;
        if FindFrom(short, "Thunder", 0).Some? {
          short := "T-Storms";
        }
        assert short == ShortForecastOf(r.main);
        forecast := r.description;
        shortForecast := short;
        temp := r.temp;
        realFeel := r.feelsLike;
        windSpeed := r.windSpeed;
        humidity := r.humidity;
      }
    }

    function WeatherFields(): WeatherShown
      reads this
    {
      WeatherShown(forecast, shortForecast, temp, realFeel, humidity, windSpeed)
    }

    function DateFields(): DateShown
      reads this
    {
      DateShown(formattedDate, monthName, dayName, monthNum, dayOfMonth, dayOfWeek, year)
    }

    /** `poll_date`: copies the calendar fields and names the month and weekday. */
    method PollDate(now: Tm)
      requires 0 <= now.mon < 12 && 0 <= now.wday < 7
      modifies this`dayOfMonth, this`dayOfWeek, this`year, this`monthNum
      modifies this`monthName, this`dayName, this`formattedDate
      ensures DateFields() == DateOf(now)
    {
      var month, day, fullYear := now.mon + 1, now.mday, now.year + 1900;
      var date := IntToString(month) + "-" + IntToString(day) + "-" + IntToString(fullYear);
      assert date == FormattedDate(now);
      dayOfMonth := day;
      dayOfWeek := now.wday;
      year := fullYear;
      monthNum := month;
      monthName := Months[now.mon];
      dayName := Days[now.wday];
      formattedDate := date;
    }

    /** `get_time`: fills the first four slots of the caller's array and nothing else. */
    method GetTime(now: Tm, times: array<int>)
      requires times.Length >= 4
      modifies times
      ensures times[..4] == TimesOf(now)
      ensures times[4..] == old(times[4..])
    {
      times[0] := CInt.Rem(now.hour, 12);
      times[1] := now.minute;
      times[2] := now.second;
      times[3] := now.hour;
      if times[0] == 0 {
        times[0] := 12;
      }
    }

    /** Everything the token pass reads, at clock reading `now`. */
    function Snapshot(now: Tm): (e: Template.Env)
      reads this
      ensures [e.hour12, e.minute, e.second, e.hour24] == TimesOf(now)
      ensures e.monthNum == monthNum && e.dayOfMonth == dayOfMonth && e.windSpeed == windSpeed
    {
      var times := TimesOf(now);
      Template.Env(
        times[0], times[1], times[2], times[3],
        temp, realFeel, humidity, forecast, shortForecast,
        formattedDate, monthName, dayName,
        monthNum, dayOfMonth, dayOfWeek, year, windSpeed)
    }

    /** `parse_variables`: the token pass over a copy of `vars`; no field changes. */
    method ParseVariables(vars: string, now: Tm) returns (parsed: string)
      ensures parsed == Template.Render(vars, Snapshot(now))
    {
      parsed := Template.Substitute(vars, Snapshot(now));
    }
  }

  /**
   * With a valid clock reading, the clock tokens of a template render as the
   * display expects: unpadded 12-hour and 24-hour hours, two-digit minutes and
   * seconds, and "am" before noon.
   */
  lemma ClockTokens(u: VariableUtility, now: Tm)
    requires ValidTm(now)
    ensures Template.Render("{hour}", u.Snapshot(now)) == IntToString(Hour12(now.hour))
    ensures Template.Render("{minute}", u.Snapshot(now)) == PadNumbers(now.minute)
    ensures |Template.Render("{second}", u.Snapshot(now))| == 2
    ensures Template.Render("{hour24}", u.Snapshot(now)) == IntToString(now.hour)
    ensures Template.Render("{ampm}", u.Snapshot(now)) == (if now.hour < 12 then "am" else "pm")
  {
    var e := u.Snapshot(now);
    Template.RenderHour(e);
    Template.RenderMinute(e);
    Template.RenderSecond(e);
    Template.RenderHour24(e);
    Template.RenderAmPm(e);
  }
}
