/**
 * clock_face: a named screen layout with the daily windows in which it is shown
 * and the lines it draws, plus the already-parsed configuration records both
 * loaders build faces from.
 */
module Faces {
  import opened TextUtil
  import opened Colors
  import opened Fonts
  import opened TimePeriods
  import opened TextLines

  /** A colour entry: "none" in `built_in_color` means the explicit r, g, b are used. */
  datatype ColorConfig = ColorConfig(builtIn: string, r: int, g: int, b: int)

  datatype PeriodConfig = PeriodConfig(startHour: int, startMinute: int, endHour: int, endMinute: int)

  datatype LineConfig = LineConfig(color: ColorConfig, fontSize: string, x: int, y: int, text: string)

  datatype FaceConfig = FaceConfig(name: string, background: ColorConfig, periods: seq<PeriodConfig>, lines: seq<LineConfig>)

  /** A push-notification record; the class built from it is not part of this model. */
  datatype PushConfig = PushConfig(message: string, hour: int, minute: int, days: seq<int>)

  /** A whole configuration file after JSON decoding. */
  datatype Config = Config(
    weatherUrl: string, botToken: string, chatId: int,
    faces: seq<FaceConfig>, notifications: seq<PushConfig>)

  /** The colour a configuration entry denotes. */
  function ColorOf(c: ColorConfig): (rgb: Rgb)
    ensures c.builtIn == "none" ==> rgb == Rgb(c.r, c.g, c.b)
    ensures c.builtIn != "none" ==> rgb == FromPrebuilt(PrebuiltFromName(c.builtIn))
  {
    if c.builtIn == "none" then Rgb(c.r, c.g, c.b) else FromName(c.builtIn)
  }

  function PeriodOf(p: PeriodConfig): TimePeriod {
    TimePeriod(p.startHour, p.startMinute, p.endHour, p.endMinute)
  }

  function LineOf(l: LineConfig): Line {
    Line(ColorOf(l.color), FontFromString(l.fontSize), l.x, l.y, l.text)
  }

  /** The periods a face record yields, in file order. */
  function PeriodsOf(c: FaceConfig): (ps: seq<TimePeriod>)
    ensures |ps| == |c.periods| && forall i :: 0 <= i < |ps| ==> ps[i] == PeriodOf(c.periods[i])
  {
    seq(|c.periods|, i requires 0 <= i < |c.periods| => PeriodOf(c.periods[i]))
  }

  /** The lines a face record yields, in file order. */
  function LinesOf(c: FaceConfig): (ls: seq<Line>)
    ensures |ls| == |c.lines| && forall i :: 0 <= i < |ls| ==> ls[i] == LineOf(c.lines[i])
  {
    seq(|c.lines|, i requires 0 <= i < |c.lines| => LineOf(c.lines[i]))
  }

  /** Some raw line text of the record holds the "{second}" token. */
  predicate HasSecondsToken(c: FaceConfig) {
    exists i :: 0 <= i < |c.lines| && Contains(c.lines[i].text, "{second}")
  }

  class ClockFace {
    const name: string
    const background: Rgb
    var lines: seq<Line>
    var periods: seq<TimePeriod>
    var containsSeconds: bool

    /** `clock_face(name, background)`: no lines, no periods, no seconds token. */
    constructor(name: string, background: Rgb)
      ensures this.name == name && this.background == background
      ensures lines == [] && periods == [] && !containsSeconds
    {
      this.name := name;
      this.background := background;
      lines := [];
      periods := [];
      containsSeconds := false;
    }

    /**
     * `clock_face(name)` of the older generation, which has no background; the
     * model gives it the default black.
     */
    constructor Named(name: string)
      ensures this.name == name && background == Default
      ensures lines == [] && periods == [] && !containsSeconds
    {
      this.name := name;
      background := Default;
      lines := [];
      periods := [];
      containsSeconds := false;
    }

    method AddTimePeriod(p: TimePeriod)
      modifies this
      ensures periods == old(periods) + [p]
      ensures lines == old(lines) && containsSeconds == old(containsSeconds)
    {
      periods := periods + [p];
    }

    method AddText(l: Line)
      modifies this
      ensures lines == old(lines) + [l]
      ensures periods == old(periods) && containsSeconds == old(containsSeconds)
    {
      lines := lines + [l];
    }

    /** `get_line(i)`: a copy of the i-th line added; the source does no bounds check. */
    function GetLine(i: int): (l: Line)
      reads this
      requires 0 <= i < |lines|
      ensures l == lines[i]
    {
      lines[i]
    }

    method SetContainsSecondVariable(contained: bool)
      modifies this
      ensures containsSeconds == contained
      ensures lines == old(lines) && periods == old(periods)
    {
      containsSeconds := contained;
    }
  }

  /**
   * The period and line loops of both loaders, run on a face just created:
   * periods and lines are appended in file order, and the seconds flag is
   * raised as soon as a raw line text holds "{second}".
   */
  method FillFace(face: ClockFace, c: FaceConfig)
    modifies face
    ensures face.periods == old(face.periods) + PeriodsOf(c)
    ensures face.lines == old(face.lines) + LinesOf(c)
    ensures face.containsSeconds == (old(face.containsSeconds) || HasSecondsToken(c))
  {
    AddPeriods(face, c);
    AddLines(face, c);
  }

  /** The period loop: each window of the record appended in file order. */
  method AddPeriods(face: ClockFace, c: FaceConfig)
    modifies face
    ensures face.periods == old(face.periods) + PeriodsOf(c)
    ensures face.lines == old(face.lines) && face.containsSeconds == old(face.containsSeconds)
  {
    ghost var want := PeriodsOf(c);
    var i := 0;
    while i < |c.periods|
      invariant 0 <= i <= |c.periods|
      invariant face.periods == old(face.periods) + want[..i]
      invariant face.lines == old(face.lines) && face.containsSeconds == old(face.containsSeconds)
    {
      var p := c.periods[i];
      assert want[..i + 1] == want[..i] + [TimePeriod(p.startHour, p.startMinute, p.endHour, p.endMinute)];
      face.AddTimePeriod(TimePeriod(p.startHour, p.startMinute, p.endHour, p.endMinute));
      i := i + 1;
    }
    assert want[..i] == want;
  }

  /**
   * The line loop: each line of the record appended in file order, the seconds
   * flag raised when its raw text holds "{second}".
   */
  method AddLines(face: ClockFace, c: FaceConfig)
    modifies face
    ensures face.lines == old(face.lines) + LinesOf(c)
    ensures face.periods == old(face.periods)
    ensures face.containsSeconds == (old(face.containsSeconds) || HasSecondsToken(c))
  {
    ghost var want := LinesOf(c);
    var j := 0;
    while j < |c.lines|
      invariant 0 <= j <= |c.lines|
      invariant face.periods == old(face.periods)
      invariant face.lines == old(face.lines) + want[..j]
      invariant face.containsSeconds
                == (old(face.containsSeconds) || exists k :: 0 <= k < j && Contains(c.lines[k].text, "{second}"))
    {
      var l := c.lines[j];
      var line := LineOf(l);
      if FindFrom(l.text, "{second}", 0).Some? {
        face.SetContainsSecondVariable(true);
      }
      assert want[..j + 1] == want[..j] + [line];
      face.AddText(line);
      j := j + 1;
    }
    assert want[..j] == want;
  }

  /** `f` carries what record `c` describes: its name, windows, lines and seconds flag. */
  predicate Holds(f: ClockFace, c: FaceConfig)
    reads f
  {
    && f.name == c.name && f.periods == PeriodsOf(c) && f.lines == LinesOf(c)
    && f.containsSeconds == HasSecondsToken(c)
  }

  /** The face names in container order. */
  function NamesOf(faces: seq<ClockFace>): (ns: seq<string>)
    ensures |ns| == |faces| && forall i :: 0 <= i < |faces| ==> ns[i] == faces[i].name
  {
    seq(|faces|, i requires 0 <= i < |faces| => faces[i].name)
  }

  /** Each face's windows, in container order. */
  function PeriodTable(faces: seq<ClockFace>): (t: seq<seq<TimePeriod>>)
    reads set f | f in faces
    ensures |t| == |faces| && forall i :: 0 <= i < |faces| ==> t[i] == faces[i].periods
  {
    if faces == [] then [] else [faces[0].periods] + PeriodTable(faces[1..])
  }
}
