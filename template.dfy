/**
 * The fixed token pass that both `text_line::parse_variables` and
 * `variable_utility::parse_variables` run over a template: eighteen
 * `replace_string` calls, one per token, always in the same order.
 */
module Template {
  import opened Wrappers
  import opened TextUtil

  /**
   * The values the token pass reads: the four `get_time` slots and the
   * utility's weather and date fields. The wind speed is the `std::to_string`
   * text of the rounded float.
   */
  datatype Env = Env(
    hour12: int, minute: int, second: int, hour24: int,
    temp: int, realFeel: int, humidity: int,
    forecast: string, shortForecast: string,
    formattedDate: string, monthName: string, dayName: string,
    monthNum: int, dayOfMonth: int, dayOfWeek: int, year: int,
    windSpeed: string)

  /** Every token the pass recognises, in the order it replaces them. */
  const Tokens: seq<string> := [
    "{hour}", "{minute}", "{second}", "{hour24}", "{ampm}",
    "{temp}", "{temp_feel}", "{humidity}", "{forecast}", "{forecast_short}",
    "{date_format}", "{month_name}", "{day_name}", "{month_num}",
    "{month_day}", "{week_day_num}", "{year}", "{wind_speed}"]

  /** `times[3] < 12 ? "am" : "pm"`. */
  function AmPm(hour24: int): (s: string)
    ensures s == "am" <==> hour24 < 12
    ensures s == "pm" <==> hour24 >= 12
  {
    if hour24 < 12 then "am" else "pm"
  }

  /**
   * `wind.substr(0, wind.find(".") + 2)`: the text up to and including the first
   * character after the first '.'. Without a '.', npos + 2 wraps to 1 in size_t.
   */
  function WindText(wind: string): string
  {
    var count := match FindFrom(wind, ".", 0)
      case Some(dot) => dot + 2
      case None => 1;
    if count <= |wind| then wind[..count] else wind
  }

  /** With the first '.' at `dot` and a character after it, the text ends one digit after the point. */
  lemma WindTextOneDecimal(wind: string, dot: nat)
    requires dot + 1 < |wind| && wind[dot] == '.'
    requires forall k :: 0 <= k < dot ==> wind[k] != '.'
    ensures WindText(wind) == wind[..dot + 2]
  {
    assert OccursAt(wind, ".", dot);
    forall k | 0 <= k < dot ensures !OccursAt(wind, ".", k) {
      assert wind[k..k + 1] == [wind[k]];
    }
  }

  /** `std::to_string(7.0f)` is "7.000000", shown as "7.0" (neither "7.00" nor "7"). */
  lemma WindTextExample()
    ensures WindText("7.000000") == "7.0"
    ensures WindText("12.345678") == "12.3"
  {
    WindTextOneDecimal("7.000000", 1);
    WindTextOneDecimal("12.345678", 2);
  }

  /** The replacement text of each token, paired with it in pass order. */
  function Bindings(e: Env): (bs: seq<(string, string)>)
    ensures |bs| == |Tokens| && forall i :: 0 <= i < |bs| ==> bs[i].0 == Tokens[i]
  {
    var values := [
      IntToString(e.hour12), PadNumbers(e.minute), PadNumbers(e.second),
      IntToString(e.hour24), AmPm(e.hour24), IntToString(e.temp),
      IntToString(e.realFeel), IntToString(e.humidity), e.forecast,
      e.shortForecast, e.formattedDate, e.monthName, e.dayName,
      IntToString(e.monthNum), IntToString(e.dayOfMonth), IntToString(e.dayOfWeek),
      IntToString(e.year), WindText(e.windSpeed)];
    seq(|Tokens|, i requires 0 <= i < |Tokens| => (Tokens[i], values[i]))
  }

  /** Runs `replace_string` for each binding in turn, each on the previous result. */
  function ApplyBindings(s: string, bs: seq<(string, string)>): string
    requires forall i :: 0 <= i < |bs| ==> |bs[i].0| > 0
    decreases |bs|
  {
    if bs == [] then s else ApplyBindings(ReplaceAll(s, bs[0].0, bs[0].1), bs[1..])
  }

  /** The full token pass over a template. */
  function Render(text: string, e: Env): string
  {
    TokenLengths();
    ApplyBindings(text, Bindings(e))
  }

  /** Text that holds none of the searched tokens passes through every step unchanged. */
  lemma {:induction false} ApplyBindingsAbsent(s: string, bs: seq<(string, string)>)
    requires forall i :: 0 <= i < |bs| ==> |bs[i].0| > 0
    requires forall i :: 0 <= i < |bs| ==> !Contains(s, bs[i].0)
    ensures ApplyBindings(s, bs) == s
    decreases |bs|
  {
    if bs != [] {
      ReplaceAllAbsent(s, bs[0].0, bs[0].1);
      ApplyBindingsAbsent(s, bs[1..]);
    }
  }

  /** A template with no known token comes back unchanged. */
  lemma RenderWithoutTokens(text: string, e: Env)
    requires forall i :: 0 <= i < |Tokens| ==> !Contains(text, Tokens[i])
    ensures Render(text, e) == text
  {
    ApplyBindingsAbsent(text, Bindings(e));
  }

  /** Text shorter than every remaining token is left alone by the rest of the pass. */
  lemma {:induction false} ApplyBindingsShort(s: string, bs: seq<(string, string)>)
    requires forall i :: 0 <= i < |bs| ==> |bs[i].0| > |s|
    ensures ApplyBindings(s, bs) == s
    decreases |bs|
  {
    if bs != [] {
      ApplyBindingsShort(s, bs[1..]);
    }
  }

  /** Leading bindings whose tokens do not occur change nothing. */
  lemma {:induction false} ApplyBindingsSkip(s: string, bs: seq<(string, string)>, k: nat)
    requires forall i :: 0 <= i < |bs| ==> |bs[i].0| > 0
    requires k <= |bs| && forall i :: 0 <= i < k ==> !Contains(s, bs[i].0)
    ensures ApplyBindings(s, bs) == ApplyBindings(s, bs[k..])
    decreases k
  {
    if k > 0 {
      ReplaceAllAbsent(s, bs[0].0, bs[0].1);
      ApplyBindingsSkip(s, bs[1..], k - 1);
      assert bs[1..][k - 1..] == bs[k..];
    }
  }

  /** Every token is at least six characters long ("{hour}", "{temp}" and "{year}" are the shortest). */
  lemma TokenLengths()
    ensures forall i :: 0 <= i < |Tokens| ==> |Tokens[i]| >= 6
  {
  }

  /** A token longer than the text cannot occur in it. */
  lemma LongerAbsent(s: string, t: string)
    requires |t| > |s|
    ensures !Contains(s, t)
  {
  }

  /** Any text shorter than six characters survives a token pass from its binding `k` onwards. */
  lemma BindingsTailShort(bs: seq<(string, string)>, k: nat, s: string)
    requires |bs| == |Tokens| && forall i :: 0 <= i < |bs| ==> bs[i].0 == Tokens[i]
    requires k <= |Tokens| && |s| < 6
    ensures ApplyBindings(s, bs[k..]) == s
  {
    TokenLengths();
    forall i | 0 <= i < |bs| - k
      ensures |bs[k..][i].0| > |s|
    {
      assert bs[k..][i] == bs[k + i];
    }
    ApplyBindingsShort(s, bs[k..]);
  }

  /**
   * A brace token can only start at a '{': in text whose only '{' is its first
   * character and which differs from the token at position `j`, it never occurs.
   */
  lemma BraceTokenAbsent(s: string, t: string, j: nat)
    requires |t| > 0 && t[0] == '{'
    requires forall i :: 0 < i < |s| ==> s[i] != '{'
    requires j < |t| && j < |s| && s[j] != t[j]
    ensures !Contains(s, t)
  {
    forall k: nat ensures !OccursAt(s, t, k) {
      if 0 < k && k + |t| <= |s| {
        assert s[k..k + |t|][0] == s[k];
      } else if k == 0 && |t| <= |s| {
        assert s[..|t|][j] == s[j];
      }
    }
    ContainsIff(s, t);
  }

  /** A token that is the whole text is replaced by its value, and nothing else. */
  lemma ReplaceWhole(s: string, v: string)
    requires |s| > 0
    ensures ReplaceAll(s, s, v) == v
  {
    assert s[..|s|] == s;
    assert s[|s|..] == [];
  }

  /**
   * Text made of exactly the `k`-th token, which no earlier token clobbers,
   * comes out as that token's value when the value is shorter than every token.
   */
  lemma ApplySingleToken(bs: seq<(string, string)>, k: nat)
    requires |bs| == |Tokens| && forall i :: 0 <= i < |bs| ==> bs[i].0 == Tokens[i]
    requires k < |Tokens| && |bs[k].1| < 6
    requires forall i :: 0 <= i < k ==> !Contains(Tokens[k], Tokens[i])
    ensures ApplyBindings(Tokens[k], bs) == bs[k].1
  {
    TokenLengths();
    var s := Tokens[k];
    ApplyBindingsSkip(s, bs, k);
    assert bs[k..][1..] == bs[k + 1..];
    ReplaceWhole(s, bs[k].1);
    BindingsTailShort(bs, k + 1, bs[k].1);
  }

  /** No token before "{minute}" in the pass occurs inside it. */
  lemma MinuteTokenClean()
    ensures forall i :: 0 <= i < 1 ==> !Contains(Tokens[1], Tokens[i])
  {
    BraceTokenAbsent("{minute}", "{hour}", 1);
  }

  /** No token before "{second}" in the pass occurs inside it. */
  lemma SecondTokenClean()
    ensures forall i :: 0 <= i < 2 ==> !Contains(Tokens[2], Tokens[i])
  {
    BraceTokenAbsent("{second}", "{hour}", 1);
    BraceTokenAbsent("{second}", "{minute}", 1);
  }

  /** No token before "{hour24}" occurs inside it; in particular "{hour}" does not match its prefix. */
  lemma Hour24TokenClean()
    ensures forall i :: 0 <= i < 3 ==> !Contains(Tokens[3], Tokens[i])
  {
    BraceTokenAbsent("{hour24}", "{hour}", 5);
    BraceTokenAbsent("{hour24}", "{minute}", 1);
    BraceTokenAbsent("{hour24}", "{second}", 1);
  }

  /** No token before "{ampm}" in the pass occurs inside it. */
  lemma AmPmTokenClean()
    ensures forall i :: 0 <= i < 4 ==> !Contains(Tokens[4], Tokens[i])
  {
    BraceTokenAbsent("{ampm}", "{hour}", 1);
    LongerAbsent("{ampm}", "{minute}");
    LongerAbsent("{ampm}", "{second}");
    LongerAbsent("{ampm}", "{hour24}");
  }

  /** "{hour}" alone becomes the unpadded 12-hour hour. */
  lemma RenderHour(e: Env)
    requires 0 <= e.hour12 < 100
    ensures Render("{hour}", e) == IntToString(e.hour12)
  {
    var bs := Bindings(e);
    assert bs[0].1 == IntToString(e.hour12);
    assert |bs[0].1| < 6 by { NatToStringLength(e.hour12); }
    ApplySingleToken(bs, 0);
  }

  /** "{minute}" alone becomes the minute padded to two digits. */
  lemma RenderMinute(e: Env)
    requires 0 <= e.minute < 100
    ensures Render("{minute}", e) == PadNumbers(e.minute)
    ensures |Render("{minute}", e)| == 2
  {
    var bs := Bindings(e);
    assert bs[1].1 == PadNumbers(e.minute);
    assert |bs[1].1| == 2 by { PadNumbersTwoDigits(e.minute); }
    MinuteTokenClean();
    ApplySingleToken(bs, 1);
  }

  /** "{second}" alone becomes the second padded to two digits. */
  lemma RenderSecond(e: Env)
    requires 0 <= e.second < 100
    ensures Render("{second}", e) == PadNumbers(e.second)
    ensures |Render("{second}", e)| == 2
  {
    var bs := Bindings(e);
    assert bs[2].1 == PadNumbers(e.second);
    assert |bs[2].1| == 2 by { PadNumbersTwoDigits(e.second); }
    SecondTokenClean();
    ApplySingleToken(bs, 2);
  }

  /** "{hour24}" alone becomes the unpadded 24-hour hour. */
  lemma RenderHour24(e: Env)
    requires 0 <= e.hour24 < 100
    ensures Render("{hour24}", e) == IntToString(e.hour24)
  {
    var bs := Bindings(e);
    assert bs[3].1 == IntToString(e.hour24);
    assert |bs[3].1| < 6 by { NatToStringLength(e.hour24); }
    Hour24TokenClean();
    ApplySingleToken(bs, 3);
  }

  /** "{ampm}" alone becomes "am" exactly when the 24-hour hour is below 12, otherwise "pm". */
  lemma RenderAmPm(e: Env)
    ensures Render("{ampm}", e) == AmPm(e.hour24)
  {
    AmPmTokenClean();
    ApplySingleToken(Bindings(e), 4);
  }

  /**
   * The eighteen `replace_string` calls of `parse_variables`, run in table
   * order, each on the text the previous one produced.
   */
  method Substitute(text: string, e: Env) returns (parsed: string)
    ensures parsed == Render(text, e)
  {
    var bs := Bindings(e);
    TokenLengths();
    parsed := text;
    var i := 0;
    while i < |bs|
      invariant 0 <= i <= |bs|
      invariant ApplyBindings(parsed, bs[i..]) == Render(text, e)
    {
      assert bs[i..][1..] == bs[i + 1..];
      parsed := ReplaceString(parsed, bs[i].0, bs[i].1);
      i := i + 1;
    }
  }
}
