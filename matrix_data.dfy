/**
 * matrix_data: the newer scheduler. It owns the clock faces and push
 * notifications loaded from the configuration, the face currently shown, the
 * reserved `~empty~` fallback face and the control flags the bot and the main
 * loop share.
 */
module ClockData {
  import opened Wrappers
  import opened TextUtil
  import opened Colors
  import opened TimePeriods
  import opened Faces
  import opened Schedule

  class MatrixData {
    var clockFaces: seq<ClockFace>
    var pushNotifications: seq<PushConfig>
    const empty: ClockFace
    var current: ClockFace
    var overrideInterface: bool
    var forceUpdate: bool
    var clockOn: bool
    var recentReload: bool
    var configFile: string
    var weatherUrl: string
    var botToken: string
    var botChatId: int

    /**
     * A black `~empty~` face, no override, no forced update, clock on. The
     * source leaves `current` and the recent-reload flag uninitialised; here
     * they start as the empty face and false.
     */
    constructor(configFile: string)
      ensures fresh(empty) && empty.name == "~empty~" && empty.background == FromPrebuilt(Black)
      ensures empty.lines == [] && empty.periods == [] && !empty.containsSeconds
      ensures !overrideInterface && !forceUpdate && clockOn && !recentReload
      ensures this.configFile == configFile
      ensures clockFaces == [] && pushNotifications == [] && current == empty
    {
      empty := new ClockFace("~empty~", Rgb(0, 0, 0));
      overrideInterface := false;
      forceUpdate := false;
      clockOn := true;
      this.configFile := configFile;
      clockFaces := [];
      pushNotifications := [];
      current := empty;
      recentReload := false;
      weatherUrl := "";
      botToken := "";
      botChatId := 0;
    }

    /** `add_clock_face`: appends to the face list. */
    method AddClockFace(f: ClockFace)
      modifies this`clockFaces
      ensures clockFaces == old(clockFaces) + [f]
    {
      clockFaces := clockFaces + [f];
    }

    /**
     * `update_clock_face(name)`: the first face whose name equals `name`
     * ignoring case, else the empty face. Only `current` changes.
     */
    method UpdateClockFaceByName(name: string)
      modifies this`current
      ensures var r := FirstByName(NamesOf(clockFaces), name);
              && (r.Some? ==> current == clockFaces[r.value])
              && (r.None? ==> current == empty)
      ensures current in clockFaces || current == empty
    {
      var i := 0;
      while i < |clockFaces|
        invariant 0 <= i <= |clockFaces|
        invariant FirstByNameFrom(NamesOf(clockFaces), name, i) == FirstByName(NamesOf(clockFaces), name)
      {
        if EqualsIgnoreCase(clockFaces[i].name, name) {
          current := clockFaces[i];
          return;
        }
        i := i + 1;
      }
      current := empty;
    }

    /**
     * `update_clock_face(hour, minute)`: the first face, in file order, with a
     * window containing the time, else the empty face. Only `current` changes.
     */
    method UpdateClockFaceByTime(hour: int, minute: int)
      modifies this`current
      ensures var r := FirstByTime(old(PeriodTable(clockFaces)), hour, minute);
              && (r.Some? ==> current == clockFaces[r.value])
              && (r.None? ==> current == empty)
      ensures current in clockFaces || current == empty
    {
      ghost var table := PeriodTable(clockFaces);
      var index := 0;
      while index < |clockFaces|
        invariant 0 <= index <= |clockFaces|
        invariant FirstByTimeFrom(table, hour, minute, index) == FirstByTime(table, hour, minute)
      {
        assert table[index] == clockFaces[index].periods;
        var found := AnyWindowHolds(clockFaces[index].periods, hour, minute);
        if found {
          assert FirstByTimeFrom(table, hour, minute, index) == Some(index);
          current := clockFaces[index];
          return;
        }
        assert FirstByTimeFrom(table, hour, minute, index) == FirstByTimeFrom(table, hour, minute, index + 1);
        index := index + 1;
      }
      current := empty;
    }

    /** `get_names`: one display name per face, in order, each capitalised in place. */
    method GetNames() returns (names: seq<string>)
      ensures |names| == |clockFaces|
      ensures forall i :: 0 <= i < |names| ==> names[i] == Capitalize(clockFaces[i].name)
    {
      names := [];
      var i := 0;
      while i < |clockFaces|
        invariant 0 <= i <= |clockFaces|
        invariant |names| == i
        invariant forall k :: 0 <= k < i ==> names[k] == Capitalize(clockFaces[k].name)
      {
        var name := clockFaces[i].name;
        var j := 0;
        while j < |name|
          invariant 0 <= j <= |name| && |name| == |clockFaces[i].name|
          invariant forall k :: 0 <= k < j ==> name[k] == Capitalize(clockFaces[i].name)[k]
          invariant forall k :: j <= k < |name| ==> name[k] == clockFaces[i].name[k]
        {
          if j == 0 {
            name := name[j := ToUpper(name[j])];
          } else {
            name := name[j := ToLower(name[j])];
          }
          j := j + 1;
        }
        names := names + [name];
        i := i + 1;
      }
    }

    /**
     * `load_clock_data` over an already-decoded file (None when the JSON does
     * not parse). Faces and notifications are discarded and `current` is reset
     * to the empty face before decoding is looked at, so a failed load leaves
     * no faces at all. A successful load rebuilds every face in file order.
     */
    method LoadClockData(parsed: Option<Config>) returns (ok: bool)
      modifies this`clockFaces, this`pushNotifications, this`current
      modifies this`weatherUrl, this`botToken, this`botChatId
      ensures ok <==> parsed.Some?
      ensures current == empty
      ensures parsed.None? ==> clockFaces == [] && pushNotifications == []
      ensures parsed.None? ==> weatherUrl == old(weatherUrl) && botToken == old(botToken) && botChatId == old(botChatId)
      ensures parsed.Some? ==>
        && weatherUrl == parsed.value.weatherUrl && botToken == parsed.value.botToken
        && botChatId == parsed.value.chatId
        && pushNotifications == parsed.value.notifications
        && |clockFaces| == |parsed.value.faces|
        && forall i :: 0 <= i < |clockFaces| ==>
             && fresh(clockFaces[i]) && Holds(clockFaces[i], parsed.value.faces[i])
             && clockFaces[i].background == ColorOf(parsed.value.faces[i].background)
    {
      clockFaces := [];
      pushNotifications := [];
      current := empty;
      if parsed.None? {
        return false;
      }
      var config := parsed.value;
      weatherUrl := config.weatherUrl;
      botToken := config.botToken;
      botChatId := config.chatId;
      LoadFaces(config.faces);
      LoadNotifications(config.notifications);
      return true;
    }

    /** The face loop of `load_clock_data`: one new face per record, filled and added in file order. */
    method LoadFaces(faces: seq<FaceConfig>)
      requires clockFaces == []
      modifies this`clockFaces
      ensures |clockFaces| == |faces|
      ensures forall i :: 0 <= i < |clockFaces| ==>
                && fresh(clockFaces[i]) && Holds(clockFaces[i], faces[i])
                && clockFaces[i].background == ColorOf(faces[i].background)
    {
      var faceIndex := 0;
      while faceIndex < |faces|
        invariant 0 <= faceIndex <= |faces|
        invariant |clockFaces| == faceIndex
        invariant forall i :: 0 <= i < faceIndex ==>
                    && fresh(clockFaces[i]) && Holds(clockFaces[i], faces[i])
                    && clockFaces[i].background == ColorOf(faces[i].background)
      {
        var c := faces[faceIndex];
        var face := new ClockFace(c.name, ColorOf(c.background));
        FillFace(face, c);
        AddClockFace(face);
        faceIndex := faceIndex + 1;
      }
    }

    /** The notification loop of `load_clock_data`: every record appended in file order. */
    method LoadNotifications(notifications: seq<PushConfig>)
      requires pushNotifications == []
      modifies this`pushNotifications
      ensures pushNotifications == notifications
    {
      var notiIndex := 0;
      while notiIndex < |notifications|
        invariant 0 <= notiIndex <= |notifications|
        invariant pushNotifications == notifications[..notiIndex]
      {
        pushNotifications := pushNotifications + [notifications[notiIndex]];
        notiIndex := notiIndex + 1;
      }
      assert notifications[..notiIndex] == notifications;
    }
  }
}
