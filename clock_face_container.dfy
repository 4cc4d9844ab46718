/**
 * clock_face_container: the older scheduler generation, which the main loop
 * drives. Same selection rules as matrix_data, faces without a background,
 * and a loader that reports nothing back.
 */
module FaceContainer {
  import opened Wrappers
  import opened TextUtil
  import opened Colors
  import opened TimePeriods
  import opened Faces
  import opened Schedule

  class ClockFaceContainer {
    var clockFaces: seq<ClockFace>
    const empty: ClockFace
    var current: ClockFace
    var overrideInterface: bool
    var forceUpdate: bool
    var clockOn: bool
    var recentReload: bool
    var configFile: string

    /**
     * An `~empty~` face, no override, no forced update, clock on. `current` and
     * the recent-reload flag, uninitialised in the source, start as the empty
     * face and false.
     */
    constructor(configFile: string)
      ensures fresh(empty) && empty.name == "~empty~"
      ensures empty.lines == [] && empty.periods == [] && !empty.containsSeconds
      ensures !overrideInterface && !forceUpdate && clockOn && !recentReload
      ensures this.configFile == configFile
      ensures clockFaces == [] && current == empty
    {
      empty := new ClockFace.Named("~empty~");
      overrideInterface := false;
      forceUpdate := false;
      clockOn := true;
      this.configFile := configFile;
      clockFaces := [];
      current := empty;
      recentReload := false;
    }

    /** `get_clock_face_count`. */
    function GetClockFaceCount(): (n: nat)
      reads this
      ensures n == |clockFaces|
    {
      |clockFaces|
    }

    /** `get_clock_face(i)`: the i-th face added; the source does no bounds check. */
    function GetClockFace(i: int): (f: ClockFace)
      reads this
      requires 0 <= i < |clockFaces|
      ensures f in clockFaces && f == clockFaces[i]
    {
      clockFaces[i]
    }

    /** `add_clock_face`: appends to the face list. */
    method AddClockFace(f: ClockFace)
      modifies this`clockFaces
      ensures clockFaces == old(clockFaces) + [f]
    {
      clockFaces := clockFaces + [f];
    }

    /**
     * `update_clock_face(name)`: the first face whose name equals `name`
     * ignoring case, else the empty face. Only `current` changes.
     */
    method UpdateClockFaceByName(name: string)
      modifies this`current
      ensures var r := FirstByName(NamesOf(clockFaces), name);
              && (r.Some? ==> current == clockFaces[r.value])
              && (r.None? ==> current == empty)
      ensures current in clockFaces || current == empty
    {
      var i := 0;
      while i < |clockFaces|
        invariant 0 <= i <= |clockFaces|
        invariant FirstByNameFrom(NamesOf(clockFaces), name, i) == FirstByName(NamesOf(clockFaces), name)
      {
        if EqualsIgnoreCase(clockFaces[i].name, name) {
          current := clockFaces[i];
          return;
        }
        i := i + 1;
      }
      current := empty;
    }

    /**
     * The current face is the first, in file order, whose windows in `table`
     * contain the time, else the empty face.
     */
    predicate ShowsTimeChoice(table: seq<seq<TimePeriod>>, hour: int, minute: int)
      reads this`clockFaces, this`current
    {
      var r := FirstByTime(table, hour, minute);
      && (r.Some? ==> r.value < |clockFaces| && current == clockFaces[r.value])
      && (r.None? ==> current == empty)
    }

    /**
     * `update_clock_face(hour, minute)`: the first face, in file order, with a
     * window containing the time, else the empty face. Only `current` changes.
     */
    method UpdateClockFaceByTime(hour: int, minute: int)
      modifies this`current
      ensures ShowsTimeChoice(old(PeriodTable(clockFaces)), hour, minute)
      ensures current in clockFaces || current == empty
    {
      ghost var table := PeriodTable(clockFaces);
      var index := 0;
      while index < |clockFaces|
        invariant 0 <= index <= |clockFaces|
        invariant FirstByTimeFrom(table, hour, minute, index) == FirstByTime(table, hour, minute)
      {
        assert table[index] == clockFaces[index].periods;
        var found := AnyWindowHolds(clockFaces[index].periods, hour, minute);
        if found {
          assert FirstByTimeFrom(table, hour, minute, index) == Some(index);
          current := clockFaces[index];
          return;
        }
        assert FirstByTimeFrom(table, hour, minute, index) == FirstByTimeFrom(table, hour, minute, index + 1);
        index := index + 1;
      }
      current := empty;
    }

    /** `get_names`: one display name per face, in order, each capitalised in place. */
    method GetNames() returns (names: seq<string>)
      ensures |names| == |clockFaces|
      ensures forall i :: 0 <= i < |names| ==> names[i] == Capitalize(clockFaces[i].name)
    {
      names := [];
      var i := 0;
      while i < |clockFaces|
        invariant 0 <= i <= |clockFaces|
        invariant |names| == i
        invariant forall k :: 0 <= k < i ==> names[k] == Capitalize(clockFaces[k].name)
      {
        var name := clockFaces[i].name;
        var j := 0;
        while j < |name|
          invariant 0 <= j <= |name| && |name| == |clockFaces[i].name|
          invariant forall k :: 0 <= k < j ==> name[k] == Capitalize(clockFaces[i].name)[k]
          invariant forall k :: j <= k < |name| ==> name[k] == clockFaces[i].name[k]
        {
          if j == 0 {
            name := name[j := ToUpper(name[j])];
          } else {
            name := name[j := ToLower(name[j])];
          }
          j := j + 1;
        }
        names := names + [name];
        i := i + 1;
      }
    }

    /**
     * `load_clock_faces` over an already-decoded file (None when the JSON does
     * not parse): the container is emptied and `current` reset first, so an
     * unparsable file leaves zero faces; otherwise every face is rebuilt in
     * file order.
     */
    method LoadClockFaces(parsed: Option<seq<FaceConfig>>)
      modifies this
      ensures current == empty
      ensures overrideInterface == old(overrideInterface) && forceUpdate == old(forceUpdate)
      ensures clockOn == old(clockOn) && recentReload == old(recentReload) && configFile == old(configFile)
      ensures parsed.None? ==> clockFaces == []
      ensures parsed.Some? ==>
        && |clockFaces| == |parsed.value|
        && forall i :: 0 <= i < |clockFaces| ==>
             && fresh(clockFaces[i]) && Holds(clockFaces[i], parsed.value[i])
             && clockFaces[i].background == Default
    {
      clockFaces := [];
      current := empty;
      if parsed.None? {
        return;
      }
      var faces := parsed.value;
      var faceIndex := 0;
      while faceIndex < |faces|
        invariant 0 <= faceIndex <= |faces|
        invariant |clockFaces| == faceIndex
        invariant forall i :: 0 <= i < faceIndex ==>
                    && fresh(clockFaces[i]) && Holds(clockFaces[i], faces[i])
                    && clockFaces[i].background == Default
        invariant current == empty
        invariant overrideInterface == old(overrideInterface) && forceUpdate == old(forceUpdate)
        invariant clockOn == old(clockOn) && recentReload == old(recentReload) && configFile == old(configFile)
      {
        var face := new ClockFace.Named(faces[faceIndex].name);
        FillFace(face, faces[faceIndex]);
        AddClockFace(face);
        faceIndex := faceIndex + 1;
      }
    }
  }
}
