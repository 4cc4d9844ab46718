/**
 * The selection rules both scheduler generations share, stated on values: which
 * face `update_clock_face` picks by name or by time, and the display names
 * `get_names` builds. Faces are identified by their position in file order.
 */
module Schedule {
  import opened Wrappers
  import opened TextUtil
  import opened TimePeriods

  /** Some window of the face contains (hour, minute). */
  predicate FaceMatches(periods: seq<TimePeriod>, hour: int, minute: int) {
    exists j :: 0 <= j < |periods| && InTimePeriod(periods[j], hour, minute)
  }

  /**
   * The inner loop of `update_clock_face(hour, minute)`: scans one face's
   * windows in order and stops at the first that contains the time.
   */
  method AnyWindowHolds(periods: seq<TimePeriod>, hour: int, minute: int) returns (found: bool)
    ensures found <==> FaceMatches(periods, hour, minute)
  {
    var j := 0;
    while j < |periods|
      invariant 0 <= j <= |periods|
      invariant forall k :: 0 <= k < j ==> !InTimePeriod(periods[k], hour, minute)
    {
      if InTimePeriod(periods[j], hour, minute) {
        return true;
      }
      j := j + 1;
    }
    return false;
  }

  /** The first face, from position `from` on, with a window containing (hour, minute). */
  function FirstByTimeFrom(faces: seq<seq<TimePeriod>>, hour: int, minute: int, from: nat): (r: Option<nat>)
    requires from <= |faces|
    ensures r.Some? ==> from <= r.value < |faces| && FaceMatches(faces[r.value], hour, minute)
    ensures r.Some? ==> forall k :: from <= k < r.value ==> !FaceMatches(faces[k], hour, minute)
    ensures r.None? ==> forall k :: from <= k < |faces| ==> !FaceMatches(faces[k], hour, minute)
    decreases |faces| - from
  {
    if from == |faces| then None
    else if FaceMatches(faces[from], hour, minute) then Some(from)
    else FirstByTimeFrom(faces, hour, minute, from + 1)
  }

  /** Selection by time: the first face in file order whose windows contain the time. */
  function FirstByTime(faces: seq<seq<TimePeriod>>, hour: int, minute: int): Option<nat> {
    FirstByTimeFrom(faces, hour, minute, 0)
  }

  /** The first name, from position `from` on, equal to `name` ignoring ASCII case. */
  function FirstByNameFrom(names: seq<string>, name: string, from: nat): (r: Option<nat>)
    requires from <= |names|
    ensures r.Some? ==> from <= r.value < |names| && EqualsIgnoreCase(names[r.value], name)
    ensures r.Some? ==> forall k :: from <= k < r.value ==> !EqualsIgnoreCase(names[k], name)
    ensures r.None? ==> forall k :: from <= k < |names| ==> !EqualsIgnoreCase(names[k], name)
    decreases |names| - from
  {
    if from == |names| then None
    else if EqualsIgnoreCase(names[from], name) then Some(from)
    else FirstByNameFrom(names, name, from + 1)
  }

  /** Selection by name: `strcasecmp` against every face name, first match wins. */
  function FirstByName(names: seq<string>, name: string): Option<nat> {
    FirstByNameFrom(names, name, 0)
  }

  /** Among several matching faces the earliest is chosen. */
  lemma {:induction false} FirstByTimeIsEarliest(faces: seq<seq<TimePeriod>>, hour: int, minute: int, i: nat, from: nat)
    requires from <= i < |faces| && FaceMatches(faces[i], hour, minute)
    ensures FirstByTimeFrom(faces, hour, minute, from).Some?
    ensures FirstByTimeFrom(faces, hour, minute, from).value <= i
    decreases i - from
  {
    if !FaceMatches(faces[from], hour, minute) {
      FirstByTimeIsEarliest(faces, hour, minute, i, from + 1);
    }
  }

  /** Any face that matches the name forces a selection no later than it. */
  lemma {:induction false} FirstByNameIsEarliest(names: seq<string>, name: string, i: nat, from: nat)
    requires from <= i < |names| && EqualsIgnoreCase(names[i], name)
    ensures FirstByNameFrom(names, name, from).Some?
    ensures FirstByNameFrom(names, name, from).value <= i
    decreases i - from
  {
    if !EqualsIgnoreCase(names[from], name) {
      FirstByNameIsEarliest(names, name, i, from + 1);
    }
  }

  /** Case of the argument does not matter: "NIGHT" and "night" select the same face. */
  lemma FirstByNameCaseBlind(names: seq<string>, a: string, b: string)
    requires Lower(a) == Lower(b)
    ensures FirstByName(names, a) == FirstByName(names, b)
  {
    var ra := FirstByName(names, a);
    var rb := FirstByName(names, b);
    if ra.Some? {
      FirstByNameIsEarliest(names, b, ra.value, 0);
    }
    if rb.Some? {
      FirstByNameIsEarliest(names, a, rb.value, 0);
    }
  }

  /** `get_names` on one name: the first character upper-cased, every other one lower-cased. */
  function Capitalize(s: string): (r: string)
    ensures |r| == |s|
    ensures forall j :: 0 <= j < |s| ==> r[j] == (if j == 0 then ToUpper(s[j]) else ToLower(s[j]))
  {
    seq(|s|, j requires 0 <= j < |s| => if j == 0 then ToUpper(s[j]) else ToLower(s[j]))
  }

  /** A display name still selects its face: it equals the stored name ignoring case. */
  lemma CapitalizeSameName(s: string)
    ensures EqualsIgnoreCase(Capitalize(s), s)
  {
    var c := Capitalize(s);
    forall j | 0 <= j < |s| ensures Lower(c)[j] == Lower(s)[j] {
      ToLowerOfCase(s[j]);
    }
  }

  /**
   * Selecting by a name from `get_names` picks that face, or an earlier face
   * whose name differs from it only in case.
   */
  lemma SelectByDisplayName(names: seq<string>, i: nat)
    requires i < |names|
    ensures FirstByName(names, Capitalize(names[i])).Some?
    ensures FirstByName(names, Capitalize(names[i])).value <= i
    ensures EqualsIgnoreCase(names[FirstByName(names, Capitalize(names[i])).value], names[i])
  {
    var d := Capitalize(names[i]);
    CapitalizeSameName(names[i]);
    FirstByNameIsEarliest(names, d, i, 0);
  }
}
