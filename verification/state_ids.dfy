/**
 * How the state-change handler reads a state id: its last dot-separated
 * segment picks the command, the sibling `chargingUserId` state names the
 * user to charge for, and the first segment starting with `cst-` names the
 * charging station.
 */
module StateIds {
  import opened Wrappers
  import opened JsText
  import opened ObjectDb

  /** `parts[parts.length - 1]` of `id.split(".")`. */
  function LastSegment(id: string): (s: string)
    ensures '.' !in s
  {
    var parts := Split(id, '.');
    parts[|parts| - 1]
  }

  /** `id.replace(/(\.[^.]*)$/, ".chargingUserId")`: the last segment replaced; an id without a dot is unchanged. */
  function ChargingUserStateId(id: string): (r: string)
    ensures '.' !in id ==> r == id
  {
    match LastIndexOf(id, '.')
    case None => id
    case Some(j) => id[..j] + ".chargingUserId"
  }

  /** A segment that names a charging station. */
  predicate IsStationSegment(part: string)
  {
    "cst-" <= part
  }

  /** The first segment starting with `cst-` (`parts.find(part => part.startsWith("cst-"))`). */
  function StationOf(id: string): Option<string>
  {
    Find(Split(id, '.'), IsStationSegment)
  }

  /** `${station}` in a URL: a station that was not found renders as "undefined". */
  function StationText(station: Option<string>): string
  {
    station.GetOr("undefined")
  }

  /** What a state change asks the portal to do. */
  datatype Command = SetCurrentCmd(station: string, current: Value) | ChargeCmd(station: string, start: bool, userId: Value) | NoCommand

  /** The dispatch on the last segment; `userId` is the value read from the sibling state. */
  function Dispatch(id: string, val: Value, userId: Value): (c: Command)
    ensures c.NoCommand? <==> LastSegment(id) != "current" && LastSegment(id) != "chargingStart" && LastSegment(id) != "chargingStop"
    ensures c.SetCurrentCmd? ==> c.current == val
    ensures c.ChargeCmd? ==> c.userId == userId && (c.start <==> LastSegment(id) == "chargingStart")
  {
    var last := LastSegment(id);
    var station := StationText(StationOf(id));
    if last == "current" then SetCurrentCmd(station, val)
    else if last == "chargingStart" then ChargeCmd(station, true, userId)
    else if last == "chargingStop" then ChargeCmd(station, false, userId)
    else NoCommand
  }

  // ---------------------------------------------------------------------------
  // Properties
  // ---------------------------------------------------------------------------

  /** Splitting `a.b` where `b` has no dot gives the pieces of `a` followed by `b`. */
  lemma SplitLast(a: string, b: string)
    requires '.' !in b
    ensures Split(a + "." + b, '.') == Split(a, '.') + [b]
  {
    assert a + "." + b == a + ['.'] + b;
    SplitAppend(a, b, '.');
    SplitNoSeparator(b, '.');
  }

  lemma LastDot(a: string, b: string)
    requires '.' !in b
    ensures LastIndexOf(a + "." + b, '.') == Some(|a|)
  {
    var s := a + "." + b;
    assert s[|a|] == '.';
    assert LastIndexOf(s, '.').Some?;
  }

  /**
   * The sibling id of a dotted id is the id with its last segment replaced
   * by `chargingUserId`: same segments before it, one segment after.
   */
  lemma SiblingSegments(id: string)
    requires '.' in id
    ensures var parts := Split(id, '.');
      Split(ChargingUserStateId(id), '.') == parts[..|parts| - 1] + ["chargingUserId"]
  {
    var j := LastIndexOf(id, '.').value;
    var a := id[..j];
    var b := id[j + 1..];
    assert '.' !in b by {
      forall k | 0 <= k < |b| ensures b[k] != '.' { assert b[k] == id[j + 1 + k]; }
    }
    assert id == a + "." + b;
    SiblingSplit(a, b);
  }

  lemma SiblingSplit(a: string, b: string)
    requires '.' !in b
    ensures var parts := Split(a + "." + b, '.');
      Split(ChargingUserStateId(a + "." + b), '.') == parts[..|parts| - 1] + ["chargingUserId"]
  {
    SiblingOfControl(a, b);
    SplitUserId(a);
    SplitInit(a, b);
  }

  lemma SplitInit(a: string, b: string)
    requires '.' !in b
    ensures var parts := Split(a + "." + b, '.'); parts[..|parts| - 1] == Split(a, '.')
  {
    SplitLast(a, b);
  }

  lemma SplitUserId(a: string)
    ensures Split(a + ".chargingUserId", '.') == Split(a, '.') + ["chargingUserId"]
  {
    var u := "chargingUserId";
    assert '.' !in u;
    assert a + ".chargingUserId" == a + "." + u;
    SplitLast(a, u);
  }

  /** A control node `<node>.<control>` reads its user from `<node>.chargingUserId`. */
  lemma SiblingOfControl(node: string, c: string)
    requires '.' !in c
    ensures ChargingUserStateId(node + "." + c) == node + ".chargingUserId"
    ensures LastSegment(node + "." + c) == c
  {
    LastDot(node, c);
    assert (node + "." + c)[..|node|] == node;
    SplitLast(node, c);
  }

  /**
   * For a control node of a station mirrored under an organisation path
   * without `cst-` segments, the station found is the station's own id.
   */
  lemma StationOfControl(orgPath: string, stId: string, c: string)
    requires IsStationSegment(stId) && '.' !in stId && '.' !in c
    requires forall i :: 0 <= i < |Split(orgPath, '.')| ==> !IsStationSegment(Split(orgPath, '.')[i])
    ensures StationOf(orgPath + "." + stId + "." + c) == Some(stId)
  {
    SplitLast(orgPath, stId);
    SplitLast(orgPath + "." + stId, c);
    FirstStation(Split(orgPath, '.'), stId, c);
  }

  /** Behind segments that name no station, the station segment is the one found. */
  lemma FirstStation(po: seq<string>, stId: string, c: string)
    requires IsStationSegment(stId)
    requires forall i :: 0 <= i < |po| ==> !IsStationSegment(po[i])
    ensures Find(po + [stId] + [c], IsStationSegment) == Some(stId)
  {
    var parts := po + [stId] + [c];
    assert parts[|po|] == stId;
    forall j | 0 <= j < |po| ensures !IsStationSegment(parts[j]) {
      assert parts[j] == po[j];
    }
  }

  /**
   * Writing a station's control state commands exactly what its name says,
   * for that station: `current` sets the current to the written value,
   * `chargingStart`/`chargingStop` start or stop charging for the user read
   * from the sibling, and `chargingUserId` commands nothing.
   */
  lemma DispatchControl(orgPath: string, stId: string, c: string, val: Value, userId: Value)
    requires IsStationSegment(stId) && '.' !in stId && '.' !in c
    requires forall i :: 0 <= i < |Split(orgPath, '.')| ==> !IsStationSegment(Split(orgPath, '.')[i])
    ensures var id := orgPath + "." + stId + "." + c;
      Dispatch(id, val, userId) ==
        if c == "current" then SetCurrentCmd(stId, val)
        else if c == "chargingStart" then ChargeCmd(stId, true, userId)
        else if c == "chargingStop" then ChargeCmd(stId, false, userId)
        else NoCommand
  {
    StationOfControl(orgPath, stId, c);
    SiblingOfControl(orgPath + "." + stId, c);
  }
}
