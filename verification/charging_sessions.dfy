/**
 * Mirroring of historical charging sessions (GetChargingSessions): each
 * present entry gets a channel `chargingsessions.<segment>` where the
 * segment is the session id left-padded with '0' to five characters, ten
 * descriptive states, and the three `user.*` states only when the session
 * carries a user. Falsy entries are skipped.
 */
module ChargingSessions {
  import opened Wrappers
  import opened JsText
  import opened ObjectDb

  datatype SessionUser = SessionUser(id: Value, firstName: Value, lastName: Value)

  /**
   * One entry of the session list. `chargingSessionId` is the text of the
   * provider's id as `chargingSessionId + ""` renders it.
   */
  datatype ChargingSession = ChargingSession(
    chargingSessionId: string,
    id: Value,
    chargingStationId: Value,
    chargingStationName: Value,
    chargingStatus: Value,
    location: Value,
    organizationPath: Value,
    sessionStarted: Value,
    sessionCompleted: Value,
    sessionDuration: Value,
    sessionEnergyAmount: Value,
    user: Option<SessionUser>)

  /** `(chargingSessionId + "").padStart(5, "0")`. */
  function SessionSegment(s: ChargingSession): string
  {
    PadStart(s.chargingSessionId, 5, '0')
  }

  function SessionPath(s: ChargingSession): string
  {
    "chargingsessions." + SessionSegment(s)
  }

  function BaseFields(s: ChargingSession): seq<Field>
  {
    [Set("id", s.id), Set("chargingStationId", s.chargingStationId), Set("chargingStationName", s.chargingStationName),
     Set("chargingStatus", s.chargingStatus), Set("location", s.location), Set("organizationPath", s.organizationPath),
     Set("sessionStarted", s.sessionStarted), Set("sessionCompleted", s.sessionCompleted),
     Set("sessionDuration", s.sessionDuration), Set("sessionEnergyAmount", s.sessionEnergyAmount)]
  }

  function UserFields(u: SessionUser): seq<Field>
  {
    [Set("user.id", u.id), Set("user.firstName", u.firstName), Set("user.lastName", u.lastName)]
  }

  /** The states of one session, in the order they are written. */
  function SessionFields(s: ChargingSession): seq<Field>
  {
    BaseFields(s) + match s.user
      case None => []
      case Some(u) => UserFields(u)
  }

  /** The store calls for one present session. */
  function SessionOps(s: ChargingSession): seq<Op>
  {
    NodeOps(SessionPath(s), SessionFields(s))
  }

  /** What one entry of the list contributes: `if (!session) return;` skips an absent entry. */
  function EntryOps(e: Option<ChargingSession>): seq<Op>
  {
    match e
    case None => []
    case Some(s) => SessionOps(s)
  }

  /** The store calls for the whole list, entry after entry. */
  function SessionListOps(entries: seq<Option<ChargingSession>>): seq<Op>
  {
    if entries == [] then [] else SessionListOps(entries[..|entries| - 1]) + EntryOps(entries[|entries| - 1])
  }

  function EntrySessions(e: Option<ChargingSession>): seq<ChargingSession>
  {
    match e
    case None => []
    case Some(s) => [s]
  }

  /** The sessions actually mirrored: the present entries, in order. */
  function Present(entries: seq<Option<ChargingSession>>): (r: seq<ChargingSession>)
    ensures |r| <= |entries|
    ensures forall s :: s in r <==> Some(s) in entries
  {
    if entries == [] then []
    else
      var init := entries[..|entries| - 1];
      assert entries == init + [entries[|entries| - 1]];
      Present(init) + EntrySessions(entries[|entries| - 1])
  }

  /** Mirroring a list of sessions one by one, with nothing skipped. */
  function AllSessionsOps(ss: seq<ChargingSession>): seq<Op>
  {
    if ss == [] then [] else AllSessionsOps(ss[..|ss| - 1]) + SessionOps(ss[|ss| - 1])
  }

  // ---------------------------------------------------------------------------
  // Properties
  // ---------------------------------------------------------------------------

  /** Skipping falsy entries is the same as mirroring only the present sessions. */
  lemma {:induction false} SessionListSkipsAbsent(entries: seq<Option<ChargingSession>>)
    ensures SessionListOps(entries) == AllSessionsOps(Present(entries))
  {
    if entries != [] {
      var init := entries[..|entries| - 1];
      var e := entries[|entries| - 1];
      SessionListSkipsAbsent(init);
      assert SessionListOps(entries) == SessionListOps(init) + EntryOps(e);
      assert Present(entries) == Present(init) + EntrySessions(e);
      match e
      case None =>
        assert Present(init) + EntrySessions(e) == Present(init);
        assert SessionListOps(init) + EntryOps(e) == SessionListOps(init);
      case Some(s) =>
        var p := Present(init) + [s];
        assert p[..|p| - 1] == Present(init);
        assert AllSessionsOps(p) == AllSessionsOps(Present(init)) + SessionOps(s);
    }
  }

  /**
   * The segment of a session id: exactly five characters for ids of up to
   * five, the id itself for longer ones, always ending with the id and
   * padded only with '0'.
   */
  lemma SegmentShape(s: ChargingSession)
    ensures |SessionSegment(s)| == if |s.chargingSessionId| >= 5 then |s.chargingSessionId| else 5
    ensures |s.chargingSessionId| >= 5 ==> SessionSegment(s) == s.chargingSessionId
    ensures SessionSegment(s)[|SessionSegment(s)| - |s.chargingSessionId|..] == s.chargingSessionId
  {
  }

  /** A numeric id below 100000 becomes five digits that read back as the same number (42 becomes "00042"). */
  lemma NumericSegment(n: nat)
    requires n < 100000
    ensures |PadStart(DecimalString(n), 5, '0')| == 5
    ensures IsDigits(PadStart(DecimalString(n), 5, '0'))
    ensures ParseDecimal(PadStart(DecimalString(n), 5, '0')) == n
  {
    var d := DecimalString(n);
    DecimalLength(n);
    ParseDecimalString(n);
    if |d| < 5 {
      ParseLeadingZeros(5 - |d|, d);
    }
  }

  /** A number below 100000 has at most five digits. */
  lemma {:induction false} DecimalLength(n: nat)
    ensures n < 100000 ==> |DecimalString(n)| <= 5
    ensures n < 10000 ==> |DecimalString(n)| <= 4
    ensures n < 1000 ==> |DecimalString(n)| <= 3
    ensures n < 100 ==> |DecimalString(n)| <= 2
  {
    if n >= 10 {
      DecimalLength(n / 10);
    }
  }

  lemma SessionFieldsDistinct(s: ChargingSession)
    ensures DistinctNames(SessionFields(s))
    ensures forall k :: 0 <= k < |SessionFields(s)| ==> Written(SessionFields(s)[k])
  {
    var fs := SessionFields(s);
    if s.user.Some? {
      assert fs == BaseFields(s) + UserFields(s.user.value);
    } else {
      assert fs == BaseFields(s);
    }
  }

  /** Each state of a session lands at `chargingsessions.<segment>.<name>`. */
  lemma SessionFieldLands(db: Db, s: ChargingSession, k: nat)
    requires k < |SessionFields(s)|
    ensures SessionPath(s) + "." + SessionFields(s)[k].name in Apply(db, SessionOps(s)).states
    ensures Apply(db, SessionOps(s)).states[SessionPath(s) + "." + SessionFields(s)[k].name] == StateVal(SessionFields(s)[k].val, true)
  {
    var fs := SessionFields(s);
    SessionFieldsDistinct(s);
    assert Written(fs[k]);
    NodeOpsSpec(db, SessionPath(s), fs);
  }

  /** Without a user, none of the three `user.*` states of the session is written. */
  lemma NoUserNoUserStates(db: Db, s: ChargingSession, name: string)
    requires s.user.None? && name in {"user.id", "user.firstName", "user.lastName"}
    ensures (SessionPath(s) + "." + name in Apply(db, SessionOps(s)).states) == (SessionPath(s) + "." + name in db.states)
    ensures SessionPath(s) + "." + name in db.states ==>
      Apply(db, SessionOps(s)).states[SessionPath(s) + "." + name] == db.states[SessionPath(s) + "." + name]
  {
    var path := SessionPath(s);
    var fs := SessionFields(s);
    var id := path + "." + name;
    assert fs == BaseFields(s);
    forall k | 0 <= k < |fs| ensures path + "." + fs[k].name != id {
      SameNodeNames(path, fs[k].name, name);
    }
    FieldsOpsUntouched(path, fs, id);
    UntouchedAppend([Ensure(path, Channel)], FieldsOps(path, fs), id);
    UntouchedKept(db, SessionOps(s), id);
  }

  /** With a user, its id and names (`user.id`, `user.firstName`, `user.lastName`) land under the session's node. */
  lemma UserStatesWritten(db: Db, s: ChargingSession, i: nat)
    requires s.user.Some? && i < 3
    ensures SessionPath(s) + "." + UserFields(s.user.value)[i].name in Apply(db, SessionOps(s)).states
    ensures Apply(db, SessionOps(s)).states[SessionPath(s) + "." + UserFields(s.user.value)[i].name]
      == StateVal(UserFields(s.user.value)[i].val, true)
  {
    var fs := SessionFields(s);
    assert fs[|BaseFields(s)| + i] == UserFields(s.user.value)[i];
    SessionFieldLands(db, s, |BaseFields(s)| + i);
  }

  /** Mirroring sessions changes only states under `chargingsessions.` and creates each node first. */
  lemma {:induction false} SessionListFrame(entries: seq<Option<ChargingSession>>)
    ensures OpsUnder(SessionListOps(entries), "chargingsessions.")
    ensures CreatedBeforeWritten(SessionListOps(entries))
  {
    if entries != [] {
      var init := entries[..|entries| - 1];
      SessionListFrame(init);
      assert SessionListOps(entries) == SessionListOps(init) + EntryOps(entries[|entries| - 1]);
      match entries[|entries| - 1]
      case None =>
        assert SessionListOps(entries) == SessionListOps(init) + [];
      case Some(s) =>
        NodeOpsFrame(SessionPath(s), SessionFields(s));
        OpsUnderWiden(SessionOps(s), "chargingsessions.", SessionPath(s) + ".");
        CreatedBeforeWrittenAppend(SessionListOps(init), SessionOps(s));
        OpsUnderAppend(SessionListOps(init), SessionOps(s), "chargingsessions.");
    }
  }
}
