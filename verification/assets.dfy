/**
 * Mirroring of the descriptive data the portal returns: the charging
 * stations of the active organisation (GetStationsOfCurrentOrg), the users
 * of an organisation (GetOrg) and the logged-in user (GetUserInfo). Each is
 * a channel node with a fixed list of states; a station additionally gets
 * the four writable control nodes the state-change handler listens to.
 */
module Assets {
  import opened ObjectDb

  // ---------------------------------------------------------------------------
  // Charging stations
  // ---------------------------------------------------------------------------

  /** One entry of the station list; `id` is the text `${station.id}` renders. */
  datatype Station = Station(
    id: string,
    name: Value,
    serialNumber: Value,
    model: Value,
    macAddress: Value,
    firmwareVersion: Value,
    latitude: Value,
    longitude: Value,
    mainboardBootloaderVersion: Value,
    mainboardFirmwareVersion: Value,
    mainboardHardwareRevision: Value,
    latestOperationMode: Value,
    publicKey: Value,
    connectivity: Value,
    creationDate: Value,
    modificationDate: Value)

  /** `path + "." + station.id`, where `path` is the organisation's node id. */
  function StationPath(path: string, st: Station): string
  {
    path + "." + st.id
  }

  function StationFields(st: Station): seq<Field>
  {
    [Set("serialNumber", st.serialNumber), Set("model", st.model), Set("macAddress", st.macAddress),
     Set("firmwareVersion", st.firmwareVersion), Set("latitude", st.latitude), Set("longitude", st.longitude),
     Set("mainboardBootloaderVersion", st.mainboardBootloaderVersion),
     Set("mainboardFirmwareVersion", st.mainboardFirmwareVersion),
     Set("mainboardHardwareRevision", st.mainboardHardwareRevision),
     Set("latestOperationMode", st.latestOperationMode), Set("publicKey", st.publicKey),
     Set("connectivity", st.connectivity), Set("creationDate", st.creationDate),
     Set("modificationDate", st.modificationDate)]
  }

  /** The writable nodes a user changes to command the station; created, never written here. */
  const ControlNames: seq<string> := ["chargingStart", "chargingStop", "chargingUserId", "current"]

  function ControlOps(sp: string): seq<Op>
  {
    [Ensure(sp + ".chargingStart", StateNode), Ensure(sp + ".chargingStop", StateNode),
     Ensure(sp + ".chargingUserId", StateNode), Ensure(sp + ".current", StateNode)]
  }

  function StationOps(path: string, st: Station): seq<Op>
  {
    NodeOps(StationPath(path, st), StationFields(st)) + ControlOps(StationPath(path, st))
  }

  function StationListOps(path: string, sts: seq<Station>): seq<Op>
  {
    if sts == [] then [] else StationListOps(path, sts[..|sts| - 1]) + StationOps(path, sts[|sts| - 1])
  }

  // ---------------------------------------------------------------------------
  // Users of an organisation
  // ---------------------------------------------------------------------------

  datatype OrgUser = OrgUser(id: string, userName: Value, firstName: Value, lastName: Value, roleId: Value)

  function OrgUserPath(u: OrgUser): string
  {
    "users." + u.id
  }

  function OrgUserFields(u: OrgUser): seq<Field>
  {
    [Set("given_name", u.firstName), Set("family_name", u.lastName), Set("roleId", u.roleId)]
  }

  function OrgUserOps(u: OrgUser): seq<Op>
  {
    NodeOps(OrgUserPath(u), OrgUserFields(u))
  }

  function OrgUserListOps(us: seq<OrgUser>): seq<Op>
  {
    if us == [] then [] else OrgUserListOps(us[..|us| - 1]) + OrgUserOps(us[|us| - 1])
  }

  // ---------------------------------------------------------------------------
  // The logged-in user
  // ---------------------------------------------------------------------------

  /** The user-info document; `permissionsJson` is `JSON.stringify(permissions)`. */
  datatype UserData = UserData(
    sub: string,
    email: Value,
    givenName: Value,
    familyName: Value,
    activeOrg: Value,
    accessToken: Value,
    refreshToken: Value,
    expiresAt: Value,
    locale: Value,
    permissionsJson: string)

  function UserInfoPath(u: UserData): string
  {
    "users." + u.sub
  }

  function UserInfoFields(u: UserData): seq<Field>
  {
    [Set("given_name", u.givenName), Set("family_name", u.familyName), Set("activeOrg", u.activeOrg),
     Set("access_token", u.accessToken), Set("refresh_token", u.refreshToken), Set("expires_at", u.expiresAt),
     Set("locale", u.locale), Set("permissions", Str(u.permissionsJson))]
  }

  function UserInfoOps(u: UserData): seq<Op>
  {
    NodeOps(UserInfoPath(u), UserInfoFields(u))
  }

  // ---------------------------------------------------------------------------
  // Properties
  // ---------------------------------------------------------------------------

  /** After one station is mirrored, its fourteen states hold the reported values. */
  lemma StationFieldsLand(db: Db, path: string, st: Station, k: nat)
    requires k < |StationFields(st)|
    ensures StationPath(path, st) + "." + StationFields(st)[k].name in Apply(db, StationOps(path, st)).states
    ensures Apply(db, StationOps(path, st)).states[StationPath(path, st) + "." + StationFields(st)[k].name]
      == StateVal(StationFields(st)[k].val, true)
  {
    var sp := StationPath(path, st);
    var fs := StationFields(st);
    var ctl := ControlOps(sp);
    StationNamesDistinct(st);
    NodeOpsSpec(db, sp, fs);
    ApplyAppend(db, NodeOps(sp, fs), ctl);
    ControlsUntouched(sp, sp + "." + fs[k].name);
    UntouchedKept(Apply(db, NodeOps(sp, fs)), ctl, sp + "." + fs[k].name);
  }

  lemma StationNamesDistinct(st: Station)
    ensures DistinctNames(StationFields(st))
  {
  }

  /** The control nodes are only created, so no state value changes through them. */
  lemma ControlsUntouched(sp: string, id: string)
    ensures Untouched(ControlOps(sp), id)
  {
  }

  /** After one station is mirrored, its channel and its four control nodes exist. */
  lemma StationControlsCreated(db: Db, path: string, st: Station)
    ensures StationPath(path, st) in Apply(db, StationOps(path, st)).objects
    ensures forall c :: c in ControlNames ==> StationPath(path, st) + "." + c in Apply(db, StationOps(path, st)).objects
  {
    var sp := StationPath(path, st);
    var node := NodeOps(sp, StationFields(st));
    var ctl := ControlOps(sp);
    var ops := StationOps(path, st);
    assert ops == node + ctl;
    assert ops[0] == Ensure(sp, Channel);
    EnsuredPresent(db, ops, 0);
    forall c | c in ControlNames ensures sp + "." + c in Apply(db, ops).objects {
      var i :| 0 <= i < 4 && ControlNames[i] == c;
      assert ops[|node| + i] == ctl[i] == Ensure(sp + "." + c, StateNode);
      EnsuredPresent(db, ops, |node| + i);
    }
  }

  /** Mirroring a station never writes its control states: a pending command value is left as it was. */
  lemma StationControlStatesKept(db: Db, path: string, st: Station, c: string)
    requires c in ControlNames
    ensures (StationPath(path, st) + "." + c in Apply(db, StationOps(path, st)).states)
      == (StationPath(path, st) + "." + c in db.states)
    ensures StationPath(path, st) + "." + c in db.states ==>
      Apply(db, StationOps(path, st)).states[StationPath(path, st) + "." + c] == db.states[StationPath(path, st) + "." + c]
  {
    var sp := StationPath(path, st);
    var fs := StationFields(st);
    forall k | 0 <= k < |fs| ensures sp + "." + fs[k].name != sp + "." + c {
      SameNodeNames(sp, fs[k].name, c);
    }
    FieldsOpsUntouched(sp, fs, sp + "." + c);
    UntouchedAppend([Ensure(sp, Channel)], FieldsOps(sp, fs), sp + "." + c);
    UntouchedAppend(NodeOps(sp, fs), ControlOps(sp), sp + "." + c);
    UntouchedKept(db, StationOps(path, st), sp + "." + c);
  }

  /** Mirroring one station changes only states under the organisation's node and creates before it writes. */
  lemma StationFrame(path: string, st: Station)
    ensures OpsUnder(StationOps(path, st), path + ".")
    ensures CreatedBeforeWritten(StationOps(path, st))
  {
    var sp := StationPath(path, st);
    NodeOpsFrame(sp, StationFields(st));
    OpsUnderWiden(NodeOps(sp, StationFields(st)), path + ".", sp + ".");
    assert OpsUnder(ControlOps(sp), path + ".");
    assert CreatedBeforeWritten(ControlOps(sp));
    OpsUnderAppend(NodeOps(sp, StationFields(st)), ControlOps(sp), path + ".");
    CreatedBeforeWrittenAppend(NodeOps(sp, StationFields(st)), ControlOps(sp));
  }

  /** Mirroring a station list changes only states under the organisation's node and creates before it writes. */
  lemma {:induction false} StationListFrame(path: string, sts: seq<Station>)
    ensures OpsUnder(StationListOps(path, sts), path + ".")
    ensures CreatedBeforeWritten(StationListOps(path, sts))
  {
    if sts != [] {
      var init := sts[..|sts| - 1];
      var st := sts[|sts| - 1];
      StationListFrame(path, init);
      StationFrame(path, st);
      OpsUnderAppend(StationListOps(path, init), StationOps(path, st), path + ".");
      CreatedBeforeWrittenAppend(StationListOps(path, init), StationOps(path, st));
    }
  }

  /** Mirroring organisation users changes only states under `users.` and creates before it writes. */
  lemma {:induction false} OrgUserListFrame(us: seq<OrgUser>)
    ensures OpsUnder(OrgUserListOps(us), "users.")
    ensures CreatedBeforeWritten(OrgUserListOps(us))
  {
    if us != [] {
      var init := us[..|us| - 1];
      var u := us[|us| - 1];
      OrgUserListFrame(init);
      NodeOpsFrame(OrgUserPath(u), OrgUserFields(u));
      OpsUnderWiden(OrgUserOps(u), "users.", OrgUserPath(u) + ".");
      OpsUnderAppend(OrgUserListOps(init), OrgUserOps(u), "users.");
      CreatedBeforeWrittenAppend(OrgUserListOps(init), OrgUserOps(u));
    }
  }

  /**
   * Each of the eight user-info states lands under `users.<sub>.` with the
   * value served (the permissions as their JSON text), and no state outside
   * that node changes.
   */
  lemma UserInfoMirrored(db: Db, u: UserData, k: nat)
    requires k < |UserInfoFields(u)|
    ensures var after := Apply(db, UserInfoOps(u));
      && UserInfoPath(u) in after.objects
      && UserInfoPath(u) + "." + UserInfoFields(u)[k].name in after.states
      && after.states[UserInfoPath(u) + "." + UserInfoFields(u)[k].name] == StateVal(UserInfoFields(u)[k].val, true)
    ensures UserInfoFields(u)[7] == Set("permissions", Str(u.permissionsJson))
    ensures var after := Apply(db, UserInfoOps(u));
      forall id :: !(UserInfoPath(u) + "." <= id) ==>
        (id in after.states) == (id in db.states) && (id in db.states ==> after.states[id] == db.states[id])
    ensures CreatedBeforeWritten(UserInfoOps(u))
  {
    var fs := UserInfoFields(u);
    assert DistinctNames(fs);
    NodeOpsSpec(db, UserInfoPath(u), fs);
    StatesOutsideKept(db, UserInfoOps(u), UserInfoPath(u) + ".");
  }
}
