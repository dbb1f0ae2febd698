/**
 * The adapter instance: its session flag, the invocation counter and the
 * single web socket it keeps, and the operations that drive the HTTP client
 * and the store. Each method is proved against the pure definitions of the
 * other modules: the calls it makes are a `LoginRun` or `Retry` trace, and
 * what it does to the store is `Apply` of the corresponding operation list.
 */
module Adapter {
  import opened Wrappers
  import opened JsText
  import opened ObjectDb
  import opened Organisations
  import opened Assets
  import opened ChargingSessions
  import opened Metrics
  import opened Http
  import opened Auth
  import opened Portal
  import opened Realtime
  import opened StateIds

  // ---------------------------------------------------------------------------
  // What the replies lead to
  // ---------------------------------------------------------------------------

  /** The store calls for a station list that was accepted (by the call or by its repeat). */
  function StationsServed(path: string, served: Option<Body>): seq<Op>
  {
    match served
    case Some(Stations(sts)) => StationListOps(path, sts)
    case _ => []
  }

  function SessionsServed(served: Option<Body>): seq<Op>
  {
    match served
    case Some(Sessions(entries)) => SessionListOps(entries)
    case _ => []
  }

  function UserInfoServed(served: Option<Body>): seq<Op>
  {
    match served
    case Some(UserInfo(u)) => UserInfoOps(u)
    case _ => []
  }

  /** An organisation's users are mirrored when the call answers 200 with a user list. */
  function OrgUsersOps(o: Outcome): seq<Op>
  {
    if o.Response? && o.status == 200 && o.body.OrgUsers? then OrgUserListOps(o.body.users) else []
  }

  /** The organisation list, when the call answered 200 with one; nothing otherwise. */
  function ListedOrgs(o: Outcome): seq<Org>
  {
    if o.Response? && o.status == 200 && o.body.Orgs? then o.body.orgs else []
  }

  /** `negotiate.data.connectionToken`, which renders as "undefined" when the body has none. */
  function TokenOf(b: Body): string
  {
    if b.Negotiation? then b.connectionToken else "undefined"
  }

  /** Did the negotiation among the replies `q` answer 200? */
  predicate Negotiated(q: seq<Reply>)
  {
    var o := Deliver(Nth(q, 0), RedirectsOk);
    o.Response? && o.status == 200
  }

  /** The three calls that select an organisation and read it, in order. */
  function ReadOrgCalls(jar: seq<Cookie>, org: string): seq<Request>
  {
    [SetOrgRequest(jar, org), OrgRequest(jar, org), StationsRequest]
  }

  /** The four calls that activate an organisation, in order: its selection and reading, then the negotiation. */
  function ActivationCalls(jar: seq<Cookie>, org: string): seq<Request>
  {
    ReadOrgCalls(jar, org) + [NegotiateRequest(jar)]
  }

  /** What activating an organisation writes, given the replies from the SetOrg call on. */
  function ActivationOps(path: string, q: seq<Reply>): seq<Op>
  {
    OrgUsersOps(Deliver(Nth(q, 1), AnyStatus)) + StationsServed(path, Once(StationsRequest, 200, StationList, Drop(q, 2)).served)
  }

  /** The calls a state change makes: a command's retry-once trace, or nothing. */
  function CommandAttempt(cfg: Config, jar: seq<Cookie>, cmd: Command, q: seq<Reply>): Attempt
  {
    match cmd
    case SetCurrentCmd(station, current) => Retry(cfg, jar, SetCurrentRequest(jar, station, current), 204, AnyBody, true, q)
    case ChargeCmd(station, start, userId) => Retry(cfg, jar, ChargingRequest(jar, station, start, userId), 204, AnyBody, true, q)
    case NoCommand => Attempt([], false, None, None)
  }

  /** `GetChargingUserId`: the sibling state's value when it is truthy, null otherwise. */
  function UserIdOf(s: Option<StateVal>): (v: Value)
    ensures Truthy(v) || v == Null
    ensures (s.Some? && Truthy(s.value.val)) <==> Truthy(v)
  {
    if s.Some? && Truthy(s.value.val) then s.value.val else Null
  }

  // ---------------------------------------------------------------------------
  // Proof steps for the store-writing methods
  // ---------------------------------------------------------------------------

  lemma ApplyOne(db: Db, op: Op)
    ensures Apply(db, [op]) == Step(db, op)
  {
    assert [op][..0] == [];
  }

  /** A node is its channel followed by its fields. */
  lemma NodeWritten(db: Db, path: string, fs: seq<Field>)
    ensures Apply(db, NodeOps(path, fs)) == Apply(Step(db, Ensure(path, Channel)), FieldsOps(path, fs))
  {
    ApplyAppend(db, [Ensure(path, Channel)], FieldsOps(path, fs));
    ApplyOne(db, Ensure(path, Channel));
  }

  /** An unguarded field creates its state, then writes it. */
  lemma SetWritten(db: Db, path: string, name: string, v: Value)
    ensures Apply(db, FieldOps(path, Set(name, v))) ==
      Step(Step(db, Ensure(path + "." + name, StateNode)), Write(path + "." + name, v))
  {
    var e := Ensure(path + "." + name, StateNode);
    var w := Write(path + "." + name, v);
    assert FieldOps(path, Set(name, v)) == [e] + [w];
    ApplySnoc(db, [e], w);
    ApplyOne(db, e);
  }

  lemma FieldsSnoc(db: Db, path: string, fs: seq<Field>, f: Field)
    ensures Apply(db, FieldsOps(path, fs + [f])) == Apply(Apply(db, FieldsOps(path, fs)), FieldOps(path, f))
  {
    assert (fs + [f])[..|fs|] == fs;
    ApplyAppend(db, FieldsOps(path, fs), FieldOps(path, f));
  }

  /** Two runs of field statements are one run over both lists. */
  lemma FieldsThen(db: Db, path: string, a: seq<Field>, b: seq<Field>)
    ensures Apply(Apply(db, FieldsOps(path, a)), FieldsOps(path, b)) == Apply(db, FieldsOps(path, a + b))
  {
    FieldsOpsAppend(path, a, b);
    ApplyAppend(db, FieldsOps(path, a), FieldsOps(path, b));
  }

  lemma PhaseSnoc(name: string, xs: seq<real>, i: nat)
    requires i < |xs|
    ensures PhaseFields(name, xs[..i + 1]) == PhaseFields(name, xs[..i]) + [Set(PhaseName(name, i), Num(xs[i]))]
  {
    assert xs[..i + 1][..i] == xs[..i];
  }

  lemma ControlsWritten(db: Db, sp: string)
    ensures Apply(db, ControlOps(sp)) ==
      Step(Step(Step(Step(db, Ensure(sp + ".chargingStart", StateNode)), Ensure(sp + ".chargingStop", StateNode)),
        Ensure(sp + ".chargingUserId", StateNode)), Ensure(sp + ".current", StateNode))
  {
    var e0, e1, e2, e3 := Ensure(sp + ".chargingStart", StateNode), Ensure(sp + ".chargingStop", StateNode),
      Ensure(sp + ".chargingUserId", StateNode), Ensure(sp + ".current", StateNode);
    ApplyOne(db, e0);
    ApplySnoc(db, [e0], e1);
    assert [e0] + [e1] == [e0, e1];
    ApplySnoc(db, [e0, e1], e2);
    assert [e0, e1] + [e2] == [e0, e1, e2];
    ApplySnoc(db, [e0, e1, e2], e3);
    assert [e0, e1, e2] + [e3] == ControlOps(sp);
  }

  /** A session's states are its ten own states, followed by the user's when there is a user. */
  lemma SessionFieldsSplit(s: ChargingSession)
    ensures SessionFields(s) == BaseFields(s) + (if s.user.Some? then UserFields(s.user.value) else [])
  {
  }

  // ---------------------------------------------------------------------------
  // The instance
  // ---------------------------------------------------------------------------

  class Libreo {
    const config: Config
    /** The cookies the XSRF tokens are read from. */
    const jar: seq<Cookie>
    const http: HttpClient
    const store: Store
    var loggedIn: bool
    var socketInvocationId: nat
    /** The one web socket of the adapter, replaced by every successful negotiation. */
    var ws: Socket?
    var currentNode: Option<string>
    /** The invocation ids sent in subscription frames so far, in order. */
    ghost var issued: seq<nat>

    /**
     * The counter starts at 1 and is bumped by every socket that is opened,
     * so every id it hands out is at least 2; the ids handed out strictly
     * increase and stay below the counter, so none is used twice.
     */
    ghost predicate Valid()
      reads this
    {
      && socketInvocationId >= 1
      && (ws == null ==> socketInvocationId == 1 && issued == [])
      && (ws != null ==> socketInvocationId >= 2)
      && (forall i, j :: 0 <= i < j < |issued| ==> issued[i] < issued[j])
      && (forall i :: 0 <= i < |issued| ==> 2 <= issued[i] < socketInvocationId)
    }

    /** The fields the HTTP operations leave alone. */
    ghost function Wiring(): (nat, Socket?, Option<string>, seq<nat>)
      reads this
    {
      (socketInvocationId, ws, currentNode, issued)
    }

    /** The instance as `onReady` leaves it before its first call: the counter at 1, no socket, not logged in. */
    constructor (config: Config, jar: seq<Cookie>, http: HttpClient, store: Store)
      ensures Valid()
      ensures this.config == config && this.jar == jar && this.http == http && this.store == store
      ensures !loggedIn && socketInvocationId == 1 && ws == null && currentNode == None && issued == []
    {
      this.config := config;
      this.jar := jar;
      this.http := http;
      this.store := store;
      loggedIn := false;
      socketInvocationId := 1;
      ws := null;
      currentNode := None;
      issued := [];
    }

    // -------------------------------------------------------------------------
    // Login
    // -------------------------------------------------------------------------

    /** The seven-step login; `loggedIn` is set on success and never cleared. */
    method Login() returns (ok: bool)
      modifies this, http
      ensures var t := LoginRun(config, jar, old(http.pending));
        && ok == t.ok
        && http.log == old(http.log) + t.requests
        && http.pending == Drop(old(http.pending), |t.requests|)
      ensures loggedIn == (old(loggedIn) || ok)
      ensures Wiring() == old(Wiring())
    {
      ghost var q := http.pending;
      ok := false;
      var initial := http.Send(InitialRequest(config));
      if initial.Thrown? || !Given(initial.location) {
        return;
      }
      ghost var rest := CredentialsRun(config, jar, initial.location.value, Drop(q, 1));
      ok := CredentialsSteps(initial.location.value);
      LogAppend(old(http.log), [InitialRequest(config)], rest.requests);
      DropDrop(q, 1, |rest.requests|);
      if ok {
        loggedIn := true;
      }
    }

    /** Steps 2 to 4 of the login, then the rest. */
    method CredentialsSteps(authUrl: string) returns (ok: bool)
      modifies http
      ensures var t := CredentialsRun(config, jar, authUrl, old(http.pending));
        && ok == t.ok
        && http.log == old(http.log) + t.requests
        && http.pending == Drop(old(http.pending), |t.requests|)
    {
      ghost var q := http.pending;
      ok := false;
      var auth := http.Send(AuthorizeRequest(config, authUrl));
      if auth.Thrown? {
        return;
      }
      // the login page is fetched from the first response's address again
      var loginRedirectUrl := authUrl;
      var redirect := http.Send(AuthorizeRequest(config, loginRedirectUrl));
      DropDrop(q, 1, 1);
      if redirect.Thrown? {
        return;
      }
      var login := http.Send(CredentialsRequest(config, jar, loginRedirectUrl));
      DropDrop(q, 2, 1);
      if login.Thrown? || login.status != 200 {
        return;
      }
      ghost var done := [AuthorizeRequest(config, authUrl), AuthorizeRequest(config, authUrl), CredentialsRequest(config, jar, authUrl)];
      ghost var rest := SigninRun(config, authUrl, Drop(q, 3));
      ok := SigninSteps(authUrl);
      LogAppend(old(http.log), done, rest.requests);
      DropDrop(q, 3, |rest.requests|);
    }

    /** Steps 5 to 7 of the login: the user info, the sign-in form and its submission. */
    method SigninSteps(authUrl: string) returns (ok: bool)
      modifies http
      ensures var t := SigninRun(config, authUrl, old(http.pending));
        && ok == t.ok
        && http.log == old(http.log) + t.requests
        && http.pending == Drop(old(http.pending), |t.requests|)
    {
      ghost var q := http.pending;
      ok := false;
      var userInfo := http.Send(IdUserInfoRequest);
      if userInfo.Thrown? {
        return;
      }
      var auth2 := http.Send(AuthorizeAgainRequest(authUrl));
      DropDrop(q, 1, 1);
      if auth2.Thrown? {
        return;
      }
      var token := http.Send(SigninRequest(config, auth2.body));
      DropDrop(q, 2, 1);
      ok := token.Response?;
    }

    // -------------------------------------------------------------------------
    // Commands
    // -------------------------------------------------------------------------

    /**
     * The shared shape of `SetCurrent` and `Charging`: 204 reports true; a
     * 401 with `loginIfForbidden` logs in and repeats the call once without
     * the flag, then reports false whatever the repeat did; anything else
     * reports false.
     */
    method Command(req: Request, loginIfForbidden: bool) returns (ok: bool)
      modifies this, http
      decreases loginIfForbidden
      ensures var a := Retry(config, jar, req, 204, AnyBody, loginIfForbidden, old(http.pending));
        && ok == a.result
        && http.log == old(http.log) + a.requests
        && http.pending == Drop(old(http.pending), |a.requests|)
        && loggedIn == (old(loggedIn) || a.relogin == Some(true))
      ensures Wiring() == old(Wiring())
    {
      ghost var q := http.pending;
      var response := http.Send(req);
      if response.Response? && response.status == 204 {
        ok := true;
      } else if response.Response? && response.status == 401 && loginIfForbidden {
        ghost var login := LoginRun(config, jar, Drop(q, 1));
        ghost var n := |login.requests|;
        var relogged := Login();
        DropDrop(q, 1, n);
        var repeated := Command(req, false);
        NoFlagIsOnce(config, jar, req, 204, AnyBody, Drop(q, 1 + n));
        DropDrop(q, 1 + n, 1);
        LogRegroup(old(http.log), req, login.requests, [req]);
        ok := false;
      } else {
        ok := false;
      }
    }

    /** Setting a station's maximum current. */
    method SetCurrent(station: string, current: Value, loginIfForbidden: bool) returns (ok: bool)
      modifies this, http
      ensures var a := Retry(config, jar, SetCurrentRequest(jar, station, current), 204, AnyBody, loginIfForbidden, old(http.pending));
        && ok == a.result
        && http.log == old(http.log) + a.requests
        && http.pending == Drop(old(http.pending), |a.requests|)
        && loggedIn == (old(loggedIn) || a.relogin == Some(true))
      ensures Wiring() == old(Wiring())
    {
      ok := Command(SetCurrentRequest(jar, station, current), loginIfForbidden);
    }

    /** Starting (`start`) or stopping charging at a station on behalf of `userId`. */
    method Charging(station: string, start: bool, userId: Value, loginIfForbidden: bool) returns (ok: bool)
      modifies this, http
      ensures var a := Retry(config, jar, ChargingRequest(jar, station, start, userId), 204, AnyBody, loginIfForbidden, old(http.pending));
        && ok == a.result
        && http.log == old(http.log) + a.requests
        && http.pending == Drop(old(http.pending), |a.requests|)
        && loggedIn == (old(loggedIn) || a.relogin == Some(true))
      ensures Wiring() == old(Wiring())
    {
      ok := Command(ChargingRequest(jar, station, start, userId), loginIfForbidden);
    }

    /** `GetChargingUserId`: reads the sibling state and changes nothing. */
    method GetChargingUserId(id: string) returns (userId: Value)
      ensures userId == UserIdOf(store.GetState(id))
      ensures (id in store.states && Truthy(store.states[id].val)) ==> userId == store.states[id].val
      ensures !(id in store.states && Truthy(store.states[id].val)) ==> userId == Null
    {
      var state := store.GetState(id);
      userId := Null;
      if state.Some? && Truthy(state.value.val) {
        userId := state.value.val;
      }
    }

    /**
     * A changed state: the command its id names is sent for the station
     * its id names, on behalf of the user in its `chargingUserId` sibling.
     * The result is whether the command reported success (the handler's
     * local `state.ack = true`).
     */
    method OnStateChange(id: string, state: Option<StateVal>) returns (acked: bool)
      modifies this, http
      ensures state.None? ==> http.log == old(http.log) && http.pending == old(http.pending) && loggedIn == old(loggedIn) && !acked
      ensures state.Some? ==>
        var userId := UserIdOf(old(store.GetState(ChargingUserStateId(id))));
        var a := CommandAttempt(config, jar, Dispatch(id, state.value.val, userId), old(http.pending));
        && acked == a.result
        && http.log == old(http.log) + a.requests
        && http.pending == Drop(old(http.pending), |a.requests|)
        && loggedIn == (old(loggedIn) || a.relogin == Some(true))
      ensures Wiring() == old(Wiring())
    {
      acked := false;
      if state.None? {
        return;
      }
      var lastPart := LastSegment(id);
      var userId := GetChargingUserId(ChargingUserStateId(id));
      var station := StationText(StationOf(id));
      ghost var cmd := Dispatch(id, state.value.val, userId);
      if lastPart == "current" {
        assert cmd == SetCurrentCmd(station, state.value.val);
        acked := SetCurrent(station, state.value.val, true);
      } else if lastPart == "chargingStart" {
        assert cmd == ChargeCmd(station, true, userId);
        acked := Charging(station, true, userId, true);
      } else if lastPart == "chargingStop" {
        assert cmd == ChargeCmd(station, false, userId);
        acked := Charging(station, false, userId, true);
      }
    }

    // -------------------------------------------------------------------------
    // Mirroring
    // -------------------------------------------------------------------------

    /**
     * The per-field statements of a node: each state is created if absent
     * and written, a guarded one only when its value is truthy.
     */
    method WriteFields(path: string, fs: seq<Field>)
      modifies store
      ensures store.Snapshot() == Apply(old(store.Snapshot()), FieldsOps(path, fs))
    {
      ghost var db0 := store.Snapshot();
      for i := 0 to |fs|
        invariant store.Snapshot() == Apply(db0, FieldsOps(path, fs[..i]))
      {
        ghost var before := FieldsOps(path, fs[..i]);
        var id := path + "." + fs[i].name;
        store.SetObjectNotExists(id, StateNode);
        ApplySnoc(db0, before, Ensure(id, StateNode));
        if Written(fs[i]) {
          store.SetState(id, fs[i].val);
          ApplySnoc(db0, before + [Ensure(id, StateNode)], Write(id, fs[i].val));
          assert before + FieldOps(path, fs[i]) == before + [Ensure(id, StateNode)] + [Write(id, fs[i].val)];
        } else {
          assert before + FieldOps(path, fs[i]) == before + [Ensure(id, StateNode)];
        }
        assert fs[..i + 1][..i] == fs[..i];
      }
      assert fs[..|fs|] == fs;
    }

    /** One phase array: `<name>_p1` … `<name>_pn` receive the elements in order. */
    method WritePhases(path: string, name: string, xs: seq<real>)
      modifies store
      ensures store.Snapshot() == Apply(old(store.Snapshot()), FieldsOps(path, PhaseFields(name, xs)))
    {
      ghost var db0 := store.Snapshot();
      for i := 0 to |xs|
        invariant store.Snapshot() == Apply(db0, FieldsOps(path, PhaseFields(name, xs[..i])))
      {
        ghost var mid := store.Snapshot();
        var id := path + "." + PhaseName(name, i);
        store.SetObjectNotExists(id, StateNode);
        store.SetState(id, Num(xs[i]));
        PhaseSnoc(name, xs, i);
        FieldsSnoc(db0, path, PhaseFields(name, xs[..i]), Set(PhaseName(name, i), Num(xs[i])));
        SetWritten(mid, path, PhaseName(name, i), Num(xs[i]));
      }
      assert xs[..|xs|] == xs;
    }

    method WriteArray(path: string, name: string, arr: Option<seq<real>>)
      modifies store
      ensures store.Snapshot() == Apply(old(store.Snapshot()), FieldsOps(path, ArrayFields(name, arr)))
    {
      if arr.Some? && |arr.value| > 0 {
        WritePhases(path, name, arr.value);
      }
    }

    /** The power phases followed by `power_sum`, the sum of the array, when the array is non-empty. */
    method WritePower(path: string, arr: Option<seq<real>>)
      modifies store
      ensures store.Snapshot() == Apply(old(store.Snapshot()), FieldsOps(path, PowerFields(arr)))
    {
      if arr.Some? && |arr.value| > 0 {
        ghost var db0 := store.Snapshot();
        WritePhases(path, "power", arr.value);
        ghost var mid := store.Snapshot();
        var id := path + "." + "power_sum";
        store.SetObjectNotExists(id, StateNode);
        store.SetState(id, Num(Sum(arr.value)));
        FieldsSnoc(db0, path, PhaseFields("power", arr.value), Set("power_sum", Num(Sum(arr.value))));
        SetWritten(mid, path, "power_sum", Num(Sum(arr.value)));
      }
    }

    method WriteMetricsData(path: string, d: MetricsData)
      modifies store
      ensures store.Snapshot() == Apply(old(store.Snapshot()), FieldsOps(path, DataFields(Some(d))))
    {
      ghost var db0 := store.Snapshot();
      ghost var c := ArrayFields("current", d.current);
      ghost var p := PowerFields(d.power);
      ghost var v := ArrayFields("voltage", d.voltage);
      WriteArray(path, "current", d.current);
      WritePower(path, d.power);
      ApplyAppend(db0, FieldsOps(path, c), FieldsOps(path, p));
      WriteArray(path, "voltage", d.voltage);
      ApplyAppend(db0, FieldsOps(path, c) + FieldsOps(path, p), FieldsOps(path, v));
      FieldsOpsAppend(path, c, p);
      FieldsOpsAppend(path, c + p, v);
    }

    /** `getStatesAsync(prefix + "*")` and a null, acknowledged write to every state it returns. */
    method ClearUnder(prefix: string)
      modifies store
      ensures store.Snapshot() == Step(old(store.Snapshot()), NullUnder(prefix))
    {
      ghost var s0 := store.states;
      var ids := store.StatesUnder(prefix);
      while ids != {}
        invariant store.objects == old(store.objects)
        invariant store.states.Keys == s0.Keys
        invariant forall k :: k in ids ==> k in s0 && prefix <= k
        invariant forall k :: k in store.states ==>
          store.states[k] == (if prefix <= k && k !in ids then StateVal(Null, true) else s0[k])
        decreases ids
      {
        var id :| id in ids;
        store.SetState(id, Null);
        ids := ids - {id};
      }
      assert store.states == NullOut(s0, prefix);
    }

    /** The session state of a metric: its fields, then the teardown at the end-of-session statuses. */
    method WriteSessionState(cp: string, cs: SessionState)
      modifies store
      ensures store.Snapshot() == Apply(old(store.Snapshot()), NodeOps(cp, SessionStateFields(cs)) + TeardownOps(cp, cs))
    {
      ghost var db0 := store.Snapshot();
      store.SetObjectNotExists(cp, Channel);
      ghost var d1 := store.Snapshot();
      WriteFields(cp, FixedFields(cs));
      WriteFields(cp, TriggerFields(cs.triggerUser));
      FieldsThen(d1, cp, FixedFields(cs), TriggerFields(cs.triggerUser));
      ghost var d2 := store.Snapshot();
      if cs.lastMetricsData.Some? {
        WriteMetricsData(cp, cs.lastMetricsData.value);
      } else {
        assert store.Snapshot() == Apply(d2, FieldsOps(cp, DataFields(cs.lastMetricsData)));
      }
      FieldsThen(d1, cp, FixedFields(cs) + TriggerFields(cs.triggerUser), DataFields(cs.lastMetricsData));
      NodeWritten(db0, cp, SessionStateFields(cs));
      if IsTerminal(cs.status) {
        ClearUnder(cp + ".");
        ApplySnoc(db0, NodeOps(cp, SessionStateFields(cs)), NullUnder(cp + "."));
      } else {
        assert NodeOps(cp, SessionStateFields(cs)) + TeardownOps(cp, cs) == NodeOps(cp, SessionStateFields(cs));
      }
    }

    /** One metric: its node and header states, then its session state if it has one. */
    method WriteMetric(org: string, m: Metric, now: int)
      modifies store
      ensures store.Snapshot() == Apply(old(store.Snapshot()), MetricOps(org, m, now))
    {
      ghost var db0 := store.Snapshot();
      var path := MetricsPath(org, m);
      store.SetObjectNotExists(path, Channel);
      WriteFields(path, HeaderFields(m, now));
      NodeWritten(db0, path, HeaderFields(m, now));
      ghost var head := NodeOps(path, HeaderFields(m, now));
      if m.currentSessionState.Some? {
        var cs := m.currentSessionState.value;
        WriteSessionState(SessionStatePath(org, m), cs);
        ApplyAppend(db0, head, NodeOps(SessionStatePath(org, m), SessionStateFields(cs)) + TeardownOps(SessionStatePath(org, m), cs));
      } else {
        assert MetricOps(org, m, now) == head + [];
        assert head + [] == head;
      }
    }

    /** One record of a hub message: metrics are written only for a JSON invocation of `receiveMetrics`. */
    method ParseMetricsMessage(orgPath: string, record: string, decode: string -> Option<Frame>, now: int)
      modifies store
      ensures store.Snapshot() == Apply(old(store.Snapshot()), RecordOps(orgPath, record, decode, now))
    {
      var m := decode(record);
      if m.Some? && m.value.target == "receiveMetrics" {
        WriteMetrics(orgPath, m.value.arguments, now);
      }
    }

    /** The metrics of one invocation, one after the other. */
    method WriteMetrics(orgPath: string, metrics: seq<Metric>, now: int)
      modifies store
      ensures store.Snapshot() == Apply(old(store.Snapshot()), MetricListOps(orgPath, metrics, now))
    {
      ghost var db0 := store.Snapshot();
      for i := 0 to |metrics|
        invariant store.Snapshot() == Apply(db0, MetricListOps(orgPath, metrics[..i], now))
      {
        WriteMetric(orgPath, metrics[i], now);
        MetricListSnoc(orgPath, metrics, now, i);
        ApplyAppend(db0, MetricListOps(orgPath, metrics[..i], now), MetricOps(orgPath, metrics[i], now));
      }
      assert metrics[..|metrics|] == metrics;
    }

    /** One station: its channel and states, then its four control states. */
    method WriteStation(path: string, st: Station)
      modifies store
      ensures store.Snapshot() == Apply(old(store.Snapshot()), StationOps(path, st))
    {
      ghost var db0 := store.Snapshot();
      var sp := StationPath(path, st);
      store.SetObjectNotExists(sp, Channel);
      WriteFields(sp, StationFields(st));
      NodeWritten(db0, sp, StationFields(st));
      ghost var d1 := store.Snapshot();
      store.SetObjectNotExists(sp + ".chargingStart", StateNode);
      store.SetObjectNotExists(sp + ".chargingStop", StateNode);
      store.SetObjectNotExists(sp + ".chargingUserId", StateNode);
      store.SetObjectNotExists(sp + ".current", StateNode);
      ControlsWritten(d1, sp);
      ApplyAppend(db0, NodeOps(sp, StationFields(st)), ControlOps(sp));
    }

    method WriteStations(path: string, stations: seq<Station>)
      modifies store
      ensures store.Snapshot() == Apply(old(store.Snapshot()), StationListOps(path, stations))
    {
      ghost var db0 := store.Snapshot();
      for i := 0 to |stations|
        invariant store.Snapshot() == Apply(db0, StationListOps(path, stations[..i]))
      {
        WriteStation(path, stations[i]);
        assert stations[..i + 1][..i] == stations[..i];
        ApplyAppend(db0, StationListOps(path, stations[..i]), StationOps(path, stations[i]));
      }
      assert stations[..|stations|] == stations;
    }

    /** One session: its channel, its ten states, and the user's three only when there is a user. */
    method WriteSession(s: ChargingSession)
      modifies store
      ensures store.Snapshot() == Apply(old(store.Snapshot()), SessionOps(s))
    {
      ghost var db0 := store.Snapshot();
      var sp := SessionPath(s);
      store.SetObjectNotExists(sp, Channel);
      ghost var d1 := store.Snapshot();
      ghost var extra: seq<Field> := if s.user.Some? then UserFields(s.user.value) else [];
      WriteFields(sp, BaseFields(s));
      if s.user.Some? {
        WriteFields(sp, UserFields(s.user.value));
      } else {
        assert FieldsOps(sp, extra) == [];
      }
      FieldsThen(d1, sp, BaseFields(s), extra);
      SessionFieldsSplit(s);
      NodeWritten(db0, sp, SessionFields(s));
    }

    method WriteSessions(entries: seq<Option<ChargingSession>>)
      modifies store
      ensures store.Snapshot() == Apply(old(store.Snapshot()), SessionListOps(entries))
    {
      ghost var db0 := store.Snapshot();
      for i := 0 to |entries|
        invariant store.Snapshot() == Apply(db0, SessionListOps(entries[..i]))
      {
        ghost var mid := store.Snapshot();
        if entries[i].Some? {
          WriteSession(entries[i].value);
        } else {
          assert EntryOps(entries[i]) == [];
        }
        assert store.Snapshot() == Apply(mid, EntryOps(entries[i]));
        assert entries[..i + 1][..i] == entries[..i];
        assert SessionListOps(entries[..i + 1]) == SessionListOps(entries[..i]) + EntryOps(entries[i]);
        ApplyAppend(db0, SessionListOps(entries[..i]), EntryOps(entries[i]));
      }
      assert entries[..|entries|] == entries;
    }

    method WriteOrgUsers(users: seq<OrgUser>)
      modifies store
      ensures store.Snapshot() == Apply(old(store.Snapshot()), OrgUserListOps(users))
    {
      ghost var db0 := store.Snapshot();
      for i := 0 to |users|
        invariant store.Snapshot() == Apply(db0, OrgUserListOps(users[..i]))
      {
        ghost var mid := store.Snapshot();
        var up := OrgUserPath(users[i]);
        store.SetObjectNotExists(up, Channel);
        WriteFields(up, OrgUserFields(users[i]));
        NodeWritten(mid, up, OrgUserFields(users[i]));
        assert users[..i + 1][..i] == users[..i];
        ApplyAppend(db0, OrgUserListOps(users[..i]), OrgUserOps(users[i]));
      }
      assert users[..|users|] == users;
    }

    method WriteUserInfo(u: UserData)
      modifies store
      ensures store.Snapshot() == Apply(old(store.Snapshot()), UserInfoOps(u))
    {
      ghost var db0 := store.Snapshot();
      var up := UserInfoPath(u);
      store.SetObjectNotExists(up, Channel);
      WriteFields(up, UserInfoFields(u));
      NodeWritten(db0, up, UserInfoFields(u));
    }

    // -------------------------------------------------------------------------
    // Reading the portal
    // -------------------------------------------------------------------------

    method GetStationsOfCurrentOrg(path: string, loginIfForbidden: bool) returns (ok: bool)
      modifies this, http, store
      decreases loginIfForbidden
      ensures var a := Retry(config, jar, StationsRequest, 200, StationList, loginIfForbidden, old(http.pending));
        && ok == a.result
        && http.log == old(http.log) + a.requests
        && http.pending == Drop(old(http.pending), |a.requests|)
        && loggedIn == (old(loggedIn) || a.relogin == Some(true))
        && store.Snapshot() == Apply(old(store.Snapshot()), StationsServed(path, a.served))
      ensures Wiring() == old(Wiring())
    {
      ghost var q := http.pending;
      var response := http.Send(StationsRequest);
      if response.Response? && response.status == 200 && response.body.Stations? {
        WriteStations(path, response.body.stations);
        ok := true;
      } else if response.Response? && response.status == 401 && loginIfForbidden {
        ghost var req := StationsRequest;
        ghost var login := LoginRun(config, jar, Drop(q, 1));
        ghost var n := |login.requests|;
        var relogged := Login();
        DropDrop(q, 1, n);
        var repeated := GetStationsOfCurrentOrg(path, false);
        NoFlagIsOnce(config, jar, req, 200, StationList, Drop(q, 1 + n));
        DropDrop(q, 1 + n, 1);
        LogRegroup(old(http.log), req, login.requests, [req]);
        ok := false;
      } else {
        ok := false;
      }
    }

    /** The sessions of the window (the window itself travels as query parameters). */
    method GetChargingSessions(loginIfForbidden: bool) returns (ok: bool)
      modifies this, http, store
      decreases loginIfForbidden
      ensures var a := Retry(config, jar, SessionsRequest(jar), 200, SessionList, loginIfForbidden, old(http.pending));
        && ok == a.result
        && http.log == old(http.log) + a.requests
        && http.pending == Drop(old(http.pending), |a.requests|)
        && loggedIn == (old(loggedIn) || a.relogin == Some(true))
        && store.Snapshot() == Apply(old(store.Snapshot()), SessionsServed(a.served))
      ensures Wiring() == old(Wiring())
    {
      ghost var q := http.pending;
      var response := http.Send(SessionsRequest(jar));
      if response.Response? && response.status == 200 && response.body.Sessions? {
        WriteSessions(response.body.entries);
        ok := true;
      } else if response.Response? && response.status == 401 && loginIfForbidden {
        ghost var req := SessionsRequest(jar);
        ghost var login := LoginRun(config, jar, Drop(q, 1));
        ghost var n := |login.requests|;
        var relogged := Login();
        DropDrop(q, 1, n);
        var repeated := GetChargingSessions(false);
        NoFlagIsOnce(config, jar, req, 200, SessionList, Drop(q, 1 + n));
        DropDrop(q, 1 + n, 1);
        LogRegroup(old(http.log), req, login.requests, [req]);
        ok := false;
      } else {
        ok := false;
      }
    }

    /** The logged-in user; the 401 branch is kept as written although the default status check never lets a 401 reach it. */
    method GetUserInfo(loginIfForbidden: bool) returns (ok: bool)
      modifies this, http, store
      ensures var a := Retry(config, jar, UserInfoRequest, 200, UserDoc, loginIfForbidden, old(http.pending));
        && ok == a.result
        && http.log == old(http.log) + a.requests
        && http.pending == Drop(old(http.pending), |a.requests|)
        && loggedIn == (old(loggedIn) || a.relogin == Some(true))
        && store.Snapshot() == Apply(old(store.Snapshot()), UserInfoServed(a.served))
      ensures Wiring() == old(Wiring())
    {
      var response := http.Send(UserInfoRequest);
      if response.Response? && response.status == 200 && response.body.UserInfo? {
        WriteUserInfo(response.body.user);
        ok := true;
      } else if response.Response? && response.status == 401 && loginIfForbidden {
        // the default status check has already thrown on a 401
        assert false;
      } else {
        ok := false;
      }
    }

    /** Selects the active organisation on the portal; the reply is only logged. */
    method SetOrg(org: string)
      modifies http
      ensures http.log == old(http.log) + [SetOrgRequest(jar, org)] && http.pending == Drop(old(http.pending), 1)
    {
      var response := http.Send(SetOrgRequest(jar, org));
    }

    /** The users of an organisation, mirrored under `users.`. */
    method GetOrg(org: string)
      modifies http, store
      ensures http.log == old(http.log) + [OrgRequest(jar, org)] && http.pending == Drop(old(http.pending), 1)
      ensures store.Snapshot() == Apply(old(store.Snapshot()), OrgUsersOps(Deliver(Nth(old(http.pending), 0), AnyStatus)))
    {
      var response := http.Send(OrgRequest(jar, org));
      if response.Response? && response.status == 200 && response.body.OrgUsers? {
        WriteOrgUsers(response.body.users);
      }
    }

    // -------------------------------------------------------------------------
    // The realtime channel
    // -------------------------------------------------------------------------

    /**
     * Negotiates a connection; on 200 any existing socket is closed, a new
     * one replaces it (its handlers closing over this organisation) and the
     * counter is bumped.
     */
    method StartWebSocket(org: string, orgPath: string)
      requires Valid()
      modifies this, http, ws
      ensures Valid()
      ensures http.log == old(http.log) + [NegotiateRequest(jar)] && http.pending == Drop(old(http.pending), 1)
      ensures Negotiated(old(http.pending)) ==>
        && (old(ws) != null ==> old(ws).closed && old(ws).sent == old(ws.sent))
        && ws != null && fresh(ws)
        && ws.url == SocketUrl(TokenOf(Deliver(Nth(old(http.pending), 0), RedirectsOk).body))
        && ws.org == org && ws.orgPath == orgPath && !ws.closed && ws.sent == []
        && socketInvocationId == old(socketInvocationId) + 1
      ensures !Negotiated(old(http.pending)) ==>
        && ws == old(ws) && socketInvocationId == old(socketInvocationId)
        && (ws != null ==> ws.closed == old(ws.closed) && ws.sent == old(ws.sent))
      ensures loggedIn == old(loggedIn) && currentNode == old(currentNode) && issued == old(issued)
    {
      var negotiate := http.Send(NegotiateRequest(jar));
      if negotiate.Response? && negotiate.status == 200 {
        var wsUrl := SocketUrl(TokenOf(negotiate.body));
        if ws != null {
          ws.Close();
        }
        ws := new Socket(wsUrl, org, orgPath);
        socketInvocationId := socketInvocationId + 1;
      }
    }

    /** The open handler: the handshake goes out on the adapter's current socket. */
    method OnSocketOpen()
      requires ws != null
      modifies ws
      ensures ws.sent == old(ws.sent) + [HandshakeFrame] && ws.closed == old(ws.closed)
    {
      ws.Send(HandshakeFrame);
    }

    /**
     * The message handler of `source`: the exact acknowledgement is
     * answered with a subscription for the organisation `source` was opened
     * for, on the adapter's current socket, with the next invocation id;
     * any other message is split into records that are parsed in order
     * under `source`'s organisation path.
     */
    method OnSocketMessage(source: Socket, msg: string, decode: string -> Option<Frame>, now: int)
      requires Valid() && ws != null
      modifies this, ws, store
      ensures Valid()
      ensures ws == old(ws) && ws.closed == old(ws.closed) && loggedIn == old(loggedIn) && currentNode == old(currentNode)
      ensures msg == AckMessage ==>
        && ws.sent == old(ws.sent) + [SubscribeFrame(source.org, old(socketInvocationId))]
        && socketInvocationId == old(socketInvocationId) + 1
        && issued == old(issued) + [old(socketInvocationId)]
        && store.Snapshot() == old(store.Snapshot())
      ensures msg != AckMessage ==>
        && ws.sent == old(ws.sent)
        && socketInvocationId == old(socketInvocationId) && issued == old(issued)
        && store.Snapshot() == Apply(old(store.Snapshot()), RecordsOps(source.orgPath, React(msg).records, decode, now))
    {
      if msg == AckMessage {
        var id := socketInvocationId;
        socketInvocationId := socketInvocationId + 1;
        issued := issued + [id];
        ws.Send(SubscribeFrame(source.org, id));
      } else {
        ParseRecords(source.orgPath, Split(msg, RS), decode, now);
      }
    }

    /** The records of a message, in order; empty ones (the text after the last separator) are skipped. */
    method ParseRecords(orgPath: string, messages: seq<string>, decode: string -> Option<Frame>, now: int)
      modifies store
      ensures store.Snapshot() == Apply(old(store.Snapshot()), RecordsOps(orgPath, NonEmptyRecords(messages), decode, now))
    {
      ghost var db0 := store.Snapshot();
      for i := 0 to |messages|
        invariant store.Snapshot() == Apply(db0, RecordsOps(orgPath, NonEmptyRecords(messages[..i]), decode, now))
      {
        ghost var done := NonEmptyRecords(messages[..i]);
        assert messages[..i + 1][..i] == messages[..i];
        if messages[i] != [] {
          ParseMetricsMessage(orgPath, messages[i], decode, now);
          assert NonEmptyRecords(messages[..i + 1]) == done + [messages[i]];
          assert (done + [messages[i]])[..|done|] == done;
          ApplyAppend(db0, RecordsOps(orgPath, done, decode, now), RecordOps(orgPath, messages[i], decode, now));
        } else {
          assert NonEmptyRecords(messages[..i + 1]) == done;
        }
      }
      assert messages[..|messages|] == messages;
    }

    // -------------------------------------------------------------------------
    // Organisations
    // -------------------------------------------------------------------------

    /** The last organisation becomes current: it is selected, its users and stations are read and its socket is started. */
    method ActivateOrg(org: Org, path: string)
      requires Valid()
      modifies this, http, store, ws
      ensures Valid()
      ensures http.log == old(http.log) + ActivationCalls(jar, org.path) && http.pending == Drop(old(http.pending), 4)
      ensures currentNode == Some(path)
      ensures store.Snapshot() == Apply(old(store.Snapshot()), ActivationOps(path, old(http.pending)))
      ensures Negotiated(Drop(old(http.pending), 3)) ==>
        && (old(ws) != null ==> old(ws).closed)
        && ws != null && fresh(ws) && ws.org == org.path && ws.orgPath == path && ws.sent == []
        && socketInvocationId == old(socketInvocationId) + 1
      ensures !Negotiated(Drop(old(http.pending), 3)) ==> ws == old(ws) && socketInvocationId == old(socketInvocationId)
      ensures loggedIn == old(loggedIn) && issued == old(issued)
    {
      ghost var q := http.pending;
      currentNode := Some(path);
      ReadOrg(org.path, path);
      StartWebSocket(org.path, path);
      DropDrop(q, 3, 1);
      LogAppend(old(http.log), ReadOrgCalls(jar, org.path), [NegotiateRequest(jar)]);
    }

    /** The selection of an organisation, then its users and its stations, without the login retry. */
    method ReadOrg(org: string, path: string)
      modifies this, http, store
      ensures http.log == old(http.log) + ReadOrgCalls(jar, org) && http.pending == Drop(old(http.pending), 3)
      ensures store.Snapshot() == Apply(old(store.Snapshot()), ActivationOps(path, old(http.pending)))
      ensures loggedIn == old(loggedIn) && Wiring() == old(Wiring())
    {
      ghost var q := http.pending;
      ghost var db0 := store.Snapshot();
      SetOrg(org);
      GetOrg(org);
      DropDrop(q, 1, 1);
      ghost var users := OrgUsersOps(Deliver(Nth(q, 1), AnyStatus));
      var stations := GetStationsOfCurrentOrg(path, false);
      DropDrop(q, 2, 1);
      NoFlagIsOnce(config, jar, StationsRequest, 200, StationList, Drop(q, 2));
      ApplyAppend(db0, users, StationsServed(path, Once(StationsRequest, 200, StationList, Drop(q, 2)).served));
    }

    /**
     * Every listed organisation gets its node; the activation of the last
     * one, which the source performs inside the iteration for the last
     * index, follows the node creation of all of them.
     */
    method GetOrgs()
      requires Valid()
      modifies this, http, store, ws
      ensures Valid()
      ensures var orgs := ListedOrgs(Deliver(Nth(old(http.pending), 0), Default2xx));
        // the replies that follow the organisation list
        var q := Drop(old(http.pending), 1);
        && (ActiveOrg(orgs).None? ==>
              && http.log == old(http.log) + [OrgsRequest] && http.pending == q
              && store.Snapshot() == old(store.Snapshot())
              && currentNode == old(currentNode) && ws == old(ws) && socketInvocationId == old(socketInvocationId))
        && (ActiveOrg(orgs).Some? ==>
              var last := ActiveOrg(orgs).value;
              && http.log == old(http.log) + [OrgsRequest] + ActivationCalls(jar, last.path)
              && http.pending == Drop(q, 4)
              && currentNode == Some(OrgNodeId(last.path))
              && store.Snapshot() == Apply(old(store.Snapshot()), OrgListOps(orgs) + ActivationOps(OrgNodeId(last.path), q))
              && (Negotiated(Drop(q, 3)) ==>
                    (ws != null && fresh(ws) && ws.org == last.path && ws.orgPath == OrgNodeId(last.path)
                     && socketInvocationId == old(socketInvocationId) + 1))
              && (!Negotiated(Drop(q, 3)) ==> ws == old(ws) && socketInvocationId == old(socketInvocationId)))
      ensures loggedIn == old(loggedIn) && issued == old(issued)
    {
      var response := http.Send(OrgsRequest);
      if response.Response? && response.status == 200 && response.body.Orgs? {
        MirrorOrgs(response.body.orgs);
      }
    }

    /** The iteration over the listed organisations: every one gets its node, and the last one is activated. */
    method MirrorOrgs(orgs: seq<Org>)
      requires Valid()
      modifies this, http, store, ws
      ensures Valid()
      ensures ActiveOrg(orgs).None? ==>
        && http.log == old(http.log) && http.pending == old(http.pending)
        && store.Snapshot() == old(store.Snapshot())
        && currentNode == old(currentNode) && ws == old(ws) && socketInvocationId == old(socketInvocationId)
      ensures ActiveOrg(orgs).Some? ==>
        var q := old(http.pending);
        var last := ActiveOrg(orgs).value;
        && http.log == old(http.log) + ActivationCalls(jar, last.path)
        && http.pending == Drop(q, 4)
        && currentNode == Some(OrgNodeId(last.path))
        && store.Snapshot() == Apply(old(store.Snapshot()), OrgListOps(orgs) + ActivationOps(OrgNodeId(last.path), q))
        && (Negotiated(Drop(q, 3)) ==>
              (ws != null && fresh(ws) && ws.org == last.path && ws.orgPath == OrgNodeId(last.path)
               && socketInvocationId == old(socketInvocationId) + 1))
        && (!Negotiated(Drop(q, 3)) ==> ws == old(ws) && socketInvocationId == old(socketInvocationId))
      ensures loggedIn == old(loggedIn) && issued == old(issued)
    {
      ghost var db0 := store.Snapshot();
      CreateOrgNodes(orgs);
      var active := ActiveOrg(orgs);
      if active.Some? {
        var last := active.value;
        ActivateOrg(last, OrgNodeId(last.path));
        ApplyAppend(db0, OrgListOps(orgs), ActivationOps(OrgNodeId(last.path), old(http.pending)));
      } else {
        assert OrgListOps(orgs) == [];
      }
    }

    /** A channel node per listed organisation, in order. */
    method CreateOrgNodes(orgs: seq<Org>)
      modifies store
      ensures store.Snapshot() == Apply(old(store.Snapshot()), OrgListOps(orgs))
    {
      ghost var db0 := store.Snapshot();
      for i := 0 to |orgs|
        invariant store.Snapshot() == Apply(db0, OrgListOps(orgs[..i]))
      {
        store.SetObjectNotExists(OrgNodeId(orgs[i].path), Channel);
        assert orgs[..i + 1][..i] == orgs[..i];
        ApplySnoc(db0, OrgListOps(orgs[..i]), Ensure(OrgNodeId(orgs[i].path), Channel));
      }
      assert orgs[..|orgs|] == orgs;
    }
  }

  // ---------------------------------------------------------------------------
  // A run
  // ---------------------------------------------------------------------------

  /**
   * A fresh adapter whose negotiation succeeds sends the handshake and then,
   * on the acknowledgement, a subscription with invocation id 2: the counter
   * starts at 1 and the negotiation has already bumped it.
   */
  method FirstSubscription(cfg: Config, jar: seq<Cookie>, org: string, orgPath: string, token: string) returns (sent: seq<string>)
    ensures sent == [HandshakeFrame, SubscribeFrame(org, 2)]
  {
    var http := new HttpClient([Reply(200, None, Negotiation(token))]);
    var store := new Store(Db(map[], map[]));
    var adapter := new Libreo(cfg, jar, http, store);
    adapter.StartWebSocket(org, orgPath);
    var socket := adapter.ws;
    adapter.OnSocketOpen();
    adapter.OnSocketMessage(socket, AckMessage, (s: string) => None, 0);
    sent := adapter.ws.sent;
  }
}
