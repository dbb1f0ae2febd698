/**
 * What one received metric does to the store (ParseMetricsMessage, per
 * element of `arguments`): the node `<org>.<chargingStationId>.metrics`
 * with ten states, and, when the metric carries a current session state,
 * the node `.currentSessionState` below it with truthiness-guarded states,
 * the trigger user, one state per phase of the current/power/voltage
 * arrays, the power sum, and, for the end-of-session statuses 267 and 277,
 * the nulling of every state under `.currentSessionState.`.
 */
module Metrics {
  import opened Wrappers
  import opened JsText
  import opened ObjectDb

  datatype TriggerUser = TriggerUser(firstName: Value, lastName: Value, originalUser: Value)

  /** `lastMetricsData`: each array absent (undefined or null) or a list of numbers. */
  datatype MetricsData = MetricsData(current: Option<seq<real>>, power: Option<seq<real>>, voltage: Option<seq<real>>)

  datatype SessionState = SessionState(
    startTime: Value,
    status: Value,
    consumedEnergy: Value,
    trigger: Value,
    triggerUser: Option<TriggerUser>,
    lastMetricsData: Option<MetricsData>)

  /** One metric; `chargingStationId` is the text the path interpolation renders. */
  datatype Metric = Metric(
    chargingStationId: string,
    online: Value,
    available: Value,
    charging: Value,
    simpleCharge: Value,
    plugged: Value,
    maxCurrent: Value,
    dynamicCurrent: Value,
    chargingMode: Value,
    status: Value,
    currentSessionState: Option<SessionState>)

  function MetricsPath(org: string, m: Metric): string
  {
    org + "." + m.chargingStationId + ".metrics"
  }

  function SessionStatePath(org: string, m: Metric): string
  {
    MetricsPath(org, m) + ".currentSessionState"
  }

  /** The ten states of the metrics node; `now` is the wall-clock time in milliseconds. */
  function HeaderFields(m: Metric, now: int): seq<Field>
  {
    [Set("last_updated", Num(now as real)), Set("online", m.online), Set("available", m.available),
     Set("charging", m.charging), Set("simpleCharge", m.simpleCharge), Set("plugged", m.plugged),
     Set("maxCurrent", m.maxCurrent), Set("dynamicCurrent", m.dynamicCurrent),
     Set("chargingMode", m.chargingMode), Set("status", m.status)]
  }

  /** `<name>_p<i + 1>`: phases are numbered from 1. */
  function PhaseName(name: string, i: nat): string
  {
    name + "_p" + DecimalString(i + 1)
  }

  /** One unconditional state per array element, in order. */
  function PhaseFields(name: string, xs: seq<real>): (fs: seq<Field>)
    ensures |fs| == |xs|
    ensures forall i :: 0 <= i < |xs| ==> fs[i] == Set(PhaseName(name, i), Num(xs[i]))
  {
    if xs == [] then [] else PhaseFields(name, xs[..|xs| - 1]) + [Set(PhaseName(name, |xs| - 1), Num(xs[|xs| - 1]))]
  }

  /** `arr && arr.length > 0`. */
  predicate NonEmpty(arr: Option<seq<real>>)
  {
    arr.Some? && |arr.value| > 0
  }

  function ArrayFields(name: string, arr: Option<seq<real>>): seq<Field>
  {
    if NonEmpty(arr) then PhaseFields(name, arr.value) else []
  }

  function PowerFields(arr: Option<seq<real>>): seq<Field>
  {
    if NonEmpty(arr) then PhaseFields("power", arr.value) + [Set("power_sum", Num(Sum(arr.value)))] else []
  }

  function DataFields(d: Option<MetricsData>): seq<Field>
  {
    match d
    case None => []
    case Some(d) => ArrayFields("current", d.current) + PowerFields(d.power) + ArrayFields("voltage", d.voltage)
  }

  function TriggerFields(t: Option<TriggerUser>): seq<Field>
  {
    match t
    case None => []
    case Some(t) =>
      [SetIfTruthy("trigger_firstName", t.firstName), SetIfTruthy("trigger_lastName", t.lastName),
       SetIfTruthy("trigger_originalUser", t.originalUser)]
  }

  function FixedFields(cs: SessionState): seq<Field>
  {
    [SetIfTruthy("startTime", cs.startTime), SetIfTruthy("status", cs.status),
     SetIfTruthy("consumedEnergy", cs.consumedEnergy), SetIfTruthy("trigger", cs.trigger)]
  }

  /** The states below `.currentSessionState`, in the order they are written. */
  function SessionStateFields(cs: SessionState): seq<Field>
  {
    FixedFields(cs) + TriggerFields(cs.triggerUser) + DataFields(cs.lastMetricsData)
  }

  /**
   * `status == 267 || status == 277` with JavaScript's loose equality, for
   * numbers and for the strings that spell those numbers plainly.
   */
  predicate IsTerminal(v: Value)
  {
    v == Num(267.0) || v == Num(277.0) || v == Str("267") || v == Str("277")
  }

  function TeardownOps(cp: string, cs: SessionState): seq<Op>
  {
    if IsTerminal(cs.status) then [NullUnder(cp + ".")] else []
  }

  /** The store calls for one metric, in order. */
  function MetricOps(org: string, m: Metric, now: int): seq<Op>
  {
    NodeOps(MetricsPath(org, m), HeaderFields(m, now)) +
    match m.currentSessionState
    case None => []
    case Some(cs) =>
      NodeOps(SessionStatePath(org, m), SessionStateFields(cs)) + TeardownOps(SessionStatePath(org, m), cs)
  }

  /** The store calls for the metrics of one message, one metric after the other. */
  function MetricListOps(org: string, ms: seq<Metric>, now: int): seq<Op>
  {
    if ms == [] then [] else MetricListOps(org, ms[..|ms| - 1], now) + MetricOps(org, ms[|ms| - 1], now)
  }

  /** One more metric of a message extends the calls by that metric's calls. */
  lemma MetricListSnoc(org: string, ms: seq<Metric>, now: int, i: nat)
    requires i < |ms|
    ensures MetricListOps(org, ms[..i + 1], now) == MetricListOps(org, ms[..i], now) + MetricOps(org, ms[i], now)
  {
    assert ms[..i + 1][..i] == ms[..i];
  }

  // ---------------------------------------------------------------------------
  // Names are distinct
  // ---------------------------------------------------------------------------

  /** Phase states of one array have distinct names, all starting with `<name>_p`. */
  lemma PhaseFieldsShape(name: string, xs: seq<real>)
    ensures AllPrefixed(PhaseFields(name, xs), name + "_p")
    ensures DistinctNames(PhaseFields(name, xs))
  {
    var fs := PhaseFields(name, xs);
    forall k | 0 <= k < |fs| ensures name + "_p" <= fs[k].name {
      assert fs[k].name == (name + "_p") + DecimalString(k + 1);
    }
    forall i, j | 0 <= i < j < |fs| ensures fs[i].name != fs[j].name {
      var p := name + "_p";
      assert fs[i].name == p + DecimalString(i + 1);
      assert fs[j].name == p + DecimalString(j + 1);
      if fs[i].name == fs[j].name {
        assert fs[i].name[|p|..] == DecimalString(i + 1);
        assert fs[j].name[|p|..] == DecimalString(j + 1);
        DecimalStringInjective(i + 1, j + 1);
      }
    }
  }

  lemma ArrayFieldsShape(name: string, arr: Option<seq<real>>)
    ensures AllPrefixed(ArrayFields(name, arr), name + "_p")
    ensures DistinctNames(ArrayFields(name, arr))
  {
    if NonEmpty(arr) {
      PhaseFieldsShape(name, arr.value);
    }
  }

  lemma PowerFieldsShape(arr: Option<seq<real>>)
    ensures AllPrefixed(PowerFields(arr), "power_")
    ensures DistinctNames(PowerFields(arr))
  {
    if NonEmpty(arr) {
      var ph := PhaseFields("power", arr.value);
      var sum := [Set("power_sum", Num(Sum(arr.value)))];
      PhaseFieldsShape("power", arr.value);
      PrefixedDisjoint(ph, sum, "power_p", "power_s", 6);
      DistinctAppend(ph, sum);
      forall k | 0 <= k < |ph| ensures "power_" <= ph[k].name {
        PrefixTransitive("power_", "power_p", ph[k].name);
      }
    }
  }

  /** Phase and power names begin with "cu", "p" or "v"; no fixed session-state name does. */
  predicate DataName(n: string)
  {
    |n| >= 2 && ((n[0] == 'c' && n[1] == 'u') || n[0] == 'p' || n[0] == 'v')
  }

  predicate AllData(fs: seq<Field>)
  {
    forall k :: 0 <= k < |fs| ==> DataName(fs[k].name)
  }

  lemma PrefixedData(fs: seq<Field>, p: string)
    requires AllPrefixed(fs, p) && DataName(p)
    ensures AllData(fs)
  {
    forall k | 0 <= k < |fs| ensures DataName(fs[k].name) {
      assert fs[k].name[0] == p[0] && fs[k].name[1] == p[1];
    }
  }

  lemma AllDataAppend(a: seq<Field>, b: seq<Field>)
    requires AllData(a) && AllData(b)
    ensures AllData(a + b)
  {
    forall k | 0 <= k < |a + b| ensures DataName((a + b)[k].name) {
      if k < |a| {
        assert (a + b)[k] == a[k];
      } else {
        assert (a + b)[k] == b[k - |a|];
      }
    }
  }

  /** Three blocks of phase names with different prefixes stay distinct when joined. */
  lemma PhaseBlocksDistinct(c: seq<Field>, p: seq<Field>, v: seq<Field>)
    requires AllPrefixed(c, "current_p") && AllPrefixed(p, "power_") && AllPrefixed(v, "voltage_p")
    requires DistinctNames(c) && DistinctNames(p) && DistinctNames(v)
    ensures DistinctNames(c + (p + v)) && AllData(c + (p + v))
  {
    PrefixedDisjoint(p, v, "power_", "voltage_p", 0);
    DistinctAppend(p, v);
    PrefixedData(c, "current_p");
    PrefixedData(p, "power_");
    PrefixedData(v, "voltage_p");
    AllDataAppend(p, v);
    forall i, j | 0 <= i < |c| && 0 <= j < |p + v| ensures c[i].name != (p + v)[j].name {
      assert c[i].name[0] == 'c' && c[i].name[1] == 'u';
      assert DataName((p + v)[j].name);
      if j < |p| {
        assert (p + v)[j] == p[j];
        assert (p + v)[j].name[0] == 'p';
      } else {
        assert (p + v)[j] == v[j - |p|];
        assert (p + v)[j].name[0] == 'v';
      }
    }
    DistinctAppend(c, p + v);
    AllDataAppend(c, p + v);
  }

  lemma DataFieldsDistinct(d: Option<MetricsData>)
    ensures DistinctNames(DataFields(d))
    ensures AllData(DataFields(d))
  {
    if d.Some? {
      var c := ArrayFields("current", d.value.current);
      var p := PowerFields(d.value.power);
      var v := ArrayFields("voltage", d.value.voltage);
      ArrayFieldsShape("current", d.value.current);
      PowerFieldsShape(d.value.power);
      ArrayFieldsShape("voltage", d.value.voltage);
      PhaseBlocksDistinct(c, p, v);
      assert DataFields(d) == c + (p + v);
    }
  }

  /** All states below `.currentSessionState` have distinct names. */
  lemma SessionStateFieldsDistinct(cs: SessionState)
    ensures DistinctNames(SessionStateFields(cs))
  {
    var fixed := FixedFields(cs) + TriggerFields(cs.triggerUser);
    var data := DataFields(cs.lastMetricsData);
    DataFieldsDistinct(cs.lastMetricsData);
    assert DistinctNames(fixed);
    forall i | 0 <= i < |fixed| ensures !DataName(fixed[i].name) {
      assert fixed[i].name in {"startTime", "status", "consumedEnergy", "trigger", "trigger_firstName", "trigger_lastName", "trigger_originalUser"};
    }
    forall i, j | 0 <= i < |fixed| && 0 <= j < |data| ensures fixed[i].name != data[j].name {
      assert DataName(data[j].name);
    }
    DistinctAppend(fixed, data);
  }

  // ---------------------------------------------------------------------------
  // Properties
  // ---------------------------------------------------------------------------

  /** The session-state part only touches states under `<path>.currentSessionState.`. */
  lemma SessionPartUnder(org: string, m: Metric, cs: SessionState)
    ensures OpsUnder(NodeOps(SessionStatePath(org, m), SessionStateFields(cs)) + TeardownOps(SessionStatePath(org, m), cs),
      SessionStatePath(org, m) + ".")
    ensures CreatedBeforeWritten(NodeOps(SessionStatePath(org, m), SessionStateFields(cs)) + TeardownOps(SessionStatePath(org, m), cs))
  {
    var cp := SessionStatePath(org, m);
    NodeOpsFrame(cp, SessionStateFields(cs));
    assert OpsUnder(TeardownOps(cp, cs), cp + ".");
    assert CreatedBeforeWritten(TeardownOps(cp, cs));
    OpsUnderAppend(NodeOps(cp, SessionStateFields(cs)), TeardownOps(cp, cs), cp + ".");
    CreatedBeforeWrittenAppend(NodeOps(cp, SessionStateFields(cs)), TeardownOps(cp, cs));
  }

  /** A header state id is never under `.currentSessionState.`: the header names are too short. */
  lemma HeaderOutsideSessionState(org: string, m: Metric, now: int, k: nat)
    requires k < |HeaderFields(m, now)|
    ensures !(SessionStatePath(org, m) + "." <= MetricsPath(org, m) + "." + HeaderFields(m, now)[k].name)
  {
    assert |HeaderFields(m, now)[k].name| < 20;
  }

  /**
   * Every header value of a metric lands at `<org>.<chargingStationId>.metrics.<field>`,
   * whatever the session-state part does afterwards.
   */
  lemma MetricFieldLands(db: Db, org: string, m: Metric, now: int, k: nat)
    requires k < |HeaderFields(m, now)|
    ensures MetricsPath(org, m) + "." + HeaderFields(m, now)[k].name in Apply(db, MetricOps(org, m, now)).states
    ensures Apply(db, MetricOps(org, m, now)).states[MetricsPath(org, m) + "." + HeaderFields(m, now)[k].name]
      == StateVal(HeaderFields(m, now)[k].val, true)
  {
    var path := MetricsPath(org, m);
    var fs := HeaderFields(m, now);
    var id := path + "." + fs[k].name;
    var head := NodeOps(path, fs);
    assert Written(fs[k]);
    NodeOpsSpec(db, path, fs);
    var tail := MetricOps(org, m, now)[|head|..];
    assert MetricOps(org, m, now) == head + tail;
    ApplyAppend(db, head, tail);
    match m.currentSessionState
    case None =>
      assert tail == [];
    case Some(cs) =>
      SessionPartUnder(org, m, cs);
      HeaderOutsideSessionState(org, m, now, k);
      UntouchedOutside(tail, SessionStatePath(org, m) + ".", id);
      UntouchedKept(Apply(db, head), tail, id);
  }

  /** The session-state node id splits as the metrics path plus a longer suffix. */
  lemma SessionIdNotHeader(org: string, m: Metric, now: int, name: string)
    ensures forall k :: 0 <= k < |HeaderFields(m, now)| ==>
      MetricsPath(org, m) + "." + HeaderFields(m, now)[k].name != SessionStatePath(org, m) + "." + name
  {
    forall k | 0 <= k < |HeaderFields(m, now)|
      ensures MetricsPath(org, m) + "." + HeaderFields(m, now)[k].name != SessionStatePath(org, m) + "." + name
    {
      assert |HeaderFields(m, now)[k].name| < 20;
    }
  }

  /**
   * Outside the end-of-session statuses, a state below `.currentSessionState`
   * receives its value when it is written (always for phases and the power
   * sum, only when truthy for the guarded ones) and otherwise keeps the value
   * it had before the metric arrived.
   */
  lemma SessionFieldLands(db: Db, org: string, m: Metric, now: int, k: nat)
    requires m.currentSessionState.Some? && !IsTerminal(m.currentSessionState.value.status)
    requires k < |SessionStateFields(m.currentSessionState.value)|
    ensures var f := SessionStateFields(m.currentSessionState.value)[k];
      var id := SessionStatePath(org, m) + "." + f.name;
      var after := Apply(db, MetricOps(org, m, now));
      && (Written(f) ==> id in after.states && after.states[id] == StateVal(f.val, true))
      && (!Written(f) ==> (id in after.states) == (id in db.states))
      && (!Written(f) && id in db.states ==> after.states[id] == db.states[id])
  {
    var cs := m.currentSessionState.value;
    var path := MetricsPath(org, m);
    var cp := SessionStatePath(org, m);
    var fs := SessionStateFields(cs);
    var f := fs[k];
    var id := cp + "." + f.name;
    var head := NodeOps(path, HeaderFields(m, now));
    var body := NodeOps(cp, fs);
    assert TeardownOps(cp, cs) == [];
    assert MetricOps(org, m, now) == head + body;
    ApplyAppend(db, head, body);
    SessionIdNotHeader(org, m, now, f.name);
    FieldsOpsUntouched(path, HeaderFields(m, now), id);
    UntouchedAppend([Ensure(path, Channel)], FieldsOps(path, HeaderFields(m, now)), id);
    UntouchedKept(db, head, id);
    var mid := Apply(db, head);
    SessionStateFieldsDistinct(cs);
    ApplyAppend(mid, [Ensure(cp, Channel)], FieldsOps(cp, fs));
    FieldsOpsLand(Apply(mid, [Ensure(cp, Channel)]), cp, fs, k);
  }

  /**
   * Element i of a non-empty `current` array lands at `current_p<i + 1>`
   * (outside the end-of-session statuses).
   */
  lemma CurrentPhaseLands(db: Db, org: string, m: Metric, now: int, i: nat)
    requires m.currentSessionState.Some? && !IsTerminal(m.currentSessionState.value.status)
    requires m.currentSessionState.value.lastMetricsData.Some?
    requires NonEmpty(m.currentSessionState.value.lastMetricsData.value.current)
    requires i < |m.currentSessionState.value.lastMetricsData.value.current.value|
    ensures var xs := m.currentSessionState.value.lastMetricsData.value.current.value;
      var id := SessionStatePath(org, m) + "." + PhaseName("current", i);
      id in Apply(db, MetricOps(org, m, now)).states
      && Apply(db, MetricOps(org, m, now)).states[id] == StateVal(Num(xs[i]), true)
  {
    var cs := m.currentSessionState.value;
    var d := cs.lastMetricsData.value;
    var pre := FixedFields(cs) + TriggerFields(cs.triggerUser);
    var fs := SessionStateFields(cs);
    assert fs == pre + (PhaseFields("current", d.current.value) + PowerFields(d.power) + ArrayFields("voltage", d.voltage));
    assert fs[|pre| + i] == Set(PhaseName("current", i), Num(d.current.value[i]));
    SessionFieldLands(db, org, m, now, |pre| + i);
  }

  /** Element i of a non-empty `voltage` array lands at `voltage_p<i + 1>`. */
  lemma VoltagePhaseLands(db: Db, org: string, m: Metric, now: int, i: nat)
    requires m.currentSessionState.Some? && !IsTerminal(m.currentSessionState.value.status)
    requires m.currentSessionState.value.lastMetricsData.Some?
    requires NonEmpty(m.currentSessionState.value.lastMetricsData.value.voltage)
    requires i < |m.currentSessionState.value.lastMetricsData.value.voltage.value|
    ensures var xs := m.currentSessionState.value.lastMetricsData.value.voltage.value;
      var id := SessionStatePath(org, m) + "." + PhaseName("voltage", i);
      id in Apply(db, MetricOps(org, m, now)).states
      && Apply(db, MetricOps(org, m, now)).states[id] == StateVal(Num(xs[i]), true)
  {
    var cs := m.currentSessionState.value;
    var d := cs.lastMetricsData.value;
    var pre := FixedFields(cs) + TriggerFields(cs.triggerUser) + ArrayFields("current", d.current) + PowerFields(d.power);
    var fs := SessionStateFields(cs);
    assert fs == pre + PhaseFields("voltage", d.voltage.value);
    assert fs[|pre| + i] == Set(PhaseName("voltage", i), Num(d.voltage.value[i]));
    SessionFieldLands(db, org, m, now, |pre| + i);
  }

  /**
   * With a non-empty `power` array, element i lands at `power_p<i + 1>` and
   * `power_sum` holds the sum of all elements.
   */
  lemma PowerLands(db: Db, org: string, m: Metric, now: int, i: nat)
    requires m.currentSessionState.Some? && !IsTerminal(m.currentSessionState.value.status)
    requires m.currentSessionState.value.lastMetricsData.Some?
    requires NonEmpty(m.currentSessionState.value.lastMetricsData.value.power)
    requires i < |m.currentSessionState.value.lastMetricsData.value.power.value|
    ensures var xs := m.currentSessionState.value.lastMetricsData.value.power.value;
      var after := Apply(db, MetricOps(org, m, now)).states;
      var cp := SessionStatePath(org, m);
      && cp + "." + PhaseName("power", i) in after && after[cp + "." + PhaseName("power", i)] == StateVal(Num(xs[i]), true)
      && cp + ".power_sum" in after && after[cp + ".power_sum"] == StateVal(Num(Sum(xs)), true)
  {
    var cs := m.currentSessionState.value;
    var xs := cs.lastMetricsData.value.power.value;
    var cp := SessionStatePath(org, m);
    var n := PowerOffset(cs);
    PowerFieldAt(cs, i);
    PowerFieldAt(cs, |xs|);
    SessionFieldLands(db, org, m, now, n + i);
    SessionFieldLands(db, org, m, now, n + |xs|);
    assert cp + ".power_sum" == cp + "." + "power_sum";
  }

  /** Where the power fields start among the session-state fields. */
  function PowerOffset(cs: SessionState): nat
    requires cs.lastMetricsData.Some?
  {
    |FixedFields(cs) + TriggerFields(cs.triggerUser) + ArrayFields("current", cs.lastMetricsData.value.current)|
  }

  /** The power phases and their sum sit at consecutive positions of the session-state fields. */
  lemma PowerFieldAt(cs: SessionState, j: nat)
    requires cs.lastMetricsData.Some? && NonEmpty(cs.lastMetricsData.value.power)
    requires j <= |cs.lastMetricsData.value.power.value|
    ensures var xs := cs.lastMetricsData.value.power.value;
      && PowerOffset(cs) + j < |SessionStateFields(cs)|
      && SessionStateFields(cs)[PowerOffset(cs) + j]
           == if j < |xs| then Set(PhaseName("power", j), Num(xs[j])) else Set("power_sum", Num(Sum(xs)))
  {
    var d := cs.lastMetricsData.value;
    var pre := FixedFields(cs) + TriggerFields(cs.triggerUser) + ArrayFields("current", d.current);
    var pw := PowerFields(d.power);
    var fs := SessionStateFields(cs);
    assert fs == pre + pw + ArrayFields("voltage", d.voltage);
    assert fs[|pre| + j] == pw[j];
  }

  /** Without a non-empty `power` array no `power_sum` state is written. */
  lemma NoPowerNoSum(db: Db, org: string, m: Metric, now: int)
    requires m.currentSessionState.Some? && !IsTerminal(m.currentSessionState.value.status)
    requires m.currentSessionState.value.lastMetricsData.None?
      || !NonEmpty(m.currentSessionState.value.lastMetricsData.value.power)
    ensures var id := SessionStatePath(org, m) + ".power_sum";
      (id in Apply(db, MetricOps(org, m, now)).states) == (id in db.states)
      && (id in db.states ==> Apply(db, MetricOps(org, m, now)).states[id] == db.states[id])
  {
    var cs := m.currentSessionState.value;
    var path := MetricsPath(org, m);
    var cp := SessionStatePath(org, m);
    var fs := SessionStateFields(cs);
    var id := cp + ".power_sum";
    assert id == cp + "." + "power_sum";
    var head := NodeOps(path, HeaderFields(m, now));
    var body := NodeOps(cp, fs);
    assert MetricOps(org, m, now) == head + body;
    SessionIdNotHeader(org, m, now, "power_sum");
    FieldsOpsUntouched(path, HeaderFields(m, now), id);
    UntouchedAppend([Ensure(path, Channel)], FieldsOps(path, HeaderFields(m, now)), id);
    forall k | 0 <= k < |fs| ensures cp + "." + fs[k].name != id {
      SameNodeNames(cp, fs[k].name, "power_sum");
      PowerSumAbsent(cs, k);
    }
    FieldsOpsUntouched(cp, fs, id);
    UntouchedAppend([Ensure(cp, Channel)], FieldsOps(cp, fs), id);
    UntouchedAppend(head, body, id);
    UntouchedKept(db, MetricOps(org, m, now), id);
  }

  lemma PowerSumAbsent(cs: SessionState, k: nat)
    requires cs.lastMetricsData.None? || !NonEmpty(cs.lastMetricsData.value.power)
    requires k < |SessionStateFields(cs)|
    ensures SessionStateFields(cs)[k].name != "power_sum"
  {
    var fixed := FixedFields(cs) + TriggerFields(cs.triggerUser);
    var data := DataFields(cs.lastMetricsData);
    FixedNames(cs);
    DataHasNoSum(cs.lastMetricsData);
    assert SessionStateFields(cs) == fixed + data;
    NoSumInJoin(fixed, data, k);
  }

  lemma DataHasNoSum(d: Option<MetricsData>)
    requires d.None? || !NonEmpty(d.value.power)
    ensures forall j :: 0 <= j < |DataFields(d)| ==> DataFields(d)[j].name != "power_sum"
  {
    if d.Some? {
      var c: seq<Field> := ArrayFields("current", d.value.current);
      var v: seq<Field> := ArrayFields("voltage", d.value.voltage);
      ArrayFieldsShape("current", d.value.current);
      ArrayFieldsShape("voltage", d.value.voltage);
      assert DataFields(d) == c + v;
      forall j | 0 <= j < |c + v| ensures (c + v)[j].name != "power_sum" {
        NoSumAmongPhases(c, v, j);
      }
    }
  }

  lemma FixedNames(cs: SessionState)
    ensures forall i :: 0 <= i < |FixedFields(cs) + TriggerFields(cs.triggerUser)| ==>
      (FixedFields(cs) + TriggerFields(cs.triggerUser))[i].name != "power_sum"
  {
  }

  lemma NoSumInJoin(a: seq<Field>, b: seq<Field>, k: nat)
    requires forall i :: 0 <= i < |a| ==> a[i].name != "power_sum"
    requires forall j :: 0 <= j < |b| ==> b[j].name != "power_sum"
    requires k < |a + b|
    ensures (a + b)[k].name != "power_sum"
  {
    if k < |a| {
      assert (a + b)[k] == a[k];
    } else {
      assert (a + b)[k] == b[k - |a|];
    }
  }

  lemma NoSumAmongPhases(c: seq<Field>, v: seq<Field>, k: nat)
    requires AllPrefixed(c, "current_p") && AllPrefixed(v, "voltage_p") && k < |c + v|
    ensures (c + v)[k].name != "power_sum"
  {
    if k < |c| {
      assert (c + v)[k] == c[k];
      assert (c + v)[k].name[0] == 'c';
    } else {
      assert (c + v)[k] == v[k - |c|];
      assert (c + v)[k].name[0] == 'v';
    }
  }

  /**
   * A metric with an end-of-session status: all its field writes happen
   * first, then every state under `.currentSessionState.` is null and
   * acknowledged; every other state and every object node is as the field
   * writes left them.
   */
  lemma TeardownNullsSessionState(db: Db, org: string, m: Metric, now: int)
    requires m.currentSessionState.Some? && IsTerminal(m.currentSessionState.value.status)
    ensures var cp := SessionStatePath(org, m);
      var writes := NodeOps(MetricsPath(org, m), HeaderFields(m, now))
        + NodeOps(cp, SessionStateFields(m.currentSessionState.value));
      var before := Apply(db, writes);
      var after := Apply(db, MetricOps(org, m, now));
      && after.objects == before.objects
      && after.states.Keys == before.states.Keys
      && (forall id :: id in after.states && cp + "." <= id ==> after.states[id] == StateVal(Null, true))
      && (forall id :: id in after.states && !(cp + "." <= id) ==> after.states[id] == before.states[id])
  {
    var cs := m.currentSessionState.value;
    var cp := SessionStatePath(org, m);
    var writes := NodeOps(MetricsPath(org, m), HeaderFields(m, now)) + NodeOps(cp, SessionStateFields(cs));
    assert MetricOps(org, m, now) == writes + [NullUnder(cp + ".")];
    ApplySnoc(db, writes, NullUnder(cp + "."));
  }

  /** A metric changes only states under its metrics node and creates each node before writing it. */
  lemma MetricFrame(org: string, m: Metric, now: int)
    ensures OpsUnder(MetricOps(org, m, now), MetricsPath(org, m) + ".")
    ensures CreatedBeforeWritten(MetricOps(org, m, now))
  {
    var path := MetricsPath(org, m);
    var head := NodeOps(path, HeaderFields(m, now));
    NodeOpsFrame(path, HeaderFields(m, now));
    match m.currentSessionState
    case None =>
      assert MetricOps(org, m, now) == head + [];
    case Some(cs) =>
      var cp := SessionStatePath(org, m);
      var tail := NodeOps(cp, SessionStateFields(cs)) + TeardownOps(cp, cs);
      SessionPartUnder(org, m, cs);
      assert path + "." <= cp + ".";
      OpsUnderWiden(tail, path + ".", cp + ".");
      OpsUnderAppend(head, tail, path + ".");
      CreatedBeforeWrittenAppend(head, tail);
  }

  /** A metric keeps the store invariant that every state has its object node. */
  lemma MetricKeepsConsistent(db: Db, org: string, m: Metric, now: int)
    requires Consistent(db)
    ensures Consistent(Apply(db, MetricOps(org, m, now)))
  {
    MetricFrame(org, m, now);
    ConsistentKept(db, MetricOps(org, m, now));
  }
  /** A falsy session value (zero energy, say) is not written: the state keeps what the previous metric left. */
  lemma FalsyEnergyKeepsPrevious(db: Db, org: string, m: Metric, now: int)
    requires m.currentSessionState.Some? && !IsTerminal(m.currentSessionState.value.status)
    requires !Truthy(m.currentSessionState.value.consumedEnergy)
    ensures var id := SessionStatePath(org, m) + ".consumedEnergy";
      var after := Apply(db, MetricOps(org, m, now));
      && (id in after.states) == (id in db.states)
      && (id in db.states ==> after.states[id] == db.states[id])
  {
    var cs := m.currentSessionState.value;
    ThirdSessionField(cs);
    var f := SessionStateFields(cs)[2];
    assert !Written(f);
    assert SessionStatePath(org, m) + "." + f.name == SessionStatePath(org, m) + ".consumedEnergy";
    SessionFieldLands(db, org, m, now, 2);
  }

  lemma ThirdSessionField(cs: SessionState)
    ensures |SessionStateFields(cs)| > 2
    ensures SessionStateFields(cs)[2] == SetIfTruthy("consumedEnergy", cs.consumedEnergy)
  {
    assert SessionStateFields(cs)[2] == FixedFields(cs)[2];
  }

  /** A whole list of metrics writes only under the organisation's node and creates every node before writing it. */
  lemma {:induction false} MetricListFrame(org: string, ms: seq<Metric>, now: int)
    ensures OpsUnder(MetricListOps(org, ms, now), org + ".")
    ensures CreatedBeforeWritten(MetricListOps(org, ms, now))
  {
    if ms != [] {
      var init := ms[..|ms| - 1];
      var m := ms[|ms| - 1];
      MetricListFrame(org, init, now);
      MetricFrame(org, m, now);
      assert org + "." <= MetricsPath(org, m) + ".";
      OpsUnderWiden(MetricOps(org, m, now), org + ".", MetricsPath(org, m) + ".");
      OpsUnderAppend(MetricListOps(org, init, now), MetricOps(org, m, now), org + ".");
      CreatedBeforeWrittenAppend(MetricListOps(org, init, now), MetricOps(org, m, now));
    }
  }
}
