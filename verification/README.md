# Libreo adapter core, modelled in Dafny

This project models the core of the ioBroker adapter for Libreo wall boxes
(`main.js`, class `Libreo`): the sequential logic under its HTTP and
web-socket plumbing, with every reply, socket event and the ioBroker store
treated as an abstract input.

- **Login and authenticated calls** (`auth.dfy`, `portal.dfy`, `adapter.dfy`).
  - The seven-call OpenID login runs as a staged state machine over the
    replies it receives.
  - The XSRF token is taken from the cookie jar.
  - The hidden fields of the sign-in form are folded into a map.
  - `SetCurrent`, `Charging`, `GetStationsOfCurrentOrg`,
    `GetChargingSessions` and `GetUserInfo` share a retry-once policy: a
    401 with `loginIfForbidden` logs in once and repeats the call once
    without the flag, and the outer call reports a falsy value whatever
    the repeat did.
- **The HTTP client** (`http.dfy`).
  - The server is a queue of replies fixed in advance; an exhausted queue
    is a network error.
  - Every request made is logged in order.
  - Each call's `validateStatus` option decides whether a reply is
    returned or thrown.
- **The ioBroker store** (`object_db.dfy`).
  - The store is two maps: objects, written create-if-absent, and states,
    written with `ack`.
  - It is changed through a `Store` class.
  - Each mirroring operation is specified as a list of store operations
    (`Ensure`, `Write`, `NullUnder`), and the imperative methods are proved
    to apply exactly that list.
- **Mirroring** (`assets.dfy`, `charging_sessions.dfy`, `metrics.dfy`,
  `organisations.dfy`).
  - Stations with their control nodes.
  - Organisation users and the logged-in user.
  - Charging sessions under zero-padded session ids.
  - Metrics: the truthiness-guarded session-state writes, the per-phase
    arrays, `power_sum`, and the teardown that nulls the session state when
    the status is 267 or 277.
- **The realtime channel** (`realtime.dfy`, `adapter.dfy`).
  - Negotiation closes and replaces the adapter's single socket and bumps
    the shared invocation counter.
  - The handshake frame is sent on open.
  - The exact acknowledgement `{}` U+001E is answered with a subscription
    frame carrying the next invocation id.
  - Every other message is split on U+001E and its non-empty records are
    parsed in order.
- **State changes** (`state_ids.dfy`, `adapter.dfy`).
  - The last dot-segment of a changed state's id picks the command.
  - Its first `cst-` segment picks the station.
  - The sibling `chargingUserId` state names the user.

JavaScript's string operations used by the adapter (`split`, `padStart`,
`lastIndexOf`, the first-match `replace`) are modelled in `js_text.dfy`.

Where the adapter's documentation and its code differ, the model follows
the code:

- The first subscription carries invocation id 2, not 1. The counter
  starts at 1 and a successful negotiation bumps it before the first
  subscription uses it.
- There is one socket per adapter, not one per organisation.
- A message that combines the acknowledgement with data is parsed as
  records, and no subscription is sent for it.
- `SetOrg` passes its options object as the request body. It therefore runs
  under the default status check and sends no headers.
- `GetChargingSessions` reads its XSRF token from the cookies of
  `id.libreo.cloud`.
- The `Referer` of both charging commands names the start dialog.

## Model

| member | source | states |
|---|---|---|
| Adapter.Libreo.constructor | main.js:24-37 | A new adapter is not logged in, has no socket and no current node, and its invocation counter starts at 1 (the counter is set at line 61). |
| Adapter.Libreo.Login | main.js:233-367 | Result, requests made and replies consumed are those of the login state machine `LoginRun`. `loggedIn` becomes true on success and is never reset to false. |
| Adapter.Libreo.CredentialsSteps | main.js:254-305 | The login-page requests and the credentials post follow `CredentialsRun`: they stop at the first thrown call or at a status other than 200. |
| Adapter.Libreo.SigninSteps | main.js:308-357 | The user-info call, the second authorize call and the form post follow `SigninRun`; success means the form post was answered with 200. |
| Auth.LoginSucceeds | main.js:233-367 | The login succeeds if and only if the first reply carries a `Location`, the credentials and the form post are answered with exactly 200, and no call between them throws. A successful login makes seven calls. |
| Auth.LoginRedirectIsAuthUrl | main.js:248-301 | The login page is requested at the first reply's `Location` twice, because the redirect check re-reads the first reply. The credentials name that URL as `Referer`, and the second authorize call goes to the same URL. |
| Auth.SigninPostsReceivedForm | main.js:328-350 | The form post goes to the `action` of the page received and carries the folded hidden fields. |
| Auth.XsrfToken | main.js:369-375 | The token is the value of the first cookie whose key and domain match exactly; it is absent if and only if no cookie matches. |
| Auth.XsrfSkipsOthers | main.js:369-375 | Non-matching cookies placed in front do not change the token found. |
| Auth.FormData | main.js:328-335 | Every hidden input's name is a key of the form map, and every key comes from an input. |
| Auth.FormDataLastWins | main.js:332-335 | A repeated name keeps the value of its last occurrence. |
| Auth.DistinctInputsKept | main.js:332-335 | With distinct names, every input appears in the map with its own value and none is lost. |
| Auth.Once | main.js:1054-1060 | A call without retry makes one request and reports success if and only if its reply has the success status and a readable body. |
| Auth.RetryResult | main.js:841-852 | The outer call reports success if and only if its own first reply is the success status; a repeat after login never changes that. |
| Auth.RetryLogsInOnce | main.js:809-812 | A login happens if and only if the flag is set and the first reply is a 401 that reached the caller. The request is then made exactly twice around exactly one login, and the result is falsy. |
| Auth.NoFlagIsOnce | main.js:846-848 | Without the flag the retry policy is a single call. |
| Auth.DefaultCheckNeverRetries | main.js:897-1034 | Under the default status check the retry branch is never taken: exactly one request is made. |
| Http.Deliver | main.js:240-348 | A reply reaches the caller if and only if the call's status check accepts it; otherwise the call throws. |
| Http.AnyStatusNeverRejects | main.js:826-838 | A call with `validateStatus: null` throws only on a network error. |
| Http.DefaultRejectsUnauthorised | main.js:897-903 | Under the default check a 401 throws. |
| Http.HttpClient.Send | main.js:237-245 | One awaited call: the request is appended to the log and answered by the next reply. |
| Adapter.Libreo.Command | main.js:822-895 | The shared 204 retry-once body: result, requests, consumed replies and `loggedIn` follow `Retry` with success status 204. |
| Adapter.Libreo.SetCurrent | main.js:822-857 | Setting the maximum current follows `Retry` with success 204. |
| Adapter.Libreo.Charging | main.js:859-895 | Starting or stopping charging follows `Retry` with success 204. |
| Portal.ChargingStartStopDiffer | main.js:859-870 | Start and stop requests for the same station differ only in their URL. |
| Adapter.Libreo.GetStationsOfCurrentOrg | main.js:540-820 | Follows `Retry` with success 200. The store afterwards holds exactly the mirror of the station list that was served. |
| Adapter.Libreo.GetChargingSessions | main.js:1036-1264 | Follows `Retry` with success 200. The store afterwards holds exactly the mirror of the sessions that were served. |
| Adapter.Libreo.GetUserInfo | main.js:897-1034 | Follows `Retry` with success 200. The store afterwards holds exactly the mirror of the user that was served; the 401 branch is unreachable. |
| Adapter.Libreo.SetOrg | main.js:508-538 | Selecting an organisation makes exactly one request and consumes one reply. |
| Adapter.Libreo.GetOrg | main.js:424-506 | Makes one request; on 200 the organisation's users are mirrored under `users.`. |
| Adapter.Libreo.GetChargingUserId | main.js:206-213 | The user is the sibling state's value when that value is truthy, and null otherwise. |
| Adapter.UserIdOf | main.js:206-213 | The user read from a state is truthy or null. |
| Adapter.Libreo.OnStateChange | main.js:156-204 | A deleted state does nothing. Otherwise the command named by the id is sent for the station named by the id, on behalf of the sibling's user, and the handler's result is that command's outcome. |
| StateIds.LastSegment | main.js:161-162 | The last segment of an id contains no dot. |
| StateIds.ChargingUserStateId | main.js:164 | An id without a dot is left unchanged by the sibling replacement. |
| StateIds.SiblingSegments | main.js:164 | The sibling id has the same segments as the id except the last, which becomes `chargingUserId`. |
| StateIds.SiblingOfControl | main.js:164-168 | A control state `<node>.<control>` reads its user from `<node>.chargingUserId`, and its last segment is the control's name. |
| StateIds.StationOfControl | main.js:170 | For a station mirrored under an organisation path without `cst-` segments, the station found is the station's own id. |
| StateIds.Dispatch | main.js:168-198 | No command is sent unless the last segment is `current`, `chargingStart` or `chargingStop`. `current` forwards the written value, and the charge commands forward the sibling's user, starting if and only if the segment is `chargingStart`. |
| StateIds.DispatchControl | main.js:168-198 | Writing a station's control state commands exactly what the control's name says, for that station. |
| Organisations.ActiveOrg | main.js:392-410 | The activated organisation is the one whose index passes the iteration's test `index === orgsData.length - 1`: there is one exactly when the list is not empty, and it is that element. `GetOrgs` and `MirrorOrgs` are proved against it. |
| Organisations.OrgNodesCreated | main.js:392-401 | Every listed organisation has its node afterwards. Existing nodes are kept and no state changes. |
| Organisations.OrgNodeIdFirstSlash | main.js:394 | For every path whose first segment has no slash, the first slash becomes a dot and everything after it is kept, further slashes included. |
| Organisations.OrgNodeIdSlashes | main.js:394 | A path without slashes is its own node id; a path with slashes loses exactly one of them. |
| Adapter.Libreo.GetOrgs | main.js:377-422 | An empty or failed list changes nothing beyond its request. Otherwise every organisation gets its node, and then only `ActiveOrg` of the list is selected, read and connected: it becomes the current node and receives the new socket. |
| Adapter.Libreo.MirrorOrgs | main.js:392-410 | Node creation for all listed organisations, followed by the activation of `ActiveOrg` of the list and nothing else; no activation when there is none. |
| Adapter.Libreo.CreateOrgNodes | main.js:392-401 | The loop creates exactly the organisation nodes, in order. |
| Adapter.Libreo.ActivateOrg | main.js:404-410 | Selects, reads and connects one organisation: four requests, the current node set, and the old socket closed and replaced when negotiation succeeds. |
| Adapter.Libreo.ReadOrg | main.js:404-409 | `SetOrg`, `GetOrg` and `GetStationsOfCurrentOrg` without the login retry: three requests and their store effects. |
| Adapter.Libreo.StartWebSocket | main.js:1266-1378 | Always one negotiation request. On 200 the old socket is closed, a fresh one is opened at the URL built from the connection token, and the counter is bumped. Otherwise the socket and the counter are unchanged. The counter invariant is kept. |
| Realtime.SocketUrl | main.js:1289-1292 | The socket URL is the hub URL followed by the connection token. |
| Adapter.Libreo.OnSocketOpen | main.js:1312-1317 | Opening sends exactly the handshake frame. |
| Realtime.HandshakeIsOneRecord | main.js:1316 | The handshake frame is one record followed by the separator. |
| Adapter.Libreo.OnSocketMessage | main.js:1321-1356 | The exact acknowledgement sends one subscription with the current counter value, bumps the counter and writes nothing. Any other message sends nothing and writes exactly what its records parse to. Ids issued keep strictly increasing. |
| Adapter.FirstSubscription | main.js:61 | On a fresh adapter the first subscription carries invocation id 2: the counter starts at 1 (line 61), negotiation bumps it (line 1320), and the subscription uses it (line 1333). |
| Realtime.React | main.js:1329-1348 | A message is an acknowledgement if and only if it equals `{}` U+001E exactly. Otherwise its records are non-empty and contain no separator. |
| Realtime.NonEmptyRecords | main.js:1342-1348 | Empty records are dropped; every non-empty one is kept. |
| Realtime.NonEmptyRecordsAppend | main.js:1342-1348 | Dropping empty records keeps the order: the records of two runs of pieces are those of the first run followed by those of the second. |
| Realtime.RecordsCoverMessage | main.js:1342-1348 | The parsed records, joined, are the message without its separators: nothing but separators is lost. |
| Realtime.CombinedAckIsParsed | main.js:1329-1348 | An acknowledgement followed by data in the same message is parsed as two records, `{}` and the data. |
| Realtime.SubscribeFrameIsOneRecord | main.js:1329-1339 | A subscription frame is one record followed by the separator. |
| Realtime.SubscribeFrameInjective | main.js:1333 | Different invocation ids give different subscription frames. |
| Realtime.IgnoredRecordsWriteNothing | main.js:1380-1383 | Records that fail to parse or whose target is not `receiveMetrics` write nothing. |
| Realtime.RecordsFrame | main.js:1386-1389 | Parsing records only touches states under the organisation's node, and creates each node before writing it. |
| Adapter.Libreo.ParseRecords | main.js:1342-1348 | The split loop applies the non-empty records in order. |
| Adapter.Libreo.ParseMetricsMessage | main.js:1380-1754 | A record applies the store operations of its decoded metrics, or none. |
| Adapter.Libreo.WriteMetrics | main.js:1386-1747 | The metrics of a message are applied in order. |
| Adapter.Libreo.WriteMetric | main.js:1388-1747 | One metric applies exactly `MetricOps`. |
| Adapter.Libreo.WriteSessionState | main.js:1531-1746 | The session state is written, then torn down on a terminal status. |
| Adapter.Libreo.WritePhases | main.js:1649-1669 | The phase loop writes `<name>_p1..<name>_pn` in order. |
| Adapter.Libreo.WritePower | main.js:1672-1708 | The power phases are written, followed by their sum. |
| Metrics.PhaseFields | main.js:1652-1668 | One field per phase value, with the i-th field named `<name>_p<i+1>` and holding element i. |
| Metrics.MetricFieldLands | main.js:1389-1530 | Every header value lands at `<org>.<station>.metrics.<field>`. |
| Metrics.SessionFieldLands | main.js:1540-1645 | A truthy session value lands under `currentSessionState.`. A falsy one leaves the previous state. |
| Metrics.FalsyEnergyKeepsPrevious | main.js:1582-1583 | A zero energy reading does not overwrite the previous one. |
| Metrics.CurrentPhaseLands | main.js:1649-1669 | Element i of a non-empty current array lands at `current_p<i+1>`. |
| Metrics.VoltagePhaseLands | main.js:1711-1731 | Element i of a non-empty voltage array lands at `voltage_p<i+1>`. |
| Metrics.PowerLands | main.js:1672-1708 | Element i of a non-empty power array lands at `power_p<i+1>`, and `power_sum` holds the sum of the array. |
| Metrics.NoPowerNoSum | main.js:1647-1673 | Without metrics data, `power_sum` is not written. |
| Metrics.TeardownNullsSessionState | main.js:1736-1745 | On status 267 or 277, every state under `currentSessionState.` is nulled with ack after the writes. Objects and all other states are what the writes left. |
| Metrics.MetricFrame | main.js:1386-1747 | A metric touches only states under its metrics node, and creates each node before writing it. |
| Metrics.MetricKeepsConsistent | main.js:1386-1747 | A metric keeps the store invariant that every state has its object. |
| Metrics.DataFieldsDistinct | main.js:1647-1731 | The phase states of the current, power and voltage arrays all have distinct names. |
| Metrics.MetricListFrame | main.js:1386 | A message's metrics touch only states under the organisation's node. |
| ChargingSessions.Present | main.js:1061-1064 | The sessions mirrored are exactly the present entries. |
| ChargingSessions.SessionListSkipsAbsent | main.js:1061-1064 | Skipping falsy entries is the same as mirroring only the present sessions. |
| ChargingSessions.SegmentShape | main.js:1066 | The session segment has length max(5, \|id\|), ends with the id, and equals an id of five or more characters. |
| ChargingSessions.NumericSegment | main.js:1066 | A numeric id below 100000 becomes five digits that read back as the same number. |
| ChargingSessions.SessionFieldLands | main.js:1068-1206 | Each field of a session lands at `chargingsessions.<segment>.<name>`. |
| ChargingSessions.UserStatesWritten | main.js:1208-1248 | With a user, its id and names land under the session node. |
| ChargingSessions.NoUserNoUserStates | main.js:1208 | Without a user, none of the three `user.*` states is written. |
| ChargingSessions.SessionListFrame | main.js:1061-1248 | Sessions only touch states under `chargingsessions.`, and create each node before writing it. |
| Assets.StationFieldsLand | main.js:561-751 | After a station is mirrored, its fourteen states hold the reported values. |
| Assets.StationControlsCreated | main.js:754-805 | After a station is mirrored, its channel and its four control nodes exist. |
| Assets.StationControlStatesKept | main.js:754-805 | Mirroring a station never writes its control states: a pending command value stays. |
| Assets.StationListFrame | main.js:561-805 | Stations only touch states under the organisation node. |
| Assets.OrgUserListFrame | main.js:449-496 | Organisation users only touch states under `users.`. |
| Assets.UserInfoMirrored | main.js:908-1018 | Each of the eight user-info states lands under `users.<sub>.` with the served value, the permissions as their JSON text. No state outside that node changes, and every node is created before it is written. |
| ObjectDb.Store.SetObjectNotExists | main.js:395-401 | Creates an object only when its id is absent. |
| ObjectDb.Store.SetState | main.js:1410 | Overwrites a state's value and sets ack. |
| ObjectDb.ApplyAppend | main.js:1386-1747 | Applying two operation lists in turn is applying their concatenation. |
| ObjectDb.LastWriteWins | main.js:1410 | A state written and not touched afterwards holds the written value. |
| ObjectDb.ConsistentKept | main.js:395-1747 | Operation lists that create each node before writing it keep every state backed by its object. |
| ObjectDb.NullOut | main.js:1736-1745 | Nulling a prefix keeps the state ids, nulls those under the prefix with ack, and leaves the others. |
| JsText.Split | main.js:161 | `split` yields one part more than there are separators, and no part contains one. |
| JsText.JoinSplit | main.js:1342 | Joining the parts of a split with the separator gives back the string. |
| JsText.SplitJoin | main.js:1342 | Splitting a join of separator-free parts gives back the parts. |
| JsText.PadStart | main.js:1066 | `padStart` yields max(width, \|s\|) characters, ending with `s` and filled in front. |
| JsText.LastIndexOf | main.js:164 | Finds the last occurrence, and is absent if and only if the character does not occur. |
| JsText.ReplaceFirst | main.js:394 | Only the first occurrence is replaced. |
| JsText.ReplaceFirstRemovesOne | main.js:394 | Replacing removes exactly one occurrence. |
| JsText.ParseDecimalString | main.js:1066 | A number's decimal text reads back as the number. |
| JsText.FindIndex | main.js:170 | `find` returns the first match, and is absent if and only if nothing matches. |

## Left out

- HTTP transport: redirects, headers other than `Referer` and `X-Xsrf-Token`, query parameters (API version, paging, the session window), and response decoding. Every call is an abstract reply taken from a queue fixed in advance.
- Cookie-jar updates made by responses, and cookie serialisation: the jar is a fixed sequence of (key, domain, value) cookies.
- HTML parsing with cheerio: the sign-in page arrives already parsed as its form `action` and its list of hidden inputs.
- JSON parsing: a socket record is decoded by a function passed in as a parameter, and malformed records write nothing.
- Socket I/O: the error, close and unexpected-response handlers only log. The socket is modelled as its URL, an open/closed flag and the frames sent.
- `onReady` scheduling, timers and the date arithmetic for the session window; `onUnload`; `onObjectChange`; logging.
- The current time written to `last_updated` is a parameter `now`.
- The `async` forEach callbacks are not awaited, so their real interleaving is nondeterministic. The model runs them sequentially in list order, and in `GetOrgs` the node creation of all organisations comes before the activation of the last one.
- Metrics.PowerLands: `power_sum` is the exact sum of the power readings as reals, so floating-point rounding is not modelled.
- Metrics.TeardownNullsSessionState: the terminal test accepts the numbers 267 and 277 and the strings "267" and "277". Every other string that JavaScript's loose equality equates with 267 or 277 ("267.0", " 267", "0x10B", "2.67e2" and the like) is not recognised as terminal, because the model does not implement JavaScript's string-to-number conversion.
- NaN: truthiness treats every number other than zero as truthy. NaN, which is falsy in JavaScript, is not a value of the model; the values it mirrors come from parsed JSON, which cannot hold NaN.
- Object metadata (names, roles, units, read/write flags): objects are modelled only by their kind (channel or state).
- The adapter namespace prefix of state ids: all ids are relative to the adapter instance.
- The login's check of the redirect after the login page: it re-reads the first reply's `Location`, which always exists at that point, so it can never fail and is not modelled as a branch.
- The store's pattern query in the teardown is modelled as nulling every existing state under the prefix.
