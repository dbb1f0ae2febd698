/**
 * The HTTP client as the adapter uses it. The network is an oracle: every
 * call takes the next reply from a queue fixed in advance (an exhausted
 * queue is a network error), and every request made is logged in order.
 * Whether a reply is returned or thrown is decided by the call's
 * `validateStatus` option, modelled as a `Policy`.
 */
module Http {
  import opened Wrappers
  import opened ObjectDb
  import opened Organisations
  import opened Assets
  import opened ChargingSessions

  datatype Verb = Get | Post | Put

  /**
   * The status check a call asks for: `status >= 200 && status < 400 ||
   * status === 302` (RedirectsOk), axios's default 2xx check (Default2xx),
   * `validateStatus: null` (AnyStatus) and `status === 200` (Only200).
   */
  datatype Policy = RedirectsOk | Default2xx | AnyStatus | Only200

  predicate Accepts(p: Policy, status: int)
  {
    match p
    case RedirectsOk => 200 <= status < 400 || status == 302
    case Default2xx => 200 <= status < 300
    case AnyStatus => true
    case Only200 => status == 200
  }

  /** A submitted form field; a hidden input without a value attribute submits `undefined`. */
  datatype Payload =
    | NoPayload
    | Credentials(email: string, password: string)
    | FormFields(fields: map<string, Option<string>>)
    | MaxCurrent(current: Value)
    | Impersonate(userId: Value)
    | NegotiateVersion1
    | OptionsObject(xsrf: Option<string>)

  /** What a call sends: the method, the URL, the `Referer` and `X-Xsrf-Token` headers, the body and the status check. */
  datatype Request = Request(verb: Verb, url: string, referer: Option<string>, xsrf: Option<string>, payload: Payload, policy: Policy)

  /** A hidden `<input>` of the login form, as its `name` and `value` attributes. */
  datatype HiddenInput = HiddenInput(name: Option<string>, value: Option<string>)

  /** The parsed body of a reply, in the shapes the adapter reads. */
  datatype Body =
    | Empty
    | LoginPage(action: Option<string>, hidden: seq<HiddenInput>)
    | Negotiation(connectionToken: string)
    | Orgs(orgs: seq<Org>)
    | OrgUsers(users: seq<OrgUser>)
    | Stations(stations: seq<Station>)
    | Sessions(entries: seq<Option<ChargingSession>>)
    | UserInfo(user: UserData)

  /** What the server does with a request; `location` is the `Location` header. */
  datatype Reply = Reply(status: int, location: Option<string>, body: Body) | NetworkError

  /** What the awaited call yields: the response, or an exception. */
  datatype Outcome = Response(status: int, location: Option<string>, body: Body) | Thrown

  function Deliver(r: Reply, p: Policy): (o: Outcome)
    ensures o.Response? <==> r.Reply? && Accepts(p, r.status)
    ensures o.Response? ==> o.status == r.status && o.location == r.location && o.body == r.body
  {
    if r.Reply? && Accepts(p, r.status) then Response(r.status, r.location, r.body) else Thrown
  }

  /** The i-th reply still to come, a network error past the end. */
  function Nth(q: seq<Reply>, i: nat): Reply
  {
    if i < |q| then q[i] else NetworkError
  }

  /** The queue after k calls. */
  function Drop(q: seq<Reply>, k: nat): (r: seq<Reply>)
    ensures Nth(r, 0) == Nth(q, k)
  {
    if k <= |q| then q[k..] else []
  }

  lemma NthDrop(q: seq<Reply>, k: nat, i: nat)
    ensures Nth(Drop(q, k), i) == Nth(q, k + i)
  {
  }

  lemma DropDrop(q: seq<Reply>, a: nat, b: nat)
    ensures Drop(Drop(q, a), b) == Drop(q, a + b)
  {
  }

  /** A log extended by two runs of calls, regrouped. */
  lemma LogAppend(log: seq<Request>, a: seq<Request>, b: seq<Request>)
    ensures log + a + b == log + (a + b)
  {
  }

  /** The log after a call, a login and the repeated call, regrouped. */
  lemma LogRegroup(log: seq<Request>, req: Request, login: seq<Request>, again: seq<Request>)
    ensures log + [req] + login + again == log + ([req] + login + again)
  {
  }

  class HttpClient {
    /** The replies the server will give, in order. */
    var pending: seq<Reply>
    /** Every request made so far, in order. */
    var log: seq<Request>

    constructor (replies: seq<Reply>)
      ensures pending == replies && log == []
    {
      pending := replies;
      log := [];
    }

    /** One awaited call: the request is logged and answered by the next reply, subject to its status check. */
    method Send(req: Request) returns (o: Outcome)
      modifies this
      ensures log == old(log) + [req]
      ensures pending == Drop(old(pending), 1)
      ensures o == Deliver(Nth(old(pending), 0), req.policy)
    {
      log := log + [req];
      var r := Nth(pending, 0);
      pending := Drop(pending, 1);
      o := Deliver(r, req.policy);
    }
  }

  /** A call with `validateStatus: null` throws only when the network does: every status reaches the caller. */
  lemma AnyStatusNeverRejects(r: Reply)
    ensures Deliver(r, AnyStatus).Thrown? <==> r.NetworkError?
  {
  }

  /** Under the default check an unauthorised status never reaches the caller: it throws. */
  lemma DefaultRejectsUnauthorised(r: Reply)
    requires r.Reply? && r.status == 401
    ensures Deliver(r, Default2xx).Thrown?
  {
  }
}
