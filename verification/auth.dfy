/**
 * Authentication against the provider: the XSRF token read from the cookie
 * jar, the OpenID Connect login as a fixed sequence of seven calls with
 * early exits, the hidden-field form it replays, and the retry-once policy
 * the authenticated API calls share (a 401 triggers one login and one
 * repeat of the call, whose result the caller then ignores).
 */
module Auth {
  import opened Wrappers
  import opened JsText
  import opened Http

  // ---------------------------------------------------------------------------
  // Cookies
  // ---------------------------------------------------------------------------

  datatype Cookie = Cookie(key: string, domain: string, value: string)

  predicate IsXsrfFor(c: Cookie, domain: string)
  {
    c.key == "XSRF-TOKEN" && c.domain == domain
  }

  /**
   * `cookies.find(cookie => cookie.key === "XSRF-TOKEN" && cookie.domain ===
   * domain)?.value`: the value of the first cookie with exactly that key and
   * domain, none when there is no such cookie.
   */
  function XsrfToken(jar: seq<Cookie>, domain: string): (t: Option<string>)
    ensures t.None? <==> forall i :: 0 <= i < |jar| ==> !IsXsrfFor(jar[i], domain)
    ensures t.Some? ==> exists i :: (0 <= i < |jar| && IsXsrfFor(jar[i], domain) && jar[i].value == t.value
      && forall j :: 0 <= j < i ==> !IsXsrfFor(jar[j], domain))
  {
    match FindIndex(jar, (c: Cookie) => IsXsrfFor(c, domain))
    case None => None
    case Some(i) => Some(jar[i].value)
  }

  /** Cookies for other domains or with other names in front of the token do not change which token is found. */
  lemma XsrfSkipsOthers(other: seq<Cookie>, jar: seq<Cookie>, domain: string)
    requires forall i :: 0 <= i < |other| ==> !IsXsrfFor(other[i], domain)
    ensures XsrfToken(other + jar, domain) == XsrfToken(jar, domain)
  {
    var all := other + jar;
    var t := XsrfToken(all, domain);
    if t.Some? {
      var i :| 0 <= i < |all| && IsXsrfFor(all[i], domain) && all[i].value == t.value
        && forall j :: 0 <= j < i ==> !IsXsrfFor(all[j], domain);
      assert i >= |other|;
      var u := XsrfToken(jar, domain);
      assert jar[i - |other|] == all[i];
      var k :| 0 <= k < |jar| && IsXsrfFor(jar[k], domain) && jar[k].value == u.value
        && forall j :: 0 <= j < k ==> !IsXsrfFor(jar[j], domain);
      assert all[|other| + k] == jar[k];
      assert k == i - |other|;
    } else {
      forall j | 0 <= j < |jar| ensures !IsXsrfFor(jar[j], domain) {
        assert all[|other| + j] == jar[j];
      }
    }
  }

  // ---------------------------------------------------------------------------
  // The replayed sign-in form
  // ---------------------------------------------------------------------------

  /** The key `formData[$(field).attr("name")]` uses: a missing name becomes the text "undefined". */
  function FieldKey(h: HiddenInput): string
  {
    h.name.GetOr("undefined")
  }

  /** The form data built from the hidden inputs in document order; a later input overwrites an earlier one of the same name. */
  function FormData(inputs: seq<HiddenInput>): (m: map<string, Option<string>>)
    ensures forall i :: 0 <= i < |inputs| ==> FieldKey(inputs[i]) in m
    ensures forall k :: k in m ==> exists i :: 0 <= i < |inputs| && FieldKey(inputs[i]) == k
  {
    if inputs == [] then map[]
    else
      var init := inputs[..|inputs| - 1];
      var last := inputs[|inputs| - 1];
      var m := FormData(init);
      assert forall i :: 0 <= i < |init| ==> init[i] == inputs[i];
      m[FieldKey(last) := last.value]
  }

  /** Each key holds the value of the last input with that key. */
  lemma {:induction false} FormDataLastWins(inputs: seq<HiddenInput>, i: nat)
    requires i < |inputs|
    requires forall j :: i < j < |inputs| ==> FieldKey(inputs[j]) != FieldKey(inputs[i])
    ensures FieldKey(inputs[i]) in FormData(inputs) && FormData(inputs)[FieldKey(inputs[i])] == inputs[i].value
  {
    var init := inputs[..|inputs| - 1];
    if i < |inputs| - 1 {
      assert init[i] == inputs[i];
      FormDataLastWins(init, i);
    }
  }

  /** Inputs with pairwise different names are all submitted as given. */
  lemma DistinctInputsKept(inputs: seq<HiddenInput>)
    requires forall i, j :: 0 <= i < j < |inputs| ==> FieldKey(inputs[i]) != FieldKey(inputs[j])
    ensures |FormData(inputs)| == |inputs|
    ensures forall i :: 0 <= i < |inputs| ==> FormData(inputs)[FieldKey(inputs[i])] == inputs[i].value
  {
    forall i | 0 <= i < |inputs| ensures FormData(inputs)[FieldKey(inputs[i])] == inputs[i].value {
      FormDataLastWins(inputs, i);
    }
    FormDataSize(inputs);
  }

  lemma {:induction false} FormDataSize(inputs: seq<HiddenInput>)
    requires forall i, j :: 0 <= i < j < |inputs| ==> FieldKey(inputs[i]) != FieldKey(inputs[j])
    ensures |FormData(inputs)| == |inputs|
  {
    if inputs != [] {
      FormDataSize(inputs[..|inputs| - 1]);
    }
  }

  // ---------------------------------------------------------------------------
  // Login
  // ---------------------------------------------------------------------------

  /** The adapter's configuration: credentials, the portal address, the login endpoint and the issuer. */
  datatype Config = Config(username: string, password: string, portalUrl: string, loginApiUrl: Option<string>, issuer: Option<string>)

  const IdHost: string := "id.libreo.cloud"

  /** JavaScript truthiness of an optional header value. */
  predicate Given(h: Option<string>)
  {
    h.Some? && h.value != ""
  }

  /** Step 1: the portal's login page, for its cookies and the redirect to the identity server. */
  function InitialRequest(cfg: Config): Request
  {
    Request(Get, cfg.portalUrl + "/login?ui_locales=de&redirectUrl=/", None, None, NoPayload, RedirectsOk)
  }

  /** Steps 2 and 3: the authorisation URL, fetched with the portal as referrer. */
  function AuthorizeRequest(cfg: Config, authUrl: string): Request
  {
    Request(Get, authUrl, Some(cfg.portalUrl), None, NoPayload, RedirectsOk)
  }

  /** Step 4: the credentials, posted with the identity server's XSRF token. */
  function CredentialsRequest(cfg: Config, jar: seq<Cookie>, loginRedirectUrl: string): Request
  {
    Request(Post, cfg.loginApiUrl.GetOr(""), Some(loginRedirectUrl), XsrfToken(jar, IdHost),
      Credentials(cfg.username, cfg.password), RedirectsOk)
  }

  /** Step 5: the identity server's user info, any status accepted. */
  const IdUserInfoRequest: Request := Request(Get, "https://id.libreo.cloud/userinfo", None, None, NoPayload, AnyStatus)

  /** Step 6: the authorisation URL again, now answered with the sign-in form. */
  function AuthorizeAgainRequest(authUrl: string): Request
  {
    Request(Get, authUrl, None, None, NoPayload, AnyStatus)
  }

  /** The form a page carries; a body that is not a login page is read as a page without a form. */
  function PageOf(b: Body): (page: Body)
    ensures page.LoginPage?
  {
    if b.LoginPage? then b else LoginPage(None, [])
  }

  /** Step 7: the hidden fields posted to the form's action, with the issuer as referrer. */
  function SigninRequest(cfg: Config, page: Body): Request
  {
    var p := PageOf(page);
    Request(Post, p.action.GetOr(""), cfg.issuer, None, FormFields(FormData(p.hidden)), Only200)
  }

  /** The calls a login made, in order, and whether it reported success. */
  datatype LoginTrace = LoginTrace(requests: seq<Request>, ok: bool)

  /** Calls made before a later stage of the login, which then decides its outcome. */
  function Then(before: seq<Request>, rest: LoginTrace): (t: LoginTrace)
    ensures |t.requests| == |before| + |rest.requests| && t.ok == rest.ok
  {
    LoginTrace(before + rest.requests, rest.ok)
  }

  /**
   * The login against the replies `q`: every early exit (a thrown call, a
   * missing `Location`, a credential reply other than 200) ends the trace
   * with `false`. After the first call it goes on with the first reply's
   * `Location`.
   */
  function LoginRun(cfg: Config, jar: seq<Cookie>, q: seq<Reply>): LoginTrace
  {
    var r0 := Deliver(Nth(q, 0), RedirectsOk);
    if r0.Thrown? || !Given(r0.location) then LoginTrace([InitialRequest(cfg)], false)
    else Then([InitialRequest(cfg)], CredentialsRun(cfg, jar, r0.location.value, Drop(q, 1)))
  }

  /**
   * Steps 2 to 4. The second and the third call both go to the first
   * reply's `Location`, which is also the credentials' referrer.
   */
  function CredentialsRun(cfg: Config, jar: seq<Cookie>, authUrl: string, q: seq<Reply>): LoginTrace
  {
    var req1 := AuthorizeRequest(cfg, authUrl);
    if Deliver(Nth(q, 0), RedirectsOk).Thrown? then LoginTrace([req1], false)
    else if Deliver(Nth(q, 1), RedirectsOk).Thrown? then LoginTrace([req1, req1], false)
    else
      var req3 := CredentialsRequest(cfg, jar, authUrl);
      var r3 := Deliver(Nth(q, 2), RedirectsOk);
      if r3.Thrown? || r3.status != 200 then LoginTrace([req1, req1, req3], false)
      else Then([req1, req1, req3], SigninRun(cfg, authUrl, Drop(q, 3)))
  }

  /** Steps 5 to 7: the user info, the sign-in form and its submission. */
  function SigninRun(cfg: Config, authUrl: string, q: seq<Reply>): LoginTrace
  {
    if Deliver(Nth(q, 0), AnyStatus).Thrown? then LoginTrace([IdUserInfoRequest], false)
    else
      var req5 := AuthorizeAgainRequest(authUrl);
      var r5 := Deliver(Nth(q, 1), AnyStatus);
      if r5.Thrown? then LoginTrace([IdUserInfoRequest, req5], false)
      else LoginTrace([IdUserInfoRequest, req5, SigninRequest(cfg, r5.body)], Deliver(Nth(q, 2), Only200).Response?)
  }

  /**
   * The login succeeds exactly when the first reply carries a `Location`,
   * the credentials are answered with 200, the sign-in form is answered with
   * 200, and no call in between fails; it then made all seven calls.
   */
  lemma LoginSucceeds(cfg: Config, jar: seq<Cookie>, q: seq<Reply>)
    ensures LoginRun(cfg, jar, q).ok <==>
      (&& Nth(q, 0).Reply? && Accepts(RedirectsOk, Nth(q, 0).status) && Given(Nth(q, 0).location)
       && Nth(q, 1).Reply? && Accepts(RedirectsOk, Nth(q, 1).status)
       && Nth(q, 2).Reply? && Accepts(RedirectsOk, Nth(q, 2).status)
       && Nth(q, 3).Reply? && Nth(q, 3).status == 200
       && Nth(q, 4).Reply? && Nth(q, 5).Reply?
       && Nth(q, 6).Reply? && Nth(q, 6).status == 200)
    ensures LoginRun(cfg, jar, q).ok ==> |LoginRun(cfg, jar, q).requests| == 7
    ensures 1 <= |LoginRun(cfg, jar, q).requests| <= 7
  {
  }

  /**
   * The login-page request re-reads the first reply's `Location`: the second
   * and third calls go to the same URL, and the credentials name it as their
   * referrer.
   */
  lemma LoginRedirectIsAuthUrl(cfg: Config, jar: seq<Cookie>, q: seq<Reply>)
    ensures var rs := LoginRun(cfg, jar, q).requests;
      && rs[0] == InitialRequest(cfg)
      && (|rs| >= 2 ==> Nth(q, 0).Reply? && Nth(q, 0).location == Some(rs[1].url))
      && (|rs| >= 3 ==> rs[2] == rs[1])
      && (|rs| >= 4 ==> rs[3].referer == Some(rs[1].url) && rs[3].xsrf == XsrfToken(jar, IdHost))
      && (|rs| >= 6 ==> rs[5].url == rs[1].url)
  {
  }

  /** The form that is posted is the one the sixth reply carried. */
  lemma SigninPostsReceivedForm(cfg: Config, jar: seq<Cookie>, q: seq<Reply>, action: string, hidden: seq<HiddenInput>)
    requires |LoginRun(cfg, jar, q).requests| == 7
    requires Nth(q, 5).Reply? && Nth(q, 5).body == LoginPage(Some(action), hidden)
    ensures LoginRun(cfg, jar, q).requests[6] == Request(Post, action, cfg.issuer, None, FormFields(FormData(hidden)), Only200)
  {
  }

  // ---------------------------------------------------------------------------
  // Retry once
  // ---------------------------------------------------------------------------

  /** The body shape a successful call goes on to read; a different shape throws and is caught. */
  datatype Shape = AnyBody | StationList | SessionList | UserDoc

  predicate Fits(b: Body, s: Shape)
  {
    match s
    case AnyBody => true
    case StationList => b.Stations?
    case SessionList => b.Sessions?
    case UserDoc => b.UserInfo?
  }

  /**
   * One authenticated call and what came of it: the calls made (the login's
   * included), the value it returned, the outcome of the login it triggered
   * if any, and the body that was accepted and processed, by this call or
   * by its repeat.
   */
  datatype Attempt = Attempt(requests: seq<Request>, result: bool, relogin: Option<bool>, served: Option<Body>)

  predicate Succeeded(o: Outcome, success: int, shape: Shape)
  {
    o.Response? && o.status == success && Fits(o.body, shape)
  }

  /** A single call without the retry: success reports true and serves the body, anything else reports a falsy value. */
  function Once(req: Request, success: int, shape: Shape, q: seq<Reply>): (a: Attempt)
    ensures a.requests == [req] && a.relogin.None?
    ensures a.result <==> a.served.Some?
    ensures a.result <==> Succeeded(Deliver(Nth(q, 0), req.policy), success, shape)
  {
    var o := Deliver(Nth(q, 0), req.policy);
    if Succeeded(o, success, shape) then Attempt([req], true, None, Some(o.body))
    else Attempt([req], false, None, None)
  }

  /**
   * The retry-once policy: `success` reports true; a 401 with
   * `loginIfForbidden` logs in, repeats the call once without the flag and
   * reports a falsy value whatever the repeat did; anything else reports
   * a falsy value.
   */
  function Retry(cfg: Config, jar: seq<Cookie>, req: Request, success: int, shape: Shape, loginIfForbidden: bool, q: seq<Reply>): (a: Attempt)
    ensures |a.requests| >= 1 && a.requests[0] == req
  {
    var o := Deliver(Nth(q, 0), req.policy);
    if !Succeeded(o, success, shape) && o.Response? && o.status == 401 && loginIfForbidden then
      var login := LoginRun(cfg, jar, Drop(q, 1));
      var again := Once(req, success, shape, Drop(q, 1 + |login.requests|));
      Attempt([req] + login.requests + again.requests, false, Some(login.ok), again.served)
    else Once(req, success, shape, q)
  }

  /** The call reports success exactly when its own first reply is the success status with a readable body. */
  lemma RetryResult(cfg: Config, jar: seq<Cookie>, req: Request, success: int, shape: Shape, flag: bool, q: seq<Reply>)
    ensures Retry(cfg, jar, req, success, shape, flag, q).result <==> Succeeded(Deliver(Nth(q, 0), req.policy), success, shape)
  {
  }

  /**
   * A login happens exactly when the first reply is a 401 that reached the
   * caller and the flag is set; the request is then made exactly twice
   * around exactly one login, and the outcome is falsy even when the
   * repeat succeeds.
   */
  lemma RetryLogsInOnce(cfg: Config, jar: seq<Cookie>, req: Request, success: int, shape: Shape, flag: bool, q: seq<Reply>)
    requires success != 401
    ensures var a := Retry(cfg, jar, req, success, shape, flag, q);
      var o := Deliver(Nth(q, 0), req.policy);
      && (a.relogin.Some? <==> (flag && o.Response? && o.status == 401))
      && (a.relogin.None? ==> a.requests == [req])
      && (a.relogin.Some? ==>
            var login := LoginRun(cfg, jar, Drop(q, 1));
            && a.requests == [req] + login.requests + [req]
            && a.relogin == Some(login.ok)
            && !a.result
            && (a.served.Some? <==> Succeeded(Deliver(Nth(q, 1 + |login.requests|), req.policy), success, shape)))
  {
    var a := Retry(cfg, jar, req, success, shape, flag, q);
    var o := Deliver(Nth(q, 0), req.policy);
    if flag && o.Response? && o.status == 401 {
      var login := LoginRun(cfg, jar, Drop(q, 1));
      var again := Once(req, success, shape, Drop(q, 1 + |login.requests|));
      assert Nth(Drop(q, 1 + |login.requests|), 0) == Nth(q, 1 + |login.requests|);
      assert again.requests == [req];
    }
  }

  /** Without the flag the call is made once and nothing else happens. */
  lemma NoFlagIsOnce(cfg: Config, jar: seq<Cookie>, req: Request, success: int, shape: Shape, q: seq<Reply>)
    ensures Retry(cfg, jar, req, success, shape, false, q) == Once(req, success, shape, q)
  {
  }

  /**
   * Under axios's default status check a 401 throws before the retry branch
   * is reached: a call with that check never logs in again.
   */
  lemma DefaultCheckNeverRetries(cfg: Config, jar: seq<Cookie>, req: Request, success: int, shape: Shape, flag: bool, q: seq<Reply>)
    requires req.policy == Default2xx
    ensures Retry(cfg, jar, req, success, shape, flag, q).relogin.None?
    ensures |Retry(cfg, jar, req, success, shape, flag, q).requests| == 1
  {
  }
}
