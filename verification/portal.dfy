/**
 * The portal's REST calls as the adapter issues them: address, referrer,
 * XSRF token (read from the cookie of the named host), body and status
 * check. Query parameters (`api-version`, paging, the session window) are
 * not part of a request here.
 */
module Portal {
  import opened Wrappers
  import opened ObjectDb
  import opened Http
  import opened Auth

  const PortalHost: string := "portal.libreo.cloud"
  const Api: string := "https://portal.libreo.cloud/api/"

  /** Organisation list, with axios's default status check. */
  const OrgsRequest: Request := Request(Get, Api + "identity/orgs", None, None, NoPayload, Default2xx)

  /** One organisation's users. */
  function OrgRequest(jar: seq<Cookie>, org: string): Request
  {
    Request(Get, Api + "identity/orgs/" + org, Some("https://portal.libreo.cloud/users"), XsrfToken(jar, PortalHost),
      NoPayload, AnyStatus)
  }

  /**
   * Switching the active organisation. The options object is passed where
   * axios expects the body, so it is sent as the body: no headers and the
   * default status check.
   */
  function SetOrgRequest(jar: seq<Cookie>, org: string): Request
  {
    Request(Post, "https://portal.libreo.cloud/org/" + org, None, None, OptionsObject(XsrfToken(jar, PortalHost)), Default2xx)
  }

  const StationsRequest: Request := Request(Get, Api + "assets/chargingstations", None, None, NoPayload, AnyStatus)

  /** Session list; its XSRF token is read from the identity server's cookie. */
  function SessionsRequest(jar: seq<Cookie>): Request
  {
    Request(Get, Api + "assets/chargingsessions", None, XsrfToken(jar, IdHost), NoPayload, AnyStatus)
  }

  const UserInfoRequest: Request := Request(Get, "https://portal.libreo.cloud/userinfo", None, None, NoPayload, Default2xx)

  function SetCurrentRequest(jar: seq<Cookie>, station: string, current: Value): Request
  {
    Request(Put, Api + "customer/chargingstations/" + station + "?api-version=1.0",
      Some("https://portal.libreo.cloud/charging-stations?chargingStationId=" + station + "&dialog=settings"),
      XsrfToken(jar, PortalHost), MaxCurrent(current), AnyStatus)
  }

  /** Start (`true`) or stop (`false`) charging; both name the start dialog as referrer. */
  function ChargingRequest(jar: seq<Cookie>, station: string, start: bool, userId: Value): Request
  {
    Request(Post, Api + "customer/chargingstations/" + station + "/cmd/charge/" + (if start then "true" else "false"),
      Some("https://portal.libreo.cloud/charging-stations?chargingStationId=" + station + "&dialog=startCharging"),
      XsrfToken(jar, PortalHost), Impersonate(userId), AnyStatus)
  }

  function NegotiateRequest(jar: seq<Cookie>): Request
  {
    Request(Post, Api + "customer/hubs/metrics/negotiate?negotiateVersion=1",
      Some("https://portal.libreo.cloud/charging-stations"), XsrfToken(jar, PortalHost), NegotiateVersion1, RedirectsOk)
  }

  /** Start and stop go to different addresses for the same station, and only the address differs. */
  lemma ChargingStartStopDiffer(jar: seq<Cookie>, station: string, userId: Value)
    ensures ChargingRequest(jar, station, true, userId).url != ChargingRequest(jar, station, false, userId).url
    ensures ChargingRequest(jar, station, true, userId).(url := "") == ChargingRequest(jar, station, false, userId).(url := "")
  {
    var p := Api + "customer/chargingstations/" + station + "/cmd/charge/";
    assert ChargingRequest(jar, station, true, userId).url == p + "true";
    assert ChargingRequest(jar, station, false, userId).url == p + "false";
    assert (p + "true")[|p|] == 't';
    assert (p + "false")[|p|] == 'f';
  }
}
