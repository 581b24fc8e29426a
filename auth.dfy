/** The authentication client of lib/auth.ts: the token pair kept in the
    browser's `localStorage`, the headers every authenticated request
    carries, and the single refresh-and-retry that follows a 401. */
module Auth {
  import opened Js
  import opened Http

  const AccessKey := "access_token"
  const RefreshKey := "refresh_token"
  const DefaultBaseUrl := "https://swapbook-1.onrender.com"
  const JsonContentType := "application/json"

  /** `process.env.NEXT_PUBLIC_API_BASE_URL || DefaultBaseUrl`: an unset or
      empty variable falls back to the default. */
  function BaseUrl(env: Option<string>): (r: string)
    ensures env.Some? && env.value != "" ==> r == env.value
    ensures env.None? || env.value == "" ==> r == DefaultBaseUrl
    ensures r != ""
  {
    if env.Some? && env.value != "" then env.value else DefaultBaseUrl
  }

  /** The token pair the server issues at login. */
  datatype AuthTokens = AuthTokens(access: string, refresh: string)

  /** `token ? "Bearer " + token : ""` for the stored access token, which is
      `null` when absent: an empty token counts as absent. */
  function AuthorizationValue(token: Option<string>): (v: string)
    ensures v == "" <==> token.None? || token.value == ""
    ensures v != "" ==> v == "Bearer " + token.value
  {
    if token.Some? && token.value != "" then "Bearer " + token.value else ""
  }

  /** `{ ...callerHeaders, Authorization: authorization, "Content-Type":
      "application/json" }`: the two headers win over the caller's headers of
      the same name, and every other caller header is kept. */
  function WithAuthHeaders(caller: map<string, string>, authorization: string): (h: map<string, string>)
    ensures h.Keys == caller.Keys + {"Authorization", "Content-Type"}
    ensures h["Authorization"] == authorization && h["Content-Type"] == JsonContentType
    ensures forall k :: k in caller && k != "Authorization" && k != "Content-Type" ==> h[k] == caller[k]
  {
    caller["Authorization" := authorization]["Content-Type" := JsonContentType]
  }

  /** The request `fetch(url, { ...options, headers: WithAuthHeaders(...) })` sends. */
  function AuthorizedRequest(url: string, options: RequestOptions, authorization: string): (r: Request)
    ensures r.url == url && r.httpMethod == options.httpMethod && r.body == options.body
    ensures "Authorization" in r.headers && "Content-Type" in r.headers
    ensures r.headers["Authorization"] == authorization && r.headers["Content-Type"] == JsonContentType
    ensures forall k :: k in options.headers && k != "Authorization" && k != "Content-Type"
              ==> k in r.headers && r.headers[k] == options.headers[k]
  {
    Request(url, options.httpMethod, WithAuthHeaders(options.headers, authorization), options.body)
  }

  /** `refreshToken`: a JSON POST of the refresh token to the refresh endpoint. */
  function RefreshRequest(baseUrl: string, refresh: string): Request {
    Request(baseUrl + "/api/auth/token/refresh/", "POST", map["Content-Type" := JsonContentType],
            JsonText(JObject(map["refresh" := JString(refresh)])))
  }

  /** What `refreshToken` settles to: the parsed body, or "Token refresh
      failed" for a non-OK status. */
  function RefreshResult(s: Settled): (r: Result<Json>)
    ensures s.Resolved? && !IsOk(s.response) ==> r == Err("Token refresh failed")
    ensures r.Ok? <==> s.Resolved? && IsOk(s.response) && s.response.body.JsonBody?
    ensures r.Ok? ==> r.value == s.response.body.value
    ensures s.Rejected? ==> r == Err(s.message)
  {
    ExpectOk(s, "Token refresh failed")
  }

  /** The string `localStorage.setItem("access_token", newTokens.access)`
      stores, or the error that sends control to the `catch`: a failed
      refresh, or a `null` body whose `access` cannot be read. A body
      without a string `access` stores its ToString ("undefined" when the
      field is missing). */
  function RefreshedAccess(refreshed: Result<Json>): (r: Result<string>)
    ensures r.Err? <==> refreshed.Err? || refreshed.value == JNull
    ensures refreshed.Err? ==> r == Err(refreshed.message)
    ensures refreshed.Ok? && refreshed.value.JObject? && "access" in refreshed.value.fields
            && refreshed.value.fields["access"].JString?
            ==> r == Ok(refreshed.value.fields["access"].s)
    ensures refreshed.Ok? && refreshed.value.JObject? && "access" in refreshed.value.fields
            ==> r == Ok(ToString(refreshed.value.fields["access"]))
    ensures refreshed.Ok? && refreshed.value != JNull
            && !(refreshed.value.JObject? && "access" in refreshed.value.fields)
            ==> r == Ok("undefined")
  {
    match refreshed
    case Err(m) => Err(m)
    case Ok(body) =>
      match Property(body, "access")
      case Err(m) => Err(m)
      case Ok(access) => Ok(ToStringOrUndefined(access))
  }

  /** What an authenticated request does to the token store. */
  datatype StoreEffect =
    | KeepStore                 // no refresh, or a refresh that was never needed
    | StoreAccess(access: string) // the refreshed access token overwrote the old one
    | ClearAndRedirect          // the refresh failed: tokens cleared, page sent to "/"

  /** The outcome of one `makeAuthenticatedRequest`: what it settles to, the
      requests it sent in order, and its effect on the store. */
  datatype Flow = Flow(result: Settled, requests: seq<Request>, effect: StoreEffect)

  predicate IsUnauthorized(s: Settled) {
    s.Resolved? && s.response.status == 401
  }

  /** The request flow of `makeAuthenticatedRequest`, given the stored tokens
      and how each request it may send settles: `first` for the request
      itself, `refreshed` for the refresh call, `retry` for the reissued
      request. */
  function RequestFlow(baseUrl: string, access: Option<string>, refresh: Option<string>,
                       url: string, options: RequestOptions,
                       first: Settled, refreshed: Settled, retry: Settled): (f: Flow)
    // the request goes out once, authorized with the stored access token
    ensures 1 <= |f.requests| <= 3
    ensures f.requests[0] == AuthorizedRequest(url, options, AuthorizationValue(access))
    ensures forall i :: 0 <= i < |f.requests| ==>
              "Content-Type" in f.requests[i].headers && f.requests[i].headers["Content-Type"] == JsonContentType
    // anything but a 401 with a non-empty refresh token passes straight through
    ensures !(IsUnauthorized(first) && refresh.Some? && refresh.value != "")
            ==> f.result == first && |f.requests| == 1 && f.effect == KeepStore
    // otherwise exactly one refresh call follows
    ensures IsUnauthorized(first) && refresh.Some? && refresh.value != ""
            ==> |f.requests| >= 2 && f.requests[1] == RefreshRequest(baseUrl, refresh.value)
                && (f.effect.StoreAccess? <==> RefreshedAccess(RefreshResult(refreshed)).Ok?)
    // a successful refresh: one retry with the new token, whose settlement is returned
    ensures f.effect.StoreAccess? <==> |f.requests| == 3
    ensures f.effect.StoreAccess? ==>
              && RefreshedAccess(RefreshResult(refreshed)) == Ok(f.effect.access)
              && f.requests[2] == AuthorizedRequest(url, options, "Bearer " + f.effect.access)
              && f.result == retry
    // a failed refresh: no retry, and the original 401 is returned
    ensures f.effect.ClearAndRedirect? <==> |f.requests| == 2
    ensures f.effect.ClearAndRedirect? ==> f.result == first && IsUnauthorized(f.result)
  {
    var req := AuthorizedRequest(url, options, AuthorizationValue(access));
    if IsUnauthorized(first) && refresh.Some? && refresh.value != "" then
      var refreshReq := RefreshRequest(baseUrl, refresh.value);
      match RefreshedAccess(RefreshResult(refreshed))
      case Ok(a) => Flow(retry, [req, refreshReq, AuthorizedRequest(url, options, "Bearer " + a)], StoreAccess(a))
      case Err(_) => Flow(first, [req, refreshReq], ClearAndRedirect)
    else Flow(first, [req], KeepStore)
  }

  /** The store after an effect. */
  function ApplyEffect(storage: map<string, string>, effect: StoreEffect): map<string, string> {
    match effect
    case KeepStore => storage
    case StoreAccess(a) => storage[AccessKey := a]
    case ClearAndRedirect => storage - {AccessKey, RefreshKey}
  }

  /** The `authService` singleton. `hasWindow` is `typeof window !==
      "undefined"`; `storage` is `localStorage`; `location` is the
      `window.location.href` last assigned by the service, if any. */
  class AuthService {
    const baseUrl: string
    const hasWindow: bool
    var storage: map<string, string>
    var location: Option<string>

    constructor(env: Option<string>, hasWindow: bool, storage: map<string, string>)
      ensures this.baseUrl == BaseUrl(env) && this.hasWindow == hasWindow
      ensures this.storage == storage && location == None
    {
      this.baseUrl := BaseUrl(env);
      this.hasWindow := hasWindow;
      this.storage := storage;
      location := None;
    }

    /** `getAccessToken()`: null without a window or without a stored token. */
    function GetAccessToken(): (t: Option<string>)
      reads this
      ensures t.Some? <==> hasWindow && AccessKey in storage
      ensures t.Some? ==> t.value == storage[AccessKey]
    {
      if hasWindow && AccessKey in storage then Some(storage[AccessKey]) else None
    }

    /** `getRefreshToken()`: null without a window or without a stored token. */
    function GetRefreshToken(): (t: Option<string>)
      reads this
      ensures t.Some? <==> hasWindow && RefreshKey in storage
      ensures t.Some? ==> t.value == storage[RefreshKey]
    {
      if hasWindow && RefreshKey in storage then Some(storage[RefreshKey]) else None
    }

    /** `isAuthenticated()`, that is `!!getAccessToken()`: true exactly when a
        window is present and a non-empty access token is stored. */
    predicate IsAuthenticated()
      reads this
      ensures IsAuthenticated() <==> hasWindow && AccessKey in storage && storage[AccessKey] != ""
    {
      var t := GetAccessToken();
      t.Some? && t.value != ""
    }

    /** Without a window the store is invisible: both getters give null and
        nobody is authenticated, whatever the map holds. */
    lemma NoWindowNoTokens()
      requires !hasWindow
      ensures GetAccessToken() == None && GetRefreshToken() == None && !IsAuthenticated()
    {
    }

    /** `setTokens`: overwrites both keys, one after the other; without a
        window it does nothing. */
    method SetTokens(tokens: AuthTokens)
      modifies this
      ensures hasWindow ==> storage == old(storage)[AccessKey := tokens.access][RefreshKey := tokens.refresh]
      ensures !hasWindow ==> storage == old(storage)
      ensures location == old(location)
      ensures hasWindow ==> GetAccessToken() == Some(tokens.access) && GetRefreshToken() == Some(tokens.refresh)
      ensures hasWindow ==> (IsAuthenticated() <==> tokens.access != "")
    {
      if !hasWindow {
        return;
      }
      storage := storage[AccessKey := tokens.access];
      storage := storage[RefreshKey := tokens.refresh];
    }

    /** `clearTokens`: removes both keys; without a window it does nothing.
        Either way both getters give null afterwards. */
    method ClearTokens()
      modifies this
      ensures hasWindow ==> storage == old(storage) - {AccessKey, RefreshKey}
      ensures !hasWindow ==> storage == old(storage)
      ensures location == old(location)
      ensures GetAccessToken() == None && GetRefreshToken() == None && !IsAuthenticated()
    {
      if !hasWindow {
        return;
      }
      storage := storage - {AccessKey};
      storage := storage - {RefreshKey};
    }

    /** `makeAuthenticatedRequest(url, options)`, with the settlement of each
        request it may send supplied by the caller. It returns what the call
        settles to and the requests it sent, and updates the store and the
        location as RequestFlow says. */
    method MakeAuthenticatedRequest(url: string, options: RequestOptions,
                                    first: Settled, refreshed: Settled, retry: Settled)
      returns (result: Settled, requests: seq<Request>)
      modifies this
      ensures var f := RequestFlow(baseUrl, old(GetAccessToken()), old(GetRefreshToken()),
                                   url, options, first, refreshed, retry);
              && result == f.result && requests == f.requests
              && storage == ApplyEffect(old(storage), f.effect)
              && location == (if f.effect.ClearAndRedirect? then Some("/") else old(location))
      // a refresh keeps the refresh token and stores the new access token
      ensures |requests| == 3 ==>
                && GetRefreshToken() == old(GetRefreshToken())
                && GetAccessToken() == Some(RequestFlow(baseUrl, old(GetAccessToken()), old(GetRefreshToken()),
                                                        url, options, first, refreshed, retry).effect.access)
      // a failed refresh signs the user out
      ensures |requests| == 2 ==> !IsAuthenticated() && GetRefreshToken() == None && location == Some("/")
    {
      ghost var f := RequestFlow(baseUrl, GetAccessToken(), GetRefreshToken(), url, options, first, refreshed, retry);
      var token := GetAccessToken();
      var request := AuthorizedRequest(url, options, AuthorizationValue(token));
      requests := [request];
      var response := first;
      if IsUnauthorized(response) {
        var refreshToken := GetRefreshToken();
        if refreshToken.Some? && refreshToken.value != "" {
          requests := requests + [RefreshRequest(baseUrl, refreshToken.value)];
          var newAccess := RefreshedAccess(RefreshResult(refreshed));
          if newAccess.Ok? {
            storage := storage[AccessKey := newAccess.value];
            requests := requests + [AuthorizedRequest(url, options, "Bearer " + newAccess.value)];
            assert f.effect == StoreAccess(newAccess.value) && requests == f.requests;
            return retry, requests;
          }
          ClearTokens();
          location := Some("/");
          assert f.effect == ClearAndRedirect && requests == f.requests;
        }
      }
      return response, requests;
    }
  }

  /** The client sends `Content-Type: application/json` on every
      authenticated request, also when the body is multipart form data
      (as `createBook` and `updateBook` send it). */
  lemma MultipartSentAsJson(url: string, options: RequestOptions, authorization: string)
    requires options.body.Multipart?
    ensures var r := AuthorizedRequest(url, options, authorization);
            r.body.Multipart? && r.headers["Content-Type"] == JsonContentType
  {
  }
}
