/**
 * The browser session of the dashboard (js/auth.js): three local-storage keys
 * and the current location, driven by page load, token verification, the
 * periodic token refresh, logout and the authenticated API wrapper.
 *
 * Network calls are not performed: each step receives the backend's answer as
 * a parameter and reports the requests it issued, so every transition is a
 * pure function.
 */
module AuthSession {
  import opened Wrappers
  import opened Strings

  const AccessTokenKey: string := "access_token"
  const RefreshTokenKey: string := "refresh_token"
  const UserKey: string := "user"

  const LoginPage: string := "login.html"
  const LandingPage: string := "landing.html"

  const Unauthorized401: int := 401

  /** Local storage (key to text) and the current page path. */
  datatype Session = Session(storage: map<string, string>, location: string)

  function GetItem(s: Session, key: string): Option<string>
  {
    if key in s.storage then Some(s.storage[key]) else None
  }

  /** `localStorage.getItem(key)` is truthy: stored and not the empty string. */
  predicate Present(s: Session, key: string)
  {
    key in s.storage && s.storage[key] != ""
  }

  /** Every session key gone and the browser sent to the login page. */
  predicate LoggedOut(s: Session)
  {
    && AccessTokenKey !in s.storage
    && RefreshTokenKey !in s.storage
    && UserKey !in s.storage
    && s.location == LoginPage
  }

  /** A backend answer: a successful response with its decoded body, a non-ok status, or a thrown error. */
  datatype Reply<T> = Ok(payload: T) | NotOk(status: int) | Thrown

  datatype TokenPair = TokenPair(accessToken: string, refreshToken: string)

  /** Requests sent to the backend, in the order they are issued. */
  datatype Request =
    | MeRequest(authorization: string)
    | RefreshRequest(refreshToken: string)
    | LogoutRequest(refreshToken: string)
    | ApiRequest(endpoint: string, headers: map<string, string>)

  datatype Step = Step(session: Session, requests: seq<Request>)

  predicate IsPublicPage(path: string)
  {
    EndsWith(path, LandingPage) || EndsWith(path, LoginPage)
  }

  // ---------------------------------------------------------------------------
  // logout
  // ---------------------------------------------------------------------------

  /** Clears the three session keys, goes to the login page, and tells the backend when a refresh token exists. */
  function Logout(s: Session): (r: Step)
    ensures LoggedOut(r.session)
    ensures forall k :: k != AccessTokenKey && k != RefreshTokenKey && k != UserKey ==>
      GetItem(r.session, k) == GetItem(s, k)
    ensures r.requests != [] <==> Present(s, RefreshTokenKey)
    ensures Present(s, RefreshTokenKey) ==> r.requests == [LogoutRequest(s.storage[RefreshTokenKey])]
  {
    var requests := if Present(s, RefreshTokenKey) then [LogoutRequest(s.storage[RefreshTokenKey])] else [];
    var storage := s.storage - {AccessTokenKey} - {RefreshTokenKey} - {UserKey};
    Step(Session(storage, LoginPage), requests)
  }

  /** Logging out twice is logging out once, and the second time nothing is sent. */
  lemma LogoutIdempotent(s: Session)
    ensures var once := Logout(s).session;
      Logout(once) == Step(once, [])
  {
  }

  // ---------------------------------------------------------------------------
  // verifyToken and checkAuth
  // ---------------------------------------------------------------------------

  /** Asks the backend who owns `token`; stores the answer or logs out. */
  function VerifyToken(s: Session, token: string, me: Reply<string>): (r: Step)
    ensures |r.requests| >= 1 && r.requests[0] == MeRequest("Bearer " + token)
    ensures me.Ok? ==>
      && GetItem(r.session, UserKey) == Some(me.payload)
      && (forall k :: k != UserKey ==> GetItem(r.session, k) == GetItem(s, k))
      && r.session.location == s.location
      && |r.requests| == 1
    ensures !me.Ok? ==> LoggedOut(r.session)
    ensures !me.Ok? ==> r.requests[1..] == Logout(s).requests
  {
    var request := MeRequest("Bearer " + token);
    match me
    case Ok(user) =>
      Step(s.(storage := s.storage[UserKey := user]), [request])
    case _ =>
      var out := Logout(s);
      Step(out.session, [request] + out.requests)
  }

  /**
   * Page-load check. The login and landing pages are always reachable;
   * elsewhere a missing token sends the browser to the login page and a
   * present one is verified with the backend answer `me`.
   */
  function CheckAuth(s: Session, me: Reply<string>): (r: Step)
    ensures IsPublicPage(s.location) ==> r == Step(s, [])
    ensures !IsPublicPage(s.location) && !Present(s, AccessTokenKey) ==>
      && r.session.storage == s.storage
      && r.session.location == LoginPage
      && r.requests == []
    ensures !IsPublicPage(s.location) && Present(s, AccessTokenKey) ==>
      && r.requests != [] && r.requests[0] == MeRequest("Bearer " + s.storage[AccessTokenKey])
      && (me.Ok? ==> GetItem(r.session, UserKey) == Some(me.payload) && r.session.location == s.location)
      && (!me.Ok? ==> LoggedOut(r.session))
  {
    var token := GetItem(s, AccessTokenKey);
    var path := s.location;
    if EndsWith(path, LandingPage) || EndsWith(path, LoginPage) then
      Step(s, [])
    else if !Present(s, AccessTokenKey) && !EndsWith(path, LoginPage) then
      Step(s.(location := LoginPage), [])
    else if Present(s, AccessTokenKey) then
      VerifyToken(s, token.value, me)
    else
      // The source's second and third tests are redundant, so this case never happens.
      assert false; Step(s, [])
  }

  /** After logout the browser is on the login page, so the page-load check lets it stay. */
  lemma CheckAuthAfterLogout(s: Session, me: Reply<string>)
    ensures var out := Logout(s).session;
      CheckAuth(out, me) == Step(out, [])
  {
  }

  // ---------------------------------------------------------------------------
  // auto-refresh
  // ---------------------------------------------------------------------------

  /** One firing of the refresh timer, with the refresh endpoint's answer. */
  function RefreshTick(s: Session, reply: Reply<TokenPair>): (r: Step)
    ensures !Present(s, AccessTokenKey) || !Present(s, RefreshTokenKey) ==> r == Step(s, [])
    ensures Present(s, AccessTokenKey) && Present(s, RefreshTokenKey) ==>
      r.requests != [] && r.requests[0] == RefreshRequest(s.storage[RefreshTokenKey])
    ensures Present(s, AccessTokenKey) && Present(s, RefreshTokenKey) && reply.Ok? ==>
      && GetItem(r.session, AccessTokenKey) == Some(reply.payload.accessToken)
      && GetItem(r.session, RefreshTokenKey) == Some(reply.payload.refreshToken)
      && (forall k :: k != AccessTokenKey && k != RefreshTokenKey ==> GetItem(r.session, k) == GetItem(s, k))
      && r.session.location == s.location
      && |r.requests| == 1
    ensures Present(s, AccessTokenKey) && Present(s, RefreshTokenKey) && !reply.Ok? ==>
      && LoggedOut(r.session)
      && r.requests == [RefreshRequest(s.storage[RefreshTokenKey]), LogoutRequest(s.storage[RefreshTokenKey])]
  {
    if !Present(s, AccessTokenKey) || !Present(s, RefreshTokenKey) then
      Step(s, [])
    else
      var refreshToken := s.storage[RefreshTokenKey];
      var request := RefreshRequest(refreshToken);
      match reply
      case Ok(pair) =>
        var storage := s.storage[AccessTokenKey := pair.accessToken][RefreshTokenKey := pair.refreshToken];
        Step(s.(storage := storage), [request])
      case _ =>
        var out := Logout(s);
        Step(out.session, [request] + out.requests)
  }

  /** A logged-out session stays logged out and silent while the timer keeps firing. */
  lemma RefreshAfterLogoutIsSilent(s: Session, reply: Reply<TokenPair>)
    ensures var out := Logout(s).session;
      RefreshTick(out, reply) == Step(out, [])
  {
  }

  // ---------------------------------------------------------------------------
  // apiCall
  // ---------------------------------------------------------------------------

  /** What the network delivered to `fetch`. */
  datatype HttpReply = Responded(status: int) | NetworkFailed

  datatype ApiError = Unauthorized | NetworkError

  /** The caller gets the response back, or the call raises. */
  datatype ApiOutcome = Returned(status: int) | Raised(error: ApiError)

  datatype ApiStep = ApiStep(step: Step, outcome: ApiOutcome)

  /** Headers the wrapper sends unless the caller supplies its own. */
  function DefaultHeaders(s: Session): map<string, string>
  {
    map[
      "Content-Type" := "application/json",
      "Authorization" := if Present(s, AccessTokenKey) then "Bearer " + s.storage[AccessTokenKey] else ""
    ]
  }

  /**
   * The authenticated API wrapper. Caller options are spread over the
   * defaults, so caller-supplied headers replace the default headers whole.
   * A 401 logs out and raises; any other answer leaves the session alone.
   */
  function ApiCall(s: Session, endpoint: string, callerHeaders: Option<map<string, string>>, reply: HttpReply): (r: ApiStep)
    ensures r.step.requests != [] && r.step.requests[0].ApiRequest? && r.step.requests[0].endpoint == endpoint
    ensures callerHeaders.Some? ==> r.step.requests[0].headers == callerHeaders.value
    ensures callerHeaders.None? && Present(s, AccessTokenKey) ==>
      var headers := r.step.requests[0].headers;
      "Authorization" in headers && headers["Authorization"] == "Bearer " + s.storage[AccessTokenKey]
    ensures reply == Responded(Unauthorized401) ==>
      && LoggedOut(r.step.session)
      && r.outcome == Raised(Unauthorized)
      && r.step.requests[1..] == Logout(s).requests
    ensures reply.Responded? && reply.status != Unauthorized401 ==>
      r.step.session == s && r.outcome == Returned(reply.status) && |r.step.requests| == 1
    ensures reply.NetworkFailed? ==>
      r.step.session == s && r.outcome == Raised(NetworkError) && |r.step.requests| == 1
  {
    var headers := if callerHeaders.Some? then callerHeaders.value else DefaultHeaders(s);
    var request := ApiRequest(endpoint, headers);
    match reply
    case NetworkFailed =>
      ApiStep(Step(s, [request]), Raised(NetworkError))
    case Responded(status) =>
      if status == Unauthorized401 then
        var out := Logout(s);
        ApiStep(Step(out.session, [request] + out.requests), Raised(Unauthorized))
      else
        ApiStep(Step(s, [request]), Returned(status))
  }
}
