/**
 * The session state machine of the navigation bar, as pure functions: how the mount effect
 * resolves `loggedIn` and `role` from local storage, the cookie string and the answer of the
 * role endpoint, and what logout does to local storage and to the cookie jar.
 */
module Session {
  import opened Nullable
  import opened Cookies
  import opened CookieJar

  const AUTH_TOKEN := "auth_token"
  const REFRESH_TOKEN := "refresh_token"
  const USER_ROLE := "user_role"
  const EMPLOYEE_EMAIL := "employee_email"
  const EMPLOYEE_NAME := "employee_name"
  const ACCESS_TOKEN_COOKIE := "access_token"
  const REFRESH_TOKEN_COOKIE := "refresh_token"
  const LOGIN_PATH := "/login"

  /** The local-storage keys that logout removes. */
  const LOGOUT_KEYS: set<string> := {AUTH_TOKEN, REFRESH_TOKEN, USER_ROLE, EMPLOYEE_EMAIL, EMPLOYEE_NAME}

  /** `localStorage` as a key/value map. */
  type Storage = map<string, string>

  /** How the request to the role endpoint ended. */
  datatype FetchOutcome =
    | Ok(apiRole: Option<string>)  // `res.ok`; `apiRole` is `data?.data?.role` (null when absent)
    | NotOk                        // any status that is not ok
    | Threw                        // `fetch` or `res.json()` threw

  /**
   * The state one resolution leaves: the two state fields it sets, local storage afterwards,
   * and the `Authorization` header of the request it sent (`None`: no request was sent).
   */
  datatype Resolution = Resolution(loggedIn: bool, role: Option<string>, storage: Storage, request: Option<string>)

  /** `localStorage.getItem(key)`: `null` for a missing key. */
  function GetItem(storage: Storage, key: string): Option<string> {
    if key in storage then Some(storage[key]) else None
  }

  /** The credential: `localStorage.getItem("auth_token") || getCookie("access_token")`. */
  function Credential(storage: Storage, cookie: string): (token: Option<string>)
    ensures token.Some? ==> token.value != []
    ensures token.None? <==> !Truthy(GetItem(storage, AUTH_TOKEN)) && GetCookie(ACCESS_TOKEN_COOKIE, cookie).None?
    ensures Truthy(GetItem(storage, AUTH_TOKEN)) ==> token == GetItem(storage, AUTH_TOKEN)
    ensures !Truthy(GetItem(storage, AUTH_TOKEN)) ==> token == GetCookie(ACCESS_TOKEN_COOKIE, cookie)
  {
    if Truthy(GetItem(storage, AUTH_TOKEN)) then GetItem(storage, AUTH_TOKEN)
    else GetCookie(ACCESS_TOKEN_COOKIE, cookie)
  }

  /** The cached role, `localStorage.getItem("user_role") || null`. */
  function CachedRole(storage: Storage): (role: Option<string>)
    ensures role.Some? <==> USER_ROLE in storage && storage[USER_ROLE] != []
    ensures role.Some? ==> role.value == storage[USER_ROLE]
  {
    OrNull(GetItem(storage, USER_ROLE))
  }

  /**
   * One resolution of the mount effect: read the credential; without one, stop logged out;
   * with one, ask the role endpoint and act on its answer.
   */
  function Resolve(storage: Storage, cookie: string, outcome: FetchOutcome): (r: Resolution)
    ensures r.role.Some? ==> r.loggedIn && r.role.value != []
    ensures r.request.None? <==> Credential(storage, cookie).None?
    ensures r.request.Some? ==> r.request.value == "JWT " + Credential(storage, cookie).value
    ensures r.request.None? ==> !r.loggedIn && r.role.None? && r.storage == storage
    ensures r.loggedIn ==> r.request.Some? && !outcome.NotOk?
    ensures r.role.Some? ==> (outcome.Ok? && r.role == outcome.apiRole) || r.role == CachedRole(storage)
    ensures r.storage == storage
         || (outcome.Ok? && Truthy(outcome.apiRole) && r.storage == storage[USER_ROLE := outcome.apiRole.value])
  {
    match Credential(storage, cookie)
    case None => Resolution(false, None, storage, None)
    case Some(token) =>
      var request := Some("JWT " + token);
      match outcome
      case Ok(apiRole) =>
        if Truthy(apiRole) then Resolution(true, apiRole, storage[USER_ROLE := apiRole.value], request)
        else Resolution(true, CachedRole(storage), storage, request)
      case NotOk => Resolution(false, None, storage, request)
      case Threw =>
        var stored := CachedRole(storage);
        if stored.Some? then Resolution(true, stored, storage, request)
        else Resolution(false, None, storage, request)
  }

  /** No credential: logged out, no role, nothing sent, storage untouched, whatever the endpoint would say. */
  lemma NoCredentialResolution(storage: Storage, cookie: string, outcome: FetchOutcome)
    requires !Truthy(GetItem(storage, AUTH_TOKEN)) && GetCookie(ACCESS_TOKEN_COOKIE, cookie).None?
    ensures Resolve(storage, cookie, outcome) == Resolution(false, None, storage, None)
  {
  }

  /**
   * An ok answer logs in whatever its body holds; a truthy role is taken and cached, otherwise
   * the cached role (or null) is used and storage is left alone.
   */
  lemma OkResolution(storage: Storage, cookie: string, apiRole: Option<string>)
    requires Credential(storage, cookie).Some?
    ensures var r := Resolve(storage, cookie, Ok(apiRole));
      && r.loggedIn
      && (Truthy(apiRole) ==> r.role == apiRole && r.storage == storage[USER_ROLE := apiRole.value])
      && (!Truthy(apiRole) ==> r.role == CachedRole(storage) && r.storage == storage)
  {
  }

  /** A rejected credential logs out but is not removed: storage, token and cached role included, is unchanged. */
  lemma NotOkResolution(storage: Storage, cookie: string)
    requires Credential(storage, cookie).Some?
    ensures var r := Resolve(storage, cookie, NotOk);
      !r.loggedIn && r.role.None? && r.storage == storage
  {
  }

  /** A thrown request falls back to the cache: logged in exactly when a role is cached, with that role. */
  lemma ThrewResolution(storage: Storage, cookie: string)
    requires Credential(storage, cookie).Some?
    ensures var r := Resolve(storage, cookie, Threw);
      && (r.loggedIn <==> Truthy(GetItem(storage, USER_ROLE)))
      && r.role == CachedRole(storage)
      && r.storage == storage
  {
  }

  /** Resolution never touches the credential: the next mount sends the same request. */
  lemma ResolutionKeepsCredential(storage: Storage, cookie: string, first: FetchOutcome, next: FetchOutcome)
    ensures Resolve(Resolve(storage, cookie, first).storage, cookie, next).request
         == Resolve(storage, cookie, first).request
  {
    var r := Resolve(storage, cookie, first);
    assert GetItem(r.storage, AUTH_TOKEN) == GetItem(storage, AUTH_TOKEN);
  }

  /** A role the endpoint sent is what a later mount falls back to when its request throws. */
  lemma ServerRoleServesFallback(storage: Storage, cookie: string, role: string)
    requires Credential(storage, cookie).Some? && role != []
    ensures var r := Resolve(Resolve(storage, cookie, Ok(Some(role))).storage, cookie, Threw);
      r.loggedIn && r.role == Some(role)
  {
    var r := Resolve(storage, cookie, Ok(Some(role)));
    assert GetItem(r.storage, AUTH_TOKEN) == GetItem(storage, AUTH_TOKEN);
  }

  /** Local storage after logout: the five session keys are gone, every other entry is kept. */
  function ClearSession(storage: Storage): (r: Storage)
    ensures forall k :: k in r <==> k in storage && k !in LOGOUT_KEYS
    ensures forall k :: k in r ==> r[k] == storage[k]
  {
    storage - LOGOUT_KEYS
  }

  /** The cookie jar after logout: `access_token` and `refresh_token` expired, the rest kept. */
  function ExpireSessionCookies(jar: seq<Cookie>): (r: seq<Cookie>)
    ensures forall c :: c in r <==> c in jar && c.name != ACCESS_TOKEN_COOKIE && c.name != REFRESH_TOKEN_COOKIE
  {
    RemoveCookie(RemoveCookie(jar, ACCESS_TOKEN_COOKIE), REFRESH_TOKEN_COOKIE)
  }

  /** Logging out a second time changes nothing more. */
  lemma LogoutIdempotent(storage: Storage, jar: seq<Cookie>)
    ensures ClearSession(ClearSession(storage)) == ClearSession(storage)
    ensures ExpireSessionCookies(ExpireSessionCookies(jar)) == ExpireSessionCookies(jar)
  {
  }

  /** Logout leaves every other cookie readable as before. */
  lemma LogoutKeepsOtherCookies(jar: seq<Cookie>, name: string)
    requires name != ACCESS_TOKEN_COOKIE && name != REFRESH_TOKEN_COOKIE
    ensures Lookup(ExpireSessionCookies(jar), name) == Lookup(jar, name)
  {
    LookupAfterRemove(jar, ACCESS_TOKEN_COOKIE, name);
    LookupAfterRemove(RemoveCookie(jar, ACCESS_TOKEN_COOKIE), REFRESH_TOKEN_COOKIE, name);
  }

  /**
   * Logout is effective: a mount after it finds no credential, sends nothing and ends logged
   * out, whatever the endpoint would have said.
   */
  lemma ResolveAfterLogout(storage: Storage, jar: seq<Cookie>, outcome: FetchOutcome)
    requires WellFormed(jar)
    ensures Resolve(ClearSession(storage), Header(ExpireSessionCookies(jar)), outcome)
         == Resolution(false, None, ClearSession(storage), None)
  {
    var expired := ExpireSessionCookies(jar);
    RemoveCookieKeepsWellFormed(jar, ACCESS_TOKEN_COOKIE);
    RemoveCookieKeepsWellFormed(RemoveCookie(jar, ACCESS_TOKEN_COOKIE), REFRESH_TOKEN_COOKIE);
    assert Lookup(expired, ACCESS_TOKEN_COOKIE) == None;
    GetCookieReadsJar(expired, ACCESS_TOKEN_COOKIE);
  }

  /**
   * Without the well-formedness of the jar, logout can leave a credential behind: a value with a
   * space in it (`foo=x access_token=e`) still reads as an `access_token` cookie after logout.
   */
  lemma SpacedValueSurvivesLogout()
    ensures GetCookie(ACCESS_TOKEN_COOKIE, Header(ExpireSessionCookies([Cookie("foo", "x access_token=e")]))).Some?
  {
    var jar := [Cookie("foo", "x access_token=e")];
    assert ExpireSessionCookies(jar) == jar;
    var s := Header(jar);
    assert s == "foo=x access_token=e";
    assert MatchesAt(ACCESS_TOKEN_COOKIE, s, 6);
  }
}
