/**
 * The navigation bar component: its state fields, local storage and the cookie jar, changed in
 * place by the mount effect, the logout handler and the menu buttons.
 */
module Component {
  import opened Nullable
  import opened Cookies
  import opened CookieJar
  import opened Session
  import opened View

  class Navbar {
    var storage: Storage        // localStorage
    var cookies: seq<Cookie>    // the cookie jar; `document.cookie` is Header(cookies)
    var isMenuOpen: bool
    var loggedIn: bool
    var role: Option<string>
    var checking: bool

    /** A role is held only while logged in, and nobody is logged in before the first resolution. */
    ghost predicate Valid()
      reads this
    {
      && (role.Some? ==> loggedIn && role.value != [])
      && (checking ==> !loggedIn)
    }

    /** The state on mount: menu closed, logged out, no role, checking. */
    constructor (storage: Storage, cookies: seq<Cookie>)
      ensures Valid()
      ensures this.storage == storage && this.cookies == cookies
      ensures !isMenuOpen && !loggedIn && role.None? && checking
    {
      this.storage := storage;
      this.cookies := cookies;
      isMenuOpen := false;
      loggedIn := false;
      role := None;
      checking := true;
    }

    /**
     * The mount effect with `fetchRole`, given how the request ends: sets the state fields
     * and storage as Resolve says, returns the `Authorization` header it sent, and ends checking.
     */
    method ResolveOnMount(outcome: FetchOutcome) returns (request: Option<string>)
      requires Valid()
      modifies this
      ensures Valid()
      ensures var r := Resolve(old(storage), Header(old(cookies)), outcome);
        loggedIn == r.loggedIn && role == r.role && storage == r.storage && request == r.request
      ensures !checking
      ensures cookies == old(cookies) && isMenuOpen == old(isMenuOpen)
    {
      var stored := GetItem(storage, AUTH_TOKEN);
      var token := if Truthy(stored) then stored else GetCookie(ACCESS_TOKEN_COOKIE, Header(cookies));
      if token.None? {
        loggedIn := false;
        role := None;
        checking := false;
        request := None;
        return;
      }
      request := Some("JWT " + token.value);
      match outcome {
        case Ok(apiRole) =>
          if Truthy(apiRole) {
            role := apiRole;
            storage := storage[USER_ROLE := apiRole.value];
          } else {
            role := OrNull(GetItem(storage, USER_ROLE));
          }
          loggedIn := true;
        case NotOk =>
          loggedIn := false;
          role := None;
        case Threw =>
          var storedRole := GetItem(storage, USER_ROLE);
          if Truthy(storedRole) {
            loggedIn := true;
            role := storedRole;
          } else {
            loggedIn := false;
            role := None;
          }
      }
      checking := false;
    }

    /**
     * `handleLogout`: removes the five session keys, expires the two session cookies, logs out,
     * closes the menu and yields `/login`; other keys, other cookies and `checking` are kept.
     */
    method HandleLogout() returns (target: string)
      requires Valid()
      modifies this
      ensures Valid()
      ensures storage == ClearSession(old(storage))
      ensures cookies == ExpireSessionCookies(old(cookies))
      ensures !loggedIn && role.None? && !isMenuOpen
      ensures checking == old(checking)
      ensures target == LOGIN_PATH
    {
      storage := storage - {AUTH_TOKEN};
      storage := storage - {REFRESH_TOKEN};
      storage := storage - {USER_ROLE};
      storage := storage - {EMPLOYEE_EMAIL};
      storage := storage - {EMPLOYEE_NAME};
      assert storage == old(storage) - LOGOUT_KEYS;
      cookies := RemoveCookie(cookies, ACCESS_TOKEN_COOKIE);
      cookies := RemoveCookie(cookies, REFRESH_TOKEN_COOKIE);
      loggedIn := false;
      role := None;
      isMenuOpen := false;
      target := LOGIN_PATH;
    }

    /** The menu button of the narrow layout flips the panel. */
    method ToggleMenu()
      modifies this`isMenuOpen
      ensures isMenuOpen == !old(isMenuOpen)
    {
      isMenuOpen := !isMenuOpen;
    }

    /** What every link's `onClick` does: close the panel. */
    method CloseMenu()
      modifies this`isMenuOpen
      ensures !isMenuOpen
    {
      isMenuOpen := false;
    }

    /**
     * Clicking an item that `AuthButtons` shows: a link closes the panel and leads to its
     * target; Logout runs the logout handler.
     */
    method Select(item: Item) returns (target: string)
      requires Valid()
      requires item in Visible(loggedIn, role, checking)
      modifies this
      ensures Valid()
      ensures !isMenuOpen && checking == old(checking)
      ensures item == Logout ==>
        && target == LOGIN_PATH && !loggedIn && role.None?
        && storage == ClearSession(old(storage)) && cookies == ExpireSessionCookies(old(cookies))
      ensures item != Logout ==>
        && Target(item, old(role)) == Some(target)
        && loggedIn == old(loggedIn) && role == old(role)
        && storage == old(storage) && cookies == old(cookies)
    {
      if item == Logout {
        target := HandleLogout();
      } else {
        CloseMenu();
        target := Target(item, role).value;
      }
    }
  }

  /**
   * After a resolution checking is over, so the bar offers Logout exactly when logged in,
   * Login otherwise, and the Dashboard and role label exactly when a role was resolved.
   */
  lemma ResolvedView(storage: Storage, cookie: string, outcome: FetchOutcome)
    ensures var r := Resolve(storage, cookie, outcome);
      var items := Visible(r.loggedIn, r.role, false);
      && (Logout in items <==> r.loggedIn)
      && (Login in items <==> !r.loggedIn)
      && (Dashboard in items <==> r.role.Some?)
      && RoleLabel(r.loggedIn, r.role, false) == r.role
  {
  }

  /** An `admin` role from the endpoint is cached and opens the Dashboard at `/admin`. */
  lemma AdminDashboard(storage: Storage, cookie: string)
    requires Credential(storage, cookie).Some?
    ensures var r := Resolve(storage, cookie, Ok(Some("admin")));
      && GetItem(r.storage, USER_ROLE) == Some("admin")
      && Dashboard in Visible(r.loggedIn, r.role, false)
      && Target(Dashboard, r.role) == Some("/admin")
  {
  }

  /**
   * An ok answer without a role and an empty cache leaves the user logged in with no role:
   * Logout is offered, the Dashboard and the role label are not.
   */
  lemma LoggedInWithoutRole(storage: Storage, cookie: string, apiRole: Option<string>)
    requires Credential(storage, cookie).Some? && !Truthy(apiRole) && CachedRole(storage).None?
    ensures var r := Resolve(storage, cookie, Ok(apiRole));
      && r.loggedIn && r.role.None?
      && Logout in Visible(r.loggedIn, r.role, false)
      && Dashboard !in Visible(r.loggedIn, r.role, false)
      && RoleLabel(r.loggedIn, r.role, false).None?
  {
  }

  /** After logout the bar offers Home, Mark Attendance, Login and Get Started, and nothing else. */
  lemma ViewAfterLogout(checking: bool)
    ensures Visible(false, None, checking) == {Home, MarkAttendance, Login, GetStarted}
  {
  }
}
