# Navbar session model

A Dafny model of the session logic inside the navigation bar component
`src/components/Navbar.tsx` of the VisionTrack UI kit. Underneath its markup the component runs
a small state machine:

- **Cookie lookup** (`getCookie`): reads one cookie out of a `document.cookie` string with the
  pattern `(^| )NAME=([^;]+)`.
- **Session resolution** (the mount effect and `fetchRole`): picks a credential from local
  storage (`auth_token`) or the `access_token` cookie. Without one it ends logged out. With one
  it asks the role endpoint and sets `loggedIn`, `role` and `checking`, caching the role in
  `user_role`.
- **Logout** (`handleLogout`): removes five storage keys and expires two cookies. It then resets
  the state fields and closes the menu, and navigates to `/login`.
- **View** (`dashboardPath`, `AuthButtons`, the role label, the collapsible panel): which items
  are shown for a state, and where they lead.

Files, one module each:

| file | module | what |
|---|---|---|
| `nullable.dfy` | `Nullable` | `Option` for JavaScript `null`; string truthiness; the `or null` fallback |
| `cookies.dfy` | `Cookies` | the match rule of the pattern, the leftmost scan, `GetCookie` |
| `cookie_jar.dfy` | `CookieJar` | the jar as ordered name/value pairs, `document.cookie` as their rendering, expiry |
| `session.dfy` | `Session` | `Resolve` (the resolution as a pure function), logout on storage and jar, lemmas across calls |
| `view.dfy` | `View` | visible items, link targets, role label, panel |
| `navbar.dfy` | `Component` | class `Navbar`: the state fields, storage and jar, updated in place by the component's handlers |

The class methods are proved against the pure functions. `Navbar.ResolveOnMount` leaves exactly
the state `Session.Resolve` describes. `Navbar.HandleLogout` leaves exactly `ClearSession` and
`ExpireSessionCookies`. The properties themselves are lemmas about those functions.

The role endpoint is replaced by a `FetchOutcome` parameter: `Ok(apiRole)`, `NotOk` or
`Threw`. `Resolve` returns the `Authorization` header it would send, or `None` when no request
is made.

The model follows the code wherever a reading of the component's intent would differ:

- A role is any non-empty string. The type `UserRole` names only `admin` and `employee`, but the
  `as UserRole` casts (lines 39 and 44) check nothing.
- Logout removes five storage keys (`auth_token`, `refresh_token`, `user_role`,
  `employee_email`, `employee_name`).
- An ok answer without a role still logs the user in, with the cached role or none. This
  may be unintended, but it is what the code does (`Component.LoggedInWithoutRole`).

## Model

| member | source | states |
|---|---|---|
| `Nullable.OrNull` | src/components/Navbar.tsx:44 | the fallback to `null` is non-null exactly for a truthy string, and is then `v` |
| `Cookies.TakeUntilSemicolon` | src/components/Navbar.tsx:17 | the greedy `[^;]+` run: a prefix without `;` that ends at a `;` or at the end |
| `Cookies.ScanFindsLeftmost` | src/components/Navbar.tsx:17-18 | the scan finds nothing iff no index matches; else it returns the capture of the leftmost match |
| `Cookies.GetCookie` | src/components/Navbar.tsx:15-19 | `null` iff `name=` never follows the start or a space with a non-`;` character after it; else the run up to the next `;`, taken at the leftmost such place |
| `Cookies.EmptyValueIsNull` | src/components/Navbar.tsx:17-18 | `access_token=;` yields `null` |
| `CookieJar.GluedNameIsNotMatched` | src/components/Navbar.tsx:17 | a name glued to a prefix without space or `=` is not matched, so `x_access_token=abc` yields `null` |
| `CookieJar.Lookup` | src/components/Navbar.tsx:17-18 | reference lookup in a jar: `null` iff no cookie of that name has a non-empty value; otherwise such a value |
| `CookieJar.GetCookieReadsJar` | src/components/Navbar.tsx:15-19 | on a well-formed jar, `getCookie` over `document.cookie` equals the reference lookup |
| `CookieJar.EmptyValueFallsThrough` | src/components/Navbar.tsx:17-18 | `name=; name=v` yields `v`: an empty occurrence does not stop the lookup |
| `CookieJar.RemoveCookie` | src/components/Navbar.tsx:79-80 | expiring a name removes exactly the entries of that name; a jar without it is unchanged |
| `CookieJar.LookupAfterRemove` | src/components/Navbar.tsx:79-80 | after expiring a name, it reads `null` and every other name reads as before |
| `Session.Credential` | src/components/Navbar.tsx:22 | the token is non-empty; absent iff `auth_token` is falsy and no `access_token` cookie is found; a truthy `auth_token` wins, otherwise the token is the `access_token` cookie's value |
| `Session.CachedRole` | src/components/Navbar.tsx:44 | the cached role is present iff `user_role` is stored non-empty, and is that value |
| `Session.Resolve` | src/components/Navbar.tsx:21-67 | a role implies logged in; a request is sent iff there is a credential, with header `JWT <token>`; no credential means logged out with storage unchanged; logged in only with a request the server did not reject; a role comes from the server or the cache; storage changes only by caching a truthy server role |
| `Session.NoCredentialResolution` | src/components/Navbar.tsx:21-28 | no credential: logged out, no role, no request, storage unchanged, for every outcome |
| `Session.OkResolution` | src/components/Navbar.tsx:37-46 | an ok answer logs in; a truthy role is taken and written to `user_role`; otherwise the cached role or `null`, storage unchanged |
| `Session.NotOkResolution` | src/components/Navbar.tsx:47-50 | a non-ok answer logs out with no role and removes nothing from storage |
| `Session.ThrewResolution` | src/components/Navbar.tsx:51-60 | a thrown request: logged in iff `user_role` is truthy, role the cached value or `null`, storage unchanged |
| `Session.ResolutionKeepsCredential` | src/components/Navbar.tsx:21-67 | a resolution never changes the credential, so the next mount sends the same request |
| `Session.ServerRoleServesFallback` | src/components/Navbar.tsx:39-56 | a role cached from an ok answer is what a later thrown request falls back to |
| `Session.ClearSession` | src/components/Navbar.tsx:73-77 | the five session keys are gone; every other key keeps its value |
| `Session.ExpireSessionCookies` | src/components/Navbar.tsx:79-80 | exactly the `access_token` and `refresh_token` entries are removed |
| `Session.LogoutIdempotent` | src/components/Navbar.tsx:71-89 | clearing storage and expiring cookies a second time changes nothing |
| `Session.LogoutKeepsOtherCookies` | src/components/Navbar.tsx:78-81 | every cookie other than the two session cookies reads as before logout |
| `Session.ResolveAfterLogout` | src/components/Navbar.tsx:21-89 | after logout a mount finds no credential (given a well-formed jar): no request, logged out, no role |
| `Session.SpacedValueSurvivesLogout` | src/components/Navbar.tsx:17-80 | a jar holding `foo=x access_token=e` still yields an `access_token` credential after logout, since the pattern matches after the space inside the value |
| `View.DashboardPath` | src/components/Navbar.tsx:69 | `/admin` iff the role is `admin`; every other role, or none, gives `/employee` |
| `View.Visible` | src/components/Navbar.tsx:99-118 | Home and Mark Attendance always; Login and Get Started iff logged out; Logout iff logged in and not checking; Dashboard iff logged in with a truthy role and not checking |
| `View.Target` | src/components/Navbar.tsx:93-111 | Home leads to `/`, Mark Attendance to `/attendance`, Login and Get Started to `/login`, Dashboard to the dashboard path of the role (`/admin` iff `admin`, else `/employee`); Logout is no link |
| `View.RoleLabel` | src/components/Navbar.tsx:136-138 | the role label is shown under the Dashboard condition, with the role as its text |
| `View.PanelItems` | src/components/Navbar.tsx:154-158 | the panel has items iff the menu is open, and then the same items as the bar |
| `View.LoginLogoutExclusive` | src/components/Navbar.tsx:104-118 | Login and Logout are never shown together |
| `View.DashboardNeedsLogout` | src/components/Navbar.tsx:99-118 | Dashboard shown implies Logout shown |
| `View.LoginOrLogoutAfterChecking` | src/components/Navbar.tsx:104-118 | with checking over, exactly one of Login and Logout is shown |
| `Component.Navbar.constructor` | src/components/Navbar.tsx:10-13 | initial state: menu closed, logged out, no role, checking |
| `Component.Navbar.ResolveOnMount` | src/components/Navbar.tsx:21-67 | fields and storage become what `Resolve` gives; checking ends; cookies and menu unchanged; the invariant is kept |
| `Component.Navbar.HandleLogout` | src/components/Navbar.tsx:71-89 | storage cleared of the five keys, two cookies expired, logged out, no role, menu closed, target `/login`; checking unchanged |
| `Component.Navbar.ToggleMenu` | src/components/Navbar.tsx:142 | the menu flag flips |
| `Component.Navbar.CloseMenu` | src/components/Navbar.tsx:93-110 | a link click closes the menu |
| `Component.Navbar.Select` | src/components/Navbar.tsx:93-118 | clicking a shown link closes the menu and leads to its target with nothing else changed; clicking Logout logs out |
| `Component.ResolvedView` | src/components/Navbar.tsx:99-138 | after a resolution: Logout iff logged in, Login iff not, Dashboard and role label iff a role was resolved |
| `Component.AdminDashboard` | src/components/Navbar.tsx:39-69 | an `admin` answer caches `admin` and shows the Dashboard at `/admin` |
| `Component.LoggedInWithoutRole` | src/components/Navbar.tsx:43-46 | an ok answer with no role and no cache: logged in with no role, so Logout shows but Dashboard and role label do not |
| `Component.ViewAfterLogout` | src/components/Navbar.tsx:85-113 | logged out with no role: exactly Home, Mark Attendance, Login and Get Started |

`Navbar.Valid()` is the class invariant: a role is held only while logged in, and never while
checking. Every method keeps it. `checking` starts true, `ResolveOnMount` sets it false, and no
method sets it back to true.

## Left out

- The HTTP request, the endpoint URL and `res.json()` (src/components/Navbar.tsx:32-38) are network I/O. They are replaced by the `FetchOutcome` parameter. A non-string `data.data.role` (a number, an object) is not modelled; the outcome carries an optional string.
- React hooks, re-rendering, JSX markup, CSS classes, the `Scan` icon and the `Button`/`Link` components are UI library code. Only the item sets and link targets are modelled.
- Async timing is not modelled: a late resolution after unmount, and the order of `setState` calls within a tick. A resolution is one atomic step. The effect runs once per mount in the source; the model does not forbid calling `ResolveOnMount` again.
- Cookies.GetCookie: implemented as an explicit leftmost scan, not with a regular-expression engine. The name is matched literally. The source builds the pattern from the name, so a name with regex metacharacters would behave differently there; the only name used is `access_token`, which has none.
- The `typeof document` guards and the swallowed exceptions of storage and cookie writes (src/components/Navbar.tsx:16, :78, :82-84) are left out. Storage and cookie operations always succeed in the model.
- `navigate("/login")` is a router side effect. The target path is returned as a value instead.
- CookieJar.RemoveCookie: removes every entry of the name. The `path=/` and `Max-Age=0` attributes, and cookies scoped to other paths or domains, are not modelled.
- Session.ResolveAfterLogout: holds only for a well-formed jar. A browser may accept a cookie value with a space, such as `foo=x access_token=e`; `getCookie` then still finds `access_token` after logout, and the next mount sends that token (`Session.SpacedValueSurvivesLogout`).
- CookieJar.GetCookieReadsJar: needs a jar whose names hold no `=`, `;` or space and whose values hold no `;` or space (section 4.1.1 of RFC 6265). A browser may expose other cookie strings. `GetCookie` itself is specified for every string.
