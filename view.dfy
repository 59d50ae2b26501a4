/**
 * What the navigation bar shows for a given session state: the items of `AuthButtons`, their
 * link targets, the role label of the narrow layout and the collapsible panel.
 */
module View {
  import opened Nullable

  /** The actions `AuthButtons` can render. */
  datatype Item = Home | MarkAttendance | Dashboard | Login | GetStarted | Logout

  /** `role === "admin" ? "/admin" : "/employee"`: any other role, or none, leads to `/employee`. */
  function DashboardPath(role: Option<string>): (path: string)
    ensures path == "/admin" <==> role == Some("admin")
    ensures path == "/admin" || path == "/employee"
  {
    if role == Some("admin") then "/admin" else "/employee"
  }

  /** The items `AuthButtons` renders for the state (`loggedIn`, `role`, `checking`). */
  function Visible(loggedIn: bool, role: Option<string>, checking: bool): (items: set<Item>)
    ensures Home in items && MarkAttendance in items
    ensures Login in items <==> !loggedIn
    ensures GetStarted in items <==> !loggedIn
    ensures Logout in items <==> loggedIn && !checking
    ensures Dashboard in items <==> loggedIn && Truthy(role) && !checking
  {
    {Home, MarkAttendance}
      + (if loggedIn && Truthy(role) && !checking then {Dashboard} else {})
      + (if !loggedIn then {Login, GetStarted} else {})
      + (if loggedIn && !checking then {Logout} else {})
  }

  /** Where an item's link leads; Logout is a button, not a link. */
  function Target(item: Item, role: Option<string>): (path: Option<string>)
    ensures path.None? <==> item == Logout
    ensures path.Some? ==> path.value in {"/", "/attendance", "/login", "/admin", "/employee"}
    ensures item == Login || item == GetStarted ==> path == Some("/login")
    ensures item == Home ==> path == Some("/")
    ensures item == MarkAttendance ==> path == Some("/attendance")
    ensures item == Dashboard ==> path == Some(DashboardPath(role))
  {
    match item
    case Home => Some("/")
    case MarkAttendance => Some("/attendance")
    case Dashboard => Some(DashboardPath(role))
    case Login => Some("/login")
    case GetStarted => Some("/login")
    case Logout => None
  }

  /** The role label of the narrow layout: shown under the Dashboard condition, with the role as text. */
  function RoleLabel(loggedIn: bool, role: Option<string>, checking: bool): (text: Option<string>)
    ensures text.Some? <==> Dashboard in Visible(loggedIn, role, checking)
    ensures text.Some? ==> text == role && text.value != []
  {
    if !checking && loggedIn && Truthy(role) then role else None
  }

  /** The collapsible panel of the narrow layout: present only while the menu is open, with the bar's items. */
  function PanelItems(menuOpen: bool, loggedIn: bool, role: Option<string>, checking: bool): (items: set<Item>)
    ensures items != {} <==> menuOpen
    ensures items != {} ==> items == Visible(loggedIn, role, checking)
  {
    if menuOpen then Visible(loggedIn, role, checking) else {}
  }

  /** Login and Logout are never offered together. */
  lemma LoginLogoutExclusive(loggedIn: bool, role: Option<string>, checking: bool)
    ensures !(Login in Visible(loggedIn, role, checking) && Logout in Visible(loggedIn, role, checking))
  {
  }

  /** Whoever is offered the Dashboard is also offered Logout. */
  lemma DashboardNeedsLogout(loggedIn: bool, role: Option<string>, checking: bool)
    ensures Dashboard in Visible(loggedIn, role, checking) ==> Logout in Visible(loggedIn, role, checking)
  {
  }

  /** Once checking is over, exactly one of Login and Logout is offered. */
  lemma LoginOrLogoutAfterChecking(loggedIn: bool, role: Option<string>)
    ensures Login in Visible(loggedIn, role, false) <==> Logout !in Visible(loggedIn, role, false)
  {
  }
}
