/** The navigation bar (Navbar.jsx): the role-to-dashboard route, which
    entries the bar and its dropdown show, and the `menuOpen` flag. */
module Navbar {

  import opened Common

  const AdminRoute := "/admin"
  const OwnerRoute := "/owner"
  const UserRoute := "/user"

  /** `dashboardLink`: admins and owners have their own dashboards; every
      other role, and a visitor, is sent to the user page. */
  function DashboardLink(user: Option<User>): (link: string)
    ensures user.Some? && user.value.role == "admin" ==> link == AdminRoute
    ensures user.Some? && user.value.role == "owner" ==> link == OwnerRoute
    ensures user.None? || (user.value.role != "admin" && user.value.role != "owner") ==> link == UserRoute
  {
    if user.Some? && user.value.role == "admin" then AdminRoute
    else if user.Some? && user.value.role == "owner" then OwnerRoute
    else UserRoute
  }

  /** The entries the bar can draw. */
  datatype Item =
    | LoginLink | SignupLink | UserButton
    | DashboardItem(to: string) | AddStoreItem | UpdatePasswordItem | LogoutButton

  datatype NavState = NavState(user: Option<User>, menuOpen: bool)

  /** The "My Dashboard" entry is drawn for admins and owners. */
  predicate ShowsDashboard(u: User)
  {
    u.role == "admin" || u.role == "owner"
  }

  /** The "Add New Store" entry is drawn for users and owners. */
  predicate ShowsAddStore(u: User)
  {
    u.role == "user" || u.role == "owner"
  }

  /** The dropdown of a logged-in user, top to bottom. */
  function Dropdown(u: User): (items: seq<Item>)
    ensures |items| >= 2
    ensures items[|items| - 2] == UpdatePasswordItem && items[|items| - 1] == LogoutButton
    ensures DashboardItem(DashboardLink(Some(u))) in items <==> ShowsDashboard(u)
    ensures AddStoreItem in items <==> ShowsAddStore(u)
    ensures forall i :: 0 <= i < |items| && items[i].DashboardItem? ==> items[i].to == DashboardLink(Some(u))
  {
    (if ShowsDashboard(u) then [DashboardItem(DashboardLink(Some(u)))] else [])
    + (if ShowsAddStore(u) then [AddStoreItem] else [])
    + [UpdatePasswordItem, LogoutButton]
  }

  /** The entries the bar shows besides the brand link to "/", which is
      always drawn: left to right, then the dropdown top to bottom. */
  function Items(s: NavState): (items: seq<Item>)
    ensures s.user.None? ==> items == [LoginLink, SignupLink]
    ensures s.user.Some? ==> |items| > 0 && items[0] == UserButton
    ensures s.user.Some? && !s.menuOpen ==> items == [UserButton]
    ensures s.user.Some? && s.menuOpen ==> items == [UserButton] + Dropdown(s.user.value)
  {
    match s.user
    case None => [LoginLink, SignupLink]
    case Some(u) => [UserButton] + (if s.menuOpen then Dropdown(u) else [])
  }

  /** A dashboard entry, when shown, never leads to the plain user page:
      a plain user has no dashboard entry at all. */
  lemma DashboardEntryNeverUserRoute(s: NavState, i: nat)
    requires i < |Items(s)| && Items(s)[i].DashboardItem?
    ensures Items(s)[i].to == AdminRoute || Items(s)[i].to == OwnerRoute
    ensures s.user.Some? && ShowsDashboard(s.user.value) && s.menuOpen
  {
    var u := s.user.value;
    assert Items(s)[i] in Dropdown(u);
  }

  /** A logged-in user with the menu open always sees "Update Password"
      and "Logout", and sees the role-dependent entries exactly as the
      role allows. */
  lemma OpenMenuEntries(u: User)
    ensures UpdatePasswordItem in Items(NavState(Some(u), true))
    ensures LogoutButton in Items(NavState(Some(u), true))
    ensures DashboardItem(DashboardLink(Some(u))) in Items(NavState(Some(u), true)) <==> ShowsDashboard(u)
    ensures AddStoreItem in Items(NavState(Some(u), true)) <==> ShowsAddStore(u)
  {
    var d := Dropdown(u);
    assert d[|d| - 2] == UpdatePasswordItem;
    assert Items(NavState(Some(u), true)) == [UserButton] + d;
  }

  /** An owner sees both role entries, an admin only the dashboard, a plain
      user only "Add New Store", any other role neither. */
  lemma RoleTable(u: User)
    ensures u.role == "owner" ==> Dropdown(u) == [DashboardItem(OwnerRoute), AddStoreItem, UpdatePasswordItem, LogoutButton]
    ensures u.role == "admin" ==> Dropdown(u) == [DashboardItem(AdminRoute), UpdatePasswordItem, LogoutButton]
    ensures u.role == "user" ==> Dropdown(u) == [AddStoreItem, UpdatePasswordItem, LogoutButton]
    ensures !ShowsDashboard(u) && !ShowsAddStore(u) ==> Dropdown(u) == [UpdatePasswordItem, LogoutButton]
  {
  }

  /** The route a drawn link leads to. */
  function Target(item: Item): (route: Option<string>)
    ensures item == UserButton || item == LogoutButton <==> route.None?
    ensures item == LoginLink ==> route == Some("/login")
    ensures item == SignupLink ==> route == Some("/signup")
    ensures item.DashboardItem? ==> route == Some(item.to)
    ensures item == AddStoreItem ==> route == Some("/stores")
    ensures item == UpdatePasswordItem ==> route == Some("/update-password")
  {
    match item
    case LoginLink => Some("/login")
    case SignupLink => Some("/signup")
    case DashboardItem(to) => Some(to)
    case AddStoreItem => Some("/stores")
    case UpdatePasswordItem => Some("/update-password")
    case UserButton => None
    case LogoutButton => None
  }

  /** The events of the bar. */
  datatype Event = ToggleMenu | LinkClicked(item: Item) | MenuBlurred | LoggedOut

  /** An event needs its control on screen. */
  predicate Enabled(s: NavState, e: Event)
  {
    match e
    case ToggleMenu => UserButton in Items(s)
    case LinkClicked(item) =>
      item in Items(s) && (item.DashboardItem? || item == AddStoreItem || item == UpdatePasswordItem)
    case MenuBlurred => s.user.Some? && s.menuOpen
    case LoggedOut => LogoutButton in Items(s)
  }

  /** The user button flips the flag; a dropdown link or a blur closes the
      menu; logout clears the session and leaves the flag as it was. */
  function Step(s: NavState, e: Event): (t: NavState)
    requires Enabled(s, e)
    ensures e == ToggleMenu ==> t.menuOpen == !s.menuOpen && t.user == s.user
    ensures e.LinkClicked? || e == MenuBlurred ==> !t.menuOpen && t.user == s.user
    ensures e == LoggedOut ==> t.user.None? && t.menuOpen == s.menuOpen
  {
    match e
    case ToggleMenu => s.(menuOpen := !s.menuOpen)
    case LinkClicked(_) => s.(menuOpen := false)
    case MenuBlurred => s.(menuOpen := false)
    case LoggedOut => s.(user := None)
  }

  /** The toggle only exists for a logged-in user, and clicking it twice
      restores the bar. */
  lemma ToggleTwice(s: NavState)
    requires s.user.Some?
    ensures Enabled(s, ToggleMenu)
    ensures Step(Step(s, ToggleMenu), ToggleMenu) == s
  {
  }

  /** Any dropdown link leaves the bar closed, showing only the user button. */
  lemma LinkClosesMenu(s: NavState, item: Item)
    requires Enabled(s, LinkClicked(item))
    ensures Items(Step(s, LinkClicked(item))) == [UserButton]
  {
  }

  /** After logout the entries are Login and Signup and no menu, but the
      open flag survives: a session that starts while the bar stays
      mounted finds the dropdown already open. */
  lemma LogoutLeavesFlag(s: NavState, u: User)
    requires Enabled(s, LoggedOut)
    ensures Items(Step(s, LoggedOut)) == [LoginLink, SignupLink]
    ensures Step(s, LoggedOut).menuOpen
    ensures Items(Step(s, LoggedOut).(user := Some(u))) == [UserButton] + Dropdown(u)
  {
  }
}
