/** The admin shell (`src/components/AdminLayout.jsx`): a role guard in front of a fixed
    sidebar whose entries light up on an exact path match. */
module AdminLayout {
  import opened Wrappers
  import opened Entities
  import opened Http
  import Routes

  datatype NavItem = NavItem(title: string, path: string)

  /** The sidebar entries, in display order. */
  const NavItems: seq<NavItem> :=
    [NavItem("Home", "/adminDashboard"), NavItem("Orders", "/admin/orders"), NavItem("Info", "/admin/info")]

  /** What the layout produces: nothing but a redirect, or the panel with the sidebar state
      and one highlight flag per entry. */
  datatype Screen =
    | Redirected(effects: seq<Effect>)
    | Panel(sidebarOpen: bool, lit: seq<bool>)

  /** The layout for a session user at a location. */
  function Render(user: Option<UserRecord>, pathname: string, sidebarOpen: bool): (r: Screen)
    ensures r.Redirected? <==> user.None? || user.value.role != AdminRole
    ensures r.Redirected? ==> r.effects == [Navigate("/login")]
    ensures r.Panel? ==>
      && r.sidebarOpen == sidebarOpen
      && |r.lit| == |NavItems|
      && forall i :: 0 <= i < |NavItems| ==> (r.lit[i] <==> pathname == NavItems[i].path)
  {
    if !IsAdmin(user) then Redirected([Navigate("/login")])
    else Panel(sidebarOpen, seq(|NavItems|, i requires 0 <= i < |NavItems| => pathname == NavItems[i].path))
  }

  /** Clicking an entry navigates to its path. */
  function Click(i: nat): (e: Effect)
    requires i < |NavItems|
    ensures e.Navigate? && e.path == NavItems[i].path
  {
    Navigate(NavItems[i].path)
  }

  /** The menu button flips the sidebar. */
  function ToggleMenu(open: bool): (r: bool)
    ensures r != open
  {
    !open
  }

  /** The Close button closes the sidebar whatever its state. */
  function Close(open: bool): (r: bool)
    ensures !r
  {
    false
  }

  /* ------------------------------------------------------------ properties */

  /** The entry paths are pairwise distinct, so at most one entry is ever highlighted. */
  lemma AtMostOneHighlighted(user: Option<UserRecord>, pathname: string, open: bool)
    ensures var r := Render(user, pathname, open);
      r.Panel? ==> forall i, j :: 0 <= i < j < |r.lit| ==> !(r.lit[i] && r.lit[j])
  {
  }

  /** An entry is highlighted somewhere iff the location is one of the three entry paths. */
  lemma SomeHighlightIff(user: Option<UserRecord>, pathname: string, open: bool)
    requires IsAdmin(user)
    ensures var r := Render(user, pathname, open);
      (exists i :: 0 <= i < |r.lit| && r.lit[i]) <==> pathname in {"/adminDashboard", "/admin/orders", "/admin/info"}
  {
    var r := Render(user, pathname, open);
    if pathname == "/adminDashboard" { assert r.lit[0]; }
    if pathname == "/admin/orders" { assert r.lit[1]; }
    if pathname == "/admin/info" { assert r.lit[2]; }
  }

  /** Toggling twice restores the sidebar; closing is idempotent. */
  lemma MenuControls(open: bool)
    ensures ToggleMenu(ToggleMenu(open)) == open
    ensures Close(Close(open)) == Close(open)
    ensures ToggleMenu(Close(open))
  {
  }

  /** The guard agrees with the route table: for an authenticated session on the dashboard
      route, the table produces the dashboard exactly when the layout lets the user through. */
  lemma GuardAgreesWithRoutes(user: Option<UserRecord>, pathname: string, open: bool)
    requires Routes.Matches(Routes.Pattern(Routes.AdminDashboard), Routes.Segments(pathname))
    ensures Routes.Decide(false, true, user, pathname) == Routes.AdminDashboardView
        <==> Render(user, pathname, open).Panel?
  {
    Routes.AdminDashboardRoute(true, user, pathname);
  }

  /** The Orders entry leads to a location the route table does not declare. */
  lemma OrdersEntryUnrouted(user: Option<UserRecord>)
    ensures Routes.Decide(false, true, user, Click(1).path) == Routes.NotFoundView
  {
    Routes.AdminOrdersNotRouted(true, user);
  }
}
