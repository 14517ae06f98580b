/**
 * The application shell (src/App.tsx): the route table, what visiting a path shows for a
 * session, and when the side menu is shown.
 */
module App {
  import opened Js
  import opened Types
  import PrivateRoute
  import AuthContext
  import Header

  datatype Page = LoginPage | DashboardPage | ProfilePage | EmployeesPage | EvaluationsPage | EvaluationFormPage

  /** A route: its path, its page, whether the page is wrapped in the guard, and the role
      the guard demands. */
  datatype Route = Route(path: string, page: Page, guarded: bool, requiredRole: Option<string>)

  const Routes: seq<Route> := [
    Route("/login", LoginPage, false, None),
    Route("/", DashboardPage, true, None),
    Route("/profile", ProfilePage, true, Some(EmployeeRole)),
    Route("/employees", EmployeesPage, true, Some(AdminRole)),
    Route("/evaluations", EvaluationsPage, true, Some(AdminRole)),
    Route("/evaluation", EvaluationFormPage, true, Some(EmployeeRole))
  ]

  /** What visiting a path ends in: a page, a redirect, or nothing when no route matches. */
  datatype Outcome = Show(page: Page) | Redirect(to: string) | NoMatch

  /** The route for `path`, matched exactly. */
  function MatchRoute(path: string): (r: Option<Route>)
    ensures r.Some? <==> exists i :: 0 <= i < |Routes| && Routes[i].path == path
    ensures r.Some? ==> r.value in Routes && r.value.path == path
  {
    FindFirst(Routes, (route: Route) => route.path == path);
    Find(Routes, (route: Route) => route.path == path)
  }

  /** Visiting `path` with the session `session`. */
  function Navigate(path: string, session: AuthContext.AuthValue): (o: Outcome)
    ensures o.Show? ==> o.page == LoginPage || PrivateRoute.Present(session.token)
    ensures o.Redirect? ==> o.to == "/login" || o.to == "/"
  {
    match MatchRoute(path)
    case None => NoMatch
    case Some(route) =>
      if !route.guarded then Show(route.page)
      else
        match PrivateRoute.Guard(session.token, session.role, route.requiredRole)
        case RedirectToLogin => Redirect("/login")
        case RedirectHome => Redirect("/")
        case RenderChild => Show(route.page)
  }

  /** Without a token, /login is the only page that shows: every other route redirects
      there. */
  lemma LoginIsTheOnlyPublicPage(path: string, session: AuthContext.AuthValue)
    requires !PrivateRoute.Present(session.token)
    ensures Navigate(path, session) == NoMatch || Navigate(path, session) == Show(LoginPage)
         || Navigate(path, session) == Redirect("/login")
  {
  }

  /** The admin's pages show only to the admin role, the employee's pages only to the
      employee role. */
  lemma PagesFollowRoles(path: string, session: AuthContext.AuthValue)
    ensures Navigate(path, session) == Show(EmployeesPage) || Navigate(path, session) == Show(EvaluationsPage)
      ==> session.role == Some(AdminRole)
    ensures Navigate(path, session) == Show(ProfilePage) || Navigate(path, session) == Show(EvaluationFormPage)
      ==> session.role == Some(EmployeeRole)
  {
  }

  /** Every redirect lands on a page: no redirect chains and no loops. */
  lemma RedirectsLand(path: string, session: AuthContext.AuthValue)
    requires Navigate(path, session).Redirect?
    ensures Navigate(Navigate(path, session).to, session).Show?
  {
    assert Routes[0].path == "/login" && Routes[1].path == "/";
  }

  /** For a signed-in session every menu link opens its page, except Perfil for a role other
      than 'employee' (the admin), which the /profile guard sends back to the dashboard. */
  lemma MenuLinksOpen(session: AuthContext.AuthValue, link: Header.MenuLink)
    requires PrivateRoute.Present(session.token)
    requires link in Header.Menu(session.role)
    ensures Navigate(link.to, session).Show? <==> link != Header.ProfileLink || session.role == Some(EmployeeRole)
    ensures !Navigate(link.to, session).Show? ==> Navigate(link.to, session) == Redirect("/")
  {
    assert link in [Header.DashboardLink, Header.ProfileLink, Header.EvaluationLink, Header.EmployeesLink, Header.EvaluationsLink];
    if link == Header.DashboardLink {
      SignedInVisit(1, session);
    } else if link == Header.ProfileLink {
      SignedInVisit(2, session);
    } else if link == Header.EvaluationLink {
      SignedInVisit(5, session);
    } else if link == Header.EmployeesLink {
      SignedInVisit(3, session);
    } else {
      SignedInVisit(4, session);
    }
  }

  /** Each route is the one its own path matches: the paths are distinct (their lengths are). */
  lemma MatchRouteAt(i: nat)
    requires i < |Routes|
    ensures MatchRoute(Routes[i].path) == Some(Routes[i])
  {
    var r := MatchRoute(Routes[i].path);
    var k :| 0 <= k < |Routes| && Routes[k] == r.value;
    var lengths := seq(|Routes|, j requires 0 <= j < |Routes| => |Routes[j].path|);
    assert lengths == [6, 1, 8, 10, 12, 11];
    assert lengths[k] == lengths[i];
  }

  /** A signed-in visit to a route's own path shows its page unless the route names a role
      the session lacks, which sends the visitor to /. */
  lemma SignedInVisit(i: nat, session: AuthContext.AuthValue)
    requires i < |Routes| && PrivateRoute.Present(session.token)
    ensures Navigate(Routes[i].path, session) ==
      if PrivateRoute.Present(Routes[i].requiredRole) && session.role != Routes[i].requiredRole
      then Redirect("/") else Show(Routes[i].page)
  {
    MatchRouteAt(i);
  }

  /** `user?.token && <Header />` as written: `user` is not a member of the context value,
      so the menu is never shown, for any session. */
  predicate HeaderShownAsWritten(session: AuthContext.AuthValue) {
    var user := AuthContext.UserMember(session);
    user.Some? && PrivateRoute.Present(user.value.token)
  }

  lemma HeaderNeverShown(session: AuthContext.AuthValue)
    ensures !HeaderShownAsWritten(session)
  {
    assert !AuthContext.HasMember("user");
  }

  /** The menu as evidently intended: shown when the session has a token. */
  predicate HeaderShown(session: AuthContext.AuthValue) {
    PrivateRoute.Present(session.token)
  }

  /** The intended menu shows exactly when the dashboard does, i.e. for every session the
      guard lets in. */
  lemma HeaderShownWithDashboard(session: AuthContext.AuthValue)
    ensures HeaderShown(session) <==> Navigate("/", session) == Show(DashboardPage)
  {
    assert Routes[0].path != "/" && Routes[1].path == "/";
  }
}
