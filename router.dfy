/**
 * The route table's access flags and the navigation guard that runs before
 * every navigation, deciding from the target's flags and the session whether
 * to proceed, to send the visitor to the login page, or to send them home.
 */
module Router {
  import opened Options
  import opened Auth

  /** A route's `meta`: a flag left out reads as false. */
  datatype Meta = Meta(requiresAuth: bool, requiresAdmin: bool)

  const Unguarded := Meta(false, false)

  datatype Route = Route(path: string, name: string, meta: Meta)

  const HomePath := "/"
  const AuthPath := "/auth"

  const MapRoute := Route(HomePath, "Map", Unguarded)
  const AuthRoute := Route(AuthPath, "Auth", Unguarded)
  const SettingsRoute := Route("/settings", "Settings", Meta(true, false))
  const CreateEventRoute := Route("/create-event", "CreateEvent", Meta(true, true))
  const EventDetailsRoute := Route("/event/:id", "EventDetails", Unguarded)
  const DashboardRoute := Route("/dashboard", "Dashboard", Meta(true, true))

  const Routes: seq<Route> :=
    [MapRoute, AuthRoute, SettingsRoute, CreateEventRoute, EventDetailsRoute, DashboardRoute]

  /** The route table: six routes with distinct paths; exactly the settings,
      create-event and dashboard routes require login, and exactly the last two
      of them require an admin, so no route requires an admin without login. */
  lemma RouteTable()
    ensures |Routes| == 6
    ensures forall i, j | 0 <= i < j < |Routes| :: Routes[i].path != Routes[j].path
    ensures forall r | r in Routes :: r.meta.requiresAuth <==> r in [SettingsRoute, CreateEventRoute, DashboardRoute]
    ensures forall r | r in Routes :: r.meta.requiresAdmin <==> r in [CreateEventRoute, DashboardRoute]
    ensures forall r | r in Routes && r.meta.requiresAdmin :: r.meta.requiresAuth
  {
  }

  /** What the guard tells the router: `next()` or `next(target)`. */
  datatype Decision = Proceed | Redirect(target: string)

  /** The first route in the table whose path is exactly `path`. */
  function FindRoute(routes: seq<Route>, path: string): (r: Option<Route>)
    ensures r.Some? ==> r.value in routes && r.value.path == path
    ensures r.None? ==> forall k | 0 <= k < |routes| :: routes[k].path != path
  {
    if routes == [] then None
    else if routes[0].path == path then Some(routes[0])
    else
      assert forall k | 1 <= k < |routes| :: routes[k] == routes[1..][k - 1];
      FindRoute(routes[1..], path)
  }

  /** The beforeEach guard, checked in priority order: the login check first, then the admin check. */
  function BeforeEach(to: Meta, isAuthenticated: bool, isAdmin: bool): (d: Decision)
    ensures d == Proceed <==> (to.requiresAuth ==> isAuthenticated) && (to.requiresAdmin ==> isAdmin)
    ensures d == Redirect(AuthPath) <==> to.requiresAuth && !isAuthenticated
    ensures d == Redirect(HomePath) <==> !(to.requiresAuth && !isAuthenticated) && to.requiresAdmin && !isAdmin
  {
    if to.requiresAuth && !isAuthenticated then Redirect(AuthPath)
    else if to.requiresAdmin && !isAdmin then Redirect(HomePath)
    else Proceed
  }

  /** The guard as the router runs it, reading the auth store's session: it
      lets a navigation through exactly when the session meets the target's
      flags, and under the session invariant an admin-only target is only
      reached by a logged-in admin user. */
  function Guard(to: Meta, store: AuthStore): (d: Decision)
    reads store
    ensures d == Proceed <==> (to.requiresAuth ==> store.isAuthenticated) && (to.requiresAdmin ==> store.IsAdmin())
    ensures store.Valid() && d == Proceed && to.requiresAdmin ==>
              store.isAuthenticated && store.user.Some? && store.user.value.role == AdminRole
  {
    BeforeEach(to, store.isAuthenticated, store.IsAdmin())
  }

  /** A lookup finds the first route with that path. */
  lemma {:induction false} FindRouteFirst(routes: seq<Route>, path: string, i: nat)
    requires i < |routes| && routes[i].path == path
    requires forall j | 0 <= j < i :: routes[j].path != path
    ensures FindRoute(routes, path) == Some(routes[i])
  {
    if i > 0 {
      FindRouteFirst(routes[1..], path, i - 1);
    }
  }

  /** The two redirect targets resolve to the map and login routes, which carry no flags. */
  lemma RedirectTargetRoutes()
    ensures FindRoute(Routes, HomePath) == Some(MapRoute) && MapRoute.meta == Unguarded
    ensures FindRoute(Routes, AuthPath) == Some(AuthRoute) && AuthRoute.meta == Unguarded
  {
    FindRouteFirst(Routes, HomePath, 0);
    FindRouteFirst(Routes, AuthPath, 1);
  }

  /** Where a navigation to a route ends: at that route when the guard lets it
      through, or else at the route the redirect path resolves to, which the
      guard, run again, lets through whatever the session. */
  function Destination(to: Route, isAuthenticated: bool, isAdmin: bool): (dest: Route)
    ensures BeforeEach(dest.meta, isAuthenticated, isAdmin) == Proceed
    ensures dest == to <==> BeforeEach(to.meta, isAuthenticated, isAdmin) == Proceed
    ensures dest != to ==> dest in {MapRoute, AuthRoute} && dest.meta == Unguarded
  {
    match BeforeEach(to.meta, isAuthenticated, isAdmin)
    case Proceed => to
    case Redirect(target) =>
      RedirectTargetRoutes();
      FindRoute(Routes, target).value
  }

  /** The login check comes first: a visitor who is not logged in is sent to
      the login page from every guarded route, the admin-only ones included,
      whatever the admin flag says. */
  lemma LoggedOutGoesToLogin(isAdmin: bool)
    ensures forall r | r in Routes && r.meta.requiresAuth :: BeforeEach(r.meta, false, isAdmin) == Redirect(AuthPath)
    ensures BeforeEach(SettingsRoute.meta, false, isAdmin) == Redirect(AuthPath)
    ensures BeforeEach(CreateEventRoute.meta, false, isAdmin) == Redirect(AuthPath)
    ensures BeforeEach(DashboardRoute.meta, false, isAdmin) == Redirect(AuthPath)
  {
  }

  /** A logged-in user reaches the settings page whatever the role; the two
      admin pages let an admin through and send anyone else home. */
  lemma LoggedInAccess(isAdmin: bool)
    ensures BeforeEach(SettingsRoute.meta, true, isAdmin) == Proceed
    ensures BeforeEach(CreateEventRoute.meta, true, isAdmin) == if isAdmin then Proceed else Redirect(HomePath)
    ensures BeforeEach(DashboardRoute.meta, true, isAdmin) == if isAdmin then Proceed else Redirect(HomePath)
  {
  }

  /** The routes without flags are open to every session. */
  lemma UnguardedRoutesProceed(isAuthenticated: bool, isAdmin: bool)
    ensures forall r | r in [MapRoute, AuthRoute, EventDetailsRoute] :: BeforeEach(r.meta, isAuthenticated, isAdmin) == Proceed
  {
  }

  /** With the session invariant, a logged-in admin passes every route of the table. */
  lemma AdminPassesEveryRoute(store: AuthStore)
    requires store.Valid() && store.IsAdmin()
    ensures forall r | r in Routes :: Guard(r.meta, store) == Proceed
  {
    AdminIsAuthenticated(store);
  }

  /** With the session invariant, passing a route flagged admin-only implies
      being logged in, even if the route were not also flagged requiresAuth. */
  lemma AdminRoutesNeedLogin(store: AuthStore, to: Meta)
    requires store.Valid() && to.requiresAdmin
    ensures Guard(to, store) == Proceed ==> store.isAuthenticated
  {
  }

  /** From a fresh session, log in with a pair and then visit the dashboard:
      the admin pair gets through, the regular pair is sent home and any other
      pair is sent to the login page. */
  method DashboardAfterLogin(email: string, password: string) returns (d: Decision)
    ensures d == Proceed <==> email == "admin@example.com" && password == "admin123"
    ensures d == Redirect(HomePath) <==> email == "user@example.com" && password == "user123"
    ensures d == Redirect(AuthPath) <==> (email, password) !in Accounts
  {
    var store := new AuthStore();
    var result := store.Login(email, password);
    d := Guard(DashboardRoute.meta, store);
    AccountRoles(email, password);
  }

  /** After a logout every guarded route sends the visitor to the login page,
      and an unguarded one lets them through. */
  method VisitAfterLogout(store: AuthStore, to: Route) returns (d: Decision)
    modifies store
    ensures to.meta.requiresAuth ==> d == Redirect(AuthPath)
    ensures !to.meta.requiresAuth ==> (d == Proceed <==> !to.meta.requiresAdmin)
  {
    store.Logout();
    d := Guard(to.meta, store);
  }
}
