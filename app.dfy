/**
 * The client's routing: the route table of AppRoutes, the PrivateRoute
 * guard, the home redirect and the navigation bar's links, over the
 * session the auth context holds (authenticated or not, and the role of
 * the stored user, if any).
 */
module App {
  import opened Wrappers
  import Constants

  /** What useAuth() exposes: isAuthenticated, and user?.role (None when there is no user). */
  datatype Session = Session(authenticated: bool, role: Option<string>)

  /** The pages the route table renders. */
  datatype Page =
    | LoginPage | SignupPage | UpdatePasswordPage
    | AdminDashboardPage | AdminUsersPage | AddUserPage | ViewUserPage | EditUserPage
    | AdminStoresPage | AddStorePage | EditStorePage
    | UserStoresPage | StoreOwnerDashboardPage

  /**
   * The client paths, one per route of the table; `Unmatched` is any other
   * path. The literal segment "add" is its own location, as React Router
   * ranks a static segment above `:id`.
   */
  datatype Location =
    | Root | LoginPath | SignupPath | UpdatePasswordPath
    | AdminDashboardPath | AdminUsersPath | AdminUsersAddPath
    | AdminUserPath(id: string) | AdminUserEditPath(id: string)
    | AdminStoresPath | AdminStoresAddPath | AdminStoreEditPath(id: string)
    | UserStoresPath | StoreOwnerDashboardPath
    | Unmatched(path: string)

  /** What a route's element does. */
  datatype Element =
    | HomeElement                                     // `<Navigate to={getHomeRedirect()} />`
    | GuestOnly(page: Page)                          // login and signup
    | Private(roles: Option<seq<string>>, page: Page) // `<PrivateRoute roles=…>`
    | NoElement                                       // no route matches

  /** What the router shows for a location: a page, a redirect, or nothing. */
  datatype View = Show(page: Page) | Redirect(to: Location) | Blank

  /** The roles list of the /user/stores route, as written. */
  const UserStoresRoles: seq<string> := [Constants.PlainUser]

  /** The roles list /user/stores evidently needs: both spellings of a plain user. */
  const IntendedUserStoresRoles: seq<string> := [Constants.PlainUser, Constants.NormalUser]

  const AdminOnly: Option<seq<string>> := Some([Constants.Admin])

  /** The route table; `userStoresRoles` is the roles list of /user/stores. */
  function RouteElement(loc: Location, userStoresRoles: seq<string>): Element {
    match loc
    case Root => HomeElement
    case LoginPath => GuestOnly(LoginPage)
    case SignupPath => GuestOnly(SignupPage)
    case UpdatePasswordPath => Private(None, UpdatePasswordPage)
    case AdminDashboardPath => Private(AdminOnly, AdminDashboardPage)
    case AdminUsersPath => Private(AdminOnly, AdminUsersPage)
    case AdminUsersAddPath => Private(AdminOnly, AddUserPage)
    case AdminUserPath(_) => Private(AdminOnly, ViewUserPage)
    case AdminUserEditPath(_) => Private(AdminOnly, EditUserPage)
    case AdminStoresPath => Private(AdminOnly, AdminStoresPage)
    case AdminStoresAddPath => Private(AdminOnly, AddStorePage)
    case AdminStoreEditPath(_) => Private(AdminOnly, EditStorePage)
    case UserStoresPath => Private(Some(userStoresRoles), UserStoresPage)
    case StoreOwnerDashboardPath => Private(Some([Constants.StoreOwner]), StoreOwnerDashboardPage)
    case Unmatched(_) => NoElement
  }

  /** getHomeRedirect: login when signed out, else the dashboard of the role, with the user stores as the fallback. */
  function HomeRedirect(s: Session): (to: Location)
    ensures !s.authenticated <==> to == LoginPath
    ensures to in {LoginPath, AdminDashboardPath, StoreOwnerDashboardPath, UserStoresPath}
  {
    if !s.authenticated then LoginPath
    else if s.role == Some(Constants.Admin) then AdminDashboardPath
    else if s.role == Some(Constants.StoreOwner) then StoreOwnerDashboardPath
    else UserStoresPath
  }

  /** `roles.includes(user?.role)`: an absent role is in no list. */
  predicate Admitted(s: Session, roles: Option<seq<string>>) {
    roles.None? || (s.role.Some? && s.role.value in roles.value)
  }

  /** PrivateRoute: signed-out sessions go to login, sessions of another role go home. */
  function PrivateRoute(s: Session, roles: Option<seq<string>>, page: Page): View {
    if !s.authenticated then Redirect(LoginPath)
    else if !Admitted(s, roles) then Redirect(Root)
    else Show(page)
  }

  function Resolve(s: Session, loc: Location, userStoresRoles: seq<string>): View {
    match RouteElement(loc, userStoresRoles)
    case HomeElement => Redirect(HomeRedirect(s))
    case GuestOnly(p) => if s.authenticated then Redirect(HomeRedirect(s)) else Show(p)
    case Private(roles, p) => PrivateRoute(s, roles, p)
    case NoElement => Blank
  }

  /** Follows at most `hops` redirects from `loc`. */
  function Follow(s: Session, loc: Location, userStoresRoles: seq<string>, hops: nat): View
    decreases hops
  {
    var v := Resolve(s, loc, userStoresRoles);
    if v.Redirect? && hops > 0 then Follow(s, v.to, userStoresRoles, hops - 1) else v
  }

  /** The guard renders its page exactly for a signed-in session its roles admit; otherwise it says where to go instead. */
  lemma PrivateRouteDecides(s: Session, roles: Option<seq<string>>, page: Page)
    ensures PrivateRoute(s, roles, page) == Show(page) <==> s.authenticated && Admitted(s, roles)
    ensures !s.authenticated ==> PrivateRoute(s, roles, page) == Redirect(LoginPath)
    ensures s.authenticated && !Admitted(s, roles) ==> PrivateRoute(s, roles, page) == Redirect(Root)
    ensures roles.None? && s.authenticated ==> PrivateRoute(s, roles, page) == Show(page)
  {
  }

  /** Any page of the table shows only for a session the route admits; signed out, only login and signup show. */
  lemma ShownMeansAdmitted(s: Session, loc: Location, userStoresRoles: seq<string>, p: Page)
    requires Resolve(s, loc, userStoresRoles) == Show(p)
    ensures RouteElement(loc, userStoresRoles).Private? ==> s.authenticated && Admitted(s, RouteElement(loc, userStoresRoles).roles)
    ensures !s.authenticated <==> p in {LoginPage, SignupPage}
  {
  }

  /** The admin pages show to admins and to no one else. */
  lemma AdminPagesAdminOnly(s: Session, loc: Location, userStoresRoles: seq<string>)
    requires RouteElement(loc, userStoresRoles).Private? && RouteElement(loc, userStoresRoles).roles == AdminOnly
    ensures Resolve(s, loc, userStoresRoles).Show? <==> s.authenticated && s.role == Some(Constants.Admin)
  {
  }

  /** Login and signup send a signed-in session to its home, whatever its role. */
  lemma GuestPagesSendHome(s: Session, userStoresRoles: seq<string>)
    requires s.authenticated
    ensures Resolve(s, LoginPath, userStoresRoles) == Redirect(HomeRedirect(s)) == Resolve(s, SignupPath, userStoresRoles)
    ensures Resolve(s, Root, userStoresRoles) == Redirect(HomeRedirect(s))
  {
  }

  /**
   * As written, "/" reaches a page within two redirects exactly for a
   * signed-out session or a session whose role is admin, store_owner or
   * "user".
   */
  lemma HomeSettles(s: Session)
    ensures Follow(s, Root, UserStoresRoles, 2).Show? <==>
      !s.authenticated || s.role in {Some(Constants.Admin), Some(Constants.StoreOwner), Some(Constants.PlainUser)}
  {
    var home := HomeRedirect(s);
    assert Follow(s, Root, UserStoresRoles, 2) == Follow(s, home, UserStoresRoles, 1);
    if s.authenticated && s.role !in {Some(Constants.Admin), Some(Constants.StoreOwner), Some(Constants.PlainUser)} {
      assert home == UserStoresPath;
      assert Resolve(s, UserStoresPath, UserStoresRoles) == Redirect(Root);
    } else {
      assert Resolve(s, home, UserStoresRoles).Show?;
    }
  }

  /**
   * As written, a signed-in normal_user (a role of USER_ROLES) is sent from
   * "/" to /user/stores, whose roles list admits only "user", and from there
   * back to "/": no number of redirects reaches a page.
   */
  lemma {:induction false} NormalUserRedirectLoop(s: Session, loc: Location, hops: nat)
    requires s.authenticated && s.role == Some(Constants.NormalUser)
    requires loc == Root || loc == UserStoresPath
    ensures Follow(s, loc, UserStoresRoles, hops).Redirect?
    decreases hops
  {
    assert Constants.NormalUser !in UserStoresRoles;
    if hops > 0 {
      var v := Resolve(s, loc, UserStoresRoles);
      assert v == Redirect(if loc == Root then UserStoresPath else Root);
      NormalUserRedirectLoop(s, v.to, hops - 1);
    }
  }

  /**
   * With /user/stores admitting both spellings of a plain user, "/" reaches
   * the home page of every role the backend assigns after one redirect, and
   * the login page when signed out.
   */
  lemma IntendedHomeSettles(s: Session)
    requires !s.authenticated || (s.role.Some? && (s.role.value in Constants.UserRoles || s.role.value == Constants.PlainUser))
    ensures Follow(s, Root, IntendedUserStoresRoles, 1) == Resolve(s, HomeRedirect(s), IntendedUserStoresRoles)
    ensures Follow(s, Root, IntendedUserStoresRoles, 1) == Show(HomePage(s))
  {
  }

  /** The page each session's home shows once admitted. */
  function HomePage(s: Session): Page {
    match HomeRedirect(s)
    case LoginPath => LoginPage
    case AdminDashboardPath => AdminDashboardPage
    case StoreOwnerDashboardPath => StoreOwnerDashboardPage
    case _ => UserStoresPage
  }

  /**
   * The navigation bar's links besides the brand link to "/": the admin's
   * three, the "user" role's stores, the store owner's dashboard and the
   * password page when signed in; login and signup when signed out.
   */
  function NavLinks(s: Session): seq<Location> {
    if !s.authenticated then [LoginPath, SignupPath]
    else
      (if s.role == Some(Constants.Admin) then [AdminDashboardPath, AdminUsersPath, AdminStoresPath] else [])
      + (if s.role == Some(Constants.PlainUser) then [UserStoresPath] else [])
      + (if s.role == Some(Constants.StoreOwner) then [StoreOwnerDashboardPath] else [])
      + [UpdatePasswordPath]
  }

  /** Every link the bar offers shows a page to the session that sees it, without a redirect. */
  lemma NavLinksShowPages(s: Session, i: nat)
    requires i < |NavLinks(s)|
    ensures Resolve(s, NavLinks(s)[i], UserStoresRoles).Show?
  {
  }

  /** The bar offers a role's home page exactly when that home is not /user/stores for a role other than "user". */
  lemma NavLinksReachHome(s: Session)
    requires s.authenticated
    ensures HomeRedirect(s) in NavLinks(s) <==> s.role in {Some(Constants.Admin), Some(Constants.StoreOwner), Some(Constants.PlainUser)}
    ensures s.role == Some(Constants.NormalUser) ==> NavLinks(s) == [UpdatePasswordPath]
  {
    if s.role == Some(Constants.NormalUser) {
      assert NavLinks(s) == [UpdatePasswordPath];
    }
  }
}
