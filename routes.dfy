/**
 * The three routers behind the token check: /api/admin, /api/users and
 * /api/store-owner. A router is a list of (verb, path pattern, allowed roles,
 * handler) entries behind the router-wide middleware; dispatching a request
 * decides whether it is turned away by the token check, by the role check,
 * matches no entry, or reaches a handler with its route parameters.
 *
 * The middleware (backend/src/middleware/auth.js) is not part of this model:
 * authenticateToken is taken to admit exactly the requests whose bearer
 * token verifies, and authorizeRole(rs) exactly the callers whose role is
 * one of rs.
 */
module Routes {
  import opened Wrappers
  import opened Credentials
  import opened Http
  import opened Tables
  import opened Sql
  import opened Js
  import Constants
  import RatingController

  datatype Verb = Get | Post | Put | Delete

  /** One segment of a path pattern: literal text, or `:name`. */
  datatype Piece = Lit(text: string) | Var(name: string)

  /** The controller functions the routers hand requests to. */
  datatype Handler =
    | GetDashboard | AddUser | GetUsers | GetUserDetails | UpdateUser | DeleteUser
    | AddStore | GetStores | GetStoreDetails | UpdateStore | DeleteStore
    | SubmitRating | GetUserRatingForStore | GetStoreAverageRating | GetStoreRatings | DeleteRating

  /** `router.<verb>(path, [authorizeRole(...roles)], handler)`. */
  datatype Route = Route(verb: Verb, pattern: seq<Piece>, roles: Option<seq<string>>, handler: Handler)

  /** A router: `router.use(authenticateToken)`, an optional `router.use(authorizeRole(...))`, then its routes. */
  datatype Router = Router(roles: Option<seq<string>>, routes: seq<Route>)

  /** What happens to a request that enters a router. */
  datatype Decision =
    | Unauthenticated                                            // refused by authenticateToken
    | Forbidden                                                  // refused by authorizeRole
    | NoRoute                                                    // falls out of the router
    | Invoke(handler: Handler, params: map<string, string>, caller: Claims)

  /** authenticateToken: the claims of a bearer token that verifies. */
  function Authenticate(header: Option<Token>): (c: Option<Claims>)
    ensures c.Some? ==> header.Some? && VerifyToken(header.value) == c
    ensures header.Some? ==> c == VerifyToken(header.value)
  {
    if header.Some? then VerifyToken(header.value) else None
  }

  /** authorizeRole(...roles): no list admits everyone. */
  predicate Admits(roles: Option<seq<string>>, role: string) {
    roles.None? || role in roles.value
  }

  /** A pattern matches a path of as many segments, literals exactly and parameters any non-empty segment. */
  predicate PatternMatches(pattern: seq<Piece>, path: seq<string>) {
    |pattern| == |path|
    && forall i :: 0 <= i < |pattern| ==> if pattern[i].Lit? then pattern[i].text == path[i] else path[i] != ""
  }

  /** req.params: each parameter's segment; a later parameter of the same name wins. */
  function Bind(pattern: seq<Piece>, path: seq<string>): (params: map<string, string>)
    requires |pattern| == |path|
    ensures forall name :: name in params <==> exists i :: 0 <= i < |pattern| && pattern[i] == Var(name)
  {
    if pattern == [] then map[]
    else
      var rest := Bind(pattern[..|pattern| - 1], path[..|path| - 1]);
      var last := pattern[|pattern| - 1];
      if last.Var? then rest[last.name := path[|path| - 1]] else rest
  }

  predicate RouteMatches(route: Route, verb: Verb, path: seq<string>) {
    route.verb == verb && PatternMatches(route.pattern, path)
  }

  /** The position of the first route with this verb whose pattern matches, or |routes|. */
  function FirstMatch(routes: seq<Route>, verb: Verb, path: seq<string>): (i: nat)
    ensures i <= |routes|
    ensures i < |routes| ==> RouteMatches(routes[i], verb, path)
    ensures forall k :: 0 <= k < i ==> !RouteMatches(routes[k], verb, path)
  {
    if routes == [] then 0
    else if RouteMatches(routes[0], verb, path) then 0
    else 1 + FirstMatch(routes[1..], verb, path)
  }

  /** A route that matches, with none matching before it, is the one chosen. */
  lemma FirstMatchIs(routes: seq<Route>, verb: Verb, path: seq<string>, i: nat)
    requires i < |routes| && RouteMatches(routes[i], verb, path)
    requires forall k :: 0 <= k < i ==> !RouteMatches(routes[k], verb, path)
    ensures FirstMatch(routes, verb, path) == i
  {
  }

  /** A literal segment that differs from the path's refutes the pattern. */
  lemma LiteralMismatch(pattern: seq<Piece>, path: seq<string>, i: nat)
    requires i < |pattern| && i < |path| && pattern[i].Lit? && pattern[i].text != path[i]
    ensures !PatternMatches(pattern, path)
  {
  }

  /** Dispatch in Express's order: the token, the router's role gate, the first matching route and its own gate. */
  function Dispatch(r: Router, verb: Verb, path: seq<string>, header: Option<Token>): Decision {
    match Authenticate(header)
    case None => Unauthenticated
    case Some(caller) =>
      if !Admits(r.roles, caller.role) then Forbidden
      else
        var i := FirstMatch(r.routes, verb, path);
        if i == |r.routes| then NoRoute
        else if !Admits(r.routes[i].roles, caller.role) then Forbidden
        else Invoke(r.routes[i].handler, Bind(r.routes[i].pattern, path), caller)
  }

  /** An authenticated caller the router admits, whose first matching route also admits them, reaches its handler. */
  lemma DispatchAt(r: Router, verb: Verb, path: seq<string>, header: Option<Token>, i: nat)
    requires Authenticate(header).Some? && Admits(r.roles, Authenticate(header).value.role)
    requires FirstMatch(r.routes, verb, path) == i < |r.routes|
    requires Admits(r.routes[i].roles, Authenticate(header).value.role)
    ensures Dispatch(r, verb, path, header) == Invoke(r.routes[i].handler, Bind(r.routes[i].pattern, path), Authenticate(header).value)
  {
  }

  // ---------------------------------------------------------------------
  // The three routers
  // ---------------------------------------------------------------------

  const AdminRouter: Router := Router(Some([Constants.Admin]), [
    Route(Get, [Lit("dashboard")], None, GetDashboard),
    Route(Post, [Lit("users")], None, AddUser),
    Route(Get, [Lit("users")], None, GetUsers),
    Route(Get, [Lit("users"), Var("id")], None, GetUserDetails),
    Route(Put, [Lit("users"), Var("id")], None, UpdateUser),
    Route(Delete, [Lit("users"), Var("id")], None, DeleteUser),
    Route(Post, [Lit("stores")], None, AddStore),
    Route(Get, [Lit("stores")], None, GetStores),
    Route(Get, [Lit("stores"), Var("id")], None, GetStoreDetails),
    Route(Put, [Lit("stores"), Var("id")], None, UpdateStore),
    Route(Delete, [Lit("stores"), Var("id")], None, DeleteStore)
  ])

  const Browsers: seq<string> := [Constants.NormalUser, Constants.PlainUser, Constants.Admin]
  const Raters: seq<string> := [Constants.NormalUser, Constants.PlainUser]
  const AverageReaders: seq<string> := [Constants.NormalUser, Constants.PlainUser, Constants.StoreOwner]

  const UserRouter: Router := Router(None, [
    Route(Get, [Lit("stores")], Some(Browsers), GetStores),
    Route(Get, [Lit("stores"), Var("id")], Some(Browsers), GetStoreDetails),
    Route(Post, [Lit("ratings")], Some(Raters), SubmitRating),
    Route(Get, [Lit("ratings"), Lit("store"), Var("storeId")], Some(Raters), GetUserRatingForStore),
    Route(Get, [Lit("stores"), Var("id"), Lit("average-rating")], Some(AverageReaders), GetStoreAverageRating),
    Route(Delete, [Lit("ratings"), Var("id")], Some(Raters), DeleteRating)
  ])

  /** The store-owner router as written: the dashboard route names its parameter storeId. */
  const StoreOwnerRouter: Router := Router(Some([Constants.StoreOwner]), [
    Route(Get, [Lit("dashboard"), Var("storeId")], None, GetStoreAverageRating),
    Route(Get, [Lit("dashboard"), Var("id"), Lit("ratings")], None, GetStoreRatings)
  ])

  /** The store-owner router with the parameter named id, as getStoreAverageRating reads it. */
  const IntendedStoreOwnerRouter: Router := Router(Some([Constants.StoreOwner]), [
    Route(Get, [Lit("dashboard"), Var("id")], None, GetStoreAverageRating),
    Route(Get, [Lit("dashboard"), Var("id"), Lit("ratings")], None, GetStoreRatings)
  ])

  // ---------------------------------------------------------------------
  // What the routers admit
  // ---------------------------------------------------------------------

  /** Whatever the router, a request without a verifying token reaches no handler and no role check. */
  lemma TokenCheckedFirst(r: Router, verb: Verb, path: seq<string>, header: Option<Token>)
    requires Authenticate(header).None?
    ensures Dispatch(r, verb, path, header) == Unauthenticated
  {
  }

  /** A handler is reached only by a caller both gates admit, with the first matching route's parameters. */
  lemma InvokedMeansAdmitted(r: Router, verb: Verb, path: seq<string>, header: Option<Token>)
    ensures var d := Dispatch(r, verb, path, header);
            d.Invoke? ==>
              && Authenticate(header) == Some(d.caller)
              && Admits(r.roles, d.caller.role)
              && exists i :: 0 <= i < |r.routes| && r.routes[i].handler == d.handler && r.routes[i].verb == verb
                   && PatternMatches(r.routes[i].pattern, path) && Admits(r.routes[i].roles, d.caller.role)
                   && d.params == Bind(r.routes[i].pattern, path)
  {
    var d := Dispatch(r, verb, path, header);
    if d.Invoke? {
      var i := FirstMatch(r.routes, verb, path);
      assert r.routes[i].handler == d.handler;
    }
  }

  /** Every admin route turns away every role but admin. */
  lemma AdminOnly(verb: Verb, path: seq<string>, header: Option<Token>)
    ensures var d := Dispatch(AdminRouter, verb, path, header);
            && (d.Invoke? ==> d.caller.role == Constants.Admin)
            && (Authenticate(header).Some? && Authenticate(header).value.role != Constants.Admin ==> d == Forbidden)
  {
  }

  /** The user and store management handlers are served by the admin router only. */
  lemma ManagementOnlyThroughAdmin(h: Handler)
    requires h in {AddUser, GetUsers, GetUserDetails, UpdateUser, DeleteUser, AddStore, UpdateStore, DeleteStore}
    ensures forall i :: 0 <= i < |UserRouter.routes| ==> UserRouter.routes[i].handler != h
    ensures forall i :: 0 <= i < |StoreOwnerRouter.routes| ==> StoreOwnerRouter.routes[i].handler != h
    ensures exists i :: 0 <= i < |AdminRouter.routes| && AdminRouter.routes[i].handler == h
  {
    if h == AddUser { assert AdminRouter.routes[1].handler == h; }
    else if h == GetUsers { assert AdminRouter.routes[2].handler == h; }
    else if h == GetUserDetails { assert AdminRouter.routes[3].handler == h; }
    else if h == UpdateUser { assert AdminRouter.routes[4].handler == h; }
    else if h == DeleteUser { assert AdminRouter.routes[5].handler == h; }
    else if h == AddStore { assert AdminRouter.routes[6].handler == h; }
    else if h == UpdateStore { assert AdminRouter.routes[9].handler == h; }
    else { assert AdminRouter.routes[10].handler == h; }
  }

  /** An admin reaches the user details, update and delete handlers with the path's id. */
  lemma AdminReachesUser(id: string, header: Option<Token>)
    requires id != "" && Authenticate(header).Some? && Authenticate(header).value.role == Constants.Admin
    ensures Dispatch(AdminRouter, Get, ["users", id], header)
            == Invoke(GetUserDetails, map["id" := id], Authenticate(header).value)
    ensures Dispatch(AdminRouter, Put, ["users", id], header)
            == Invoke(UpdateUser, map["id" := id], Authenticate(header).value)
    ensures Dispatch(AdminRouter, Delete, ["users", id], header)
            == Invoke(DeleteUser, map["id" := id], Authenticate(header).value)
  {
    var rs := AdminRouter.routes;
    var path := ["users", id];
    var p := [Lit("users"), Var("id")];
    assert PatternMatches(p, path);
    assert Bind(p, path) == map["id" := id] by {
      assert p[..1] == [Lit("users")] && path[..1] == ["users"];
      assert Bind([Lit("users")], ["users"]) == map[];
    }
    assert rs[3] == Route(Get, p, None, GetUserDetails) && rs[4] == Route(Put, p, None, UpdateUser)
        && rs[5] == Route(Delete, p, None, DeleteUser);
    forall k | 0 <= k < 5
      ensures !RouteMatches(rs[k], Get, path) || k == 3
      ensures !RouteMatches(rs[k], Put, path) || k == 4
      ensures !RouteMatches(rs[k], Delete, path)
    {
      if k == 0 { assert |rs[0].pattern| == 1; }
      else if k == 1 { assert rs[1].verb == Post; }
      else if k == 2 { assert |rs[2].pattern| == 1; }
      else if k == 3 { assert rs[3].verb == Get; }
      else { assert rs[4].verb == Put; }
    }
    assert Dispatch(AdminRouter, Get, path, header) == Invoke(GetUserDetails, map["id" := id], Authenticate(header).value) by {
      FirstMatchIs(rs, Get, path, 3);
      DispatchAt(AdminRouter, Get, path, header, 3);
    }
    assert Dispatch(AdminRouter, Put, path, header) == Invoke(UpdateUser, map["id" := id], Authenticate(header).value) by {
      FirstMatchIs(rs, Put, path, 4);
      DispatchAt(AdminRouter, Put, path, header, 4);
    }
    assert Dispatch(AdminRouter, Delete, path, header) == Invoke(DeleteUser, map["id" := id], Authenticate(header).value) by {
      FirstMatchIs(rs, Delete, path, 5);
      DispatchAt(AdminRouter, Delete, path, header, 5);
    }
  }

  /** Store listing and details admit normal_user, user and admin, and refuse store_owner. */
  lemma BrowsingRoles(id: string, header: Option<Token>)
    requires id != "" && Authenticate(header).Some?
    ensures var role := Authenticate(header).value.role;
            && (Dispatch(UserRouter, Get, ["stores"], header).Invoke? <==> role in Browsers)
            && (Dispatch(UserRouter, Get, ["stores", id], header).Invoke? <==> role in Browsers)
            && (role == Constants.StoreOwner ==> Dispatch(UserRouter, Get, ["stores"], header) == Forbidden)
            && (role in Browsers ==>
                  Dispatch(UserRouter, Get, ["stores", id], header)
                  == Invoke(GetStoreDetails, map["id" := id], Authenticate(header).value))
  {
    var rs := UserRouter.routes;
    var path := ["stores", id];
    var p := [Lit("stores"), Var("id")];
    assert PatternMatches(rs[0].pattern, ["stores"]);
    FirstMatchIs(rs, Get, ["stores"], 0);
    assert PatternMatches(p, path);
    assert |rs[0].pattern| == 1;
    FirstMatchIs(rs, Get, path, 1);
    assert Bind(p, path) == map["id" := id] by {
      assert p[..1] == [Lit("stores")] && path[..1] == ["stores"];
      assert Bind([Lit("stores")], ["stores"]) == map[];
    }
    assert Constants.StoreOwner !in Browsers;
  }

  /** Submitting, reading one's own and deleting ratings admit normal_user and user only; admin is refused. */
  lemma RatingRoles(id: string, header: Option<Token>)
    requires id != "" && Authenticate(header).Some?
    ensures var role := Authenticate(header).value.role;
            && (Dispatch(UserRouter, Post, ["ratings"], header).Invoke? <==> role in Raters)
            && (Dispatch(UserRouter, Delete, ["ratings", id], header).Invoke? <==> role in Raters)
            && (Dispatch(UserRouter, Get, ["ratings", "store", id], header).Invoke? <==> role in Raters)
            && Constants.Admin !in Raters && Constants.StoreOwner !in Raters
  {
    var rs := UserRouter.routes;
    assert PatternMatches(rs[2].pattern, ["ratings"]);
    FirstMatchIs(rs, Post, ["ratings"], 2);
    assert PatternMatches(rs[5].pattern, ["ratings", id]);
    FirstMatchIs(rs, Delete, ["ratings", id], 5);
    var path := ["ratings", "store", id];
    assert PatternMatches(rs[3].pattern, path);
    LiteralMismatch(rs[1].pattern, path, 0);
    assert |rs[0].pattern| == 1 && |rs[2].pattern| == 1;
    FirstMatchIs(rs, Get, path, 3);
  }

  /** The average-rating endpoint admits normal_user, user and store_owner, and refuses admin. */
  lemma AverageRoles(id: string, header: Option<Token>)
    requires id != "" && Authenticate(header).Some?
    ensures var d := Dispatch(UserRouter, Get, ["stores", id, "average-rating"], header);
            && (d.Invoke? <==> Authenticate(header).value.role in AverageReaders)
            && Constants.Admin !in AverageReaders
            && (d.Invoke? ==> d.handler == GetStoreAverageRating && d.params == map["id" := id])
  {
    var rs := UserRouter.routes;
    var path := ["stores", id, "average-rating"];
    var p := [Lit("stores"), Var("id"), Lit("average-rating")];
    assert PatternMatches(p, path);
    LiteralMismatch(rs[3].pattern, path, 0);
    assert |rs[0].pattern| == 1 && |rs[1].pattern| == 2 && |rs[2].pattern| == 1;
    FirstMatchIs(rs, Get, path, 4);
    assert Bind(p, path) == map["id" := id] by {
      assert p[..2] == [Lit("stores"), Var("id")] && path[..2] == ["stores", id];
      assert p[..2][..1] == [Lit("stores")] && path[..2][..1] == ["stores"];
      assert Bind([Lit("stores")], ["stores"]) == map[];
    }
  }

  /**
   * A store owner reaches the ratings of any store, whoever owns it: the
   * router's only input is the path.
   */
  lemma OwnerReadsAnyStoresRatings(id: string, header: Option<Token>)
    requires id != "" && Authenticate(header).Some? && Authenticate(header).value.role == Constants.StoreOwner
    ensures Dispatch(StoreOwnerRouter, Get, ["dashboard", id, "ratings"], header)
            == Invoke(GetStoreRatings, map["id" := id], Authenticate(header).value)
  {
    var rs := StoreOwnerRouter.routes;
    var path := ["dashboard", id, "ratings"];
    var p := [Lit("dashboard"), Var("id"), Lit("ratings")];
    assert |rs[0].pattern| == 2 && PatternMatches(p, path);
    FirstMatchIs(rs, Get, path, 1);
    assert Bind(p, path) == map["id" := id] by {
      assert p[..2] == [Lit("dashboard"), Var("id")] && path[..2] == ["dashboard", id];
      assert p[..2][..1] == [Lit("dashboard")] && path[..2][..1] == ["dashboard"];
      assert Bind([Lit("dashboard")], ["dashboard"]) == map[];
    }
  }

  /** The dashboard route hands getStoreAverageRating a parameter named storeId only. */
  lemma DashboardParams(r: Router, id: string, header: Option<Token>)
    requires r == StoreOwnerRouter || r == IntendedStoreOwnerRouter
    requires id != "" && Authenticate(header).Some? && Authenticate(header).value.role == Constants.StoreOwner
    ensures Dispatch(r, Get, ["dashboard", id], header)
            == Invoke(GetStoreAverageRating, map[r.routes[0].pattern[1].name := id], Authenticate(header).value)
  {
    var p := r.routes[0].pattern;
    assert Bind(p, ["dashboard", id]) == map[p[1].name := id] by {
      assert p[..1] == [Lit("dashboard")] && ["dashboard", id][..1] == ["dashboard"];
      assert Bind([Lit("dashboard")], ["dashboard"]) == map[];
    }
  }

  /**
   * As written, the owner dashboard's average ignores the store: the handler
   * reads req.params.id, which the route does not declare, so the query
   * binds NULL and every store reads as unrated.
   */
  lemma DashboardAverageIgnoresStore(t: Tables, id: string, header: Option<Token>)
    requires id != "" && Authenticate(header).Some? && Authenticate(header).value.role == Constants.StoreOwner
    ensures var d := Dispatch(StoreOwnerRouter, Get, ["dashboard", id], header);
            && d.Invoke? && d.handler == GetStoreAverageRating
            && RatingController.AverageReply(t, d.params) == Reply(200, Json(RatingController.AverageBody(0.0, 0)))
  {
    DashboardParams(StoreOwnerRouter, id, header);
    assert "id" !in map["storeId" := id];
  }

  /**
   * With the parameter named id, the owner dashboard reports the addressed
   * store's own number of ratings and their average.
   */
  lemma IntendedDashboardAverage(t: Tables, id: string, header: Option<Token>, s: int)
    requires Consistent(t)
    requires id != "" && Authenticate(header).Some? && Authenticate(header).value.role == Constants.StoreOwner
    requires BindInt4(Str(id)) == Ok(Some(s))
    ensures var d := Dispatch(IntendedStoreOwnerRouter, Get, ["dashboard", id], header);
            && d.Invoke? && d.handler == GetStoreAverageRating
            && var r := RatingController.AverageReply(t, d.params);
               && r.status == 200
               && r.body.value.totalRatings == |RatingsOf(t.ratings, s)|
               && (r.body.value.totalRatings > 0 ==> 1.0 <= r.body.value.averageRating <= 5.0)
  {
    DashboardParams(IntendedStoreOwnerRouter, id, header);
    RatingController.AverageMeaning(t, map["id" := id], s);
  }
}
