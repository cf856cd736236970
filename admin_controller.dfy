/**
 * The handlers of /api/admin: the dashboard counts, user creation with an
 * explicit role, the user listing, one user's details, the partial user
 * update and the user deletion. As for the other controllers, each method is
 * proved to answer what the function of the same name (suffix Reply or
 * Outcome) describes, and the lemmas state what the answers mean.
 */
module AdminController {
  import opened Wrappers
  import opened Js
  import opened Seqs
  import opened Sql
  import opened Credentials
  import opened Tables
  import Schema = Tables
  import opened Validators
  import opened Storage
  import opened TableFacts
  import opened Http
  import opened Listing
  import UserList
  import StoreList
  import Constants
  import AuthController

  const InvalidRole: string := "Invalid role"
  const UserNotFound: string := "User not found"

  /** `{ totalUsers, totalStores, totalRatings }`. */
  datatype Dashboard = Dashboard(totalUsers: nat, totalStores: nat, totalRatings: nat)

  /** `{ message, user }`; updateUser answers with `user` undefined when no row has the id. */
  datatype UserSaved = UserSaved(message: string, user: Option<UserRecord>)

  // ---------------------------------------------------------------------
  // getDashboard
  // ---------------------------------------------------------------------

  /** The three totals are the sizes of the three tables. */
  method GetDashboard(db: Database) returns (reply: Reply<Dashboard>)
    ensures reply.status == 200
    ensures reply.body == Json(Dashboard(|db.State().users|, |db.State().stores|, |db.State().ratings|))
  {
    var totalUsers := db.UserCount();
    var totalStores := db.StoreCount();
    var totalRatings := db.RatingCount();
    reply := Reply(200, Json(Dashboard(totalUsers, totalStores, totalRatings)));
  }

  // ---------------------------------------------------------------------
  // addUser
  // ---------------------------------------------------------------------

  /** `Object.values(USER_ROLES).includes(role)`: strict equality with one of the three role strings. */
  predicate KnownRole(role: JsValue) {
    role.Str? && role.s in Constants.UserRoles
  }

  /** addUser once the body and role passed: the duplicate check, then User.create with that role. */
  function Enroll(t: Tables, name: string, email: string, password: string, address: TextValue, role: string, now: int)
    : (Reply<UserSaved>, Tables)
  {
    if UserWithEmail(t.users, email).Some? then (Refuse(400, AuthController.EmailTaken), t)
    else
      var (r, t') := CreateUserOutcome(t, name, email, password, address, Some(role), now);
      match r
      case Err(e) => (Fail(Query(e)), t')
      case Ok(u) => (Reply(201, Json(UserSaved("User created successfully", Some(u)))), t')
  }

  function AddUserOutcome(t: Tables, name: TextValue, email: TextValue, password: TextValue, address: TextValue,
                          role: JsValue, now: int): (Reply<UserSaved>, Tables)
  {
    var d := SignupData(name, email, password, address);
    match SignupErrors(d)
    case Err(e) => (Fail(Thrown(e)), t)
    case Ok(errors) =>
      if errors != [] then (Reply(400, Errors(errors)), t)
      else if !KnownRole(role) then (Refuse(400, InvalidRole), t)
      else
        SignupValidIff(d);
        Enroll(t, name.s, email.s, password.s, address, role.s, now)
  }

  method AddUser(db: Database, name: TextValue, email: TextValue, password: TextValue, address: TextValue,
                 role: JsValue, now: int) returns (reply: Reply<UserSaved>)
    requires db.Valid()
    modifies db
    ensures db.Valid()
    ensures (reply, db.State()) == AddUserOutcome(old(db.State()), name, email, password, address, role, now)
  {
    var d := SignupData(name, email, password, address);
    var validation := ValidateUserSignup(d);
    if validation.Err? {
      return Fail(Thrown(validation.error));
    }
    if !validation.value.valid {
      return Reply(400, Errors(validation.value.errors.value));
    }
    if !KnownRole(role) {
      return Refuse(400, InvalidRole);
    }
    SignupValidIff(d);
    var existing := UserWithEmail(db.users, email.s);
    if existing.Some? {
      return Refuse(400, AuthController.EmailTaken);
    }
    var created := db.CreateUser(name.s, email.s, password.s, address, Some(role.s), now);
    if created.Err? {
      return Fail(Query(created.error));
    }
    reply := Reply(201, Json(UserSaved("User created successfully", Some(created.value))));
  }

  /**
   * Enrolling writes a user only when it answers 201: the account comes
   * last, carries exactly the role asked for, and logs in with the email and
   * password sent; a taken email changes nothing.
   */
  lemma EnrollMeaning(t: Tables, name: string, email: string, password: string, address: TextValue, role: string, now: int)
    requires Consistent(t)
    requires ValidateEmail(Str(email)) && password != ""
    ensures var (r, t') := Enroll(t, name, email, password, address, role, now);
            && Consistent(t')
            && r.status in {201, 400, 500}
            && (r.status != 201 ==> t'.users == t.users)
            && (r.status == 400 ==> t' == t && email in UserEmails(t.users))
            && (r.status == 201 ==>
                  && email !in UserEmails(t.users)
                  && |t'.users| == |t.users| + 1
                  && t'.users[|t.users|].role == role
                  && r.body.value.user == Some(CreatedUser(t'.users[|t.users|]))
                  && var login := AuthController.LoginReply(t', Str(email), Str(password));
                     login.status == 200 && login.body.value.user.id == t'.users[|t.users|].id
                     && login.body.value.user.role == role)
  {
    var (r, t') := Enroll(t, name, email, password, address, role, now);
    CreateUserStoresWhatItReturns(t, name, email, password, address, Some(role), now);
    if UserWithEmail(t.users, email).Some? {
      var u := UserWithEmail(t.users, email).value;
      assert u in t.users;
    }
    if r.status == 201 {
      var row := t'.users[|t.users|];
      assert t'.users == t.users + [row];
      AuthController.NewEmailFindsLast(t.users, row);
    }
  }

  /**
   * addUser's checks in order: the signup validation (address optional),
   * then the role, then enrolling; only the three roles of USER_ROLES pass.
   */
  lemma AddUserMeaning(t: Tables, name: TextValue, email: TextValue, password: TextValue, address: TextValue,
                       role: JsValue, now: int)
    ensures var (r, t') := AddUserOutcome(t, name, email, password, address, role, now);
            var d := SignupData(name, email, password, address);
            && (SignupErrors(d).Err? ==> r == Fail(Thrown(SignupErrors(d).error)) && t' == t)
            && (SignupErrors(d).Ok? && SignupErrors(d).value != [] ==> r == Reply(400, Errors(SignupErrors(d).value)) && t' == t)
            && (SignupErrors(d) == Ok([]) && !KnownRole(role) ==> r == Refuse(400, InvalidRole) && t' == t)
            && (SignupErrors(d) == Ok([]) && KnownRole(role) ==>
                  && ValidateEmail(email) && password.Str? && password.s != ""
                  && (r, t') == Enroll(t, name.s, email.s, password.s, address, role.s, now))
  {
    var d := SignupData(name, email, password, address);
    if SignupErrors(d) == Ok([]) {
      SignupValidIff(d);
    }
  }

  /** The role "user" that signup assigns is refused here, even with an otherwise valid body. */
  lemma PlainUserRoleRefused(t: Tables, name: TextValue, email: TextValue, password: TextValue, address: TextValue, now: int)
    requires SignupErrors(SignupData(name, email, password, address)) == Ok([])
    ensures AddUserOutcome(t, name, email, password, address, Str(Constants.PlainUser), now) == (Refuse(400, InvalidRole), t)
  {
    Constants.RolesAreDistinct();
  }

  // ---------------------------------------------------------------------
  // getUsers
  // ---------------------------------------------------------------------

  /** The query string of GET /admin/users. */
  datatype UserQuery = UserQuery(name: Option<string>, email: Option<string>, address: Option<string>,
                                 role: Option<string>, sortBy: Option<string>, sortOrder: Option<string>,
                                 page: Option<string>, limit: Option<string>)

  /** sortBy defaults to "id" and sortOrder to "asc"; the other filters are passed on as they are. */
  function UserFiltersOf(q: UserQuery): (f: UserList.UserFilters)
    ensures f.sortBy.Some? && f.sortBy.value != "" && f.sortOrder.Some?
    ensures q.sortBy.None? ==> f.sortBy == Some("id")
    ensures q.sortOrder.None? ==> f.sortOrder == Some("asc")
    ensures f.name == q.name && f.email == q.email && f.address == q.address && f.role == q.role
  {
    UserList.UserFilters(q.name, q.email, q.address, q.role, Some(TextOr(q.sortBy, "id")), Some(TextOr(q.sortOrder, "asc")))
  }

  function UsersReply(t: Tables, q: UserQuery): Reply<UserList.ListPage<UserList.UserSummary>> {
    match UserList.UserListing(t, UserFiltersOf(q), IntOr(q.page, 1), IntOr(q.limit, 10))
    case Err(e) => Fail(Query(e))
    case Ok(listing) => Reply(200, Json(listing))
  }

  method GetUsers(db: Database, q: UserQuery) returns (reply: Reply<UserList.ListPage<UserList.UserSummary>>)
    ensures reply == UsersReply(db.State(), q)
  {
    var page := IntOr(q.page, 1);
    var limit := IntOr(q.limit, 10);
    var filters := UserList.UserFilters(q.name, q.email, q.address, q.role, Some(TextOr(q.sortBy, "id")),
                                        Some(TextOr(q.sortOrder, "asc")));
    var listing := db.GetAllUsers(filters, page, limit);
    if listing.Err? {
      return Fail(Query(listing.error));
    }
    reply := Reply(200, Json(listing.value));
  }

  /** Without sortBy the users are ordered by id, descending only for sortOrder=desc. */
  lemma DefaultUserOrder(q: UserQuery)
    requires q.sortBy.None?
    ensures UserList.UserOrderBy(UserFiltersOf(q)) == ("id", q.sortOrder == Some("desc"))
  {
    var f := UserFiltersOf(q);
    assert f.sortBy == Some("id") && (f.sortOrder == Some("desc") <==> q.sortOrder == Some("desc"));
    assert UserList.SortAccepted(f) by { assert "id" in UserList.UserSortFields; }
  }

  /**
   * With a known sortBy the listing is the page of the matching users in that
   * order, and its total counts every matching user.
   */
  lemma UsersMeaning(t: Tables, q: UserQuery)
    requires q.sortBy.None? || q.sortBy.value in UserList.UserSortFields || q.sortBy.value !in ObjectPrototypeKeys
    ensures var r := UsersReply(t, q);
            var expected := UserList.ExpectedUserListing(t, UserFiltersOf(q), IntOr(q.page, 1), IntOr(q.limit, 10));
            && (r.status == 200 <==> expected.Ok?)
            && (r.status == 200 ==> r.body == Json(expected.value))
  {
    var f := UserFiltersOf(q);
    var page, limit := IntOr(q.page, 1), IntOr(q.limit, 10);
    UserList.UserListingMeaning(t, f, page, limit);
    var listing := UserList.UserListing(t, f, page, limit);
    assert UsersReply(t, q) == if listing.Err? then Fail(Query(listing.error)) else Reply(200, Json(listing.value));
  }

  // ---------------------------------------------------------------------
  // getUserDetails
  // ---------------------------------------------------------------------

  /** The user, plus storeRating and storeId when a store of theirs was found. */
  datatype UserDetails = UserDetails(user: PublicUser, storeRating: Option<real>, storeId: Option<int>)

  /** `arr.find(p)`: the first element that satisfies p. */
  function FirstWhere<T>(s: seq<T>, p: T -> bool): (r: Option<T>)
    ensures r.Some? <==> exists i :: 0 <= i < |s| && p(s[i])
    ensures r.Some? ==> r.value in s && p(r.value)
  {
    var i := IndexWhere(s, p);
    if i < |s| then Some(s[i]) else None
  }

  /** `Store.getAll({ sortBy: "id" }, 1, 1000)`: the first thousand stores by id, without a caller. */
  const OwnerScan: StoreList.StoreFilters := StoreList.StoreFilters(None, None, None, Some("id"), None)
  const OwnerScanLimit: int := 1000

  /** The details answer, given how a listed store is matched with the route's id. */
  function DetailsWith(t: Tables, params: map<string, string>, owns: (StoreList.StoreSummary, JsValue) -> bool)
    : Reply<UserDetails>
  {
    var userId := RouteParam(params, "id");
    match UserById(t, userId)
    case Err(e) => Fail(Query(e))
    case Ok(None) => Refuse(404, UserNotFound)
    case Ok(Some(user)) =>
      if user.role != Constants.StoreOwner then Reply(200, Json(UserDetails(user, None, None)))
      else OwnerDetails(t, user, userId, owns)
  }

  /** A store owner's details: the owner scan, then the first listed store that matches the route's id. */
  function OwnerDetails(t: Tables, user: PublicUser, userId: JsValue,
                        owns: (StoreList.StoreSummary, JsValue) -> bool): Reply<UserDetails>
  {
    match StoreList.StoreListing(t, OwnerScan, 1, OwnerScanLimit, None)
    case Err(e) => Fail(Query(e))
    case Ok(listing) =>
      WithStore(user, FirstWhere(listing.data, (s: StoreList.StoreSummary) => owns(s, userId)))
  }

  /** `res.json(user)`, with storeRating and storeId copied from the store found, if any. */
  function WithStore(user: PublicUser, found: Option<StoreList.StoreSummary>): (r: Reply<UserDetails>)
    ensures r.status == 200 && r.body.Json? && r.body.value.user == user
    ensures r.body.value.storeId.Some? <==> found.Some?
    ensures found.Some? ==> r.body.value.storeId == Some(found.value.id) && r.body.value.storeRating == Some(found.value.rating)
  {
    match found
    case None => Reply(200, Json(UserDetails(user, None, None)))
    case Some(store) => Reply(200, Json(UserDetails(user, Some(store.rating), Some(store.id))))
  }

  /** `s.owner_id === userId`: a number against the route's string, strictly. */
  predicate OwnerIsParam(s: StoreList.StoreSummary, userId: JsValue) {
    Num(s.ownerId as real) == userId
  }

  /** `s.owner_id === parseInt(userId)`: the comparison the lookup evidently intends. */
  predicate OwnerIsParsedParam(s: StoreList.StoreSummary, userId: JsValue) {
    ParamInt(userId) == Some(s.ownerId)
  }

  /** getUserDetails as written. */
  function UserDetailsReply(t: Tables, params: map<string, string>): Reply<UserDetails> {
    DetailsWith(t, params, OwnerIsParam)
  }

  /** getUserDetails with the owner compared to the parsed id. */
  function IntendedUserDetailsReply(t: Tables, params: map<string, string>): Reply<UserDetails> {
    DetailsWith(t, params, OwnerIsParsedParam)
  }

  method GetUserDetails(db: Database, params: map<string, string>) returns (reply: Reply<UserDetails>)
    ensures reply == UserDetailsReply(db.State(), params)
  {
    var userId := RouteParam(params, "id");
    var found := UserById(db.State(), userId);
    if found.Err? {
      return Fail(Query(found.error));
    }
    if found.value.None? {
      return Refuse(404, UserNotFound);
    }
    var user := found.value.value;
    reply := Reply(200, Json(UserDetails(user, None, None)));
    if user.role == Constants.StoreOwner {
      var storeResult := db.GetAllStores(OwnerScan, 1, OwnerScanLimit, None);
      if storeResult.Err? {
        return Fail(Query(storeResult.error));
      }
      var store := FirstWhere(storeResult.value.data, (s: StoreList.StoreSummary) => OwnerIsParam(s, userId));
      reply := WithStore(user, store);
    }
  }

  /**
   * Apart from the store fields, both versions answer alike: 404 exactly for
   * an id that binds to no user, and the user's own public columns otherwise.
   */
  lemma UserDetailsMeaning(t: Tables, params: map<string, string>, k: int)
    requires BindInt4(RouteParam(params, "id")) == Ok(Some(k))
    ensures var r := UserDetailsReply(t, params);
            && (r.status == 404 <==> k !in UserIds(t.users))
            && (r.status == 404 ==> r == Refuse(404, UserNotFound))
            && (r.status == 200 ==> r.body.value.user == Public(UserWithId(t.users, k).value)
                                    && r.body.value.user.id == k)
            && (UserWithId(t.users, k).Some? && UserWithId(t.users, k).value.role != Constants.StoreOwner ==>
                  r == Reply(200, Json(UserDetails(Public(UserWithId(t.users, k).value), None, None))))
  {
  }

  /**
   * As written, the store lookup never matches: the route's id is a string
   * or undefined, never the number owner_id holds, so no store is reported.
   */
  lemma OwnerStoreNeverAttached(t: Tables, params: map<string, string>)
    ensures var r := UserDetailsReply(t, params);
            r.status == 200 ==> r.body.value.storeId.None? && r.body.value.storeRating.None?
  {
    var userId := RouteParam(params, "id");
    assert !userId.Num?;
    match UserById(t, userId)
    case Ok(Some(user)) =>
      if user.role == Constants.StoreOwner {
        match StoreList.StoreListing(t, OwnerScan, 1, OwnerScanLimit, None)
        case Err(_) =>
        case Ok(listing) =>
          var found := FirstWhere(listing.data, (s: StoreList.StoreSummary) => OwnerIsParam(s, userId));
          assert found == None;
          assert OwnerDetails(t, user, userId, OwnerIsParam) == Reply(200, Json(UserDetails(user, None, None)));
      }
    case _ =>
  }

  /** The owner scan lists every store once the table holds at most a thousand. */
  lemma OwnerScanListsAll(t: Tables, s: StoreRow)
    requires s in t.stores && |t.stores| <= OwnerScanLimit
    ensures var r := StoreList.StoreListing(t, OwnerScan, 1, OwnerScanLimit, None);
            r.Ok? && StoreList.Summary(StoreList.GroupOf(t, None, s)) in r.value.data
  {
    StoreList.StoreListingMeaning(t, OwnerScan, 1, OwnerScanLimit, None);
    var matching := StoreList.MatchingStores(t, OwnerScan);
    assert s in matching;
    var group := (x: StoreRow) => StoreList.GroupOf(t, None, x);
    var rows := Map(matching, group);
    var i :| 0 <= i < |matching| && matching[i] == s;
    assert rows[i] == StoreList.GroupOf(t, None, s);
    var sorted := StoreList.SortedGroups(t, OwnerScan, None);
    assert multiset(sorted) == multiset(rows);
    assert rows[i] in multiset(rows);
    var j :| 0 <= j < |sorted| && sorted[j] == rows[i];
    var window := Window(sorted, OwnerScanLimit, 0);
    assert window[j] == sorted[j];
    var data := Map(window, StoreList.Summary);
    assert data[j] == StoreList.Summary(StoreList.GroupOf(t, None, s));
  }

  /**
   * With the parsed comparison, the store a store owner's details report is
   * one they own, with its average rating.
   */
  lemma IntendedStoreIsOwned(t: Tables, user: PublicUser, userId: JsValue, k: int)
    requires ParamInt(userId) == Some(k)
    ensures var r := OwnerDetails(t, user, userId, OwnerIsParsedParam);
            r.status == 200 && r.body.value.storeId.Some? ==>
              && r.body.value.storeId.value in OwnedStoreIds(t.stores, k)
              && exists s :: s in t.stores && s.id == r.body.value.storeId.value && s.ownerId == k
                   && r.body.value.storeRating == Some(Average(RatingsOf(t.ratings, s.id)))
  {
    var owns := (x: StoreList.StoreSummary) => OwnerIsParsedParam(x, userId);
    var listing := StoreList.StoreListing(t, OwnerScan, 1, OwnerScanLimit, None);
    if listing.Ok? {
      var found := FirstWhere(listing.value.data, owns);
      if found.Some? {
        var s := ListedStore(t, found.value);
        assert s.ownerId == k;
      }
    }
  }

  /** A store the owner scan lists is a row of the table, with its average rating. */
  lemma ListedStore(t: Tables, d: StoreList.StoreSummary) returns (s: StoreRow)
    requires StoreList.StoreListing(t, OwnerScan, 1, OwnerScanLimit, None).Ok?
    requires d in StoreList.StoreListing(t, OwnerScan, 1, OwnerScanLimit, None).value.data
    ensures s in t.stores && d == StoreList.Summary(StoreList.GroupOf(t, None, s))
    ensures d.id == s.id && d.ownerId == s.ownerId && d.rating == Average(RatingsOf(t.ratings, s.id))
  {
    StoreList.StoreListingMeaning(t, OwnerScan, 1, OwnerScanLimit, None);
    var data := StoreList.StoreListing(t, OwnerScan, 1, OwnerScanLimit, None).value.data;
    var sorted := StoreList.SortedGroups(t, OwnerScan, None);
    var matching := StoreList.MatchingStores(t, OwnerScan);
    var rows := Map(matching, (x: StoreRow) => StoreList.GroupOf(t, None, x));
    assert multiset(sorted) == multiset(rows);
    assert data == Map(Window(sorted, OwnerScanLimit, 0), StoreList.Summary);
    var i :| 0 <= i < |data| && data[i] == d;
    var g := sorted[i];
    assert d == StoreList.Summary(g);
    assert g in multiset(rows);
    var j :| 0 <= j < |rows| && rows[j] == g;
    s := matching[j];
  }

  /**
   * With the parsed comparison, a store owner who owns a store is reported
   * with one whenever the table holds at most a thousand stores.
   */
  lemma IntendedStoreFound(t: Tables, user: PublicUser, userId: JsValue, k: int)
    requires ParamInt(userId) == Some(k)
    requires OwnedStoreIds(t.stores, k) != {} && |t.stores| <= OwnerScanLimit
    ensures var r := OwnerDetails(t, user, userId, OwnerIsParsedParam);
            r.status == 200 && r.body.value.storeId.Some?
  {
    var owns := (x: StoreList.StoreSummary) => OwnerIsParsedParam(x, userId);
    var id :| id in OwnedStoreIds(t.stores, k);
    var s :| s in t.stores && s.ownerId == k && s.id == id;
    OwnerScanListsAll(t, s);
    var listing := StoreList.StoreListing(t, OwnerScan, 1, OwnerScanLimit, None);
    var d := StoreList.Summary(StoreList.GroupOf(t, None, s));
    var i :| 0 <= i < |listing.value.data| && listing.value.data[i] == d;
    assert owns(listing.value.data[i]);
  }

  /**
   * The corrected details: a store owner's answer carries a store exactly
   * when one they own is among the first thousand listed, and always when
   * they own one and the table is no larger; other users answer as before.
   */
  lemma IntendedUserDetailsMeaning(t: Tables, params: map<string, string>, k: int)
    requires BindInt4(RouteParam(params, "id")) == Ok(Some(k)) && ParamInt(RouteParam(params, "id")) == Some(k)
    ensures var r := IntendedUserDetailsReply(t, params);
            && (k !in UserIds(t.users) ==> r == Refuse(404, UserNotFound))
            && (k in UserIds(t.users) && UserWithId(t.users, k).value.role != Constants.StoreOwner ==>
                  r == UserDetailsReply(t, params))
            && (k in UserIds(t.users) && UserWithId(t.users, k).value.role == Constants.StoreOwner ==>
                  r == OwnerDetails(t, Public(UserWithId(t.users, k).value), RouteParam(params, "id"), OwnerIsParsedParam))
  {
    var u := UserWithId(t.users, k);
    if u.None? {
      assert UserById(t, RouteParam(params, "id")) == Ok(None);
    } else {
      assert UserById(t, RouteParam(params, "id")) == Ok(Some(Public(u.value)));
    }
  }

  // ---------------------------------------------------------------------
  // updateUser
  // ---------------------------------------------------------------------

  /** updateUser's checks, each only for a truthy field: the name, the email's format and owner, the address. */
  function UserUpdateCheck(t: Tables, userId: JsValue, name: TextValue, email: TextValue, address: TextValue)
    : (r: Option<string>)
  {
    if Truthy(name) && ValidateName(name).Invalid? then Some(ValidateName(name).error)
    else if Truthy(email) && !ValidateEmail(email) then Some(InvalidEmailFormat)
    else if Truthy(email) && UserWithEmail(t.users, email.s).Some?
            && ParamInt(userId) != Some(UserWithEmail(t.users, email.s).value.id) then Some(AuthController.EmailTaken)
    else if Truthy(address) && ValidateAddress(address.s).Invalid? then Some(ValidateAddress(address.s).error)
    else None
  }

  /** The patch User.update receives: the three fields as sent, and no password. */
  function ProfilePatch(name: TextValue, email: TextValue, address: TextValue): (p: UserPatch)
    ensures p.password.None?
  {
    UserPatch(name, email, None, address)
  }

  function UpdateUserReplyOutcome(t: Tables, params: map<string, string>, name: TextValue, email: TextValue,
                                  address: TextValue, now: int): (Reply<UserSaved>, Tables)
  {
    var userId := RouteParam(params, "id");
    match UserUpdateCheck(t, userId, name, email, address)
    case Some(message) => (Refuse(400, message), t)
    case None => SaveUserOutcome(t, userId, ProfilePatch(name, email, address), now)
  }

  /** updateUser once its checks passed: User.update, answered 200 with whatever row it returned. */
  function SaveUserOutcome(t: Tables, userId: JsValue, p: UserPatch, now: int): (Reply<UserSaved>, Tables) {
    var (r, t') := UpdateUserOutcome(t, userId, p, now);
    if r.Err? then (Fail(Query(r.error)), t')
    else (Reply(200, Json(UserSaved("User updated successfully", r.value))), t')
  }

  method SaveUser(db: Database, userId: JsValue, p: UserPatch, now: int) returns (reply: Reply<UserSaved>)
    requires db.Valid()
    modifies db
    ensures db.Valid()
    ensures (reply, db.State()) == SaveUserOutcome(old(db.State()), userId, p, now)
  {
    var updated := db.UpdateUser(userId, p, now);
    if updated.Err? {
      return Fail(Query(updated.error));
    }
    reply := Reply(200, Json(UserSaved("User updated successfully", updated.value)));
  }

  method UpdateUser(db: Database, params: map<string, string>, name: TextValue, email: TextValue, address: TextValue,
                    now: int) returns (reply: Reply<UserSaved>)
    requires db.Valid()
    modifies db
    ensures db.Valid()
    ensures (reply, db.State()) == UpdateUserReplyOutcome(old(db.State()), params, name, email, address, now)
  {
    var userId := RouteParam(params, "id");
    if Truthy(name) {
      var nameValidation := ValidateName(name);
      if nameValidation.Invalid? {
        return Refuse(400, nameValidation.error);
      }
    }
    if Truthy(email) {
      if !ValidateEmail(email) {
        return Refuse(400, InvalidEmailFormat);
      }
      var existing := UserWithEmail(db.users, email.s);
      if existing.Some? && ParamInt(userId) != Some(existing.value.id) {
        return Refuse(400, AuthController.EmailTaken);
      }
    }
    if Truthy(address) {
      var addressValidation := ValidateAddress(address.s);
      if addressValidation.Invalid? {
        return Refuse(400, addressValidation.error);
      }
    }
    assert UserUpdateCheck(db.State(), userId, name, email, address) == None;
    reply := SaveUser(db, userId, ProfilePatch(name, email, address), now);
  }

  /**
   * A refused update changes nothing; a 200 rewrites at most the addressed
   * user, never their role or password, and leaves alone every field the
   * body omits. A 200 is also the answer when no user has the id.
   */
  lemma UpdateUserMeaning(t: Tables, params: map<string, string>, name: TextValue, email: TextValue,
                          address: TextValue, now: int)
    requires Consistent(t)
    ensures var (r, t') := UpdateUserReplyOutcome(t, params, name, email, address, now);
            var check := UserUpdateCheck(t, RouteParam(params, "id"), name, email, address);
            && Consistent(t')
            && |t'.users| == |t.users| && t'.stores == t.stores && t'.ratings == t.ratings
            && (check.Some? ==> r == Refuse(400, check.value) && t' == t)
            && r.status in {200, 400, 500}
            && (r.status == 200 ==> r.body.Json?)
            && (r.status != 200 ==> t' == t)
            && (r.status == 200 && r.body.value.user.None? ==> t' == t)
            && (r.status == 200 && r.body.value.user.Some? ==>
                  var rec := r.body.value.user.value;
                  && BindInt4(RouteParam(params, "id")) == Ok(Some(rec.id))
                  && exists i :: 0 <= i < |t.users| && t.users[i].id == rec.id
                       && t'.users == t.users[i := t'.users[i]]
                       && t'.users[i].role == t.users[i].role && rec.role == t.users[i].role
                       && t'.users[i].password == t.users[i].password
                       && (name.Undefined? ==> t'.users[i].name == t.users[i].name)
                       && (email.Undefined? ==> t'.users[i].email == t.users[i].email)
                       && (address.Undefined? ==> t'.users[i].address == t.users[i].address))
  {
    var userId := RouteParam(params, "id");
    var p := ProfilePatch(name, email, address);
    var check := UserUpdateCheck(t, userId, name, email, address);
    if check.Some? {
      assert UpdateUserReplyOutcome(t, params, name, email, address, now) == (Refuse(400, check.value), t);
    } else {
      UpdateUserKeepsConsistent(t, userId, p, now);
      var (u, t2) := Schema.UpdateUser(t, userId, p, now);
      if u.Err? {
        assert UpdateUserReplyOutcome(t, params, name, email, address, now) == (Fail(Query(u.error)), t);
      } else if u.value.None? {
        assert UpdateUserReplyOutcome(t, params, name, email, address, now)
            == (Reply(200, Json(UserSaved("User updated successfully", None))), t);
      } else {
        var row := u.value.value;
        assert UpdateUserReplyOutcome(t, params, name, email, address, now)
            == (Reply(200, Json(UserSaved("User updated successfully", Some(UpdatedUser(row))))), t2);
        var i :| 0 <= i < |t.users| && t2.users == t.users[i := row]
                 && t.users[i].id == row.id && t.users[i].role == row.role
                 && (p.password.None? ==> row.password == t.users[i].password)
                 && (p.name.Undefined? ==> row.name == t.users[i].name)
                 && (p.email.Undefined? ==> row.email == t.users[i].email)
                 && (p.address.Undefined? ==> row.address == t.users[i].address);
        assert t2.users[i] == row;
      }
    }
  }

  /** An id that binds to no user passes every check of an empty body and is answered 200 with no user. */
  lemma MissingUserUpdated(t: Tables, params: map<string, string>, k: int, now: int)
    requires BindInt4(RouteParam(params, "id")) == Ok(Some(k)) && k !in UserIds(t.users)
    ensures UpdateUserReplyOutcome(t, params, Undefined, Undefined, Undefined, now)
            == (Reply(200, Json(UserSaved("User updated successfully", None))), t)
  {
  }

  /**
   * A falsy name skips validation: `{ name: "" }` for an existing user
   * answers 200 and stores the empty name.
   */
  lemma EmptyUserNameStored(t: Tables, params: map<string, string>, k: nat, now: int)
    requires Consistent(t) && k < |t.users|
    requires BindInt4(RouteParam(params, "id")) == Ok(Some(t.users[k].id))
    ensures var (r, t') := UpdateUserReplyOutcome(t, params, Str(""), Undefined, Undefined, now);
            r.status == 200 && |t'.users| == |t.users| && t'.users[k].name == ""
  {
    var userId := RouteParam(params, "id");
    var p := ProfilePatch(Str(""), Undefined, Undefined);
    EmptyNamePatch(t, userId, k, now);
    assert UserUpdateCheck(t, userId, Str(""), Undefined, Undefined) == None;
    assert UpdateUserReplyOutcome(t, params, Str(""), Undefined, Undefined, now) == SaveUserOutcome(t, userId, p, now);
  }

  /** User.update with only an empty name overwrites the addressed row's name. */
  lemma EmptyNamePatch(t: Tables, userId: JsValue, k: nat, now: int)
    requires Consistent(t) && k < |t.users|
    requires BindInt4(userId) == Ok(Some(t.users[k].id))
    ensures var (u, t') := Schema.UpdateUser(t, userId, ProfilePatch(Str(""), Undefined, Undefined), now);
            && u.Ok? && u.value.Some?
            && t'.users == t.users[k := t.users[k].(name := "", updatedAt := now)]
  {
    var p := ProfilePatch(Str(""), Undefined, Undefined);
    var id := t.users[k].id;
    assert t.users[k] in t.users;
    var i := IndexWhere(t.users, (u: UserRow) => u.id == id);
    assert i == k by {
      assert i <= k;
      assert t.users[i].id == id;
    }
    var row := t.users[k].(name := "", updatedAt := now);
    assert PatchUser(t.users[k], p, now) == Ok(row);
    assert forall j :: 0 <= j < |t.users| && j != k ==> t.users[j].email != row.email;
  }

  // ---------------------------------------------------------------------
  // deleteUser
  // ---------------------------------------------------------------------

  function DeleteUserReplyOutcome(t: Tables, params: map<string, string>): (Reply<Notice>, Tables) {
    var (r, t') := Schema.DeleteUser(t, RouteParam(params, "id"));
    if r.Err? then (Fail(Query(r.error)), t')
    else if r.value.None? then (Refuse(404, UserNotFound), t')
    else (Reply(200, Json(Notice("User deleted successfully"))), t')
  }

  method DeleteUser(db: Database, params: map<string, string>) returns (reply: Reply<Notice>)
    requires db.Valid()
    modifies db
    ensures db.Valid()
    ensures (reply, db.State()) == DeleteUserReplyOutcome(old(db.State()), params)
  {
    var deleted := db.DeleteUser(RouteParam(params, "id"));
    if deleted.Err? {
      return Fail(Query(deleted.error));
    }
    if deleted.value.None? {
      return Refuse(404, UserNotFound);
    }
    reply := Reply(200, Json(Notice("User deleted successfully")));
  }

  /**
   * For an id that binds, the user is deleted exactly when they exist, and
   * the deletion cascades to their stores and to every rating by them or of
   * those stores; otherwise the answer is 404 and nothing changes.
   */
  lemma DeleteUserMeaning(t: Tables, params: map<string, string>, k: int)
    requires Consistent(t)
    requires BindInt4(RouteParam(params, "id")) == Ok(Some(k))
    ensures var (r, t') := DeleteUserReplyOutcome(t, params);
            && Consistent(t')
            && (r.status == 200 <==> k in UserIds(t.users))
            && (r.status != 200 ==> r == Refuse(404, UserNotFound) && t' == t)
            && (r.status == 200 ==>
                  && UserIds(t'.users) == UserIds(t.users) - {k}
                  && (forall s :: s in t'.stores ==> s.ownerId != k)
                  && (forall x :: x in t'.ratings ==> x.userId != k && x.storeId !in OwnedStoreIds(t.stores, k)))
  {
    DeleteUserCascades(t, RouteParam(params, "id"));
    if k in UserIds(t.users) {
      RemoveUserKeepsConsistent(t, k);
    }
  }
}
