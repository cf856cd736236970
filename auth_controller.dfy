/**
 * The handlers of /api/auth: login, signup and update-password. Each is a
 * sequence of early-return guards ending in a read or a write of the
 * database; each method is proved to answer what the function of the same
 * name (suffix Reply or Outcome) describes, and the lemmas below state what
 * those answers mean.
 */
module AuthController {
  import opened Wrappers
  import opened Js
  import opened Sql
  import opened Credentials
  import opened Tables
  import opened Validators
  import opened Storage
  import opened TableFacts
  import opened Http
  import Constants

  const CredentialsRequired: string := "Email and password required"
  const CredentialsRejected: string := "Invalid email or password"
  const EmailTaken: string := "Email already registered"
  const PasswordsRequired: string := "Old and new password required"
  const UserNotFound: string := "User not found"
  const OldPasswordWrong: string := "Old password is incorrect"

  /** The `user` object login and signup answer with; storeId only for a store owner who owns a store. */
  datatype SessionUser = SessionUser(id: int, name: string, email: string, role: string,
                                     address: Option<string>, storeId: Option<int>)

  /** `{ message, token, user }`. */
  datatype Session = Session(message: string, token: Token, user: SessionUser)

  /** generateToken(user): the id, email and role, signed. */
  function TokenFor(id: int, email: string, role: string): (tok: Token)
    ensures VerifyToken(tok) == Some(Claims(id, email, role))
  {
    TokenRoundTrip(Claims(id, email, role));
    Credentials.Sign(Claims(id, email, role))
  }

  /** The storeId login adds for a store owner: the first row of `SELECT id FROM stores WHERE owner_id = $1`. */
  function SessionStore(t: Tables, u: UserRow): (r: Option<int>)
    ensures r.Some? ==> u.role == Constants.StoreOwner && r.value in OwnedStoreIds(t.stores, u.id)
    ensures u.role == Constants.StoreOwner && OwnedStoreIds(t.stores, u.id) != {} ==> r.Some?
  {
    if u.role == Constants.StoreOwner then
      var ids := StoreIdsOwnedBy(t.stores, u.id);
      if ids != [] then
        assert ids[0] in ids;
        Some(ids[0])
      else
        assert forall k :: k !in OwnedStoreIds(t.stores, u.id);
        None
    else None
  }

  // ---------------------------------------------------------------------
  // login
  // ---------------------------------------------------------------------

  function LoginReply(t: Tables, email: TextValue, password: TextValue): Reply<Session> {
    if !Truthy(email) || !Truthy(password) then Refuse(400, CredentialsRequired)
    else if !ValidateEmail(email) then Refuse(400, InvalidEmailFormat)
    else
      match UserWithEmail(t.users, email.s)
      case None => Refuse(401, CredentialsRejected)
      case Some(u) =>
        if !Matches(password.s, u.password) then Refuse(401, CredentialsRejected)
        else
          Reply(200, Json(Session("Login successful", TokenFor(u.id, u.email, u.role),
                                  SessionUser(u.id, u.name, u.email, u.role, u.address, SessionStore(t, u)))))
  }

  method Login(db: Database, email: TextValue, password: TextValue) returns (reply: Reply<Session>)
    ensures reply == LoginReply(db.State(), email, password)
  {
    if !Truthy(email) || !Truthy(password) {
      return Refuse(400, CredentialsRequired);
    }
    if !ValidateEmail(email) {
      return Refuse(400, InvalidEmailFormat);
    }
    var user := UserWithEmail(db.users, email.s);
    if user.None? {
      return Refuse(401, CredentialsRejected);
    }
    var u := user.value;
    if !Matches(password.s, u.password) {
      return Refuse(401, CredentialsRejected);
    }
    var token := TokenFor(u.id, u.email, u.role);
    var storeId: Option<int> := None;
    if u.role == Constants.StoreOwner {
      var ids := StoreIdsOwnedBy(db.stores, u.id);
      if |ids| > 0 {
        storeId := Some(ids[0]);
      }
    }
    reply := Reply(200, Json(Session("Login successful", token,
                                     SessionUser(u.id, u.name, u.email, u.role, u.address, storeId))));
  }

  /**
   * Login succeeds exactly for the stored password of the account with that
   * email; the token carries that account's id, email and role, and a store
   * owner gets the id of one of the stores they own.
   */
  lemma LoginSucceedsIff(t: Tables, email: string, password: TextValue)
    requires Consistent(t)
    requires ValidateEmail(Str(email))
    ensures var r := LoginReply(t, Str(email), password);
            && (r.status == 200 <==> Truthy(password) && exists u :: u in t.users && u.email == email && Matches(password.s, u.password))
            && (r.status == 200 ==>
                  var u := UserWithEmail(t.users, email).value;
                  var s := r.body.value;
                  && VerifyToken(s.token) == Some(Claims(u.id, u.email, u.role))
                  && s.user.id == u.id && s.user.role == u.role
                  && (s.user.storeId.Some? <==> u.role == Constants.StoreOwner && OwnedStoreIds(t.stores, u.id) != {})
                  && (s.user.storeId.Some? ==> s.user.storeId.value in OwnedStoreIds(t.stores, u.id)))
  {
    LoginStatus(t, email, password);
    if LoginReply(t, Str(email), password).status == 200 {
      LoginSession(t, email, password);
    }
  }

  /** Login answers 200 exactly when some account has the email and the password matches its hash. */
  lemma LoginStatus(t: Tables, email: string, password: TextValue)
    requires Consistent(t)
    requires ValidateEmail(Str(email))
    ensures LoginReply(t, Str(email), password).status == 200
            <==> Truthy(password) && exists u :: u in t.users && u.email == email && Matches(password.s, u.password)
  {
    match UserWithEmail(t.users, email)
    case None =>
      assert forall u :: u in t.users ==> u.email != email by {
        forall u | u in t.users ensures u.email != email {
          assert u.email in UserEmails(t.users);
        }
      }
    case Some(found) =>
      forall u | u in t.users && u.email == email ensures u == found {
        var i :| 0 <= i < |t.users| && t.users[i] == u;
        EmailFindsRow(t, i);
      }
  }

  /** A successful login's session describes the account found by email. */
  lemma LoginSession(t: Tables, email: string, password: TextValue)
    requires Consistent(t)
    requires LoginReply(t, Str(email), password).status == 200
    ensures var r := LoginReply(t, Str(email), password);
            var u := UserWithEmail(t.users, email).value;
            && r.body.Json?
            && var s := r.body.value;
            && VerifyToken(s.token) == Some(Claims(u.id, u.email, u.role))
            && s.user.id == u.id && s.user.role == u.role
            && (s.user.storeId.Some? <==> u.role == Constants.StoreOwner && OwnedStoreIds(t.stores, u.id) != {})
            && (s.user.storeId.Some? ==> s.user.storeId.value in OwnedStoreIds(t.stores, u.id))
  {
    var u := UserWithEmail(t.users, email).value;
    var store := SessionStore(t, u);
    assert LoginReply(t, Str(email), password).body.value.user.storeId == store;
  }

  /** An unknown email and a wrong password get the very same answer. */
  lemma LoginFailuresLookAlike(t: Tables, email: string, password: string, wrong: string)
    requires ValidateEmail(Str(email)) && password != "" && wrong != ""
    requires UserWithEmail(t.users, email).Some? ==> !Matches(wrong, UserWithEmail(t.users, email).value.password)
    ensures LoginReply(t, Str(email), Str(wrong)) == Refuse(401, CredentialsRejected)
    ensures UserWithEmail(t.users, email).None? ==> LoginReply(t, Str(email), Str(password)) == LoginReply(t, Str(email), Str(wrong))
  {
  }

  /** The guards run in order: both credentials present, then the email's format, then the lookup. */
  lemma LoginGuardOrder(t: Tables, email: TextValue, password: TextValue)
    ensures !Truthy(email) || !Truthy(password) ==> LoginReply(t, email, password) == Refuse(400, CredentialsRequired)
    ensures Truthy(email) && Truthy(password) && !ValidateEmail(email) ==>
              LoginReply(t, email, password) == Refuse(400, InvalidEmailFormat)
    ensures LoginReply(t, email, password).status in {200, 400, 401}
  {
  }

  // ---------------------------------------------------------------------
  // signup
  // ---------------------------------------------------------------------

  /** Signup after validation: the duplicate check, then User.create with the role "user". */
  function Register(t: Tables, name: string, email: string, password: string, address: TextValue, now: int)
    : (Reply<Session>, Tables)
  {
    if UserWithEmail(t.users, email).Some? then (Refuse(400, EmailTaken), t)
    else
      var (r, t') := CreateUserOutcome(t, name, email, password, address, Some(Constants.PlainUser), now);
      match r
      case Err(e) => (Fail(Query(e)), t')
      case Ok(u) =>
        (Reply(201, Json(Session("Signup successful", TokenFor(u.id, u.email, u.role),
                                 SessionUser(u.id, u.name, u.email, u.role, u.address, None)))), t')
  }

  function SignupOutcome(t: Tables, name: TextValue, email: TextValue, password: TextValue, address: TextValue, now: int)
    : (Reply<Session>, Tables)
  {
    var d := SignupData(name, email, password, address);
    match SignupErrors(d)
    case Err(e) => (Fail(Thrown(e)), t)
    case Ok(errors) =>
      if errors != [] then (Reply(400, Errors(errors)), t)
      else
        SignupValidIff(d);
        Register(t, name.s, email.s, password.s, address, now)
  }

  method Signup(db: Database, name: TextValue, email: TextValue, password: TextValue, address: TextValue, now: int)
    returns (reply: Reply<Session>)
    requires db.Valid()
    modifies db
    ensures db.Valid()
    ensures (reply, db.State()) == SignupOutcome(old(db.State()), name, email, password, address, now)
  {
    var d := SignupData(name, email, password, address);
    var validation := ValidateUserSignup(d);
    if validation.Err? {
      return Fail(Thrown(validation.error));
    }
    if !validation.value.valid {
      return Reply(400, Errors(validation.value.errors.value));
    }
    SignupValidIff(d);
    var existing := UserWithEmail(db.users, email.s);
    if existing.Some? {
      return Refuse(400, EmailTaken);
    }
    var created := db.CreateUser(name.s, email.s, password.s, address, Some(Constants.PlainUser), now);
    if created.Err? {
      return Fail(Query(created.error));
    }
    var u := created.value;
    reply := Reply(201, Json(Session("Signup successful", TokenFor(u.id, u.email, u.role),
                                     SessionUser(u.id, u.name, u.email, u.role, u.address, None))));
  }

  /** A row whose email is new is the one an email lookup finds once it is appended. */
  lemma NewEmailFindsLast(users: seq<UserRow>, row: UserRow)
    requires row.email !in UserEmails(users)
    ensures UserWithEmail(users + [row], row.email) == Some(row)
  {
    var found := UserWithEmail(users + [row], row.email).value;
  }

  /** Registration writes no user unless it answers 201, and a duplicate email changes nothing. */
  lemma RegisterWritesOnlyOnSuccess(t: Tables, name: string, email: string, password: string, address: TextValue, now: int)
    requires Consistent(t)
    ensures var (r, t') := Register(t, name, email, password, address, now);
            && Consistent(t')
            && (r.status != 201 ==> t'.users == t.users)
            && (r.status == 400 ==> t' == t)
            && r.status in {201, 400, 500}
  {
    CreateUserStoresWhatItReturns(t, name, email, password, address, Some(Constants.PlainUser), now);
  }

  /**
   * Registration answers 201 only for a new email; the account it creates
   * comes last, has the role "user" (which is not one of USER_ROLES), and
   * logs in right away with the same email and password.
   */
  lemma RegisterThenLogin(t: Tables, name: string, email: string, password: string, address: TextValue, now: int)
    requires Consistent(t)
    requires ValidateEmail(Str(email)) && password != ""
    ensures var (r, t') := Register(t, name, email, password, address, now);
            r.status == 201 ==>
              && email !in UserEmails(t.users)
              && |t'.users| == |t.users| + 1
              && t'.users[|t.users|].role == Constants.PlainUser
              && r.body.value.user.id == t'.users[|t.users|].id
              && r.body.value.user.role == Constants.PlainUser
              && Constants.PlainUser !in Constants.UserRoles
              && var login := LoginReply(t', Str(email), Str(password));
                 login.status == 200 && login.body.value.user.id == r.body.value.user.id
  {
    var (r, t') := Register(t, name, email, password, address, now);
    CreateUserStoresWhatItReturns(t, name, email, password, address, Some(Constants.PlainUser), now);
    if r.status == 201 {
      var row := t'.users[|t.users|];
      assert t'.users == t.users + [row];
      NewEmailFindsLast(t.users, row);
    }
  }

  /** Signup writes nothing unless it answers 201; a 400 leaves even the id sequence alone. */
  lemma SignupRejectionWritesNothing(t: Tables, name: TextValue, email: TextValue, password: TextValue, address: TextValue, now: int)
    requires Consistent(t)
    ensures var (r, t') := SignupOutcome(t, name, email, password, address, now);
            && Consistent(t')
            && (r.status != 201 ==> t'.users == t.users)
            && (r.status == 400 ==> t' == t)
            && r.status in {201, 400, 500}
  {
    var d := SignupData(name, email, password, address);
    if SignupErrors(d) == Ok([]) {
      SignupValidIff(d);
      RegisterWritesOnlyOnSuccess(t, name.s, email.s, password.s, address, now);
    }
  }

  /** Signup registers exactly when every field is valid; the account then logs in with what was sent. */
  lemma SignupThenLogin(t: Tables, name: TextValue, email: TextValue, password: TextValue, address: TextValue, now: int)
    requires Consistent(t)
    ensures var (r, t') := SignupOutcome(t, name, email, password, address, now);
            && (SignupErrors(SignupData(name, email, password, address)) != Ok([]) ==> r.status in {400, 500} && t' == t)
            && (r.status == 201 ==> SignupErrors(SignupData(name, email, password, address)) == Ok([]))
            && (r.status == 201 ==>
                  && |t'.users| == |t.users| + 1 && r.body.Json?
                  && t'.users[|t.users|].role == Constants.PlainUser
                  && var login := LoginReply(t', email, password);
                     login.status == 200 && login.body.Json? && login.body.value.user.id == r.body.value.user.id)
  {
    var d := SignupData(name, email, password, address);
    var (r, t') := SignupOutcome(t, name, email, password, address, now);
    match SignupErrors(d)
    case Err(_) =>
    case Ok(errors) =>
      if errors == [] {
        ValidSignupRegisters(t, name, email, password, address, now);
        RegisterWritesOnlyOnSuccess(t, name.s, email.s, password.s, address, now);
        RegisterThenLogin(t, name.s, email.s, password.s, address, now);
      }
  }

  /** Data that passes validation goes straight to Register with its text fields. */
  lemma ValidSignupRegisters(t: Tables, name: TextValue, email: TextValue, password: TextValue, address: TextValue, now: int)
    requires SignupErrors(SignupData(name, email, password, address)) == Ok([])
    ensures name.Str? && email.Str? && password.Str? && password.s != ""
    ensures SignupOutcome(t, name, email, password, address, now) == Register(t, name.s, email.s, password.s, address, now)
  {
    var d := SignupData(name, email, password, address);
    SignupValidIff(d);
    assert email == Str(email.s) && ValidatePassword(password) == Ok(Valid);
    assert password == Str(password.s) && password.s != "";
  }

  // ---------------------------------------------------------------------
  // update-password
  // ---------------------------------------------------------------------

  /** The password-only patch `User.update(userId, { password })` applies. */
  function PasswordPatch(p: string): (q: UserPatch)
    ensures q.password == Some(p) && q.name == Undefined && q.email == Undefined && q.address == Undefined
  {
    UserPatch(Undefined, Undefined, Some(p), Undefined)
  }

  /** update-password once the account is found: the old password, the new one's rules, then the update. */
  function ChangePassword(t: Tables, userId: JsValue, account: UserRow, oldPassword: string, newPassword: string, now: int)
    : (Reply<Notice>, Tables)
  {
    if !Matches(oldPassword, account.password) then (Refuse(401, OldPasswordWrong), t)
    else
      var verdict := ValidatePassword(Str(newPassword)).value;
      if verdict.Invalid? then (Refuse(400, verdict.error), t)
      else
        var (r, t') := UpdateUserOutcome(t, userId, PasswordPatch(newPassword), now);
        if r.Err? then (Fail(Query(r.error)), t')
        else (Reply(200, Json(Notice("Password updated successfully"))), t')
  }

  function UpdatePasswordOutcome(t: Tables, caller: Claims, oldPassword: TextValue, newPassword: TextValue, now: int)
    : (Reply<Notice>, Tables)
  {
    var userId := Num(caller.id as real);
    if !Truthy(oldPassword) || !Truthy(newPassword) then (Refuse(400, PasswordsRequired), t)
    else
      match UserById(t, userId)
      case Err(e) => (Fail(Query(e)), t)
      case Ok(None) => (Refuse(404, UserNotFound), t)
      case Ok(Some(user)) =>
        match UserWithEmail(t.users, user.email)
        case None => (Fail(Thrown(TypeError)), t)
        case Some(account) => ChangePassword(t, userId, account, oldPassword.s, newPassword.s, now)
  }

  method UpdatePassword(db: Database, caller: Claims, oldPassword: TextValue, newPassword: TextValue, now: int)
    returns (reply: Reply<Notice>)
    requires db.Valid()
    modifies db
    ensures db.Valid()
    ensures (reply, db.State()) == UpdatePasswordOutcome(old(db.State()), caller, oldPassword, newPassword, now)
  {
    var userId := Num(caller.id as real);
    if !Truthy(oldPassword) || !Truthy(newPassword) {
      return Refuse(400, PasswordsRequired);
    }
    var user := UserById(db.State(), userId);
    if user.Err? {
      return Fail(Query(user.error));
    }
    if user.value.None? {
      return Refuse(404, UserNotFound);
    }
    var account := UserWithEmail(db.users, user.value.value.email);
    if account.None? {
      return Fail(Thrown(TypeError));
    }
    if !Matches(oldPassword.s, account.value.password) {
      return Refuse(401, OldPasswordWrong);
    }
    var verdict := ValidatePassword(newPassword);
    if verdict.value.Invalid? {
      return Refuse(400, verdict.value.error);
    }
    var updated := db.UpdateUser(userId, PasswordPatch(newPassword.s), now);
    if updated.Err? {
      return Fail(Query(updated.error));
    }
    reply := Reply(200, Json(Notice("Password updated successfully")));
  }

  /** Looking a user up by the email of a row finds that row, since emails are unique. */
  lemma EmailFindsRow(t: Tables, i: nat)
    requires Consistent(t) && i < |t.users|
    ensures UserWithEmail(t.users, t.users[i].email) == Some(t.users[i])
  {
    assert t.users[i] in t.users;
    var found := UserWithEmail(t.users, t.users[i].email).value;
    var j :| 0 <= j < |t.users| && t.users[j] == found;
  }

  /**
   * update-password checks its guards in order, and every answer but 200
   * leaves the database as it was.
   */
  lemma UpdatePasswordGuards(t: Tables, caller: Claims, oldPassword: TextValue, newPassword: TextValue, now: int)
    requires Consistent(t)
    ensures var (r, t') := UpdatePasswordOutcome(t, caller, oldPassword, newPassword, now);
            && Consistent(t')
            && (r.status != 200 ==> t' == t)
            && (!Truthy(oldPassword) || !Truthy(newPassword) ==> r == Refuse(400, PasswordsRequired))
            && (Truthy(oldPassword) && Truthy(newPassword) && caller.id !in UserIds(t.users) && Int4Min <= caller.id <= Int4Max
                ==> r == Refuse(404, UserNotFound))
            && (r.status == 200 ==> ValidatePassword(newPassword) == Ok(Valid))
  {
    var userId := Num(caller.id as real);
    if Int4Min <= caller.id <= Int4Max {
      assert (caller.id as real).Floor == caller.id;
      assert BindInt4(userId) == Ok(Some(caller.id));
    }
    if Truthy(oldPassword) && Truthy(newPassword) {
      match UserById(t, userId)
      case Err(e) =>
      case Ok(None) =>
        assert UpdatePasswordOutcome(t, caller, oldPassword, newPassword, now) == (Refuse(404, UserNotFound), t);
      case Ok(Some(user)) =>
        match UserWithEmail(t.users, user.email)
        case None =>
        case Some(account) =>
          assert UpdatePasswordOutcome(t, caller, oldPassword, newPassword, now)
              == ChangePassword(t, userId, account, oldPassword.s, newPassword.s, now);
          var row := UserWithId(t.users, caller.id).value;
          var j :| 0 <= j < |t.users| && t.users[j] == row;
          EmailFindsRow(t, j);
          assert account == t.users[j] && userId == Num(t.users[j].id as real);
          ChangePasswordWrites(t, j, oldPassword.s, newPassword.s, now);
    }
  }

  /**
   * Changing the password of row k takes effect for login: the new password
   * logs the account in, and a different old password no longer does.
   */
  lemma ChangePasswordTakesEffect(t: Tables, k: nat, oldPassword: string, newPassword: string, now: int)
    requires Consistent(t) && k < |t.users|
    ensures var (r, t') := ChangePassword(t, Num(t.users[k].id as real), t.users[k], oldPassword, newPassword, now);
            && Consistent(t')
            && (r.status != 200 ==> t' == t)
            && (r.status == 200 ==>
                  && Matches(oldPassword, t.users[k].password)
                  && ValidatePassword(Str(newPassword)) == Ok(Valid)
                  && (ValidateEmail(Str(t.users[k].email)) && oldPassword != "" && newPassword != "" ==>
                        && LoginReply(t', Str(t.users[k].email), Str(newPassword)).status == 200
                        && (oldPassword != newPassword ==> LoginReply(t', Str(t.users[k].email), Str(oldPassword)).status == 401)))
  {
    var (r, t') := ChangePassword(t, Num(t.users[k].id as real), t.users[k], oldPassword, newPassword, now);
    ChangePasswordWrites(t, k, oldPassword, newPassword, now);
    if r.status == 200 && ValidateEmail(Str(t.users[k].email)) && oldPassword != "" && newPassword != "" {
      LoginWithRow(t', k, newPassword);
      LoginWithRow(t', k, oldPassword);
    }
  }

  /** A change of row k's password rewrites only that row's password, keeping its email. */
  lemma ChangePasswordWrites(t: Tables, k: nat, oldPassword: string, newPassword: string, now: int)
    requires Consistent(t) && k < |t.users|
    ensures var (r, t') := ChangePassword(t, Num(t.users[k].id as real), t.users[k], oldPassword, newPassword, now);
            && Consistent(t')
            && (r.status != 200 ==> t' == t)
            && (r.status == 200 ==>
                  && Matches(oldPassword, t.users[k].password)
                  && ValidatePassword(Str(newPassword)) == Ok(Valid)
                  && k < |t'.users| && t'.users[k].email == t.users[k].email
                  && t'.users[k].password == Hash(newPassword))
  {
    var userId := Num(t.users[k].id as real);
    var (r, t') := ChangePassword(t, userId, t.users[k], oldPassword, newPassword, now);
    UpdateUserKeepsConsistent(t, userId, PasswordPatch(newPassword), now);
    if r.status == 200 {
      var (r2, t2) := UpdateUser(t, userId, PasswordPatch(newPassword), now);
      assert t2 == t';
      var row := r2.value.value;
      var i :| 0 <= i < |t.users| && t'.users == t.users[i := row] && t.users[i].id == row.id
               && row.email == t.users[i].email && row.password == Hash(newPassword);
      assert BindInt4(userId) == Ok(Some(t.users[k].id));
      assert t.users[i].id == t.users[k].id;
      assert i == k;
    }
  }

  /** With a well-formed email, login with a password succeeds exactly when it is row k's. */
  lemma LoginWithRow(t: Tables, k: nat, password: string)
    requires Consistent(t) && k < |t.users| && ValidateEmail(Str(t.users[k].email)) && password != ""
    ensures LoginReply(t, Str(t.users[k].email), Str(password)).status == 200 <==> Matches(password, t.users[k].password)
  {
    var email := t.users[k].email;
    LoginSucceedsIff(t, email, Str(password));
    EmailFindsRow(t, k);
    assert t.users[k] in t.users;
    if exists u :: u in t.users && u.email == email && Matches(password, u.password) {
      var u :| u in t.users && u.email == email && Matches(password, u.password);
      var i :| 0 <= i < |t.users| && t.users[i] == u;
      EmailFindsRow(t, i);
    }
  }

  /** A successful password change is the change of the caller's own row. */
  lemma PasswordChangeTakesEffect(t: Tables, caller: Claims, oldPassword: string, newPassword: string, now: int, k: nat)
    requires Consistent(t) && k < |t.users| && t.users[k].id == caller.id && caller.id <= Int4Max
    ensures var (r, t') := UpdatePasswordOutcome(t, caller, Str(oldPassword), Str(newPassword), now);
            && (oldPassword != "" && newPassword != "" ==>
                  (r, t') == ChangePassword(t, Num(caller.id as real), t.users[k], oldPassword, newPassword, now))
            && (r.status == 200 && ValidateEmail(Str(t.users[k].email)) ==>
                  && LoginReply(t', Str(t.users[k].email), Str(newPassword)).status == 200
                  && (oldPassword != newPassword ==> LoginReply(t', Str(t.users[k].email), Str(oldPassword)).status == 401))
  {
    if oldPassword != "" && newPassword != "" {
      EmailFindsRow(t, k);
      var userId := Num(caller.id as real);
      assert t.users[k] in t.users;
      assert (caller.id as real).Floor == caller.id;
      assert BindInt4(userId) == Ok(Some(caller.id));
      var u := UserWithId(t.users, caller.id).value;
      var j :| 0 <= j < |t.users| && t.users[j] == u;
      assert t.users[j].id == t.users[k].id;
      assert j == k;
      assert UserById(t, userId) == Ok(Some(Public(t.users[k])));
      assert UpdatePasswordOutcome(t, caller, Str(oldPassword), Str(newPassword), now)
          == ChangePassword(t, userId, t.users[k], oldPassword, newPassword, now);
      ChangePasswordTakesEffect(t, k, oldPassword, newPassword, now);
    } else {
      assert UpdatePasswordOutcome(t, caller, Str(oldPassword), Str(newPassword), now).0 == Refuse(400, PasswordsRequired);
    }
  }
}
