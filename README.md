# RatingSystem, modelled in Dafny

RatingSystem is a store-rating web application. An Express back end over
PostgreSQL keeps three tables, `users`, `stores` and `ratings`. Users sign up and
log in with bcrypt-hashed passwords and receive a JWT carrying their id, email and
role. Administrators list, add, edit and delete users and stores. Users browse
stores and rate each one from 1 to 5, at most once per store: a second rating
overwrites the first. Store owners read their stores' ratings and averages. A React
client routes each role to its pages and filters and sorts the fetched tables in
the browser.

This project models the core of both halves:

- **Back end:** the validators and constants; the `User`, `Store` and `Rating` models
  as statements over a table state; the auth, store, rating and admin controllers;
  and the user, admin and store-owner routers with their role gates.
- **Front end:** the router and role gates of `App.jsx`, `RoleBadge`, and the admin
  user list, admin store list and user store list pages with their filter, sort and
  rating state.

The model is organised as follows:

- **Database:** the database is a value, `Tables.Tables`. Each model method is a
  function from one state to a result and the next state. `Storage.Database` is a
  class holding the current state, with one method per model method. Each of those
  methods ensures that its reply and new state are those functions' values.
- **Controllers:** each controller handler is an outcome function plus a method whose
  contract ties the HTTP reply and the new state to that function. Lemmas beside it
  state what the reply means in terms of the tables.
- **Front-end pages:** each page is a class whose fields are the component's state.
  Its methods are the event handlers and the filter-and-sort effect. Its invariant is
  that the rows on screen are the fetched rows, filtered and then sorted by the
  comparator.

## Model

| member | source | states |
|---|---|---|
| Constants.RolesAreDistinct | backend/src/utils/constants.js:1-5 | the three roles are distinct strings, and the role "user" that two route lists admit is not one of them |
| Constants.BoundsAreOrdered | backend/src/utils/constants.js:7-26 | the password, name and rating bounds are ordered, and the special-character class has 30 distinct members |
| Validators.EmailRegexIsShape | backend/src/utils/validators.js:8-12 | an email is accepted exactly when it has one '@', a non-empty local part and a domain with a dot that is neither first nor last, with no whitespace anywhere |
| Validators.RegexGivesShape | backend/src/utils/validators.js:8 | a match of the regular expression has the field-by-field shape |
| Validators.ShapeGivesRegex | backend/src/utils/validators.js:8 | a string of that shape matches the regular expression |
| Validators.FirstFailure | backend/src/utils/validators.js:14-40 | no message is reported exactly when every password rule holds |
| Validators.ValidatePassword | backend/src/utils/validators.js:14-40 | a non-string password throws; a string is valid exactly when it has 8 to 16 code units, an uppercase letter and a special character |
| Validators.PasswordReportsFirstFailure | backend/src/utils/validators.js:14-40 | the error reported is the message of the first failing rule, in the order length-min, length-max, uppercase, special |
| Validators.ValidateName | backend/src/utils/validators.js:42-50 | a name is valid exactly when it is a string that is not all whitespace; otherwise the error is "Name is required" |
| Validators.ValidateAddress | backend/src/utils/validators.js:52-60 | an address is valid exactly when it has at most 400 code units |
| Validators.ValidateRating | backend/src/utils/validators.js:62-75 | a rating is valid exactly when Number(rating) is a number in [1, 5] |
| Validators.RatingAcceptsFractions | backend/src/utils/validators.js:62-75 | 2.5 and the text "4" pass the rating check; null does not |
| Validators.ToValidation | backend/src/utils/validators.js:101-104 | the record is valid exactly when no message was collected, and errors is then null rather than an empty list |
| Validators.ValidateUserSignup | backend/src/utils/validators.js:77-105 | the method returns the record of the messages collected for name, email, password and a supplied address, or the exception a missing password raises |
| Validators.ValidateStoreData | backend/src/utils/validators.js:107-132 | the method returns the record of the messages collected for name, email and a required address |
| Validators.VerdictMessages | backend/src/utils/validators.js:77-99 | each message the signup check collects names its field |
| Validators.SignupErrorsInFieldOrder | backend/src/utils/validators.js:77-105 | the signup messages come in field order, at most one per field |
| Validators.SignupValidIff | backend/src/utils/validators.js:77-105 | signup is valid exactly when the name, email and password checks pass and a supplied address is short enough |
| Validators.StoreDataValidIff | backend/src/utils/validators.js:107-132 | store data is valid exactly when name and email pass and the address is present and short enough |
| Validators.AddressOptionalOnlyForSignup | backend/src/utils/validators.js:94-126 | a missing address never produces a signup message but always produces "Address is required" for a store |
| Js.Trim | backend/src/utils/validators.js:43 | trim is empty exactly when the string is all whitespace, and otherwise starts and ends with a non-space |
| Js.ContainsEmpty | frontend/src/pages/AdminUsersPage.jsx:49-54 | every string includes the empty string |
| Js.ContainsAt | frontend/src/pages/AdminUsersPage.jsx:49-54 | `includes` holds exactly when the needle occurs at some offset |
| Js.StrCompare | frontend/src/pages/AdminUsersPage.jsx:68-73 | the comparison is -1, 0 or 1, and 0 exactly for equal strings |
| Js.StrCompareFlip | frontend/src/pages/AdminUsersPage.jsx:68-73 | swapping the operands negates the comparison |
| Js.StrCompareTransitive | frontend/src/pages/AdminUsersPage.jsx:68-73 | the string comparison is transitive |
| Js.ParseInt | backend/src/controllers/ratingController.js:59-60 | parseInt of a digit string is its decimal value |
| Js.StringToNumber | backend/src/utils/validators.js:63 | Number of a digit string is its decimal value |
| Seqs.Filter | frontend/src/pages/AdminUsersPage.jsx:44-66 | Array.prototype.filter keeps exactly the elements that satisfy the test, in order |
| Seqs.FilterMultiset | frontend/src/pages/AdminUsersPage.jsx:44-66 | filter keeps each selected element as often as it occurs, and nothing else |
| Seqs.Sort | frontend/src/pages/AdminUsersPage.jsx:68-75 | the stable sort is a permutation of its input |
| Seqs.SortSorted | frontend/src/pages/AdminUsersPage.jsx:68-75 | the sort orders its input whenever the comparator is a total preorder on it |
| Seqs.SortKeepsSorted | frontend/src/pages/AdminStoresPage.jsx:60-75 | stability: an input already in order comes back unchanged |
| Seqs.Window | backend/src/models/User.js:81-84 | LIMIT and OFFSET select the rows from the offset on, at most limit of them |
| Seqs.PageCount | backend/src/models/User.js:123 | Math.ceil(total / limit) is the least page count that holds every row |
| Seqs.RowOnItsPage | backend/src/models/User.js:81-84 | row i is on page i / limit + 1 of the window, and that page is within the page count |
| Credentials.MatchesHash | backend/src/models/User.js:177-179 | a password verifies against a stored hash exactly when it is the hashed password |
| Credentials.VerifyToken | backend/src/utils/jwt.js:15-21 | a token verifies exactly when the server signed it |
| Credentials.TokenRoundTrip | backend/src/utils/jwt.js:3-21 | the claims of a signed token come back unchanged |
| Credentials.SignInjective | backend/src/utils/jwt.js:3-13 | tokens for different claims are different |
| Http.IntOr | backend/src/controllers/storeController.js:41-42 | `parseInt(q) \|\| d` is the parsed value when it is a non-zero number, and the default otherwise |
| Http.TextOr | backend/src/controllers/storeController.js:47-48 | `q \|\| d` is the query value when it is non-empty, and the default otherwise |
| Http.RouteParam | backend/src/routes/storeOwnerRoutes.js:13-14 | a route parameter is undefined exactly when the route does not declare it |
| Http.ParamInt | backend/src/controllers/storeController.js:99 | parseInt of a declared digit parameter is its value; an undeclared one is NaN |
| Sql.ParsePgInt | backend/src/models/Store.js:17-23 | an integer parameter read from text is within the column's range |
| Sql.ParseIntText | backend/src/models/Store.js:17-23 | Postgres reads back exactly the decimal text JavaScript writes for an integer |
| Sql.BindInteger | backend/src/models/Store.js:17-23 | undefined and null bind as NULL, and an integral number in range binds as itself |
| Sql.BindInt4Digits | backend/src/models/Store.js:17-23 | a digit string that fits int4 binds to its value |
| Sql.CompareSql | backend/src/models/User.js:72-79 | the ORDER BY comparison puts NULL last and compares text by code point |
| Sql.CompareSqlFlip | backend/src/models/User.js:72-79 | swapping the operands negates the comparison |
| Sql.CompareSqlTransitive | backend/src/models/User.js:72-79 | the comparison is transitive |
| Sql.OrderCmpIsPreorder | backend/src/models/User.js:72-79 | every ORDER BY comparator, ascending or descending, is a total preorder |
| Sql.SubstringPatternWellFormed | backend/src/models/User.js:47-51 | the pattern '%' + f + '%' is well formed whatever f is, so no filter text is rejected |
| Sql.ILikeSubstring | backend/src/models/User.js:47-51 | for a filter without '%', '_' or '\', ILIKE '%f%' is a case-insensitive substring test |
| Sql.UnderscoreIsWildcard | backend/src/models/User.js:47-51 | as written, '_' in a filter matches any one character: "a_c" finds "abc" |
| Sql.CondParams | backend/src/models/User.js:45-69 | the placeholder numbers of the conjuncts, in order |
| Sql.SelectPlaceholders | backend/src/models/User.js:83 | LIMIT and OFFSET take the last two placeholders, and the subquery's placeholder comes first |
| Sql.ConsecutiveCovers | backend/src/models/User.js:83-86 | placeholders numbered $1..$n in order use exactly the n parameters |
| Sql.BindConds | backend/src/models/User.js:86 | binding succeeds exactly when every conjunct's placeholder has a parameter |
| Tables.Public | backend/src/models/User.js:27-33 | findById returns the user's id, email and role without the password |
| Tables.EmptyConsistent | backend/migrations/02_create_schema.js:23-56 | the freshly migrated database satisfies every constraint |
| Tables.UserWithId | backend/src/models/User.js:27-33 | a user is found by id exactly when one has that id |
| Tables.UserWithEmail | backend/src/models/User.js:35-40 | a user is found by email exactly when one has that email |
| Tables.StoreWithId | backend/src/models/Store.js:17-23 | a store is found by id exactly when one has that id |
| Tables.StoreWithEmail | backend/src/models/Store.js:25-30 | a store is found by email exactly when one has that email |
| Tables.PairIndex | backend/src/models/Rating.js:18-24 | the position of the first rating by the user of the store, or the table's length when there is none |
| Tables.PairIndexUnique | backend/migrations/02_create_schema.js:53 | under UNIQUE(user_id, store_id) the rating found is the only one |
| Tables.PatchUser | backend/src/models/User.js:128-167 | an update keeps the user's id, role and creation time, stamps updated_at and fits the columns |
| Tables.PatchStore | backend/src/models/Store.js:123-155 | an update keeps the store's id, owner and creation time, stamps updated_at and fits the columns |
| Tables.StoreRatingRows | backend/src/models/Rating.js:26-37 | getByStore joins only ratings whose author exists |
| TableFacts.InsertUserKeepsConsistent | backend/src/models/User.js:6-25 | User.create keeps every constraint and, on success, adds one row with the next id and the given fields |
| TableFacts.UpdateUserKeepsConsistent | backend/src/models/User.js:128-167 | User.update keeps every constraint and changes at most the row with that id |
| TableFacts.RemoveUserKeepsConsistent | backend/migrations/02_create_schema.js:43-55 | deleting a user removes their stores and every rating by them or of those stores, and keeps every constraint |
| TableFacts.DeleteUserCascades | backend/src/models/User.js:169-175 | User.delete answers with the id exactly when the user existed, and then cascades |
| TableFacts.InsertStoreKeepsConsistent | backend/src/models/Store.js:4-15 | Store.create keeps every constraint and, on success, adds one row owned by an existing user |
| TableFacts.UpdateStoreKeepsConsistent | backend/src/models/Store.js:123-155 | Store.update keeps every constraint and never changes a store's id or owner |
| TableFacts.RemoveStoreKeepsConsistent | backend/migrations/02_create_schema.js:55 | deleting a store removes it and all its ratings and keeps every constraint |
| TableFacts.DeleteStoreCascades | backend/src/models/Store.js:157-163 | Store.delete answers with the id exactly when the store existed, and then cascades |
| TableFacts.UpsertKeepsConsistent | backend/src/models/Rating.js:4-16 | the rating upsert keeps every constraint |
| TableFacts.UpsertTouchesOnlyRatings | backend/src/models/Rating.js:4-16 | Rating.create writes only the ratings and their id sequence, and a failed statement changes nothing |
| TableFacts.OneRatingPerPair | backend/migrations/02_create_schema.js:53 | two ratings by one user of one store are the same row |
| TableFacts.ResubmitOverwrites | backend/src/models/Rating.js:4-16 | a second rating by a user of a store overwrites the value in place and keeps the row's id |
| TableFacts.FirstRatingAppends | backend/src/models/Rating.js:4-16 | a first rating by an existing user of an existing store adds one row with the next id |
| TableFacts.FindRatingFindsThePair | backend/src/models/Rating.js:18-24 | findByUserAndStore finds the user's rating of the store exactly when there is one |
| TableFacts.SumBounds | backend/migrations/02_create_schema.js:50 | n ratings in [1, 5] sum to between n and 5n |
| TableFacts.AverageWithinBounds | backend/src/models/Rating.js:57-66 | the average is 0 for a store without ratings and within [1, 5] otherwise, and the count is the number of ratings |
| TableFacts.MeanBounds | backend/src/models/Rating.js:57-66 | a sum between n and 5n over n > 0 gives a mean in [1, 5] |
| TableFacts.JoinKeepsAllRatings | backend/src/models/Rating.js:26-37 | under the foreign key, the join lists every rating of the store |
| TableFacts.RatingsNewestFirst | backend/src/models/Rating.js:26-37 | getByStore lists only the store's ratings, newest first |
| TableFacts.NewestFirstIsPreorder | backend/src/models/Rating.js:34 | ORDER BY created_at DESC is a total preorder |
| TableFacts.DeleteRatingRemovesOne | backend/src/models/Rating.js:68-74 | Rating.delete removes the one row with that id and nothing else |
| Listing.FilterIf | backend/src/models/User.js:47-69 | a query-string filter takes part exactly when it is truthy |
| Listing.CondsFor | backend/src/models/User.js:45-69 | the conjuncts are numbered consecutively from the first free placeholder |
| Listing.ExtendFilters | backend/src/models/User.js:45-69 | adding a filter appends one conjunct on the next placeholder and one parameter |
| Listing.ListStatementInStep | backend/src/models/User.js:43-86 | the placeholders of the data statement are $1..$n in order, one per parameter |
| Listing.CountStatementInStep | backend/src/models/User.js:89-114 | the placeholders of the count statement are $1..$n in order, one per parameter |
| Listing.ExecListStatement | backend/src/models/User.js:86 | the data statement returns the kept rows, ordered, then windowed |
| Listing.ExecCountStatement | backend/src/models/User.js:114-115 | the count statement counts exactly the rows the data statement keeps before LIMIT and OFFSET |
| Listing.BoundSubstring | backend/src/models/User.js:47-51 | a bound ILIKE conjunct is the case-insensitive substring test |
| Listing.AllHoldAppend | backend/src/models/User.js:45-69 | the conjunction over two lists of filters is the conjunction of the two |
| Listing.AllHoldFilterIf | backend/src/models/User.js:47-69 | a filter not given imposes nothing, and a given one imposes its conjunct |
| Listing.BuiltStep | backend/src/models/User.js:47-69 | one builder step keeps conjuncts, parameters and the counter in step |
| Listing.BuiltStatement | backend/src/models/User.js:81-84 | the finished builder with LIMIT and OFFSET appended is the listing statement |
| UserList.Summary | backend/src/models/User.js:43 | a listed user carries the row's id, email and role |
| UserList.UserActive | backend/src/models/User.js:47-69 | at most four filters take part, in the order name, email, address, role |
| UserList.BuildUserQuery | backend/src/models/User.js:42-86 | the builder produces the listing statement, with placeholders $1..$n matching the parameters |
| UserList.BuildUserCount | backend/src/models/User.js:88-114 | the count builder numbers the same conjuncts from $1, matching its parameters |
| UserList.Paginate | backend/src/models/User.js:117-125 | pages is the ceiling of total over limit when limit is positive |
| UserList.WhereIsUserMatches | backend/src/models/User.js:45-69 | the WHERE clause keeps exactly the users the reference filter admits |
| UserList.UserMatchesIsSubstring | backend/src/models/User.js:47-69 | for filters without LIKE's special characters, each filter is a case-insensitive substring test and role is exact |
| UserList.AllowedSortKnown | backend/src/models/User.js:72-79 | an accepted sort column is an own key of the allow-list and a real column |
| UserList.MatchingUsers | backend/src/models/User.js:45-69 | exactly the users every truthy filter admits |
| UserList.SortedUsers | backend/src/models/User.js:72-79 | the matching users in ORDER BY order, as a permutation |
| UserList.UserListingMeaning | backend/src/models/User.js:42-126 | getAll returns the page of the matching users in the requested order with their total and page count, unless the sort key is inherited |
| UserList.UnlistedSortFallsBack | backend/src/models/User.js:72-79 | a sort key outside the allow-list, or none, orders by id ascending |
| UserList.DescendingOnlyForDesc | backend/src/models/User.js:76 | the order is descending exactly when the key is accepted and sortOrder is "desc" |
| UserList.InheritedSortFails | backend/src/models/User.js:72-76 | a sort key such as "toString" passes the `in` test and the statement fails on an unknown column |
| UserList.EveryMatchIsOnAPage | backend/src/models/User.js:81-84 | when no two matching users tie on the ORDER BY column, every matching user is on page i / limit + 1, within the page count |
| StoreList.RatingBy | backend/src/models/Store.js:37-39 | the subquery yields a rating exactly when the user has rated the store |
| StoreList.GroupOf | backend/src/models/Store.js:33-43 | a grouped store row carries the store and the average of its ratings, 0 when there are none |
| StoreList.Groups | backend/src/models/Store.js:41-70 | LEFT JOIN and GROUP BY give one row per store |
| StoreList.Summary | backend/src/models/Store.js:33-35 | a listed store carries the group's id, average and user rating |
| StoreList.StoreActive | backend/src/models/Store.js:52-68 | at most three filters take part, in the order name, email, address |
| StoreList.BuildStoreQuery | backend/src/models/Store.js:32-87 | the builder produces the listing statement, with placeholders $1..$n matching the parameters |
| StoreList.BuildStoreCount | backend/src/models/Store.js:89-110 | the count builder numbers the same conjuncts from $1, without the user id |
| StoreList.UserIdShiftsFilters | backend/src/models/Store.js:37-50 | with a user id, $1 is the subquery's parameter and the filters start at $2 |
| StoreList.MatchingStores | backend/src/models/Store.js:52-68 | exactly the stores every truthy filter admits |
| StoreList.AllHoldIsStoreMatches | backend/src/models/Store.js:52-68 | the bound conjuncts are the reference store filter |
| StoreList.WhereOnGroups | backend/src/models/Store.js:41-70 | filtering the grouped rows is grouping the filtered stores |
| StoreList.SortedGroups | backend/src/models/Store.js:72-81 | the matching stores' groups in ORDER BY order |
| StoreList.StoreSortKnown | backend/src/models/Store.js:72-81 | an accepted sort key names a column of the grouped rows |
| StoreList.StoreListingMeaning | backend/src/models/Store.js:32-121 | getAll returns the page of the matching stores, each with its average and the caller's rating, in the requested order, with total and page count |
| StoreList.UnratedStoreListed | backend/src/models/Store.js:34-42 | a store nobody rated is still listed, with rating 0 |
| StoreList.UserRatingColumn | backend/src/models/Store.js:37-39 | with a user id, each row's user_rating is that user's rating of the store, or NULL |
| StoreList.InheritedSortFails | backend/src/models/Store.js:72-78 | a sort key such as "toString" reaches ORDER BY as s.toString and the statement fails |
| Storage.CreatedUser | backend/src/models/User.js:20 | the returned columns of the inserted user |
| Storage.UpdatedUser | backend/src/models/User.js:163 | the returned columns of the updated user |
| Storage.CreatedStore | backend/src/models/Store.js:10 | the returned columns of the inserted store |
| Storage.UpdatedStore | backend/src/models/Store.js:151 | the returned columns of the updated store |
| Storage.RatingReturned | backend/src/models/Rating.js:11 | the returned columns of the upserted rating |
| Storage.StoredAddress | backend/src/models/User.js:21 | `address \|\| null`: a missing or empty address is stored as NULL |
| Storage.UserById | backend/src/models/User.js:27-33 | findById fails only on an id that does not bind, finds nothing for NULL, and otherwise the user with that id |
| Storage.StoreById | backend/src/models/Store.js:17-23 | the same for stores |
| Storage.StoreIdsOwnedBy | backend/src/controllers/authController.js:44-51 | the ids of exactly the stores the user owns; the query has no ORDER BY, so no order is promised |
| Storage.CreateUserStoresWhatItReturns | backend/src/models/User.js:6-25 | User.create stores the password's hash, the role given or normal_user, NULL for a falsy address, and uses up an id even when it fails |
| Storage.PageRow | backend/src/models/Rating.js:26-37 | the k'th row of a page of getByStore is the k'th rating of the window, joined with its author |
| Storage.RatingsByStoreMeaning | backend/src/models/Rating.js:26-55 | getByStore returns the store's ratings on the page with their authors, the total count and the page count |
| Storage.RatingsByStoreNewestFirst | backend/src/models/Rating.js:26-37 | a page of getByStore is ordered newest first |
| Storage.RowOnItsPageListed | backend/src/models/Rating.js:26-37 | when no two of the store's ratings share a created_at, the store's i'th rating is on page i / limit + 1, within the page count |
| Storage.EveryRatingIsOnAPage | backend/src/models/Rating.js:26-55 | every rating of the store has an existing author; when no two of the store's ratings share a created_at, each appears on some page within the page count |
| Storage.BuildUserUpdate | backend/src/models/User.js:128-163 | the SET list assigns the supplied columns to $1..$k in order, and the id takes $(k + 1) |
| Storage.BuildStoreUpdate | backend/src/models/Store.js:123-151 | the same for stores |
| Storage.UserPatchColumnsExact | backend/src/models/User.js:128-163 | a column is assigned exactly when the request supplies it, once, and the role never |
| Storage.StorePatchColumnsExact | backend/src/models/Store.js:123-151 | a column is assigned exactly when the request supplies it, once, and the owner never |
| Storage.UserSetListIsPatch | backend/src/models/User.js:128-163 | a column the SET list assigns takes the supplied value (the password hashed, a null address as NULL), and a column it leaves out keeps its value in the updated row |
| Storage.StoreSetListIsPatch | backend/src/models/Store.js:123-151 | a column the store SET list assigns takes the supplied value, and a column it leaves out keeps its value |
| Storage.Database.constructor | backend/migrations/02_create_schema.js:23-56 | a new database is empty and consistent |
| Storage.Database.CreateUser | backend/src/models/User.js:6-25 | the reply and the new state are those of User.create, and the constraints still hold |
| Storage.Database.UpdateUser | backend/src/models/User.js:128-167 | the reply and the new state are those of User.update, and the constraints still hold |
| Storage.Database.DeleteUser | backend/src/models/User.js:169-175 | the reply and the new state are those of User.delete with its cascades |
| Storage.Database.GetAllUsers | backend/src/models/User.js:42-126 | the method returns User.getAll's listing of the current state |
| Storage.Database.UserCount | backend/src/models/User.js:181-184 | the count is the number of users |
| Storage.Database.CreateStore | backend/src/models/Store.js:4-15 | the reply and the new state are those of Store.create |
| Storage.Database.UpdateStore | backend/src/models/Store.js:123-155 | the reply and the new state are those of Store.update |
| Storage.Database.DeleteStore | backend/src/models/Store.js:157-163 | the reply and the new state are those of Store.delete with its cascade |
| Storage.Database.GetAllStores | backend/src/models/Store.js:32-121 | the method returns Store.getAll's listing of the current state |
| Storage.Database.StoreCount | backend/src/models/Store.js:165-168 | the count is the number of stores |
| Storage.Database.SubmitRating | backend/src/models/Rating.js:4-16 | the reply and the new state are those of the upsert |
| Storage.Database.DeleteRating | backend/src/models/Rating.js:68-74 | the reply and the new state are those of Rating.delete |
| Storage.Database.RatingCount | backend/src/models/Rating.js:76-79 | the count is the number of ratings |
| AuthController.TokenFor | backend/src/controllers/authController.js:33 | the token login issues verifies to the account's id, email and role |
| AuthController.SessionStore | backend/src/controllers/authController.js:43-52 | a storeId is added only for a store owner and is one of their stores, and a store owner who owns a store always gets one |
| AuthController.Login | backend/src/controllers/authController.js:11-62 | the reply is the one the login guards and lookups give for the current tables |
| AuthController.LoginSucceedsIff | backend/src/controllers/authController.js:11-62 | login succeeds exactly for the stored password of the account with that email; the token carries that account's id, email and role, and a store owner who owns stores gets the id of one of them |
| AuthController.LoginFailuresLookAlike | backend/src/controllers/authController.js:23-31 | an unknown email and a wrong password get the same 401 reply |
| AuthController.LoginGuardOrder | backend/src/controllers/authController.js:15-21 | missing credentials give 400 before the email format is checked, and every reply is 200, 400 or 401 |
| AuthController.Signup | backend/src/controllers/authController.js:64-105 | the reply and the new state are those of validation, the duplicate check and User.create |
| AuthController.NewEmailFindsLast | backend/src/controllers/authController.js:75-87 | a row with a new email is the one the lookup finds once it is appended |
| AuthController.RegisterWritesOnlyOnSuccess | backend/src/controllers/authController.js:75-78 | a duplicate email changes nothing, and no user is written unless the reply is 201 |
| AuthController.RegisterThenLogin | backend/src/controllers/authController.js:75-101 | a 201 appends the account with the role "user", and it logs in with the same email and password |
| AuthController.SignupRejectionWritesNothing | backend/src/controllers/authController.js:69-78 | a 400 leaves the tables, the id sequences included, as they were |
| AuthController.SignupThenLogin | backend/src/controllers/authController.js:64-105 | signup registers exactly when every field is valid and the email is new, and the account then logs in with what was sent |
| AuthController.PasswordPatch | backend/src/controllers/authController.js:138 | the update supplies only the password |
| AuthController.UpdatePassword | backend/src/controllers/authController.js:107-144 | the reply and the new state are those of the update-password guards and the update |
| AuthController.EmailFindsRow | backend/src/controllers/authController.js:123-126 | looking a user up by their own row's email finds that row |
| AuthController.UpdatePasswordGuards | backend/src/controllers/authController.js:112-135 | the guards run in order, and every reply but 200 leaves the tables as they were |
| AuthController.ChangePasswordTakesEffect | backend/src/controllers/authController.js:122-140 | after a change, the new password logs the account in and a different old password no longer does |
| AuthController.PasswordChangeTakesEffect | backend/src/controllers/authController.js:107-144 | a successful change is the change of the caller's own row |
| RatingController.SubmitRating | backend/src/controllers/ratingController.js:5-37 | the reply and the new state are those of the submission guards and the upsert |
| RatingController.SubmitGuards | backend/src/controllers/ratingController.js:10-28 | the guards run in order (store id, rating, store found), every reply keeps the constraints, and only a 201 changes a rating |
| RatingController.SubmitStoresCallersRating | backend/src/controllers/ratingController.js:24-33 | after a 201 the stored rating is the caller's only rating of that store, with the submitted value in [1, 5] |
| RatingController.ResubmitKeepsId | backend/src/controllers/ratingController.js:24-33 | resubmitting keeps the number of ratings and the rating's id and changes only its value |
| RatingController.FractionalRatingIsServerError | backend/src/controllers/ratingController.js:14-28 | 2.5 passes validation but the integer column refuses it: the reply is 500 and nothing is stored |
| RatingController.GetUserRatingForStore | backend/src/controllers/ratingController.js:39-54 | the reply is the caller's rating of the store, or null |
| RatingController.UserRatingIsOwn | backend/src/controllers/ratingController.js:39-54 | for a store id that binds, the reply is 200 and carries the caller's own rating of the store exactly when there is one |
| RatingController.GetStoreRatings | backend/src/controllers/ratingController.js:56-68 | the reply is getByStore for the parsed page and limit, defaulting to 1 and 10 |
| RatingController.StoreRatingsDefaults | backend/src/controllers/ratingController.js:59-62 | with no query string the first ten of the store's ratings are listed, newest first, with the store's total |
| RatingController.NegativePageIsServerError | backend/src/controllers/ratingController.js:59-62 | any page that parses to a negative number, such as `?page=-1`, passes parseInt and `\|\|`, and the negative OFFSET gives 500 |
| Js.ParseMinusOne | backend/src/controllers/ratingController.js:59-60 | parseInt("-1") is -1, so `?page=-1` is such a page |
| RatingController.GetStoreAverageRating | backend/src/controllers/ratingController.js:70-80 | the reply is getAverageRating of the store |
| RatingController.AverageMeaning | backend/src/controllers/ratingController.js:70-80 | the average is 0 exactly when the store has no ratings and otherwise lies in [1, 5]; the count is the number of its ratings |
| RatingController.DeleteRating | backend/src/controllers/ratingController.js:82-95 | the reply and the new state are those of Rating.delete |
| RatingController.DeleteMeaning | backend/src/controllers/ratingController.js:82-95 | the reply is 200 exactly when a rating has that id, and then that rating alone is gone, whoever the caller is |
| StoreController.OpenStoreMeaning | backend/src/controllers/storeController.js:18-33 | a 201 appends exactly that store, with the next id, an existing owner and an email no other store has; any other reply leaves the rows alone |
| StoreController.AddStore | backend/src/controllers/storeController.js:5-37 | the reply and the new state are those of addStore's checks and Store.create |
| StoreController.AddStoreMeaning | backend/src/controllers/storeController.js:5-37 | the checks run in order (body messages, owner id, email, create), and a store is added only with valid data |
| StoreController.AnyUserCanOwnAStore | backend/src/controllers/storeController.js:14-28 | the owner's role is never checked: any existing user becomes the owner of a new store |
| StoreController.StoreFiltersOf | backend/src/controllers/storeController.js:43-49 | sortBy defaults to "id" and sortOrder to "asc" |
| StoreController.GetStores | backend/src/controllers/storeController.js:39-58 | the reply is Store.getAll of the current tables for the query and the caller's id |
| StoreController.DefaultStoreOrder | backend/src/controllers/storeController.js:47-52 | without sortBy the stores are ordered by id, descending only for sortOrder=desc |
| StoreController.StoresMeaning | backend/src/controllers/storeController.js:39-58 | with a known sortBy the listing is the matching stores in that order, each with its average and the caller's own rating |
| StoreController.GetStoreDetails | backend/src/controllers/storeController.js:60-79 | the reply is the store with its average and count, or 404 |
| StoreController.DetailsMeaning | backend/src/controllers/storeController.js:60-79 | for an id that binds, the details are found exactly when the store exists, and carry its row, its number of ratings and an average that is 0 for none and otherwise in [1, 5] |
| StoreController.OrEmpty | backend/src/controllers/storeController.js:88-90 | `v \|\| ""` keeps a truthy value and otherwise gives "" |
| StoreController.UpdateStore | backend/src/controllers/storeController.js:81-118 | the reply and the new state are those of updateStore's checks and Store.update |
| StoreController.ApplyStorePatchMeaning | backend/src/controllers/storeController.js:106-114 | a 200 rewrites exactly the addressed store, keeping its id, owner, creation time and every field left undefined; any other reply leaves the tables alone |
| StoreController.UpdateStoreMeaning | backend/src/controllers/storeController.js:81-118 | the checks run in order: the messages when a field is truthy, an email held by another store, then the patch of the fields as sent |
| StoreController.RenameAloneIsRefused | backend/src/controllers/storeController.js:86-95 | a body that only renames is refused, because the missing email and address are validated as "" |
| StoreController.EmptyNameSkipsValidation | backend/src/controllers/storeController.js:86-109 | `{ name: "" }` skips validation, answers 200 for an existing store and stores the empty name |
| StoreController.DeleteStore | backend/src/controllers/storeController.js:120-133 | the reply and the new state are those of Store.delete |
| StoreController.DeleteStoreMeaning | backend/src/controllers/storeController.js:120-133 | the reply is 200 exactly for an existing store, and the store and all its ratings are then gone while every other rating stays |
| AdminController.GetDashboard | backend/src/controllers/adminController.js:12-26 | the three totals are the sizes of the three tables |
| AdminController.AddUser | backend/src/controllers/adminController.js:28-61 | the reply and the new state are those of addUser's checks and User.create |
| AdminController.EnrollMeaning | backend/src/controllers/adminController.js:41-57 | a user is written only with a 201: the account comes last, carries exactly the requested role and logs in with what was sent; a taken email changes nothing |
| AdminController.AddUserMeaning | backend/src/controllers/adminController.js:28-61 | the checks run in order (signup validation, role, email), and only the three roles of USER_ROLES pass |
| AdminController.PlainUserRoleRefused | backend/src/controllers/adminController.js:37-39 | the role "user" that signup assigns is refused here, even with an otherwise valid body |
| AdminController.UserFiltersOf | backend/src/controllers/adminController.js:67-74 | sortBy defaults to "id" and sortOrder to "asc" |
| AdminController.GetUsers | backend/src/controllers/adminController.js:63-82 | the reply is User.getAll of the current tables for the query |
| AdminController.DefaultUserOrder | backend/src/controllers/adminController.js:72-76 | without sortBy the users are ordered by id, descending only for sortOrder=desc |
| AdminController.UsersMeaning | backend/src/controllers/adminController.js:63-82 | with a known sortBy the listing is the page of the matching users in that order, and its total counts every matching user |
| AdminController.FirstWhere | backend/src/controllers/adminController.js:95 | `find` returns the first element that satisfies the test, or nothing when none does |
| AdminController.WithStore | backend/src/controllers/adminController.js:97-103 | the details carry the store's rating and id exactly when a store was found |
| AdminController.GetUserDetails | backend/src/controllers/adminController.js:84-107 | the reply is getUserDetails as written, for the current tables |
| AdminController.UserDetailsMeaning | backend/src/controllers/adminController.js:84-107 | the reply is 404 exactly for an id that binds to no user, and otherwise the user's own public columns |
| AdminController.OwnerStoreNeverAttached | backend/src/controllers/adminController.js:93-101 | as written, no store is ever attached: the route's id is a string and owner_id a number, so `===` never holds |
| AdminController.OwnerScanListsAll | backend/src/controllers/adminController.js:94 | the owner scan lists every store when the table holds at most a thousand |
| AdminController.IntendedStoreIsOwned | backend/src/controllers/adminController.js:93-101 | with the parsed comparison, the store reported for a store owner is one they own, with its average rating |
| AdminController.ListedStore | backend/src/controllers/adminController.js:94 | a store the owner scan lists is a row of the table, with its average rating |
| AdminController.IntendedStoreFound | backend/src/controllers/adminController.js:93-101 | with the parsed comparison, a store owner who owns a store is reported with one whenever the table holds at most a thousand stores |
| AdminController.IntendedUserDetailsMeaning | backend/src/controllers/adminController.js:84-107 | with the parsed comparison, a store owner's reply carries a store exactly when one they own is among the first thousand listed, and always when the table is no larger |
| AdminController.ProfilePatch | backend/src/controllers/adminController.js:138 | the patch carries the three fields as sent and no password |
| AdminController.UpdateUser | backend/src/controllers/adminController.js:109-147 | the reply and the new state are those of updateUser's checks and User.update |
| AdminController.SaveUser | backend/src/controllers/adminController.js:138-146 | once the checks pass, the reply and the new state are those of User.update: 200 with the row it returned, or the failure passed on |
| AdminController.UpdateUserMeaning | backend/src/controllers/adminController.js:109-147 | a refused update changes nothing; a 200 rewrites at most the addressed user, never their role or password, and keeps every omitted field |
| AdminController.MissingUserUpdated | backend/src/controllers/adminController.js:138-143 | an id that binds to no user is answered 200 with no user |
| AdminController.EmptyUserNameStored | backend/src/controllers/adminController.js:114-119 | `{ name: "" }` skips validation, answers 200 and stores the empty name |
| AdminController.DeleteUser | backend/src/controllers/adminController.js:149-162 | the reply and the new state are those of User.delete |
| AdminController.DeleteUserMeaning | backend/src/controllers/adminController.js:149-162 | the user is deleted exactly when they exist, with the cascade to their stores and every rating by them or of those stores; otherwise 404 and nothing changes |
| Routes.Authenticate | backend/src/routes/userRoutes.js:13 | a caller is authenticated exactly by the claims of a bearer token that verifies |
| Routes.Bind | backend/src/routes/adminRoutes.js:31-33 | req.params holds exactly the parameters the matched pattern declares |
| Routes.FirstMatch | backend/src/routes/adminRoutes.js:26-40 | the first route with the verb whose pattern matches, with none matching before it |
| Routes.FirstMatchIs | backend/src/routes/adminRoutes.js:26-40 | a matching route with none matching before it is the one chosen |
| Routes.LiteralMismatch | backend/src/routes/adminRoutes.js:26-40 | a literal segment that differs from the path's refutes the pattern |
| Routes.TokenCheckedFirst | backend/src/routes/userRoutes.js:13 | a request without a verifying token reaches no handler and no role check, whatever the router |
| Routes.InvokedMeansAdmitted | backend/src/routes/userRoutes.js:13-37 | a handler is reached only by a caller both gates admit, with the first matching route's parameters |
| Routes.AdminOnly | backend/src/routes/adminRoutes.js:22-23 | every admin route turns away every role but admin |
| Routes.ManagementOnlyThroughAdmin | backend/src/routes/adminRoutes.js:26-40 | the user and store management handlers are served by the admin router only |
| Routes.AdminReachesUser | backend/src/routes/adminRoutes.js:31-33 | an admin reaches the user details, update and delete handlers with the path's id |
| Routes.BrowsingRoles | backend/src/routes/userRoutes.js:15-20 | store listing and details admit normal_user, user and admin, and refuse store_owner |
| Routes.RatingRoles | backend/src/routes/userRoutes.js:22-37 | submitting, reading one's own and deleting ratings admit normal_user and user only |
| Routes.AverageRoles | backend/src/routes/userRoutes.js:28-32 | the average-rating endpoint admits normal_user, user and store_owner, and refuses admin |
| Routes.OwnerReadsAnyStoresRatings | backend/src/routes/storeOwnerRoutes.js:10-14 | a store owner reaches the ratings of any store, whoever owns it |
| Routes.DashboardParams | backend/src/routes/storeOwnerRoutes.js:13 | the dashboard route hands its handler a parameter named storeId only |
| Routes.DashboardAverageIgnoresStore | backend/src/routes/storeOwnerRoutes.js:13 | as written, the owner dashboard's average ignores the store: the handler reads req.params.id, which is undefined, so every store reads as unrated |
| Routes.IntendedDashboardAverage | backend/src/controllers/ratingController.js:70-80 | with the parameter named id, the owner dashboard reports the addressed store's own count and average |
| App.HomeRedirect | frontend/src/App.jsx:126-131 | a signed-out session goes to /login and only it; a signed-in one goes to the admin dashboard, the owner dashboard or /user/stores |
| App.PrivateRouteDecides | frontend/src/App.jsx:18-30 | the guard renders its page exactly for a signed-in session whose role the list admits; signed out it redirects to /login, a refused role to "/", and a route without a roles list admits every signed-in session |
| App.ShownMeansAdmitted | frontend/src/App.jsx:133-236 | any page the route table shows is shown to a session its route admits; signed out, exactly login and signup show |
| App.AdminPagesAdminOnly | frontend/src/App.jsx:156-219 | every admin route shows its page exactly to a signed-in admin |
| App.GuestPagesSendHome | frontend/src/App.jsx:135-147 | a signed-in session opening "/", /login or /signup is sent to its home |
| App.HomeSettles | frontend/src/App.jsx:126-131 | as written, "/" reaches a page within two redirects exactly when signed out or when the role is admin, store_owner or "user" |
| App.NormalUserRedirectLoop | frontend/src/App.jsx:220-227 | as written, a signed-in normal_user bounces between "/" and /user/stores for any number of redirects |
| App.IntendedHomeSettles | frontend/src/App.jsx:220-227 | with /user/stores admitting both spellings of a plain user, "/" shows the home page of every assigned role after one redirect |
| App.NavLinksShowPages | frontend/src/App.jsx:32-121 | every link of the navigation bar shows a page to the session that sees it, without a redirect |
| App.NavLinksReachHome | frontend/src/App.jsx:47-90 | the bar links to the session's home exactly for admin, store_owner and "user"; a normal_user is offered only the password page |
| RoleBadge.CaseOf | frontend/src/components/RoleBadge.jsx:5-15 | admin, store_owner and the two spellings of a plain user are told apart by the switch, and nothing else falls into their cases |
| RoleBadge.BadgeClasses | frontend/src/components/RoleBadge.jsx:2-16 | the class string starts with the shared base classes and a space |
| RoleBadge.BadgeClassesFollowCases | frontend/src/components/RoleBadge.jsx:2-16 | two roles get the same badge classes exactly when they fall in the same case of the switch |
| RoleBadge.ToneDistinct | frontend/src/components/RoleBadge.jsx:6-14 | the four colours are pairwise different |
| RoleBadge.LabelFollowsCases | frontend/src/components/RoleBadge.jsx:18-30 | the three known cases have the labels Admin, Store Owner and User, any other role is shown verbatim, and the known cases never get the fallback badge |
| RoleBadge.AssignedRolesKnown | frontend/src/components/RoleBadge.jsx:18-30 | every role the backend assigns gets a known badge and label |
| RoleBadge.LabelDoesNotIdentifyCase | frontend/src/components/RoleBadge.jsx:2-30 | the unknown role "User" gets the label of a plain user but the fallback badge |
| ClientTable.Field | frontend/src/pages/AdminUsersPage.jsx:68-69 | a row's field is its value when present and undefined otherwise |
| ClientTable.FilterText | frontend/src/pages/AdminUsersPage.jsx:47 | an unset filter reads as empty |
| ClientTable.TextMatchEdges | frontend/src/pages/AdminUsersPage.jsx:57-63 | an empty needle passes every row; a non-empty needle passes no row whose field is falsy |
| ClientTable.TextMatchIgnoresCase | frontend/src/pages/AdminUsersPage.jsx:47-51 | needles equal up to case pass the same rows |
| ClientTable.Narrow | frontend/src/pages/AdminUsersPage.jsx:47-51 | an active filter step keeps exactly the rows passing its test; an inactive one keeps all |
| ClientTable.NarrowCounts | frontend/src/pages/AdminUsersPage.jsx:47-66 | a filter step keeps each passing row as often as it occurs and drops the rest |
| ClientTable.HandleSort | frontend/src/pages/AdminUsersPage.jsx:85-90 | the clicked key becomes the sort key; the direction turns to descending exactly when that key was already sorted ascending |
| ClientTable.HandleSortAlternates | frontend/src/pages/AdminStoresPage.jsx:77-82 | repeated clicks on one header alternate the direction, with period two |
| ClientTable.SortValueOf | frontend/src/pages/AdminStoresPage.jsx:59-60 | `row[key] \|\| ""` is blank exactly for a falsy field, and keeps a non-empty text or non-zero number as it is |
| ClientTable.StringOf | frontend/src/pages/AdminStoresPage.jsx:65-66 | String() of a blank is empty, of a text is the text, of a number is non-empty |
| ClientTable.MixedCompareBranches | frontend/src/pages/AdminStoresPage.jsx:58-67 | the stores comparator subtracts when the first value is a non-zero number and compares texts otherwise, operands swapped when descending |
| ClientTable.HomogeneousPart | frontend/src/pages/AdminStoresPage.jsx:38-56 | a list drawn from a homogeneous list is homogeneous |
| ClientTable.MixedOnText | frontend/src/pages/AdminStoresPage.jsx:64-66 | on a text column the comparator orders by localeCompare of the texts |
| ClientTable.MixedOnNumbers | frontend/src/pages/AdminStoresPage.jsx:61-63 | on a column of positive numbers and blanks the comparator orders by magnitude, a blank as 0 |
| ClientTable.MixedPreorder | frontend/src/pages/AdminStoresPage.jsx:58-67 | on any homogeneous list the stores comparator is a total preorder |
| ClientTable.AbsentKeyKeepsOrder | frontend/src/pages/AdminStoresPage.jsx:58-67 | sorting by a key no row carries leaves the list unchanged |
| AdminUsersPage.Visible | frontend/src/pages/AdminUsersPage.jsx:44-66 | a user is in the filtered list exactly when fetched and passing all four filters |
| AdminUsersPage.VisibleCounts | frontend/src/pages/AdminUsersPage.jsx:44-66 | the filtered list holds each passing user as often as fetched, and no other |
| AdminUsersPage.DescendingReversesAscending | frontend/src/pages/AdminUsersPage.jsx:68-75 | descending compares with the operands exchanged, which negates the ascending result |
| AdminUsersPage.ComparePreorder | frontend/src/pages/AdminUsersPage.jsx:68-75 | the users comparator is a total preorder on any list |
| AdminUsersPage.DisplayedMeaning | frontend/src/pages/AdminUsersPage.jsx:44-77 | the table is a permutation of exactly the passing users and is ordered by the comparator |
| AdminUsersPage.NameAndEmailFilters | frontend/src/pages/AdminUsersPage.jsx:47-56 | name and email filters are case-insensitive substring tests |
| AdminUsersPage.AddressAndRoleFilters | frontend/src/pages/AdminUsersPage.jsx:57-66 | a user without an address fails any address filter; the role filter is exact equality |
| AdminUsersPage.InitialFiltersKeepAll | frontend/src/pages/AdminUsersPage.jsx:16-21 | the initial filters keep every user in its order |
| AdminUsersPage.View.constructor | frontend/src/pages/AdminUsersPage.jsx:13-25 | the page opens loading, with no users, empty filters and the name-ascending sort |
| AdminUsersPage.View.Refresh | frontend/src/pages/AdminUsersPage.jsx:44-78 | the effect sets the shown rows to the filtered, sorted users and changes nothing else |
| AdminUsersPage.View.FetchUsers | frontend/src/pages/AdminUsersPage.jsx:31-42 | a response replaces the users, a failure keeps them, loading ends, and the shown rows follow |
| AdminUsersPage.View.HandleFilterChange | frontend/src/pages/AdminUsersPage.jsx:80-83 | one filter is set and the shown rows follow |
| AdminUsersPage.View.HandleSort | frontend/src/pages/AdminUsersPage.jsx:85-90 | the sort toggles as ClientTable.HandleSort says and the shown rows follow |
| AdminStoresPage.Visible | frontend/src/pages/AdminStoresPage.jsx:37-56 | a store is in the filtered list exactly when fetched and passing the name, email and address filters |
| AdminStoresPage.VisibleCounts | frontend/src/pages/AdminStoresPage.jsx:37-56 | the filtered list holds each passing store as often as fetched, and no other |
| AdminStoresPage.DisplayedMeaning | frontend/src/pages/AdminStoresPage.jsx:37-69 | the table is a permutation of exactly the passing stores, ordered by the comparator when the sorted column is homogeneous |
| AdminStoresPage.FilterEdges | frontend/src/pages/AdminStoresPage.jsx:11-14 | a store without an address fails any address filter; the initial filters keep every store |
| AdminStoresPage.CellFor | frontend/src/pages/AdminStoresPage.jsx:196-203 | the cell reads "No ratings" exactly when the read field is falsy, and shows that field otherwise |
| AdminStoresPage.EveryStoreShowsNoRatings | frontend/src/pages/AdminStoresPage.jsx:197-203 | as written, every store of the list shows "No ratings" |
| AdminStoresPage.TextZeroShowsStars | frontend/src/pages/AdminStoresPage.jsx:197-203 | an unrated store's average arrives as the text "0": read by truthiness it shows stars, read through parseFloat it shows "No ratings" |
| AdminStoresPage.ParsedCellFor | frontend/src/pages/AdminStoresPage.jsx:197-203 | the parsed cell shows "No ratings" exactly when the field reads as NaN or 0, and the parsed number otherwise |
| AdminStoresPage.IntendedRatingCell | frontend/src/pages/AdminStoresPage.jsx:197-203 | reading the rating field through parseFloat, the cell shows "No ratings" exactly for an unrated store and its average otherwise, the same whether the average arrives as a number or as decimal text denoting it |
| AdminStoresPage.RatingHeaderSortsNothing | frontend/src/pages/AdminStoresPage.jsx:170-177 | as written, the rating header leaves the filtered order unchanged in either direction |
| AdminStoresPage.IntendedRatingSort | frontend/src/pages/AdminStoresPage.jsx:58-67 | sorting by the rating field orders the stores by average, lowest first ascending and highest first descending |
| AdminStoresPage.SortedByRating | frontend/src/pages/AdminStoresPage.jsx:61-63 | a list ordered by the comparator on a numeric rating column is ordered by average |
| AdminStoresPage.RatingIsMagnitude | frontend/src/pages/AdminStoresPage.jsx:59-62 | on a numeric column the average read is the value the comparator ranks by |
| AdminStoresPage.View.constructor | frontend/src/pages/AdminStoresPage.jsx:7-18 | the page opens loading, with no stores, empty filters and the name-ascending sort |
| AdminStoresPage.View.Refresh | frontend/src/pages/AdminStoresPage.jsx:37-70 | the effect sets the shown rows to the filtered, sorted stores and changes nothing else |
| AdminStoresPage.View.FetchStores | frontend/src/pages/AdminStoresPage.jsx:24-35 | a response replaces the stores, a failure keeps them, loading ends, and the shown rows follow |
| AdminStoresPage.View.HandleFilterChange | frontend/src/pages/AdminStoresPage.jsx:72-75 | one filter is set and the shown rows follow |
| AdminStoresPage.View.HandleSort | frontend/src/pages/AdminStoresPage.jsx:77-82 | the sort toggles and the shown rows follow |
| StoreRows.StoreObject | backend/src/models/Store.js:32-39 | a listed store reaches the client with its name, email, address, id and average under `rating`, never `average_rating`, and `user_rating` only when the caller is known |
| StoreRows.StoreObjects | backend/src/models/Store.js:32-39 | the client list has one object per listed store, in order |
| StoreRows.AverageSign | backend/src/models/Store.js:33-35 | a store's average is non-negative, and 0 exactly when nobody has rated it |
| StoreRows.StoreColumnsHomogeneous | frontend/src/pages/AdminStoresPage.jsx:58-67 | the text columns and the absent average_rating column sort as text, the rating column as numbers |
| StoreRows.RatingColumnNumeric | backend/src/models/Store.js:33-35 | every row's rating field is a non-negative number |
| UserStoresPage.Visible | frontend/src/pages/UserStoresPage.jsx:48-62 | a store is in the filtered list exactly when fetched and passing the name and address filters |
| UserStoresPage.VisibleCounts | frontend/src/pages/UserStoresPage.jsx:48-62 | the filtered list holds each passing store as often as fetched, and no other |
| UserStoresPage.DisplayedMeaning | frontend/src/pages/UserStoresPage.jsx:48-75 | the table is a permutation of exactly the passing stores, ordered by the comparator when the sorted column is homogeneous |
| UserStoresPage.RatingHeaderSortsNothing | frontend/src/pages/UserStoresPage.jsx:156-163 | as written, the overall-rating header leaves the filtered order unchanged |
| UserStoresPage.Preset | frontend/src/pages/UserStoresPage.jsx:197-200 | the modal opens on the user's own rating when it is truthy, and on 5 otherwise |
| UserStoresPage.LabelMatchesPreset | frontend/src/pages/UserStoresPage.jsx:197-202 | the button says "Update" exactly when the modal opens on the user's own rating |
| UserStoresPage.OwnRatingPreset | frontend/src/pages/UserStoresPage.jsx:186-202 | on the user's own listing the button says "Update" exactly when the user has rated the store, and the modal opens on that rating or on 5 |
| UserStoresPage.AlertText | frontend/src/pages/UserStoresPage.jsx:100 | the alert shows the server's error text, or the fallback message, and is never empty |
| UserStoresPage.View.constructor | frontend/src/pages/UserStoresPage.jsx:15-28 | the page opens loading, with no stores, empty filters, the name-ascending sort and the modal closed at 5 |
| UserStoresPage.View.Refresh | frontend/src/pages/UserStoresPage.jsx:48-76 | the effect sets the shown rows to the filtered, sorted stores and changes nothing else |
| UserStoresPage.View.FetchStores | frontend/src/pages/UserStoresPage.jsx:34-46 | a response replaces the stores, a failure keeps them, loading ends, and the shown rows follow |
| UserStoresPage.View.HandleFilterChange | frontend/src/pages/UserStoresPage.jsx:78-81 | one filter is set and the shown rows follow |
| UserStoresPage.View.HandleSort | frontend/src/pages/UserStoresPage.jsx:83-88 | the sort toggles and the shown rows follow |
| UserStoresPage.View.OpenRating | frontend/src/pages/UserStoresPage.jsx:197-200 | the row's button selects the store and presets the value, and nothing else changes |
| UserStoresPage.View.SetRatingValue | frontend/src/pages/UserStoresPage.jsx:221 | the rating input sets the value only |
| UserStoresPage.View.CloseRating | frontend/src/pages/UserStoresPage.jsx:214 | closing or cancelling deselects the store only |
| UserStoresPage.View.HandleRatingSubmit | frontend/src/pages/UserStoresPage.jsx:90-104 | with no store selected nothing happens; otherwise the store's id and value are sent, an accepted rating closes the modal, a refused one alerts and keeps it open, and submitting ends |

## Left out

- Network, process and module wiring is not modelled: `index.js`, `db.js`, the error-handler and auth middleware files, `authRoutes.js` and the client's axios service calls. Each handler takes the request's parts as parameters. The auth middleware's decision is modelled inside `Routes` from the `Authorization` header.
- bcrypt and JWT are ideal oracles. A hash verifies exactly its own secret, and a token carries its claims unchanged. Token expiry, the secret key and salts are left out because they depend on time and randomness.
- Clocks are parameters (`now`). Request interleavings are left out: concurrent requests and the client's async state updates run one at a time in the model.
- PostgreSQL is modelled as a table state with one statement language for the queries the models issue. The following are not modelled:
  - transactions and locking;
  - collation, which the model takes as code-point order;
  - any column type beyond what the schema of `02_create_schema.js` uses.
- Schema variant: the schema in `run.js`, with ON DELETE SET NULL and a role CHECK, is not part of this model; the model follows `02_create_schema.js`.
- The serial id counter does not model running out of 32-bit ids.
- Case folding in `toLowerCase()` and `lower()` is ASCII only, and `localeCompare` is code-point comparison, because there is no Unicode table here.
- `String(number)` is the parameter `numeral`, because number formatting is floating-point text the model does not compute. Numbers are reals, so the model has no NaN or infinity beyond what `Difference` returns.
- node-postgres returns NUMERIC and AVG values as strings. The client rows here carry the average as a number, `StoreRows.StoreObject`. A text average would sort as text in the stores comparator. The rating cell is also stated for the text form, by `AdminStoresPage.IntendedRatingCell` and `AdminStoresPage.TextZeroShowsStars`.
- AdminStoresPage.IntendedRatingCell: the text average is taken to denote the average exactly. PostgreSQL rounds AVG to a fixed number of decimal places, which never turns a positive average into 0, so the cell it decides is the same.
- Row order: rows tied under an ORDER BY key, and the rows of a query without ORDER BY, are taken in table order. PostgreSQL promises no order there, and two LIMIT/OFFSET queries may break the same tie differently. The listing lemmas `UserList.UserListingMeaning`, `StoreList.StoreListingMeaning` and `Storage.RatingsByStoreMeaning` state each page in that table-order tie break.
- Storage.StoreIdsOwnedBy: `SELECT id FROM stores WHERE owner_id = $1` has no ORDER BY. The model lists the ids in table order, but only the set of ids is promised. So login's storeId (`AuthController.LoginSucceedsIff`, `AuthController.SessionStore`) is proved to be one of the owner's stores, not a particular one.
- Storage.RowOnItsPageListed: stated only when no two of the store's ratings share a created_at. Ratings tied on it can be skipped or repeated across pages in the source.
- Storage.EveryRatingIsOnAPage: the "no rating lost to paging" part is stated only when no two of the store's ratings share a created_at, for the same reason.
- UserList.EveryMatchIsOnAPage: stated only when no two matching users tie on the ORDER BY column, for the same reason.
- Request bodies: a body field the controllers read as text (name, email, password and address in the auth, admin and store controllers, `Js.TextValue`) is a string, null or absent. JSON numbers, booleans, objects and arrays there take other paths in the source that are not modelled. For example, `validateName` calls `name.trim()` on a number and throws (500), `bcrypt.compare` throws on a numeric password at login (500), and a numeric address passes the `.length > 400` test and is stored as text. `Js.JsValue` has no booleans, objects or arrays at all, so `{"rating": true}` (Number gives 1) is not modelled either.
- Js.ParseInt: only decimal digits are read. `parseInt("0x10")` is 16 in JavaScript and None (NaN) here, which also affects the `existing.id !== parseInt(id)` conflict checks of updateStore and updateUser for such an id.
- Js.StringToNumber: only decimal notation with an optional fraction is read. Exponents ("3e0"), hex ("0x3") and "Infinity" give None (NaN) here, while JavaScript reads them as numbers. So `{"rating": "3e0"}` is refused with 400 in the model, while the source passes validateRating and then fails the int4 cast with 500.
- ClientTable.SortValueOf: the users comparator applies `localeCompare` to `a[key] || ""`. Where that value is a truthy non-string the source throws; the model compares it as "".
- Array.prototype.sort is taken to be stable, which the language has required since ES2019. `Seqs.Sort` is a stable insertion sort standing for its result.
- The fetch handlers' response shape (`data.data || data || []`, and `data.stores` on the user page) is modelled as an optional list of rows: None is a failed request.
- The pages' `deleteUser` and `deleteStore` are not modelled: they are a confirm dialog followed by a network call and a refetch, all outside the model. The user page's refetch after a rating is left out for the same reason.
- JSX rendering is not modelled beyond the cells and labels that decide something: the rating cell, the button label, the badge, the links and the guards. Spinners, layout and styles are left out.
- The edit and add forms of the client are not part of this model.

## Findings

| source | as written | input that shows it | evidently intended | confidence | as-written member | corrected member |
|---|---|---|---|---|---|---|
| backend/src/controllers/adminController.js:93-101 | a store owner's store is looked up with `s.owner_id === userId`: a number from the database compared with the route's string | GET /api/admin/users/5 for a store owner with id 5 who owns a store: the reply carries no store | compare the parsed id, so the owner's store and its rating are reported | not executed | AdminController.OwnerStoreNeverAttached | AdminController.IntendedStoreFound |
| backend/src/routes/storeOwnerRoutes.js:13 | the dashboard route declares `:storeId`, but its handler `getStoreAverageRating` reads `req.params.id` (ratingController.js:72) | GET /api/store-owner/dashboard/3 for a store with ratings: the average comes back 0 with a count of 0 | name the parameter `id`, so the addressed store's count and average are reported | not executed | Routes.DashboardAverageIgnoresStore | Routes.IntendedDashboardAverage |
| frontend/src/App.jsx:220-227 | /user/stores admits only the role "user", while the backend assigns "normal_user" and `getHomeRedirect` sends that role to /user/stores | a signed-in normal_user opening "/": /user/stores redirects to "/", which redirects back, forever | admit both spellings of a plain user on /user/stores | not executed | App.NormalUserRedirectLoop | App.IntendedHomeSettles |
| frontend/src/pages/AdminStoresPage.jsx:197-203 | the rating cell and the header at line 171 read `average_rating`; the store list (Store.js:33-35) sends the average as `rating` | any store with ratings: its cell reads "No ratings", and clicking the Rating header leaves the order unchanged | read the `rating` field in the sort, and in the cell through parseFloat (node-postgres sends an unrated store's average as the truthy text "0") | not executed | AdminStoresPage.EveryStoreShowsNoRatings | AdminStoresPage.IntendedRatingCell |
