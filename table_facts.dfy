/**
 * What the statements of the User, Store and Rating models guarantee: each
 * keeps the schema's constraints, updates touch only the columns supplied,
 * deletes cascade without leaving a dangling reference, the rating upsert
 * keeps one row per (user, store), and averages stay within the rating
 * bounds.
 */
module TableFacts {
  import opened Wrappers
  import opened Js
  import opened Seqs
  import opened Sql
  import opened Credentials
  import opened Tables

  // ---------------------------------------------------------------------
  // Id sets under the changes the statements make
  // ---------------------------------------------------------------------

  lemma UserIdsAppend(users: seq<UserRow>, row: UserRow)
    ensures UserIds(users + [row]) == UserIds(users) + {row.id}
  {
    assert row in users + [row];
    forall u | u in users ensures u in users + [row] {
    }
  }

  lemma StoreIdsAppend(stores: seq<StoreRow>, row: StoreRow)
    ensures StoreIds(stores + [row]) == StoreIds(stores) + {row.id}
  {
    assert row in stores + [row];
    forall s | s in stores ensures s in stores + [row] {
    }
  }

  lemma UserIdsUpdate(users: seq<UserRow>, i: nat, row: UserRow)
    requires i < |users| && row.id == users[i].id
    ensures UserIds(users[i := row]) == UserIds(users)
  {
    var after := users[i := row];
    forall x | x in UserIds(users) ensures x in UserIds(after) {
      var u :| u in users && u.id == x;
      var j :| 0 <= j < |users| && users[j] == u;
      assert after[j].id == x;
    }
    forall x | x in UserIds(after) ensures x in UserIds(users) {
      var u :| u in after && u.id == x;
      var j :| 0 <= j < |after| && after[j] == u;
      assert users[j].id == x;
    }
  }

  lemma StoreIdsUpdate(stores: seq<StoreRow>, i: nat, row: StoreRow)
    requires i < |stores| && row.id == stores[i].id
    ensures StoreIds(stores[i := row]) == StoreIds(stores)
  {
    var after := stores[i := row];
    forall x | x in StoreIds(stores) ensures x in StoreIds(after) {
      var s :| s in stores && s.id == x;
      var j :| 0 <= j < |stores| && stores[j] == s;
      assert after[j].id == x;
    }
    forall x | x in StoreIds(after) ensures x in StoreIds(stores) {
      var s :| s in after && s.id == x;
      var j :| 0 <= j < |after| && after[j] == s;
      assert stores[j].id == x;
    }
  }

  // ---------------------------------------------------------------------
  // users
  // ---------------------------------------------------------------------

  /**
   * User.create keeps the schema's constraints. It fails exactly when a
   * column is too wide or the email is taken, and then adds no row; on
   * success the new row comes last and carries the next id.
   */
  lemma InsertUserKeepsConsistent(t: Tables, name: string, email: string, password: Digest,
                                  address: Option<string>, role: string, now: int)
    requires Consistent(t)
    ensures var (r, t') := InsertUser(t, name, email, password, address, role, now);
            && Consistent(t')
            && (r.Ok? <==> |name| <= NameWidth && |email| <= EmailWidth && |role| <= RoleWidth
                           && (address.Some? ==> |address.value| <= AddressWidth)
                           && email !in UserEmails(t.users))
            && (r.Ok? ==> t'.users == t.users + [r.value] && r.value.id == t.userSeq
                          && r.value.role == role && r.value.password == password)
            && (r.Err? ==> t'.users == t.users)
            && t'.stores == t.stores && t'.ratings == t.ratings
  {
    var (r, t') := InsertUser(t, name, email, password, address, role, now);
    if r.Ok? {
      var row := r.value;
      UserIdsAppend(t.users, row);
      forall i | 0 <= i < |t.users| ensures UserOrder(t.users[i], row) {
        assert t.users[i] in t.users;
      }
      PairwiseAppend(t.users, row, UserOrder);
    }
  }

  /**
   * User.update keeps the schema's constraints and changes one row at most:
   * the row with the id, whose id, role and created_at stay, whose
   * updated_at becomes the statement's time, and whose columns change only
   * where the patch supplies a value. A failure changes nothing.
   */
  lemma UpdateUserKeepsConsistent(t: Tables, id: JsValue, p: UserPatch, now: int)
    requires Consistent(t)
    ensures var (r, t') := UpdateUser(t, id, p, now);
            && Consistent(t')
            && (r.Err? || r.value.None? ==> t' == t)
            && (r.Ok? && r.value.Some? ==>
                  var row := r.value.value;
                  && BindInt4(id) == Ok(Some(row.id))
                  && (exists i :: 0 <= i < |t.users| && t'.users == t.users[i := row]
                       && t.users[i].id == row.id && t.users[i].role == row.role
                       && t.users[i].createdAt == row.createdAt && row.updatedAt == now
                       && (p.name.Undefined? ==> row.name == t.users[i].name)
                       && (p.email.Undefined? ==> row.email == t.users[i].email)
                       && (p.password.None? ==> row.password == t.users[i].password)
                       && (p.password.Some? ==> row.password == Hash(p.password.value))
                       && (p.address.Undefined? ==> row.address == t.users[i].address)))
            && t'.stores == t.stores && t'.ratings == t.ratings
  {
    var (r, t') := UpdateUser(t, id, p, now);
    if r.Ok? && r.value.Some? {
      var k := BindInt4(id).value.value;
      var i := IndexWhere(t.users, (u: UserRow) => u.id == k);
      var row := r.value.value;
      assert PatchUser(t.users[i], p, now) == Ok(row);
      assert t' == t.(users := t.users[i := row]);
      ReplaceUserKeepsConsistent(t, i, row);
    }
  }

  /** Replacing a user's row by one with the same id, columns that fit and an email no other row has keeps the constraints. */
  lemma ReplaceUserKeepsConsistent(t: Tables, i: nat, row: UserRow)
    requires Consistent(t) && i < |t.users| && row.id == t.users[i].id && UserFits(row)
    requires forall j :: 0 <= j < |t.users| && j != i ==> t.users[j].email != row.email
    ensures Consistent(t.(users := t.users[i := row]))
  {
    var t' := t.(users := t.users[i := row]);
    UserIdsUpdate(t.users, i, row);
    forall j | 0 <= j < i ensures UserOrder(t.users[j], row) {
      assert UserOrder(t.users[j], t.users[i]);
    }
    forall j | i < j < |t.users| ensures UserOrder(row, t.users[j]) {
      assert UserOrder(t.users[i], t.users[j]);
    }
    PairwiseUpdate(t.users, i, row, UserOrder);
    forall u | u in t'.users ensures 1 <= u.id < t'.userSeq && UserFits(u) {
      var j :| 0 <= j < |t'.users| && t'.users[j] == u;
      assert t.users[i] in t.users;
      if j != i {
        assert t.users[j] in t.users;
      }
    }
    assert UsersOk(t');
    assert StoresOk(t');
    assert RatingsOk(t');
  }

  /** A row of `stores` that cites user k. */
  lemma OwnedGone(t: Tables, k: int, s: StoreRow)
    requires s in t.stores && s.ownerId == k
    ensures s.id in OwnedStoreIds(t.stores, k)
  {
  }

  /**
   * Deleting a user cascades: afterwards the schema's constraints hold, the
   * user is gone, and no store they owned and no rating by them or of their
   * stores is left; every other user remains.
   */
  lemma RemoveUserKeepsConsistent(t: Tables, k: int)
    requires Consistent(t)
    ensures var t' := RemoveUser(t, k);
            && Consistent(t')
            && UserIds(t'.users) == UserIds(t.users) - {k}
            && (forall s :: s in t'.stores ==> s.ownerId != k)
            && (forall r :: r in t'.ratings ==> r.userId != k && r.storeId !in OwnedStoreIds(t.stores, k))
  {
    var t' := RemoveUser(t, k);
    var gone := OwnedStoreIds(t.stores, k);
    FilterPairwise(t.users, (u: UserRow) => u.id != k, UserOrder);
    FilterPairwise(t.stores, (s: StoreRow) => s.ownerId != k, StoreOrder);
    FilterPairwise(t.ratings, (r: RatingRow) => r.userId != k && r.storeId !in gone, RatingOrder);
    forall x | x in UserIds(t.users) - {k} ensures x in UserIds(t'.users) {
      var u :| u in t.users && u.id == x;
      assert u in t'.users;
    }
    assert UserIds(t'.users) == UserIds(t.users) - {k};
    forall s | s in t'.stores ensures s.ownerId in UserIds(t'.users) {
      assert s in t.stores && s.ownerId != k;
    }
    forall r | r in t'.ratings ensures r.userId in UserIds(t'.users) && r.storeId in StoreIds(t'.stores) {
      assert r in t.ratings && r.userId != k && r.storeId !in gone;
      var s :| s in t.stores && s.id == r.storeId;
      if s.ownerId == k {
        OwnedGone(t, k, s);
      }
      assert s in t'.stores;
    }
  }

  /** User.delete answers with the id exactly when the user existed, and then cascades. */
  lemma DeleteUserCascades(t: Tables, id: JsValue)
    requires Consistent(t)
    ensures var (r, t') := DeleteUser(t, id);
            && Consistent(t')
            && (r.Ok? && r.value.Some? <==> BindInt4(id).Ok? && BindInt4(id).value.Some?
                                             && BindInt4(id).value.value in UserIds(t.users))
            && (r.Ok? && r.value.Some? ==> t' == RemoveUser(t, r.value.value))
            && (!(r.Ok? && r.value.Some?) ==> t' == t)
  {
    var (r, t') := DeleteUser(t, id);
    if r.Ok? && r.value.Some? {
      RemoveUserKeepsConsistent(t, r.value.value);
    }
  }

  // ---------------------------------------------------------------------
  // stores
  // ---------------------------------------------------------------------

  /**
   * Store.create keeps the schema's constraints. A store is added only when
   * its owner is an existing user, its columns fit and its email is new.
   */
  lemma InsertStoreKeepsConsistent(t: Tables, name: string, email: string, address: string, ownerId: JsValue, now: int)
    requires Consistent(t)
    ensures var (r, t') := InsertStore(t, name, email, address, ownerId, now);
            && Consistent(t')
            && (r.Ok? ==> t'.stores == t.stores + [r.value] && r.value.id == t.storeSeq
                          && r.value.ownerId in UserIds(t.users) && email !in StoreEmails(t.stores)
                          && BindInt4(ownerId) == Ok(Some(r.value.ownerId)))
            && (r.Err? ==> t'.stores == t.stores)
            && t'.users == t.users && t'.ratings == t.ratings
  {
    var (r, t') := InsertStore(t, name, email, address, ownerId, now);
    match BindInt4(ownerId)
    case Err(e) =>
      assert t' == t;
    case Ok(owner) =>
      if r.Ok? {
        StoreAppendKeepsConsistent(t, r.value);
      } else {
        assert t' == t.(storeSeq := t.storeSeq + 1);
        StoreBumpKeepsConsistent(t);
      }
  }

  /** Advancing the stores' id sequence keeps the constraints. */
  lemma StoreBumpKeepsConsistent(t: Tables)
    requires Consistent(t)
    ensures Consistent(t.(storeSeq := t.storeSeq + 1))
  {
    var t' := t.(storeSeq := t.storeSeq + 1);
    assert UsersOk(t') && RatingsOk(t');
    forall s | s in t'.stores ensures 1 <= s.id < t'.storeSeq && StoreFits(s) && s.ownerId in UserIds(t'.users) {
      assert s in t.stores;
    }
  }

  /** Appending a store with a new email, an existing owner and the next id keeps the constraints. */
  lemma StoreAppendKeepsConsistent(t: Tables, row: StoreRow)
    requires Consistent(t) && row.id == t.storeSeq && StoreFits(row)
    requires row.email !in StoreEmails(t.stores) && row.ownerId in UserIds(t.users)
    ensures Consistent(t.(storeSeq := t.storeSeq + 1, stores := t.stores + [row]))
  {
    var t' := t.(storeSeq := t.storeSeq + 1, stores := t.stores + [row]);
    StoreIdsAppend(t.stores, row);
    forall i | 0 <= i < |t.stores| ensures StoreOrder(t.stores[i], row) {
      assert t.stores[i] in t.stores;
    }
    PairwiseAppend(t.stores, row, StoreOrder);
    assert UsersOk(t');
    forall x | x in t'.ratings
      ensures 1 <= x.id < t'.ratingSeq && 1 <= x.rating <= 5
              && x.userId in UserIds(t'.users) && x.storeId in StoreIds(t'.stores)
    {
      assert x in t.ratings;
    }
    assert RatingsOk(t');
  }

  /** Store.update keeps the constraints; it never changes a store's id or owner. */
  lemma UpdateStoreKeepsConsistent(t: Tables, id: JsValue, p: StorePatch, now: int)
    requires Consistent(t)
    ensures var (r, t') := UpdateStore(t, id, p, now);
            && Consistent(t')
            && (r.Err? || r.value.None? ==> t' == t)
            && (r.Ok? && r.value.Some? ==>
                  var row := r.value.value;
                  exists i :: 0 <= i < |t.stores| && t'.stores == t.stores[i := row]
                    && t.stores[i].id == row.id && t.stores[i].ownerId == row.ownerId
                    && t.stores[i].createdAt == row.createdAt && row.updatedAt == now
                    && (p.name.Undefined? ==> row.name == t.stores[i].name)
                    && (p.email.Undefined? ==> row.email == t.stores[i].email)
                    && (p.address.Undefined? ==> row.address == t.stores[i].address))
            && t'.users == t.users && t'.ratings == t.ratings
  {
    var (r, t') := UpdateStore(t, id, p, now);
    if r.Ok? && r.value.Some? {
      var k := BindInt4(id).value.value;
      var i := IndexWhere(t.stores, (s: StoreRow) => s.id == k);
      var row := r.value.value;
      assert t'.stores == t.stores[i := row];
      StoreIdsUpdate(t.stores, i, row);
      forall j | 0 <= j < i ensures StoreOrder(t.stores[j], row) {
        assert StoreOrder(t.stores[j], t.stores[i]);
      }
      forall j | i < j < |t.stores| ensures StoreOrder(row, t.stores[j]) {
        assert StoreOrder(t.stores[i], t.stores[j]);
      }
      PairwiseUpdate(t.stores, i, row, StoreOrder);
      forall s | s in t'.stores ensures 1 <= s.id < t'.storeSeq && StoreFits(s) && s.ownerId in UserIds(t'.users) {
        var j :| 0 <= j < |t'.stores| && t'.stores[j] == s;
        assert t.stores[j] in t.stores;
      }
    }
  }

  /** Deleting a store removes it and all its ratings and leaves the constraints intact. */
  lemma RemoveStoreKeepsConsistent(t: Tables, k: int)
    requires Consistent(t)
    ensures var t' := RemoveStore(t, k);
            && Consistent(t')
            && StoreIds(t'.stores) == StoreIds(t.stores) - {k}
            && (forall r :: r in t'.ratings ==> r.storeId != k)
            && (forall r :: r in t.ratings && r.storeId != k ==> r in t'.ratings)
  {
    var t' := RemoveStore(t, k);
    FilterPairwise(t.stores, (s: StoreRow) => s.id != k, StoreOrder);
    FilterPairwise(t.ratings, (r: RatingRow) => r.storeId != k, RatingOrder);
    forall x | x in StoreIds(t.stores) - {k} ensures x in StoreIds(t'.stores) {
      var s :| s in t.stores && s.id == x;
      assert s in t'.stores;
    }
    assert StoreIds(t'.stores) == StoreIds(t.stores) - {k};
  }

  /** Store.delete answers with the id exactly when the store existed, and then cascades. */
  lemma DeleteStoreCascades(t: Tables, id: JsValue)
    requires Consistent(t)
    ensures var (r, t') := DeleteStore(t, id);
            && Consistent(t')
            && (r.Ok? && r.value.Some? <==> BindInt4(id).Ok? && BindInt4(id).value.Some?
                                             && BindInt4(id).value.value in StoreIds(t.stores))
            && (r.Ok? && r.value.Some? ==> t' == RemoveStore(t, r.value.value))
            && (!(r.Ok? && r.value.Some?) ==> t' == t)
  {
    var (r, t') := DeleteStore(t, id);
    if r.Ok? && r.value.Some? {
      RemoveStoreKeepsConsistent(t, r.value.value);
    }
  }

  // ---------------------------------------------------------------------
  // ratings
  // ---------------------------------------------------------------------

  /**
   * Rating.create keeps the constraints, and so at most one rating per
   * (user, store) however often it runs.
   */
  lemma UpsertKeepsConsistent(t: Tables, userId: int, storeId: JsValue, rating: JsValue, now: int)
    requires Consistent(t)
    ensures Consistent(UpsertRating(t, userId, storeId, rating, now).1)
  {
    var t' := UpsertRating(t, userId, storeId, rating, now).1;
    if BindInt4(storeId).Err? || BindInt4(rating).Err? {
      assert t' == t;
    } else {
      var store, value := BindInt4(storeId).value, BindInt4(rating).value;
      var bumped := t.(ratingSeq := t.ratingSeq + 1);
      if store.None? || value.None? || !(Constants.RatingMinValue <= value.value <= Constants.RatingMaxValue) {
        assert t' == bumped;
        BumpKeepsConsistent(t);
      } else {
        var s, v := store.value, value.value;
        var i := PairIndex(t.ratings, userId, s);
        if i < |t.ratings| {
          assert t' == bumped.(ratings := t.ratings[i := t.ratings[i].(rating := v, updatedAt := now)]);
          OverwriteKeepsConsistent(t, i, v, now);
        } else if userId !in UserIds(t.users) || s !in StoreIds(t.stores) {
          assert t' == bumped;
          BumpKeepsConsistent(t);
        } else {
          assert t' == bumped.(ratings := t.ratings + [RatingRow(t.ratingSeq, userId, s, v, now, now)]);
          AppendKeepsConsistent(t, RatingRow(t.ratingSeq, userId, s, v, now, now));
        }
      }
    }
  }

  /** Advancing the id sequence keeps the constraints. */
  lemma BumpKeepsConsistent(t: Tables)
    requires Consistent(t)
    ensures Consistent(t.(ratingSeq := t.ratingSeq + 1))
  {
  }

  /** Changing one rating's value and time in place keeps the constraints, whether or not the sequence advances. */
  lemma OverwriteKeepsConsistent(t: Tables, i: nat, v: int, now: int)
    requires Consistent(t) && i < |t.ratings| && 1 <= v <= 5
    ensures Consistent(t.(ratingSeq := t.ratingSeq + 1, ratings := t.ratings[i := t.ratings[i].(rating := v, updatedAt := now)]))
  {
    var row := t.ratings[i].(rating := v, updatedAt := now);
    var t' := t.(ratingSeq := t.ratingSeq + 1, ratings := t.ratings[i := row]);
    forall j | 0 <= j < i ensures RatingOrder(t.ratings[j], row) {
      assert RatingOrder(t.ratings[j], t.ratings[i]);
    }
    forall j | i < j < |t.ratings| ensures RatingOrder(row, t.ratings[j]) {
      assert RatingOrder(t.ratings[i], t.ratings[j]);
    }
    PairwiseUpdate(t.ratings, i, row, RatingOrder);
    forall x | x in t'.ratings
      ensures 1 <= x.id < t'.ratingSeq && 1 <= x.rating <= 5
              && x.userId in UserIds(t'.users) && x.storeId in StoreIds(t'.stores)
    {
      var j :| 0 <= j < |t'.ratings| && t'.ratings[j] == x;
      assert t.ratings[j] in t.ratings;
    }
  }

  /** Appending a new (user, store) rating that takes the next id keeps the constraints. */
  lemma AppendKeepsConsistent(t: Tables, row: RatingRow)
    requires Consistent(t) && row.id == t.ratingSeq && 1 <= row.rating <= 5
    requires row.userId in UserIds(t.users) && row.storeId in StoreIds(t.stores)
    requires forall k :: 0 <= k < |t.ratings| ==> !IsPair(t.ratings[k], row.userId, row.storeId)
    ensures Consistent(t.(ratingSeq := t.ratingSeq + 1, ratings := t.ratings + [row]))
  {
    forall j | 0 <= j < |t.ratings| ensures RatingOrder(t.ratings[j], row) {
      assert t.ratings[j] in t.ratings;
    }
    PairwiseAppend(t.ratings, row, RatingOrder);
  }

  /**
   * A successful Rating.create stores the caller's row for the store with the
   * bound value, which is in [1, 5], and leaves one row for that pair.
   */
  lemma UpsertStoresThePair(t: Tables, userId: int, storeId: JsValue, rating: JsValue, now: int)
    requires Consistent(t)
    ensures var (u, t') := UpsertRating(t, userId, storeId, rating, now);
            u.Ok? ==>
              && BindInt4(storeId).Ok? && BindInt4(storeId).value.Some?
              && BindInt4(rating).Ok? && BindInt4(rating).value.Some?
              && var s := BindInt4(storeId).value.value;
                 && IsPair(u.value, userId, s) && u.value.rating == BindInt4(rating).value.value
                 && 1 <= u.value.rating <= 5 && u.value in t'.ratings
                 && forall i, j :: 0 <= i < j < |t'.ratings| ==>
                      !(IsPair(t'.ratings[i], userId, s) && IsPair(t'.ratings[j], userId, s))
  {
    var (u, t') := UpsertRating(t, userId, storeId, rating, now);
    if u.Ok? {
      UpsertKeepsConsistent(t, userId, storeId, rating, now);
      var s, v := BindInt4(storeId).value.value, BindInt4(rating).value.value;
      var i := PairIndex(t.ratings, userId, s);
      if i < |t.ratings| {
        assert u.value == t.ratings[i].(rating := v, updatedAt := now);
        assert t'.ratings[i] == u.value;
      } else {
        assert u.value == RatingRow(t.ratingSeq, userId, s, v, now, now);
        assert t'.ratings[|t.ratings|] == u.value;
      }
      forall i, j | 0 <= i < j < |t'.ratings|
        ensures !(IsPair(t'.ratings[i], userId, s) && IsPair(t'.ratings[j], userId, s))
      {
        if IsPair(t'.ratings[i], userId, s) && IsPair(t'.ratings[j], userId, s) {
          OneRatingPerPair(t', i, j);
        }
      }
    }
  }

  /** Rating.create writes only the ratings (and the id sequence), and a failed statement leaves them. */
  lemma UpsertTouchesOnlyRatings(t: Tables, userId: int, storeId: JsValue, rating: JsValue, now: int)
    ensures var (r, t') := UpsertRating(t, userId, storeId, rating, now);
            && t'.users == t.users && t'.stores == t.stores
            && (r.Err? ==> t'.ratings == t.ratings)
  {
    var (r, t') := UpsertRating(t, userId, storeId, rating, now);
    if BindInt4(storeId).Err? || BindInt4(rating).Err? {
      assert t' == t;
    } else {
      var store, value := BindInt4(storeId).value, BindInt4(rating).value;
      var bumped := t.(ratingSeq := t.ratingSeq + 1);
      if store.None? || value.None? || !(Constants.RatingMinValue <= value.value <= Constants.RatingMaxValue) {
        assert t' == bumped;
      } else {
        var i := PairIndex(t.ratings, userId, store.value);
        if i < |t.ratings| {
          assert t' == bumped.(ratings := t.ratings[i := t.ratings[i].(rating := value.value, updatedAt := now)]);
        } else if userId !in UserIds(t.users) || store.value !in StoreIds(t.stores) {
          assert t' == bumped;
        } else {
          assert t' == bumped.(ratings := t.ratings + [RatingRow(t.ratingSeq, userId, store.value, value.value, now, now)]);
        }
      }
    }
  }

  /** UNIQUE(user_id, store_id), restated: two ratings by one user of one store are the same row. */
  lemma OneRatingPerPair(t: Tables, i: nat, j: nat)
    requires Consistent(t)
    requires i < |t.ratings| && j < |t.ratings|
    requires t.ratings[i].userId == t.ratings[j].userId && t.ratings[i].storeId == t.ratings[j].storeId
    ensures i == j
  {
  }

  /**
   * Re-submitting a rating overwrites the existing row in place: same id,
   * same created_at, the new value and time, every other row unchanged and
   * the number of rows the same.
   */
  lemma ResubmitOverwrites(t: Tables, k: nat, storeId: JsValue, rating: JsValue, value: int, now: int)
    requires Consistent(t)
    requires k < |t.ratings|
    requires BindInt4(storeId) == Ok(Some(t.ratings[k].storeId))
    requires BindInt4(rating) == Ok(Some(value)) && 1 <= value <= 5
    ensures var (r, t') := UpsertRating(t, t.ratings[k].userId, storeId, rating, now);
            && |t'.ratings| == |t.ratings|
            && r == Ok(t.ratings[k].(rating := value, updatedAt := now))
            && t'.ratings == t.ratings[k := r.value]
            && t'.users == t.users && t'.stores == t.stores
  {
    PairIndexUnique(t, t.ratings[k].userId, t.ratings[k].storeId, k);
  }

  /** A first rating by an existing user of an existing store adds one row with the next id. */
  lemma FirstRatingAppends(t: Tables, userId: int, storeId: JsValue, rating: JsValue, s: int, value: int, now: int)
    requires Consistent(t)
    requires BindInt4(storeId) == Ok(Some(s)) && BindInt4(rating) == Ok(Some(value)) && 1 <= value <= 5
    requires userId in UserIds(t.users) && s in StoreIds(t.stores)
    requires forall x :: x in t.ratings ==> !IsPair(x, userId, s)
    ensures var (r, t') := UpsertRating(t, userId, storeId, rating, now);
            && r == Ok(RatingRow(t.ratingSeq, userId, s, value, now, now))
            && t'.ratings == t.ratings + [r.value]
  {
  }

  /** findByUserAndStore finds the caller's rating of the store exactly when there is one. */
  lemma FindRatingFindsThePair(t: Tables, userId: int, storeId: JsValue, s: int)
    requires BindInt4(storeId) == Ok(Some(s))
    ensures FindRating(t, userId, storeId).Ok?
    ensures var found := FindRating(t, userId, storeId).value;
            && (found.Some? <==> exists x :: x in t.ratings && IsPair(x, userId, s))
            && (found.Some? ==> found.value in t.ratings && IsPair(found.value, userId, s))
  {
    var i := PairIndex(t.ratings, userId, s);
    assert FindRating(t, userId, storeId) == Ok(if i < |t.ratings| then Some(t.ratings[i]) else None);
    if exists x :: x in t.ratings && IsPair(x, userId, s) {
      var x :| x in t.ratings && IsPair(x, userId, s);
      var j :| 0 <= j < |t.ratings| && t.ratings[j] == x;
      assert i <= j;
    }
  }

  // ---------------------------------------------------------------------
  // Averages and counts
  // ---------------------------------------------------------------------

  lemma {:induction false} SumBounds(rs: seq<RatingRow>)
    requires forall r :: r in rs ==> 1 <= r.rating <= 5
    ensures |rs| <= Sum(rs) <= 5 * |rs|
  {
    if rs != [] {
      assert rs[0] in rs;
      assert forall r :: r in rs[1..] ==> r in rs;
      SumBounds(rs[1..]);
    }
  }

  /**
   * getAverageRating: with no ratings the result is (0, 0); otherwise the
   * average lies within the rating bounds and the count is the number of the
   * store's ratings.
   */
  lemma AverageWithinBounds(t: Tables, storeId: JsValue)
    requires Consistent(t)
    requires AverageRating(t, storeId).Ok?
    ensures var (avg, count) := AverageRating(t, storeId).value;
            && (count == 0 <==> avg == 0.0)
            && (count > 0 ==> 1.0 <= avg <= 5.0)
  {
    match BindInt4(storeId)
    case Ok(None) =>
    case Ok(Some(s)) =>
      var rs := RatingsOf(t.ratings, s);
      assert forall r :: r in rs ==> r in t.ratings;
      SumBounds(rs);
      if rs != [] {
        MeanBounds(Sum(rs), |rs|);
      }
  }

  lemma MeanBounds(sum: int, n: int)
    requires 0 < n && n <= sum <= 5 * n
    ensures 1.0 <= sum as real / n as real <= 5.0
  {
    var m := sum as real / n as real;
    assert m * n as real == sum as real;
  }

  /** Under the foreign key, every rating of the store is listed by getByStore's join. */
  lemma JoinKeepsAllRatings(t: Tables, s: int)
    requires Consistent(t)
    ensures |StoreRatingRows(t, s)| == |RatingsOf(t.ratings, s)|
  {
    var p := (r: RatingRow) => r.storeId == s && r.userId in UserIds(t.users);
    var q := (r: RatingRow) => r.storeId == s;
    forall i | 0 <= i < |t.ratings| ensures p(t.ratings[i]) == q(t.ratings[i]) {
      assert t.ratings[i] in t.ratings;
    }
    FilterCongruent(t.ratings, p, q);
    SortLength(Filter(t.ratings, p), NewestFirst);
  }

  /** getByStore lists only that store's ratings, newest first. */
  lemma RatingsNewestFirst(t: Tables, s: int)
    ensures Sorted(StoreRatingRows(t, s), NewestFirst)
    ensures forall r :: r in StoreRatingRows(t, s) ==> r in t.ratings && r.storeId == s
  {
    var joined := Filter(t.ratings, (r: RatingRow) => r.storeId == s && r.userId in UserIds(t.users));
    NewestFirstIsPreorder(joined);
    SortSorted(joined, NewestFirst);
    var rs := Sort(joined, NewestFirst);
    assert StoreRatingRows(t, s) == rs;
    forall r | r in rs ensures r in t.ratings && r.storeId == s {
      assert r in multiset(rs);
      assert r in joined;
    }
  }

  lemma NewestFirstIsPreorder(rs: seq<RatingRow>)
    ensures TotalPreorderOn(rs, NewestFirst)
  {
  }

  /** Rating.delete removes the one row with that id and nothing else. */
  lemma DeleteRatingRemovesOne(t: Tables, id: JsValue, k: int)
    requires Consistent(t)
    requires BindInt4(id) == Ok(Some(k))
    ensures var (r, t') := DeleteRating(t, id);
            && Consistent(t')
            && (r == Ok(Some(k)) <==> exists x :: x in t.ratings && x.id == k)
            && (forall x :: x in t'.ratings <==> x in t.ratings && x.id != k)
            && t'.users == t.users && t'.stores == t.stores
  {
    var (r, t') := DeleteRating(t, id);
    if r.Ok? && r.value.Some? {
      FilterPairwise(t.ratings, (x: RatingRow) => x.id != k, RatingOrder);
    }
  }
}
