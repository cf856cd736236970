/**
 * A row of the store list as the client receives it: the JSON object of
 * one StoreList.StoreSummary, with the column names of Store.getAll
 * (`rating` for the average, `user_rating` when the caller is known).
 */
module StoreRows {
  import opened Wrappers
  import opened Js
  import opened Tables
  import opened StoreList
  import opened ClientTable
  import TableFacts

  /** The JSON object of a summary row; timestamps are kept as numbers. */
  function StoreObject(s: StoreSummary): (r: Row)
    ensures Field(r, "name") == Str(s.name) && Field(r, "email") == Str(s.email)
    ensures Field(r, "address") == Str(s.address) && Field(r, "rating") == Num(s.rating)
    ensures Field(r, "id") == Num(s.id as real)
    ensures "average_rating" !in r
    ensures "user_rating" in r <==> s.userRating.Some?
    ensures s.userRating.Some? ==>
      Field(r, "user_rating") == if s.userRating.value.Some? then Num(s.userRating.value.value as real) else Null
  {
    var base := map[
      "id" := Num(s.id as real), "name" := Str(s.name), "email" := Str(s.email),
      "address" := Str(s.address), "owner_id" := Num(s.ownerId as real),
      "rating" := Num(s.rating), "created_at" := Num(s.createdAt as real)];
    match s.userRating
    case None => base
    case Some(mine) => base["user_rating" := if mine.Some? then Num(mine.value as real) else Null]
  }

  function StoreObjects(rows: seq<StoreSummary>): (r: seq<Row>)
    ensures |r| == |rows|
    ensures forall i :: 0 <= i < |rows| ==> r[i] == StoreObject(rows[i])
  {
    if rows == [] then [] else [StoreObject(rows[0])] + StoreObjects(rows[1..])
  }

  /** An average of ratings in 1..5 is 0 exactly for a store nobody rated, and positive otherwise. */
  lemma AverageSign(t: Tables, storeId: int)
    requires Consistent(t)
    ensures Average(RatingsOf(t.ratings, storeId)) >= 0.0
    ensures Average(RatingsOf(t.ratings, storeId)) == 0.0 <==> RatingsOf(t.ratings, storeId) == []
  {
    var rs := RatingsOf(t.ratings, storeId);
    assert forall r :: r in rs ==> r in t.ratings;
    TableFacts.SumBounds(rs);
    if rs != [] {
      TableFacts.MeanBounds(Sum(rs), |rs|);
    }
  }

  /** The summaries of the listing carry non-negative averages. */
  predicate RatedAtLeastZero(rows: seq<StoreSummary>) {
    forall i :: 0 <= i < |rows| ==> rows[i].rating >= 0.0
  }

  /** The text columns and the absent average_rating sort as text; the rating column sorts as positive numbers and blanks. */
  lemma StoreColumnsHomogeneous(rows: seq<StoreSummary>, key: string)
    requires key in {"name", "email", "address", "average_rating"} || (key == "rating" && RatedAtLeastZero(rows))
    ensures Homogeneous(StoreObjects(rows), key)
  {
    var objs := StoreObjects(rows);
    if key == "rating" {
      RatingColumnNumeric(rows);
    } else {
      forall r | r in objs ensures TextSort(SortValueOf(r, key)) {
        var i :| 0 <= i < |objs| && objs[i] == r;
      }
    }
  }

  /** The rating field of every row is a non-negative number, so it sorts as a positive number or a blank. */
  lemma RatingColumnNumeric(rows: seq<StoreSummary>)
    requires RatedAtLeastZero(rows)
    ensures forall r :: r in StoreObjects(rows) ==> NumericSort(SortValueOf(r, "rating"))
  {
    var objs := StoreObjects(rows);
    forall r | r in objs ensures NumericSort(SortValueOf(r, "rating")) {
      var i :| 0 <= i < |objs| && objs[i] == r;
      assert Field(r, "rating") == Num(rows[i].rating);
    }
  }
}
