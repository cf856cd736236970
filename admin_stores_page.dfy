/**
 * The admin's store list: the fetched stores, narrowed by the name, email
 * and address filters, sorted by the clicked column, each row with a
 * rating cell.
 */
module AdminStoresPage {
  import opened Js
  import opened Wrappers
  import opened ClientTable
  import opened StoreList
  import opened StoreRows
  import Tables
  import Seqs

  /** The filters state when the page opens. */
  const InitialFilters: Filters := map["name" := "", "email" := "", "address" := ""]

  /** The key the rating column's header sorts by, and the field its cell reads, as written. */
  const RatingKey: string := "average_rating"

  /** The field the store list actually carries the average in. */
  const IntendedRatingKey: string := "rating"

  /** A store object as the filters read it: name and email are strings. */
  predicate StoreRow(r: Row) {
    Field(r, "name").Str? && Field(r, "email").Str?
  }

  predicate AllStoreRows(stores: seq<Row>) {
    forall i :: 0 <= i < |stores| ==> StoreRow(stores[i])
  }

  predicate ByName(f: Filters, r: Row) {
    FilterText(f, "name") != "" ==> TextMatch(Field(r, "name"), FilterText(f, "name"))
  }

  predicate ByEmail(f: Filters, r: Row) {
    FilterText(f, "email") != "" ==> TextMatch(Field(r, "email"), FilterText(f, "email"))
  }

  predicate ByAddress(f: Filters, r: Row) {
    FilterText(f, "address") != "" ==> TextMatch(Field(r, "address"), FilterText(f, "address"))
  }

  predicate Passes(f: Filters, r: Row) {
    ByName(f, r) && ByEmail(f, r) && ByAddress(f, r)
  }

  /** The filter chain of the effect. */
  function Visible(stores: seq<Row>, f: Filters): (r: seq<Row>)
    ensures forall x :: x in r <==> x in stores && Passes(f, x)
  {
    var r1 := Narrow(stores, FilterText(f, "name") != "", x => ByName(f, x));
    var r2 := Narrow(r1, FilterText(f, "email") != "", x => ByEmail(f, x));
    Narrow(r2, FilterText(f, "address") != "", x => ByAddress(f, x))
  }

  lemma VisibleCounts(stores: seq<Row>, f: Filters, x: Row)
    ensures multiset(Visible(stores, f))[x] == if Passes(f, x) then multiset(stores)[x] else 0
  {
    var r1 := Narrow(stores, FilterText(f, "name") != "", y => ByName(f, y));
    var r2 := Narrow(r1, FilterText(f, "email") != "", y => ByEmail(f, y));
    NarrowCounts(stores, FilterText(f, "name") != "", y => ByName(f, y), x);
    NarrowCounts(r1, FilterText(f, "email") != "", y => ByEmail(f, y), x);
    NarrowCounts(r2, FilterText(f, "address") != "", y => ByAddress(f, y), x);
  }

  /** What the table shows: the filtered stores, sorted by the stores comparator. */
  function Displayed(stores: seq<Row>, f: Filters, cfg: SortConfig, numeral: real -> Numeral): seq<Row> {
    Seqs.Sort(Visible(stores, f), (a, b) => MixedCompare(cfg, numeral, a, b))
  }

  /**
   * The table is a permutation of exactly the fetched stores that pass every
   * filter; when the sorted column is homogeneous it is ordered by the
   * comparator.
   */
  lemma DisplayedMeaning(stores: seq<Row>, f: Filters, cfg: SortConfig, numeral: real -> Numeral, x: Row)
    ensures multiset(Displayed(stores, f, cfg, numeral))[x] == if Passes(f, x) then multiset(stores)[x] else 0
    ensures x in Displayed(stores, f, cfg, numeral) <==> x in stores && Passes(f, x)
    ensures Homogeneous(stores, cfg.key) ==>
      Seqs.Sorted(Displayed(stores, f, cfg, numeral), (a, b) => MixedCompare(cfg, numeral, a, b))
  {
    VisibleCounts(stores, f, x);
    if Homogeneous(stores, cfg.key) {
      HomogeneousPart(stores, Visible(stores, f), cfg.key);
      MixedPreorder(cfg, numeral, Visible(stores, f));
      Seqs.SortSorted(Visible(stores, f), (a, b) => MixedCompare(cfg, numeral, a, b));
    }
  }

  /** A store without an address fails any non-empty address filter; empty filters keep everything. */
  lemma FilterEdges(stores: seq<Row>, f: Filters, r: Row)
    ensures FilterText(f, "address") != "" && !Truthy(Field(r, "address")) ==> !Passes(f, r)
    ensures Visible(stores, InitialFilters) == stores
  {
    TextMatchEdges(Field(r, "address"), FilterText(f, "address"));
  }

  // ---------------------------------------------------------------------
  // The rating cell
  // ---------------------------------------------------------------------

  /** The cell shows the average to one decimal, or "No ratings". */
  datatype RatingCell = Stars(average: JsValue) | NoRatings

  /** `store[key] ? <average> : "No ratings"`. */
  function CellFor(r: Row, key: string): (c: RatingCell)
    ensures c == NoRatings <==> !Truthy(Field(r, key))
    ensures c.Stars? ==> c.average == Field(r, key)
  {
    if Truthy(Field(r, key)) then Stars(Field(r, key)) else NoRatings
  }

  /** As written, the cell reads average_rating, which no row of the store list has: every store shows "No ratings". */
  lemma EveryStoreShowsNoRatings(s: StoreSummary)
    ensures CellFor(StoreObject(s), RatingKey) == NoRatings
  {
  }

  /**
   * node-postgres delivers the NUMERIC average as decimal text: the row as
   * the client receives it carries `text` in the rating field.
   */
  function WithTextAverage(r: Row, text: string): (r': Row)
    ensures Field(r', IntendedRatingKey) == Str(text)
    ensures forall k :: k in r' <==> k in r || k == IntendedRatingKey
  {
    r[IntendedRatingKey := Str(text)]
  }

  /**
   * Renaming the field alone is not enough: an unrated store's
   * COALESCE(AVG, 0) arrives as the text "0", which is truthy, so the
   * truthiness test would show "0.0" stars; parsing it first shows
   * "No ratings".
   */
  lemma TextZeroShowsStars(s: StoreSummary)
    ensures CellFor(WithTextAverage(StoreObject(s), "0"), IntendedRatingKey) == Stars(Str("0"))
    ensures ParsedCellFor(WithTextAverage(StoreObject(s), "0"), IntendedRatingKey) == NoRatings
  {
    assert AllDigits("0") && DigitsValue("0") == 0 by {
      assert IsDigit("0"[0]) && "0"[..0] == [];
    }
  }

  /**
   * `parseFloat(store[key]) ? <average> : "No ratings"`: the test is on the
   * parsed value. On decimal text parseFloat and Number agree, and both
   * leave a missing field NaN or 0, which are falsy alike.
   */
  function ParsedCellFor(r: Row, key: string): (c: RatingCell)
    ensures c == NoRatings <==> ToNumber(Field(r, key)).None? || ToNumber(Field(r, key)) == Some(0.0)
    ensures c.Stars? ==> c.average == Num(ToNumber(Field(r, key)).value)
  {
    match ToNumber(Field(r, key))
    case None => NoRatings
    case Some(x) => if x != 0.0 then Stars(Num(x)) else NoRatings
  }

  /**
   * Reading the rating field through parseFloat, the cell shows "No ratings"
   * exactly for a store nobody has rated and its average otherwise, whether
   * the average arrives as a number or as the decimal text that denotes it.
   */
  lemma IntendedRatingCell(t: Tables.Tables, user: Option<int>, st: Tables.StoreRow, text: string)
    requires Tables.Consistent(t)
    ensures var row := StoreObject(Summary(GroupOf(t, user, st)));
            var c := ParsedCellFor(row, IntendedRatingKey);
            && (c == NoRatings <==> Tables.RatingsOf(t.ratings, st.id) == [])
            && (c.Stars? ==> c.average == Num(Tables.Average(Tables.RatingsOf(t.ratings, st.id))))
            && (StringToNumber(text) == Some(Tables.Average(Tables.RatingsOf(t.ratings, st.id))) ==>
                  ParsedCellFor(WithTextAverage(row, text), IntendedRatingKey) == c)
  {
    var avg := Tables.Average(Tables.RatingsOf(t.ratings, st.id));
    AverageSign(t, st.id);
    var row := StoreObject(Summary(GroupOf(t, user, st)));
    CellOfNumber(row, avg);
    if StringToNumber(text) == Some(avg) {
      CellOfNumber(WithTextAverage(row, text), avg);
    }
  }

  /** A rating field that reads as the number x gives the cell of x. */
  lemma CellOfNumber(r: Row, x: real)
    requires ToNumber(Field(r, IntendedRatingKey)) == Some(x)
    ensures ParsedCellFor(r, IntendedRatingKey) == if x != 0.0 then Stars(Num(x)) else NoRatings
  {
  }

  /** As written, the rating header sorts by a field no row has: the filtered order comes back unchanged, in either direction. */
  lemma RatingHeaderSortsNothing(rows: seq<StoreSummary>, f: Filters, direction: string, numeral: real -> Numeral)
    ensures Displayed(StoreObjects(rows), f, SortConfig(RatingKey, direction), numeral) == Visible(StoreObjects(rows), f)
  {
    var v := Visible(StoreObjects(rows), f);
    forall i | 0 <= i < |v| ensures RatingKey !in v[i] {
      assert v[i] in StoreObjects(rows);
    }
    AbsentKeyKeepsOrder(SortConfig(RatingKey, direction), numeral, v);
  }

  /** The average a store row carries in its rating field, 0 when it has none. */
  function RatingOf(r: Row): real {
    if Field(r, IntendedRatingKey).Num? then Field(r, IntendedRatingKey).n else 0.0
  }

  /** Sorting by the rating field orders the stores by average: ascending lowest first, otherwise highest first. */
  lemma IntendedRatingSort(rows: seq<StoreSummary>, f: Filters, direction: string, numeral: real -> Numeral)
    requires RatedAtLeastZero(rows)
    ensures var d := Displayed(StoreObjects(rows), f, SortConfig(IntendedRatingKey, direction), numeral);
            forall i, j :: 0 <= i < j < |d| ==>
              if direction == "asc" then RatingOf(d[i]) <= RatingOf(d[j]) else RatingOf(d[j]) <= RatingOf(d[i])
  {
    var cfg := SortConfig(IntendedRatingKey, direction);
    var objs := StoreObjects(rows);
    var d := Displayed(objs, f, cfg, numeral);
    RatingColumnNumeric(rows);
    StoreColumnsHomogeneous(rows, IntendedRatingKey);
    DisplayedMeaning(objs, f, cfg, numeral, map[]);
    forall x | x in d ensures NumericSort(SortValueOf(x, IntendedRatingKey)) {
      DisplayedMeaning(objs, f, cfg, numeral, x);
    }
    SortedByRating(d, direction, numeral);
  }

  /** A list ordered by the comparator on a numeric rating column is ordered by average. */
  lemma SortedByRating(d: seq<Row>, direction: string, numeral: real -> Numeral)
    requires forall x :: x in d ==> NumericSort(SortValueOf(x, IntendedRatingKey))
    requires Seqs.Sorted(d, (a, b) => MixedCompare(SortConfig(IntendedRatingKey, direction), numeral, a, b))
    ensures forall i, j :: 0 <= i < j < |d| ==>
              if direction == "asc" then RatingOf(d[i]) <= RatingOf(d[j]) else RatingOf(d[j]) <= RatingOf(d[i])
  {
    var cfg := SortConfig(IntendedRatingKey, direction);
    forall i, j | 0 <= i < j < |d|
      ensures if direction == "asc" then RatingOf(d[i]) <= RatingOf(d[j]) else RatingOf(d[j]) <= RatingOf(d[i])
    {
      assert d[i] in d && d[j] in d;
      assert MixedCompare(cfg, numeral, d[i], d[j]) <= 0;
      MixedOnNumbers(cfg, numeral, d[i], d[j]);
      RatingIsMagnitude(d[i]);
      RatingIsMagnitude(d[j]);
    }
  }

  lemma RatingIsMagnitude(r: Row)
    requires NumericSort(SortValueOf(r, IntendedRatingKey))
    ensures RatingOf(r) == Magnitude(SortValueOf(r, IntendedRatingKey))
  {
  }

  // ---------------------------------------------------------------------
  // The page's state
  // ---------------------------------------------------------------------

  predicate Shows(stores: seq<Row>, f: Filters, cfg: SortConfig, numeral: real -> Numeral, shown: seq<Row>) {
    AllStoreRows(stores) && shown == Displayed(stores, f, cfg, numeral)
  }

  class View {
    var stores: seq<Row>
    var filters: Filters
    var sortConfig: SortConfig
    var filteredStores: seq<Row>
    var loading: bool
    /** String(n) for the numbers the comparator may turn into text. */
    const numeral: real -> Numeral

    predicate Valid()
      reads this
    {
      Shows(stores, filters, sortConfig, numeral, filteredStores)
    }

    constructor(numeral: real -> Numeral)
      ensures stores == [] && filteredStores == [] && loading
      ensures filters == InitialFilters && sortConfig == InitialSort
      ensures this.numeral == numeral
      ensures Valid()
    {
      stores := [];
      filters := InitialFilters;
      sortConfig := InitialSort;
      filteredStores := [];
      loading := true;
      this.numeral := numeral;
      FilterEdges([], InitialFilters, map[]);
    }

    /** The filter-and-sort effect. */
    method Refresh()
      requires AllStoreRows(stores)
      modifies this
      ensures stores == old(stores) && filters == old(filters) && sortConfig == old(sortConfig)
      ensures loading == old(loading)
      ensures Valid()
    {
      var f, cfg, show := filters, sortConfig, numeral;
      var result := stores;
      if FilterText(f, "name") != "" {
        result := Seqs.Filter(result, x => ByName(f, x));
      }
      if FilterText(f, "email") != "" {
        result := Seqs.Filter(result, x => ByEmail(f, x));
      }
      if FilterText(f, "address") != "" {
        result := Seqs.Filter(result, x => ByAddress(f, x));
      }
      result := Seqs.Sort(result, (a, b) => MixedCompare(cfg, show, a, b));
      filteredStores := result;
    }

    /** fetchStores: a response replaces the stores (a failed request keeps them); loading ends either way. */
    method FetchStores(response: Option<seq<Row>>)
      requires Valid()
      requires response.Some? ==> AllStoreRows(response.value)
      modifies this
      ensures stores == (if response.Some? then response.value else old(stores))
      ensures filters == old(filters) && sortConfig == old(sortConfig) && !loading
      ensures Valid()
    {
      loading := false;
      if response.Some? {
        stores := response.value;
        filteredStores := response.value;
        Refresh();
      }
    }

    method HandleFilterChange(name: string, value: string)
      requires Valid()
      modifies this
      ensures filters == old(filters)[name := value]
      ensures stores == old(stores) && sortConfig == old(sortConfig) && loading == old(loading)
      ensures Valid()
    {
      filters := filters[name := value];
      Refresh();
    }

    method HandleSort(key: string)
      requires Valid()
      modifies this
      ensures sortConfig == ClientTable.HandleSort(old(sortConfig), key)
      ensures stores == old(stores) && filters == old(filters) && loading == old(loading)
      ensures Valid()
    {
      sortConfig := ClientTable.HandleSort(sortConfig, key);
      Refresh();
    }
  }
}
