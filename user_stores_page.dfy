/**
 * The store list of a signed-in user: the fetched stores, narrowed by the
 * name and address filters and sorted by the clicked column, with the
 * rating modal that submits the user's rating of one store.
 */
module UserStoresPage {
  import opened Js
  import opened Wrappers
  import opened ClientTable
  import opened StoreList
  import opened StoreRows
  import Tables
  import Seqs

  const InitialFilters: Filters := map["name" := "", "address" := ""]

  /** The key the overall-rating header sorts by, as written; the rows carry the average as `rating`. */
  const RatingKey: string := "average_rating"

  /** The rating the modal starts from when the user has none. */
  const DefaultRating: real := 5.0

  /** A store object as the filters read it: the name is a string. */
  predicate StoreRow(r: Row) {
    Field(r, "name").Str?
  }

  predicate AllStoreRows(stores: seq<Row>) {
    forall i :: 0 <= i < |stores| ==> StoreRow(stores[i])
  }

  predicate ByName(f: Filters, r: Row) {
    FilterText(f, "name") != "" ==> TextMatch(Field(r, "name"), FilterText(f, "name"))
  }

  predicate ByAddress(f: Filters, r: Row) {
    FilterText(f, "address") != "" ==> TextMatch(Field(r, "address"), FilterText(f, "address"))
  }

  /** Only two filters exist: name and address. */
  predicate Passes(f: Filters, r: Row) {
    ByName(f, r) && ByAddress(f, r)
  }

  function Visible(stores: seq<Row>, f: Filters): (r: seq<Row>)
    ensures forall x :: x in r <==> x in stores && Passes(f, x)
  {
    var r1 := Narrow(stores, FilterText(f, "name") != "", x => ByName(f, x));
    Narrow(r1, FilterText(f, "address") != "", x => ByAddress(f, x))
  }

  lemma VisibleCounts(stores: seq<Row>, f: Filters, x: Row)
    ensures multiset(Visible(stores, f))[x] == if Passes(f, x) then multiset(stores)[x] else 0
  {
    var r1 := Narrow(stores, FilterText(f, "name") != "", y => ByName(f, y));
    NarrowCounts(stores, FilterText(f, "name") != "", y => ByName(f, y), x);
    NarrowCounts(r1, FilterText(f, "address") != "", y => ByAddress(f, y), x);
  }

  function Displayed(stores: seq<Row>, f: Filters, cfg: SortConfig, numeral: real -> Numeral): seq<Row> {
    Seqs.Sort(Visible(stores, f), (a, b) => MixedCompare(cfg, numeral, a, b))
  }

  /** The table is a permutation of the stores passing both filters, ordered when the sorted column is homogeneous. */
  lemma DisplayedMeaning(stores: seq<Row>, f: Filters, cfg: SortConfig, numeral: real -> Numeral, x: Row)
    ensures multiset(Displayed(stores, f, cfg, numeral))[x] == if Passes(f, x) then multiset(stores)[x] else 0
    ensures x in Displayed(stores, f, cfg, numeral) <==> x in stores && Passes(f, x)
    ensures Homogeneous(stores, cfg.key) ==>
      Seqs.Sorted(Displayed(stores, f, cfg, numeral), (a, b) => MixedCompare(cfg, numeral, a, b))
  {
    VisibleCounts(stores, f, x);
    if Homogeneous(stores, cfg.key) {
      HomogeneousPart(stores, Visible(stores, f), cfg.key);
      MixedPreorder(cfg, numeral, Visible(stores, f));
      Seqs.SortSorted(Visible(stores, f), (a, b) => MixedCompare(cfg, numeral, a, b));
    }
  }

  /** As written, the overall-rating header sorts by a field no row has: the filtered order is kept. */
  lemma RatingHeaderSortsNothing(rows: seq<StoreSummary>, f: Filters, direction: string, numeral: real -> Numeral)
    ensures Displayed(StoreObjects(rows), f, SortConfig(RatingKey, direction), numeral) == Visible(StoreObjects(rows), f)
  {
    var v := Visible(StoreObjects(rows), f);
    forall i | 0 <= i < |v| ensures RatingKey !in v[i] {
      assert v[i] in StoreObjects(rows);
    }
    AbsentKeyKeepsOrder(SortConfig(RatingKey, direction), numeral, v);
  }

  // ---------------------------------------------------------------------
  // The rating action
  // ---------------------------------------------------------------------

  /** The button label: "Update" for a store the user has rated, "Rate" otherwise. */
  function ActionLabel(r: Row): string {
    if Truthy(Field(r, "user_rating")) then "Update" else "Rate"
  }

  /** The modal's starting value: `store.user_rating || 5`. */
  function Preset(r: Row): (v: JsValue)
    ensures Truthy(Field(r, "user_rating")) ==> v == Field(r, "user_rating")
    ensures !Truthy(Field(r, "user_rating")) ==> v == Num(DefaultRating)
  {
    if Truthy(Field(r, "user_rating")) then Field(r, "user_rating") else Num(DefaultRating)
  }

  /** The label says "Update" exactly when the modal opens on the user's own rating rather than the default. */
  lemma LabelMatchesPreset(r: Row)
    ensures ActionLabel(r) == "Update" <==> Truthy(Field(r, "user_rating"))
    ensures ActionLabel(r) == "Rate" <==> Preset(r) == Num(DefaultRating) && Field(r, "user_rating") != Num(DefaultRating)
  {
  }

  /**
   * On a row of the user's own listing the label is "Update" exactly when
   * the user has rated the store, and the modal opens on that rating, or on
   * 5 when there is none.
   */
  lemma OwnRatingPreset(t: Tables.Tables, u: int, st: Tables.StoreRow)
    requires Tables.Consistent(t)
    ensures var r := StoreObject(Summary(GroupOf(t, Some(u), st)));
            && (ActionLabel(r) == "Update" <==> RatingBy(t, st.id, u).Some?)
            && Preset(r) == (if RatingBy(t, st.id, u).Some? then Num(RatingBy(t, st.id, u).value as real) else Num(DefaultRating))
  {
    var i := Tables.PairIndex(t.ratings, u, st.id);
    if i < |t.ratings| {
      assert t.ratings[i] in t.ratings;
    }
  }

  /** The body of POST /users/ratings: `{ storeId, rating }`. */
  datatype RatingRequest = RatingRequest(storeId: JsValue, rating: JsValue)

  /** How the rating request ends: accepted, or refused with the server's error text, if any. */
  datatype SubmitOutcome = Accepted | Refused(error: Option<string>)

  /** `err.response?.data?.error || "Failed to submit rating"`. */
  function AlertText(error: Option<string>): (text: string)
    ensures text != ""
  {
    if error.Some? && error.value != "" then error.value else "Failed to submit rating"
  }

  // ---------------------------------------------------------------------
  // The page's state
  // ---------------------------------------------------------------------

  predicate Shows(stores: seq<Row>, f: Filters, cfg: SortConfig, numeral: real -> Numeral, shown: seq<Row>) {
    AllStoreRows(stores) && shown == Displayed(stores, f, cfg, numeral)
  }

  class View {
    var stores: seq<Row>
    var filters: Filters
    var sortConfig: SortConfig
    var filteredStores: seq<Row>
    var loading: bool
    var ratingStore: Option<Row>
    var ratingValue: JsValue
    var submittingRating: bool
    /** String(n) for the numbers the comparator may turn into text. */
    const numeral: real -> Numeral

    predicate Valid()
      reads this
    {
      Shows(stores, filters, sortConfig, numeral, filteredStores)
    }

    /** The first render: nothing fetched, no filter, name ascending, the modal closed at 5. */
    constructor(numeral: real -> Numeral)
      ensures stores == [] && filteredStores == [] && loading
      ensures filters == InitialFilters && sortConfig == InitialSort
      ensures ratingStore == None && ratingValue == Num(DefaultRating) && !submittingRating
      ensures this.numeral == numeral
      ensures Valid()
    {
      stores := [];
      filters := InitialFilters;
      sortConfig := InitialSort;
      filteredStores := [];
      loading := true;
      ratingStore := None;
      ratingValue := Num(DefaultRating);
      submittingRating := false;
      this.numeral := numeral;
      assert Visible([], InitialFilters) == [];
    }

    /** The filter-and-sort effect. */
    method Refresh()
      requires AllStoreRows(stores)
      modifies this
      ensures stores == old(stores) && filters == old(filters) && sortConfig == old(sortConfig)
      ensures loading == old(loading) && ratingStore == old(ratingStore)
      ensures ratingValue == old(ratingValue) && submittingRating == old(submittingRating)
      ensures Valid()
    {
      var f, cfg, show := filters, sortConfig, numeral;
      var result := stores;
      if FilterText(f, "name") != "" {
        result := Seqs.Filter(result, x => ByName(f, x));
      }
      if FilterText(f, "address") != "" {
        result := Seqs.Filter(result, x => ByAddress(f, x));
      }
      result := Seqs.Sort(result, (a, b) => MixedCompare(cfg, show, a, b));
      filteredStores := result;
    }

    /** fetchStores: a response replaces the stores (a failed request keeps them); loading ends either way. */
    method FetchStores(response: Option<seq<Row>>)
      requires Valid()
      requires response.Some? ==> AllStoreRows(response.value)
      modifies this
      ensures stores == (if response.Some? then response.value else old(stores))
      ensures filters == old(filters) && sortConfig == old(sortConfig) && !loading
      ensures ratingStore == old(ratingStore) && ratingValue == old(ratingValue)
      ensures submittingRating == old(submittingRating)
      ensures Valid()
    {
      loading := false;
      if response.Some? {
        stores := response.value;
        filteredStores := response.value;
        Refresh();
      }
    }

    method HandleFilterChange(name: string, value: string)
      requires Valid()
      modifies this
      ensures filters == old(filters)[name := value]
      ensures stores == old(stores) && sortConfig == old(sortConfig) && loading == old(loading)
      ensures ratingStore == old(ratingStore) && ratingValue == old(ratingValue)
      ensures submittingRating == old(submittingRating)
      ensures Valid()
    {
      filters := filters[name := value];
      Refresh();
    }

    method HandleSort(key: string)
      requires Valid()
      modifies this
      ensures sortConfig == ClientTable.HandleSort(old(sortConfig), key)
      ensures stores == old(stores) && filters == old(filters) && loading == old(loading)
      ensures ratingStore == old(ratingStore) && ratingValue == old(ratingValue)
      ensures submittingRating == old(submittingRating)
      ensures Valid()
    {
      sortConfig := ClientTable.HandleSort(sortConfig, key);
      Refresh();
    }

    /** The row's button: selects the store and presets the value. */
    method OpenRating(store: Row)
      modifies this
      ensures ratingStore == Some(store) && ratingValue == Preset(store)
      ensures stores == old(stores) && filters == old(filters) && sortConfig == old(sortConfig)
      ensures filteredStores == old(filteredStores) && loading == old(loading)
      ensures submittingRating == old(submittingRating)
    {
      ratingStore := Some(store);
      ratingValue := Preset(store);
    }

    /** The modal's rating input. */
    method SetRatingValue(v: JsValue)
      modifies this
      ensures ratingValue == v && ratingStore == old(ratingStore)
      ensures stores == old(stores) && filters == old(filters) && sortConfig == old(sortConfig)
      ensures filteredStores == old(filteredStores) && loading == old(loading)
      ensures submittingRating == old(submittingRating)
    {
      ratingValue := v;
    }

    /** Cancel or close: deselects the store. */
    method CloseRating()
      modifies this
      ensures ratingStore == None && ratingValue == old(ratingValue)
      ensures stores == old(stores) && filters == old(filters) && sortConfig == old(sortConfig)
      ensures filteredStores == old(filteredStores) && loading == old(loading)
      ensures submittingRating == old(submittingRating)
    {
      ratingStore := None;
    }

    /**
     * handleRatingSubmit: with no store selected nothing happens. Otherwise
     * the store's id and the value are sent; an accepted rating closes the
     * modal (the list is then fetched again), a refused one raises an alert
     * and leaves the modal open. Either way submitting ends.
     */
    method HandleRatingSubmit(outcome: SubmitOutcome) returns (request: Option<RatingRequest>, alert: Option<string>)
      modifies this
      ensures old(ratingStore).None? ==> request.None? && alert.None? && submittingRating == old(submittingRating)
      ensures old(ratingStore).None? ==> ratingStore == old(ratingStore)
      ensures old(ratingStore).Some? ==>
        && request == Some(RatingRequest(Field(old(ratingStore).value, "id"), old(ratingValue)))
        && !submittingRating
        && (outcome.Accepted? ==> ratingStore.None? && alert.None?)
        && (outcome.Refused? ==> ratingStore == old(ratingStore) && alert == Some(AlertText(outcome.error)))
      ensures stores == old(stores) && filters == old(filters) && sortConfig == old(sortConfig)
      ensures filteredStores == old(filteredStores) && loading == old(loading) && ratingValue == old(ratingValue)
    {
      if ratingStore.None? {
        return None, None;
      }
      submittingRating := true;
      request := Some(RatingRequest(Field(ratingStore.value, "id"), ratingValue));
      alert := None;
      match outcome {
        case Accepted =>
          ratingStore := None;
        case Refused(error) =>
          alert := Some(AlertText(error));
      }
      submittingRating := false;
    }
  }
}
