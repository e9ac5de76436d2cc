/** The search bar of the files page: a free-text term forwarded as typed,
    and four filters (cluster, row, column, File ID) held as text, changed
    one at a time and cleared together. The parent's `onSearch` and
    `onFilter` callbacks are the values the handlers return. */
module FileSearch {

  /** The four filter keys. */
  datatype FilterKey = ClusterKey | RowKey | ColumnKey | FileIdKey

  /** The filters as the bar holds them: every key present, empty when
      unused. */
  const EmptyFilters: map<FilterKey, string> :=
    map[ClusterKey := "", RowKey := "", ColumnKey := "", FileIdKey := ""]

  /** `Object.values(filters).some(value => value !== '')`. */
  predicate Active(filters: map<FilterKey, string>) {
    exists k :: k in filters && filters[k] != ""
  }

  class FileSearchBar {
    var searchTerm: string
    var showFilters: bool
    var filters: map<FilterKey, string>

    /** Every key is always present. */
    predicate Valid()
      reads this
    {
      forall k: FilterKey :: k in filters
    }

    constructor ()
      ensures searchTerm == "" && !showFilters && filters == EmptyFilters
      ensures Valid() && !HasActiveFilters()
    {
      searchTerm := "";
      showFilters := false;
      filters := EmptyFilters;
      NothingActiveWhenEmpty();
    }

    predicate HasActiveFilters()
      reads this
    {
      Active(filters)
    }

    /** `handleSearch`: store the term and forward the same term. */
    method HandleSearch(value: string) returns (forwarded: string)
      modifies this`searchTerm
      ensures searchTerm == value && forwarded == value
    {
      searchTerm := value;
      forwarded := value;
    }

    /** The clear button of the search input: search for the empty term. */
    method ClearSearch() returns (forwarded: string)
      modifies this`searchTerm
      ensures searchTerm == "" && forwarded == ""
    {
      forwarded := HandleSearch("");
    }

    /** The filter toggle: show or hide the filter inputs. */
    method ToggleFilters()
      modifies this`showFilters
      ensures showFilters == !old(showFilters)
    {
      showFilters := !showFilters;
    }

    /** `handleFilterChange`: set one key, keep the others, and forward the
        whole new object. */
    method HandleFilterChange(key: FilterKey, value: string) returns (forwarded: map<FilterKey, string>)
      requires Valid()
      modifies this`filters
      ensures Valid()
      ensures filters[key] == value
      ensures forall k :: k != key ==> filters[k] == old(filters)[k]
      ensures forwarded == filters
      ensures HasActiveFilters() <==> value != "" || exists k :: k != key && old(filters)[k] != ""
    {
      ActiveAfterChange(filters, key, value);
      filters := filters[key := value];
      forwarded := filters;
    }

    /** `clearFilters`: every key back to empty, but `onFilter` receives an
        object with no keys at all. */
    method ClearFilters() returns (forwarded: map<FilterKey, string>)
      modifies this`filters
      ensures filters == EmptyFilters && Valid() && !HasActiveFilters()
      ensures forwarded == map[]
    {
      filters := EmptyFilters;
      forwarded := map[];
      NothingActiveWhenEmpty();
    }
  }

  // ---------------------------------------------------------------------------
  // Properties of the filters
  // ---------------------------------------------------------------------------

  /** Cleared filters hold every key and are not active, and neither is the
      empty object sent to the parent on clearing. */
  lemma {:induction false} NothingActiveWhenEmpty()
    ensures forall k: FilterKey :: k in EmptyFilters
    ensures !Active(EmptyFilters) && !Active(map[])
  {
    forall k: FilterKey
      ensures k in EmptyFilters && EmptyFilters[k] == ""
    {
      match k
      case ClusterKey =>
      case RowKey =>
      case ColumnKey =>
      case FileIdKey =>
    }
  }

  /** After changing one key the filters are active exactly when the new
      value is non-empty or another key already held a value. */
  lemma {:induction false} ActiveAfterChange(filters: map<FilterKey, string>, key: FilterKey, value: string)
    requires forall k: FilterKey :: k in filters
    ensures Active(filters[key := value]) <==> value != "" || exists k :: k != key && filters[k] != ""
  {
    var updated := filters[key := value];
    if value != "" {
      assert key in updated && updated[key] != "";
    }
    if k :| k != key && filters[k] != "" {
      assert k in updated && updated[k] != "";
    }
  }

  /** The filters handed to the parent on clearing differ from the ones the
      bar keeps, yet both say "no filter". */
  lemma {:induction false} ClearedForwardingDiffersFromState()
    ensures map[] != EmptyFilters
    ensures !Active(map[]) && !Active(EmptyFilters)
  {
    assert ClusterKey in EmptyFilters;
    NothingActiveWhenEmpty();
  }
}
