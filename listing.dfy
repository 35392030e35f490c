/**
 * The findAll pipeline the product and raw-material services share: search
 * the table by name, count the matches, cut out the requested page, and
 * sort that page alone by one column when asked to.
 */
module Listing {
  import opened Wrappers
  import opened Text
  import opened Table
  import opened Filter

  /** SearchFilter.byField(repository, "name", search) applied to findAll(), as the rows it selects. */
  function Searched<R>(rows: seq<R>, name: R -> string, search: Option<string>): seq<R> {
    Select(SearchFilter("name", search).Apply(FindAll), rows, name)
  }

  /** `field.equals(sortBy) && sortDirection != null && !sortDirection.isEmpty()`. */
  predicate SortsPage(sortBy: Option<string>, field: string, sortDirection: Option<string>) {
    sortBy == Some(field) && sortDirection.Some? && sortDirection.value != ""
  }

  /** The rows of the requested page, in the order the response lists them. */
  function PageRows<R>(rows: seq<R>, name: R -> string, search: Option<string>,
                       pageNumber: nat, pageSize: nat,
                       key: R -> real, field: string, sortBy: Option<string>, sortDirection: Option<string>): seq<R> {
    var page := PageOf(Searched(rows, name, search), pageNumber, pageSize);
    if SortsPage(sortBy, field, sortDirection) then StableSort(page, RankOf(key, IsDescending(sortDirection)))
    else page
  }

  /**
   * What a listing returns: the rows of the requested window of the search
   * result and no others, at most a page of them; in table order unless
   * the sort column and a direction were given, and then ordered by that
   * column, descending exactly for "desc" in any letter case.
   */
  lemma {:induction false} PageRowsContract<R>(rows: seq<R>, name: R -> string, search: Option<string>,
                            pageNumber: nat, pageSize: nat,
                            key: R -> real, field: string, sortBy: Option<string>, sortDirection: Option<string>)
    ensures var window := PageOf(Searched(rows, name, search), pageNumber, pageSize);
      var r := PageRows(rows, name, search, pageNumber, pageSize, key, field, sortBy, sortDirection);
      && multiset(r) == multiset(window)
      && |r| <= pageSize && |r| <= |Searched(rows, name, search)|
      && (!SortsPage(sortBy, field, sortDirection) ==> r == window)
      && (SortsPage(sortBy, field, sortDirection) && IsDescending(sortDirection) ==>
            forall i, j :: 0 <= i < j < |r| ==> key(r[i]) >= key(r[j]))
      && (SortsPage(sortBy, field, sortDirection) && !IsDescending(sortDirection) ==>
            forall i, j :: 0 <= i < j < |r| ==> key(r[i]) <= key(r[j]))
  {
    var window := PageOf(Searched(rows, name, search), pageNumber, pageSize);
    SortFilterContract(window, key, sortDirection);
  }

  /** Every searched row is a table row whose name contains a non-blank search. */
  lemma {:induction false} SearchedRows<R>(rows: seq<R>, name: R -> string, search: Option<string>)
    ensures var searched := Searched(rows, name, search);
      forall i :: 0 <= i < |searched| ==>
        searched[i] in rows && (search.Some? && HasText(search.value) ==> LikeContains(name(searched[i]), search.value))
  {
    SearchFilterRows(SearchFilter("name", search), FindAll, rows, name);
  }

  /** Every listed row is a table row that passes the search. */
  lemma {:induction false} PageRowsMatch<R>(rows: seq<R>, name: R -> string, search: Option<string>,
                         pageNumber: nat, pageSize: nat,
                         key: R -> real, field: string, sortBy: Option<string>, sortDirection: Option<string>)
    ensures var r := PageRows(rows, name, search, pageNumber, pageSize, key, field, sortBy, sortDirection);
      forall i :: 0 <= i < |r| ==>
        r[i] in rows && (search.Some? && HasText(search.value) ==> LikeContains(name(r[i]), search.value))
  {
    var searched := Searched(rows, name, search);
    var window := PageOf(searched, pageNumber, pageSize);
    var r := PageRows(rows, name, search, pageNumber, pageSize, key, field, sortBy, sortDirection);
    var listed := (x: R) => x in rows && (search.Some? && HasText(search.value) ==> LikeContains(name(x), search.value));
    SearchedRows(rows, name, search);
    PageKeeps(searched, pageNumber, pageSize, listed);
    if SortsPage(sortBy, field, sortDirection) {
      StableSortPermutes(window, RankOf(key, IsDescending(sortDirection)));
      PermutationKeeps(window, r, listed);
    }
  }

  /** The total is the size of the whole search result: all rows for a blank search, never more than the table. */
  lemma {:induction false} TotalCountsSearch<R>(rows: seq<R>, name: R -> string, search: Option<string>)
    ensures var total := |Searched(rows, name, search)|;
      && (!(search.Some? && HasText(search.value)) ==> total == |rows|)
      && total <= |rows|
  {
    SearchFilterRows(SearchFilter("name", search), FindAll, rows, name);
  }
}
