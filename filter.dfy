/**
 * The list decorators of the filter package: SortFilter (in-place sort of a
 * loaded page by one key), SearchFilter (optional case-insensitive LIKE on one
 * column) and the page window that PaginationFilter hands to Panache.
 */
module Filter {
  import opened Wrappers
  import opened Text
  import opened Table

  // ---------------------------------------------------------------------------
  // Sorting: what List.sort does with a comparator built from a key
  // ---------------------------------------------------------------------------

  /** `"desc".equalsIgnoreCase(direction)`: false for null. */
  predicate IsDescending(direction: Option<string>) {
    direction.Some? && EqualsIgnoreCase("desc", direction.value)
  }

  /**
   * The comparator `Comparator.comparing(key)`, reversed when descending,
   * as the real number it orders by: a reversed comparator orders by the
   * negated key.
   */
  function RankOf<T>(key: T -> real, descending: bool): T -> real {
    x => if descending then -key(x) else key(x)
  }

  predicate SortedBy<T>(s: seq<T>, rank: T -> real) {
    forall i, j :: 0 <= i < j < |s| ==> rank(s[i]) <= rank(s[j])
  }

  /** The elements of `s` whose rank is k, in their order in `s`. */
  function WithRank<T>(s: seq<T>, rank: T -> real, k: real): seq<T> {
    if s == [] then []
    else WithRank(s[..|s| - 1], rank, k) + (if rank(s[|s| - 1]) == k then [s[|s| - 1]] else [])
  }

  /** Inserts x after every element that does not rank above it. */
  function Insert<T>(s: seq<T>, x: T, rank: T -> real): seq<T> {
    if s == [] || rank(s[|s| - 1]) <= rank(x) then s + [x]
    else Insert(s[..|s| - 1], x, rank) + [s[|s| - 1]]
  }

  /**
   * The stable sort of s by rank: List.sort's result (its algorithm is not
   * modelled; a stable sort's result is determined by its input and order).
   */
  function StableSort<T>(s: seq<T>, rank: T -> real): seq<T> {
    if s == [] then [] else Insert(StableSort(s[..|s| - 1], rank), s[|s| - 1], rank)
  }

  lemma {:induction false} WithRankAppend<T>(a: seq<T>, b: seq<T>, rank: T -> real, k: real)
    ensures WithRank(a + b, rank, k) == WithRank(a, rank, k) + WithRank(b, rank, k)
    decreases |b|
  {
    if b == [] {
      assert a + b == a;
    } else {
      var b' := b[..|b| - 1];
      assert (a + b)[..|a + b| - 1] == a + b';
      WithRankAppend(a, b', rank, k);
    }
  }

  lemma {:induction false} InsertPermutes<T>(s: seq<T>, x: T, rank: T -> real)
    ensures multiset(Insert(s, x, rank)) == multiset(s) + multiset{x}
    decreases |s|
  {
    if s == [] || rank(s[|s| - 1]) <= rank(x) {
    } else {
      var s' := s[..|s| - 1];
      InsertPermutes(s', x, rank);
      assert s == s' + [s[|s| - 1]];
    }
  }

  lemma {:induction false} InsertSorted<T>(s: seq<T>, x: T, rank: T -> real)
    requires SortedBy(s, rank)
    ensures SortedBy(Insert(s, x, rank), rank)
    decreases |s|
  {
    if s == [] || rank(s[|s| - 1]) <= rank(x) {
    } else {
      var s' := s[..|s| - 1];
      var last := s[|s| - 1];
      InsertSorted(s', x, rank);
      InsertPermutes(s', x, rank);
      var t := Insert(s', x, rank);
      forall i | 0 <= i < |t| ensures rank(t[i]) <= rank(last) {
        assert t[i] in multiset(t);
        assert t[i] in multiset(s') || t[i] == x;
      }
    }
  }

  lemma {:induction false} InsertStable<T>(s: seq<T>, x: T, rank: T -> real, k: real)
    ensures WithRank(Insert(s, x, rank), rank, k)
      == WithRank(s, rank, k) + (if rank(x) == k then [x] else [])
    decreases |s|
  {
    if s == [] || rank(s[|s| - 1]) <= rank(x) {
      WithRankAppend(s, [x], rank, k);
    } else {
      var s' := s[..|s| - 1];
      var last := s[|s| - 1];
      InsertStable(s', x, rank, k);
      WithRankAppend(Insert(s', x, rank), [last], rank, k);
      WithRankAppend(s', [last], rank, k);
      assert s == s' + [last];
    }
  }

  /** The sort is a permutation: same elements, same multiplicities, same length. */
  lemma {:induction false} StableSortPermutes<T>(s: seq<T>, rank: T -> real)
    ensures multiset(StableSort(s, rank)) == multiset(s)
    ensures |StableSort(s, rank)| == |s|
    decreases |s|
  {
    if s != [] {
      var s' := s[..|s| - 1];
      StableSortPermutes(s', rank);
      InsertPermutes(StableSort(s', rank), s[|s| - 1], rank);
      assert s == s' + [s[|s| - 1]];
    }
    assert |multiset(StableSort(s, rank))| == |multiset(s)|;
  }

  /** The result is in non-decreasing rank order. */
  lemma {:induction false} StableSortSorted<T>(s: seq<T>, rank: T -> real)
    ensures SortedBy(StableSort(s, rank), rank)
    decreases |s|
  {
    if s != [] {
      StableSortSorted(s[..|s| - 1], rank);
      InsertSorted(StableSort(s[..|s| - 1], rank), s[|s| - 1], rank);
    }
  }

  /** Stability: the elements of each rank keep their relative order. */
  lemma {:induction false} StableSortStable<T>(s: seq<T>, rank: T -> real, k: real)
    ensures WithRank(StableSort(s, rank), rank, k) == WithRank(s, rank, k)
    decreases |s|
  {
    if s != [] {
      var s' := s[..|s| - 1];
      StableSortStable(s', rank, k);
      InsertStable(StableSort(s', rank), s[|s| - 1], rank, k);
    }
  }

  /** A list that is already in order is left as it is. */
  lemma {:induction false} StableSortOfSorted<T>(s: seq<T>, rank: T -> real)
    requires SortedBy(s, rank)
    ensures StableSort(s, rank) == s
    decreases |s|
  {
    if s != [] {
      var s' := s[..|s| - 1];
      assert SortedBy(s', rank);
      StableSortOfSorted(s', rank);
      assert s == s' + [s[|s| - 1]];
    }
  }

  /** Sorting twice with the same filter gives the list sorting once gives. */
  lemma {:induction false} StableSortIdempotent<T>(s: seq<T>, rank: T -> real)
    ensures StableSort(StableSort(s, rank), rank) == StableSort(s, rank)
  {
    StableSortSorted(s, rank);
    StableSortOfSorted(StableSort(s, rank), rank);
  }

  /** What applying a sort filter promises about the list it reorders. */
  lemma {:induction false} SortFilterContract<T>(s: seq<T>, key: T -> real, direction: Option<string>)
    ensures var rank := RankOf(key, IsDescending(direction));
      var r := StableSort(s, rank);
      && multiset(r) == multiset(s) && |r| == |s|
      && (IsDescending(direction) ==> forall i, j :: 0 <= i < j < |r| ==> key(r[i]) >= key(r[j]))
      && (!IsDescending(direction) ==> forall i, j :: 0 <= i < j < |r| ==> key(r[i]) <= key(r[j]))
      && (forall k :: WithRank(r, rank, k) == WithRank(s, rank, k))
  {
    var rank := RankOf(key, IsDescending(direction));
    var r := StableSort(s, rank);
    StableSortPermutes(s, rank);
    StableSortSorted(s, rank);
    forall k ensures WithRank(r, rank, k) == WithRank(s, rank, k) {
      StableSortStable(s, rank, k);
    }
  }

  /** Every element WithRank picks has that rank and comes from s. */
  lemma {:induction false} WithRankMembers<T>(s: seq<T>, rank: T -> real, k: real)
    ensures forall i :: 0 <= i < |WithRank(s, rank, k)| ==>
      rank(WithRank(s, rank, k)[i]) == k && WithRank(s, rank, k)[i] in s
    decreases |s|
  {
    if s != [] {
      var s' := s[..|s| - 1];
      WithRankMembers(s', rank, k);
      assert forall x :: x in s' ==> x in s;
    }
  }

  /** Picking the elements of one rank out of a list sorted by another key keeps it sorted. */
  lemma {:induction false} WithRankKeepsOrder<T>(s: seq<T>, rank: T -> real, k: real, other: T -> real)
    requires SortedBy(s, other)
    ensures SortedBy(WithRank(s, rank, k), other)
    decreases |s|
  {
    if s != [] {
      var s' := s[..|s| - 1];
      var last := s[|s| - 1];
      assert SortedBy(s', other);
      WithRankKeepsOrder(s', rank, k, other);
      WithRankMembers(s', rank, k);
      var w := WithRank(s', rank, k);
      forall i | 0 <= i < |w| ensures other(w[i]) <= other(last) {
        var m :| 0 <= m < |s'| && s'[m] == w[i];
        assert s[m] == w[i];
      }
    }
  }

  /** s[i] of rank k sits in WithRank at the position counting the rank-k elements before it. */
  lemma {:induction false} WithRankIndex<T>(s: seq<T>, rank: T -> real, k: real, i: int)
    requires 0 <= i < |s| && rank(s[i]) == k
    ensures |WithRank(s[..i], rank, k)| < |WithRank(s, rank, k)|
    ensures WithRank(s, rank, k)[|WithRank(s[..i], rank, k)|] == s[i]
  {
    assert s == s[..i] + ([s[i]] + s[i + 1..]);
    WithRankAppend(s[..i], [s[i]] + s[i + 1..], rank, k);
    WithRankAppend([s[i]], s[i + 1..], rank, k);
    assert [s[i]][..0] == [];
  }

  /** A later element of rank k has more rank-k elements in front of it. */
  lemma {:induction false} WithRankPositionGrows<T>(s: seq<T>, rank: T -> real, k: real, i: int, j: int)
    requires 0 <= i < j <= |s| && rank(s[i]) == k
    ensures |WithRank(s[..i], rank, k)| < |WithRank(s[..j], rank, k)|
  {
    assert s[..j] == s[..i + 1] + s[i + 1..j];
    WithRankAppend(s[..i + 1], s[i + 1..j], rank, k);
    assert s[..i + 1][..i] == s[..i];
  }

  /**
   * Two stable sorts, first by the secondary key and then by the primary,
   * order by the primary key and, among equal primary keys, by the
   * secondary: the ORDER BY of a primary and a secondary column.
   */
  lemma {:induction false} SortThenSortIsLexicographic<T>(s: seq<T>, primary: T -> real, secondary: T -> real)
    ensures var t := StableSort(StableSort(s, secondary), primary);
      && multiset(t) == multiset(s) && |t| == |s|
      && SortedBy(t, primary)
      && (forall i, j :: 0 <= i < j < |t| && primary(t[i]) == primary(t[j]) ==>
            secondary(t[i]) <= secondary(t[j]))
  {
    var u := StableSort(s, secondary);
    var t := StableSort(u, primary);
    StableSortPermutes(s, secondary);
    StableSortPermutes(u, primary);
    StableSortSorted(u, primary);
    StableSortSorted(s, secondary);
    forall i, j | 0 <= i < j < |t| && primary(t[i]) == primary(t[j])
      ensures secondary(t[i]) <= secondary(t[j])
    {
      var k := primary(t[i]);
      StableSortStable(u, primary, k);
      WithRankKeepsOrder(u, primary, k, secondary);
      var w := WithRank(t, primary, k);
      WithRankIndex(t, primary, k, i);
      WithRankIndex(t, primary, k, j);
      WithRankPositionGrows(t, primary, k, i, j);
      assert w[|WithRank(t[..i], primary, k)|] == t[i];
      assert w[|WithRank(t[..j], primary, k)|] == t[j];
    }
  }

  /** Only "desc", in any letter case, selects the descending order. */
  lemma {:induction false} DirectionIgnoresCase()
    ensures IsDescending(Some("desc")) && IsDescending(Some("DESC")) && IsDescending(Some("Desc"))
    ensures !IsDescending(Some("asc")) && !IsDescending(Some("")) && !IsDescending(None)
    ensures !IsDescending(Some("descending"))
  {
  }

  /** One step of the insertion: x moves in front of a larger last element. */
  lemma {:induction false} InsertShift<T>(sorted: seq<T>, x: T, rank: T -> real, j: int)
    requires 0 < j <= |sorted| && rank(sorted[j - 1]) > rank(x)
    ensures Insert(sorted[..j], x, rank) + sorted[j..] == Insert(sorted[..j - 1], x, rank) + sorted[j - 1..]
  {
    assert sorted[..j][..j - 1] == sorted[..j - 1];
    assert sorted[j - 1..] == [sorted[j - 1]] + sorted[j..];
  }

  /** The insertion stops in front of an element no larger than x. */
  lemma {:induction false} InsertStops<T>(sorted: seq<T>, x: T, rank: T -> real, j: int)
    requires 0 <= j <= |sorted| && (j == 0 || rank(sorted[j - 1]) <= rank(x))
    ensures Insert(sorted[..j], x, rank) == sorted[..j] + [x]
  {
    if j > 0 {
      assert sorted[..j][j - 1] == sorted[j - 1];
    }
  }

  /** Moves a[i] into place in the sorted prefix a[..i]. */
  method InsertAt<T>(a: array<T>, i: int, rank: T -> real)
    requires 0 <= i < a.Length
    modifies a
    ensures a[..i + 1] == Insert(old(a[..i]), old(a[i]), rank)
    ensures forall k :: i < k < a.Length ==> a[k] == old(a[k])
  {
    ghost var sorted, rest := a[..i], a[i + 1..];
    var x := a[i];
    var j := ShiftLarger(a, i, x, rank);
    InsertStops(sorted, x, rank, j);
    a[j] := x;
    Placed(sorted, rest, j, a[j], x);
  }

  /**
   * Shifts the elements of the sorted prefix a[..i] that rank above x one
   * place to the right, and returns the gap where x belongs.
   */
  method ShiftLarger<T>(a: array<T>, i: int, x: T, rank: T -> real) returns (j: int)
    requires 0 <= i < a.Length
    modifies a
    ensures 0 <= j <= i && (j == 0 || rank(old(a[..i])[j - 1]) <= rank(x))
    ensures a[..] == old(a[..i])[..j] + [a[j]] + old(a[..i])[j..] + old(a[i + 1..])
    ensures Insert(old(a[..i]), x, rank) == Insert(old(a[..i])[..j], x, rank) + old(a[..i])[j..]
  {
    ghost var sorted, rest := a[..i], a[i + 1..];
    j := i;
    assert sorted[..j] == sorted && sorted[j..] == [];
    assert a[..] == sorted[..j] + [a[j]] + sorted[j..] + rest;
    while j > 0 && rank(a[j - 1]) > rank(x)
      invariant 0 <= j <= i
      invariant a[..] == sorted[..j] + [a[j]] + sorted[j..] + rest
      invariant Insert(sorted, x, rank) == Insert(sorted[..j], x, rank) + sorted[j..]
    {
      ShiftedGap(sorted, rest, j, a[j]);
      InsertShift(sorted, x, rank, j);
      a[j] := a[j - 1];
      j := j - 1;
    }
  }

  /** Filling the gap at j of sorted[..j] + [_] + sorted[j..] + rest. */
  lemma {:induction false} Placed<T>(sorted: seq<T>, rest: seq<T>, j: int, y: T, z: T)
    requires 0 <= j <= |sorted|
    ensures var b := sorted[..j] + [y] + sorted[j..] + rest;
      && |b| == |sorted| + 1 + |rest|
      && b[j := z] == sorted[..j] + [z] + sorted[j..] + rest
      && b[j := z][..|sorted| + 1] == sorted[..j] + [z] + sorted[j..]
      && b[j := z][|sorted| + 1..] == rest
      && (j > 0 ==> b[j - 1] == sorted[j - 1])
  {
    var b := sorted[..j] + [y] + sorted[j..] + rest;
    assert b[j := z] == sorted[..j] + [z] + sorted[j..] + rest;
    assert (sorted[..j] + [z] + sorted[j..] + rest)[..|sorted| + 1] == sorted[..j] + [z] + sorted[j..];
  }

  /** Copying sorted[j - 1] into the gap moves the gap one place left. */
  lemma {:induction false} ShiftedGap<T>(sorted: seq<T>, rest: seq<T>, j: int, y: T)
    requires 0 < j <= |sorted|
    ensures var b := sorted[..j] + [y] + sorted[j..] + rest;
      && b[j - 1] == sorted[j - 1]
      && b[j := sorted[j - 1]] == sorted[..j - 1] + [sorted[j - 1]] + sorted[j - 1..] + rest
  {
    var b := sorted[..j] + [y] + sorted[j..] + rest;
    assert b[j := sorted[j - 1]] == sorted[..j] + [sorted[j - 1]] + sorted[j..] + rest;
    assert sorted[..j] == sorted[..j - 1] + [sorted[j - 1]];
    assert sorted[j - 1..] == [sorted[j - 1]] + sorted[j..];
  }

  /** `list.sort(comparator)` for a comparator that orders by `rank`. */
  method ListSort<T>(a: array<T>, rank: T -> real)
    modifies a
    ensures a[..] == StableSort(old(a[..]), rank)
  {
    ghost var input := a[..];
    var i := 0;
    while i < a.Length
      invariant 0 <= i <= a.Length
      invariant a[..i] == StableSort(input[..i], rank)
      invariant forall k :: i <= k < a.Length ==> a[k] == input[k]
    {
      InsertAt(a, i, rank);
      assert input[..i + 1][..i] == input[..i];
      i := i + 1;
    }
    assert a[..] == a[..a.Length];
    assert input == input[..a.Length];
  }

  /** A sort filter: a key extractor and the requested direction. */
  class SortFilter<T> {
    const key: T -> real
    const direction: Option<string>

    constructor(key: T -> real, direction: Option<string>)
      ensures this.key == key && this.direction == direction
    {
      this.key := key;
      this.direction := direction;
    }

    /** SortFilter.by */
    static method By(key: T -> real, direction: Option<string>) returns (f: SortFilter<T>)
      ensures fresh(f) && f.key == key && f.direction == direction
    {
      f := new SortFilter(key, direction);
    }

    /** Sorts the list in place by the key, descending exactly for "desc". */
    method Apply(list: array<T>)
      modifies list
      ensures list[..] == StableSort(old(list[..]), RankOf(key, IsDescending(direction)))
    {
      var comparator := RankOf(key, IsDescending(direction));
      ListSort(list, comparator);
    }
  }

  // ---------------------------------------------------------------------------
  // Queries, search and pages
  // ---------------------------------------------------------------------------

  /**
   * `LOWER(column) LIKE LOWER('%' || v || '%')` for a search value without
   * LIKE wildcards: the column contains v, ignoring letter case.
   */
  predicate LikeContains(column: string, searchValue: string) {
    Contains(ToLower(column), ToLower(searchValue))
  }

  /** A Panache query over one table: all rows, or a LIKE search on one column. */
  datatype Query = FindAll | Search(fieldName: string, searchValue: string) {

    /** The JPQL condition handed to `find`. */
    function Condition(): string
      requires Search?
    {
      "LOWER(" + fieldName + ") LIKE LOWER(?1)"
    }

    /** The positional parameter ?1. */
    function Pattern(): string
      requires Search?
    {
      "%" + searchValue + "%"
    }
  }

  /** The rows a query selects from a table; `column` reads the searched field of a row. */
  function Select<R>(q: Query, rows: seq<R>, column: R -> string): seq<R> {
    match q
    case FindAll => rows
    case Search(_, v) => Where(rows, (x: R) => LikeContains(column(x), v))
  }

  /** SearchFilter.byField(repository, fieldName, searchValue). */
  datatype SearchFilter = SearchFilter(fieldName: string, searchValue: Option<string>) {

    /** Blank or null search: the incoming query; otherwise a new LIKE query on the field. */
    function Apply(query: Query): (r: Query)
      ensures !(searchValue.Some? && HasText(searchValue.value)) ==> r == query
      ensures searchValue.Some? && HasText(searchValue.value) ==>
        && r.Search? && r.fieldName == fieldName && r.searchValue == searchValue.value
        && r.Condition() == "LOWER(" + fieldName + ") LIKE LOWER(?1)"
        && r.Pattern() == "%" + searchValue.value + "%"
    {
      if searchValue.Some? && HasText(searchValue.value) then Search(fieldName, searchValue.value)
      else query
    }
  }

  /**
   * The rows an applied search filter yields: unchanged for a blank search,
   * otherwise exactly the table rows whose column contains the untrimmed
   * search value, ignoring case, and never more rows than the table has.
   */
  lemma {:induction false} SearchFilterRows<R>(f: SearchFilter, query: Query, rows: seq<R>, column: R -> string)
    ensures var r := Select(f.Apply(query), rows, column);
      && (!(f.searchValue.Some? && HasText(f.searchValue.value)) ==> r == Select(query, rows, column))
      && (f.searchValue.Some? && HasText(f.searchValue.value) ==>
            && |r| <= |rows|
            && (forall i :: 0 <= i < |r| ==> r[i] in rows && LikeContains(column(r[i]), f.searchValue.value))
            && (forall i :: 0 <= i < |rows| && LikeContains(column(rows[i]), f.searchValue.value) ==> rows[i] in r))
  {
    if f.searchValue.Some? && HasText(f.searchValue.value) {
      WhereMembers(rows, (x: R) => LikeContains(column(x), f.searchValue.value));
    }
  }
}
