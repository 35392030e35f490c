/**
 * ProductRepository: the lookups the product service issues, as predicates
 * over the products table. Every count or find is one WHERE over the rows.
 */
module ProductRepository {
  import opened Wrappers
  import opened Text
  import opened Entity
  import opened Table

  /** find("id", id).firstResultOptional(). */
  function FindByIdOptional(products: seq<Product>, id: int): (r: Option<Product>)
    ensures r.Some? <==> ExistsById(products, id)
    ensures r.Some? ==> r.value in products && r.value.id == Some(id)
  {
    var byId := (p: Product) => p.id == Some(id);
    FirstOfWhere(products, byId);
    FirstOf(Where(products, byId))
  }

  /** count("id", id) > 0. */
  function ExistsById(products: seq<Product>, id: int): (r: bool)
    ensures r <==> exists i :: 0 <= i < |products| && products[i].id == Some(id)
  {
    CountIf(products, (p: Product) => p.id == Some(id)) > 0
  }

  /** count("LOWER(name)", name.toLowerCase()) > 0. */
  function ExistsByName(products: seq<Product>, name: string): (r: bool)
    ensures r <==> exists i :: 0 <= i < |products| && EqualsIgnoreCase(products[i].name, name)
  {
    CountIf(products, (p: Product) => ToLower(p.name) == ToLower(name)) > 0
  }

  /**
   * count("LOWER(name) = ?1 AND id != ?2", ...) > 0. A row whose id is
   * NULL makes `id != ?2` unknown in SQL and is not counted.
   */
  function ExistsByNameAndIdNot(products: seq<Product>, name: string, id: int): (r: bool)
    ensures r <==> exists i :: 0 <= i < |products| && EqualsIgnoreCase(products[i].name, name)
                              && products[i].id.Some? && products[i].id.value != id
  {
    CountIf(products, (p: Product) => ToLower(p.name) == ToLower(name) && p.id.Some? && p.id.value != id) > 0
  }

  /** No two rows share an id. */
  predicate UniqueIds(products: seq<Product>) {
    forall i, j :: 0 <= i < j < |products| ==> products[i].id != products[j].id
  }

  /** No two rows have names that differ at most in letter case. */
  predicate UniqueNames(products: seq<Product>) {
    forall i, j :: 0 <= i < j < |products| ==> !EqualsIgnoreCase(products[i].name, products[j].name)
  }

  /** A clash with another row is a clash. */
  lemma {:induction false} ClashWithOtherIsClash(products: seq<Product>, name: string, id: int)
    requires ExistsByNameAndIdNot(products, name, id)
    ensures ExistsByName(products, name)
  {
  }

  /** Names that differ only in letter case collide. */
  lemma {:induction false} ExistsByNameIgnoresCase(products: seq<Product>, a: string, b: string)
    requires EqualsIgnoreCase(a, b)
    ensures ExistsByName(products, a) == ExistsByName(products, b)
  {
  }

  /**
   * In a table whose names are unique, a row may keep its own name or
   * change its letter case: only the row itself holds that name.
   */
  lemma {:induction false} OwnNameIsNoClash(products: seq<Product>, i: int, name: string)
    requires UniqueNames(products)
    requires 0 <= i < |products| && products[i].id.Some?
    requires EqualsIgnoreCase(products[i].name, name)
    ensures !ExistsByNameAndIdNot(products, name, products[i].id.value)
  {
  }
}

/** RawMaterialRepository: the same lookups over the raw_materials table, plus findByName. */
module RawMaterialRepository {
  import opened Wrappers
  import opened Text
  import opened Entity
  import opened Table

  function FindByIdOptional(materials: seq<RawMaterial>, id: int): (r: Option<RawMaterial>)
    ensures r.Some? <==> ExistsById(materials, id)
    ensures r.Some? ==> r.value in materials && r.value.id == Some(id)
  {
    var byId := (m: RawMaterial) => m.id == Some(id);
    FirstOfWhere(materials, byId);
    FirstOf(Where(materials, byId))
  }

  function ExistsById(materials: seq<RawMaterial>, id: int): (r: bool)
    ensures r <==> exists i :: 0 <= i < |materials| && materials[i].id == Some(id)
  {
    CountIf(materials, (m: RawMaterial) => m.id == Some(id)) > 0
  }

  /** find("LOWER(name)", name.toLowerCase()).firstResultOptional(): the first row with that name, any case. */
  function FindByName(materials: seq<RawMaterial>, name: string): (r: Option<RawMaterial>)
    ensures r.Some? <==> ExistsByName(materials, name)
    ensures r.Some? ==> r.value in materials && EqualsIgnoreCase(r.value.name, name)
  {
    var byName := (m: RawMaterial) => ToLower(m.name) == ToLower(name);
    FirstOfWhere(materials, byName);
    FirstOf(Where(materials, byName))
  }

  function ExistsByName(materials: seq<RawMaterial>, name: string): (r: bool)
    ensures r <==> exists i :: 0 <= i < |materials| && EqualsIgnoreCase(materials[i].name, name)
  {
    CountIf(materials, (m: RawMaterial) => ToLower(m.name) == ToLower(name)) > 0
  }

  function ExistsByNameAndIdNot(materials: seq<RawMaterial>, name: string, id: int): (r: bool)
    ensures r <==> exists i :: 0 <= i < |materials| && EqualsIgnoreCase(materials[i].name, name)
                              && materials[i].id.Some? && materials[i].id.value != id
  {
    CountIf(materials, (m: RawMaterial) => ToLower(m.name) == ToLower(name) && m.id.Some? && m.id.value != id) > 0
  }

  predicate UniqueIds(materials: seq<RawMaterial>) {
    forall i, j :: 0 <= i < j < |materials| ==> materials[i].id != materials[j].id
  }

  predicate UniqueNames(materials: seq<RawMaterial>) {
    forall i, j :: 0 <= i < j < |materials| ==> !EqualsIgnoreCase(materials[i].name, materials[j].name)
  }

  lemma {:induction false} ClashWithOtherIsClash(materials: seq<RawMaterial>, name: string, id: int)
    requires ExistsByNameAndIdNot(materials, name, id)
    ensures ExistsByName(materials, name)
  {
  }

  lemma {:induction false} ExistsByNameIgnoresCase(materials: seq<RawMaterial>, a: string, b: string)
    requires EqualsIgnoreCase(a, b)
    ensures ExistsByName(materials, a) == ExistsByName(materials, b)
    ensures FindByName(materials, a) == FindByName(materials, b)
  {
  }

  /** existsByNameAndIdNot ignores the row with the given id. */
  lemma {:induction false} OwnNameIsNoClash(materials: seq<RawMaterial>, i: int, name: string)
    requires UniqueNames(materials)
    requires 0 <= i < |materials| && materials[i].id.Some?
    requires EqualsIgnoreCase(materials[i].name, name)
    ensures !ExistsByNameAndIdNot(materials, name, materials[i].id.value)
  {
  }
}

/** ProductRawMaterialRepository: the bill-of-materials lines, looked up by product and by pair. */
module ProductRawMaterialRepository {
  import opened Wrappers
  import opened Entity
  import opened Table

  /** find("product.id", productId): the product's lines in table order. */
  function FindByProductId(links: seq<ProductRawMaterial>, productId: int): (r: seq<ProductRawMaterial>)
    ensures forall i :: 0 <= i < |r| ==> r[i] in links && r[i].productId == productId
    ensures forall i :: 0 <= i < |links| && links[i].productId == productId ==> links[i] in r
  {
    var byProduct := (l: ProductRawMaterial) => l.productId == productId;
    WhereMembers(links, byProduct);
    Where(links, byProduct)
  }

  /** count("product.id", productId): as many as findByProductId returns. */
  function CountByProductId(links: seq<ProductRawMaterial>, productId: int): (n: nat)
    ensures n == |FindByProductId(links, productId)|
  {
    var byProduct := (l: ProductRawMaterial) => l.productId == productId;
    CountIfIsWhereLength(links, byProduct);
    CountIf(links, byProduct)
  }

  predicate IsPair(l: ProductRawMaterial, productId: int, rawMaterialId: int) {
    l.productId == productId && l.rawMaterialId == rawMaterialId
  }

  function FindByProductIdAndRawMaterialId(links: seq<ProductRawMaterial>, productId: int, rawMaterialId: int)
    : (r: Option<ProductRawMaterial>)
    ensures r.Some? <==> ExistsByProductIdAndRawMaterialId(links, productId, rawMaterialId)
    ensures r.Some? ==> r.value in links && IsPair(r.value, productId, rawMaterialId)
  {
    var byPair := (l: ProductRawMaterial) => IsPair(l, productId, rawMaterialId);
    FirstOfWhere(links, byPair);
    FirstOf(Where(links, byPair))
  }

  function ExistsByProductIdAndRawMaterialId(links: seq<ProductRawMaterial>, productId: int, rawMaterialId: int)
    : (r: bool)
    ensures r <==> exists i :: 0 <= i < |links| && IsPair(links[i], productId, rawMaterialId)
  {
    CountIf(links, (l: ProductRawMaterial) => IsPair(l, productId, rawMaterialId)) > 0
  }

  /**
   * The table after delete("product.id = ?1 and rawMaterial.id = ?2"): every
   * line of the pair is gone and every other line stays.
   */
  function DeleteByProductIdAndRawMaterialId(links: seq<ProductRawMaterial>, productId: int, rawMaterialId: int)
    : (r: seq<ProductRawMaterial>)
    ensures !ExistsByProductIdAndRawMaterialId(r, productId, rawMaterialId)
    ensures forall i :: 0 <= i < |r| ==> r[i] in links
    ensures forall i :: 0 <= i < |links| && !IsPair(links[i], productId, rawMaterialId) ==> links[i] in r
    ensures |r| <= |links|
  {
    var notPair := (l: ProductRawMaterial) => !IsPair(l, productId, rawMaterialId);
    WhereMembers(links, notPair);
    Where(links, notPair)
  }

  /** count("product.id", productId) > 0. */
  function HasProductLinks(links: seq<ProductRawMaterial>, productId: int): (r: bool)
    ensures r <==> CountByProductId(links, productId) > 0
    ensures r <==> exists i :: 0 <= i < |links| && links[i].productId == productId
  {
    CountIf(links, (l: ProductRawMaterial) => l.productId == productId) > 0
  }

  /** count("rawMaterial.id", rawMaterialId) > 0. */
  function HasRawMaterialLinks(links: seq<ProductRawMaterial>, rawMaterialId: int): (r: bool)
    ensures r <==> exists i :: 0 <= i < |links| && links[i].rawMaterialId == rawMaterialId
  {
    CountIf(links, (l: ProductRawMaterial) => l.rawMaterialId == rawMaterialId) > 0
  }

  /** At most one line per (product, raw material) pair. */
  predicate UniquePairs(links: seq<ProductRawMaterial>) {
    forall i, j :: 0 <= i < j < |links| ==>
      !(links[i].productId == links[j].productId && links[i].rawMaterialId == links[j].rawMaterialId)
  }

  /** When pairs are unique, the pair delete removes exactly one line if the pair exists. */
  lemma {:induction false} DeleteRemovesOne(links: seq<ProductRawMaterial>, productId: int, rawMaterialId: int)
    requires UniquePairs(links)
    ensures var r := DeleteByProductIdAndRawMaterialId(links, productId, rawMaterialId);
      |r| == if ExistsByProductIdAndRawMaterialId(links, productId, rawMaterialId) then |links| - 1 else |links|
    decreases |links|
  {
    if links != [] {
      var rest := links[1..];
      assert UniquePairs(rest) by {
        forall i, j | 0 <= i < j < |rest|
          ensures !(rest[i].productId == rest[j].productId && rest[i].rawMaterialId == rest[j].rawMaterialId)
        {
          assert rest[i] == links[i + 1] && rest[j] == links[j + 1];
        }
      }
      DeleteRemovesOne(rest, productId, rawMaterialId);
      if IsPair(links[0], productId, rawMaterialId) {
        assert !ExistsByProductIdAndRawMaterialId(rest, productId, rawMaterialId) by {
          forall i | 0 <= i < |rest| ensures !IsPair(rest[i], productId, rawMaterialId) {
            assert rest[i] == links[i + 1];
          }
        }
      } else {
        assert ExistsByProductIdAndRawMaterialId(links, productId, rawMaterialId)
          == ExistsByProductIdAndRawMaterialId(rest, productId, rawMaterialId) by {
          if ExistsByProductIdAndRawMaterialId(links, productId, rawMaterialId) {
            var i :| 0 <= i < |links| && IsPair(links[i], productId, rawMaterialId);
            assert rest[i - 1] == links[i];
          }
          if ExistsByProductIdAndRawMaterialId(rest, productId, rawMaterialId) {
            var i :| 0 <= i < |rest| && IsPair(rest[i], productId, rawMaterialId);
            assert links[i + 1] == rest[i];
          }
        }
      }
    }
  }
}

/**
 * ProductionSuggestionRepository: one page of the read-only suggestions
 * relation, optionally searched by product name and ordered by value.
 */
module ProductionSuggestionRepository {
  import opened Wrappers
  import opened Text
  import opened Entity
  import opened Table
  import opened Filter

  /** The ORDER BY the direction selects. */
  datatype Ordering = ByPriority | ByValueThenPriority(descending: bool)

  /** A non-blank search narrows the rows; null or blank does not. */
  predicate Searches(searchName: Option<string>) {
    searchName.Some? && HasText(searchName.value)
  }

  /** "asc".equalsIgnoreCase(d) || "desc".equalsIgnoreCase(d), false for null. */
  function OrderingOf(sortDirection: Option<string>): (o: Ordering)
    ensures o.ByValueThenPriority? <==>
      sortDirection.Some? && (EqualsIgnoreCase("asc", sortDirection.value) || EqualsIgnoreCase("desc", sortDirection.value))
    ensures o.ByValueThenPriority? ==> (o.descending <==> EqualsIgnoreCase("desc", sortDirection.value))
  {
    if sortDirection.Some? && EqualsIgnoreCase("asc", sortDirection.value) then ByValueThenPriority(false)
    else if sortDirection.Some? && EqualsIgnoreCase("desc", sortDirection.value) then ByValueThenPriority(true)
    else ByPriority
  }

  function Priority(s: ProductionSuggestion): real {
    s.priorityRank as real
  }

  function Value(s: ProductionSuggestion): real {
    s.productValue
  }

  /** The rows the WHERE clause keeps: all, or those whose product name contains the search. */
  function Matching(view: seq<ProductionSuggestion>, searchName: Option<string>): (r: seq<ProductionSuggestion>)
    ensures !Searches(searchName) ==> r == view
    ensures Searches(searchName) ==>
      && (forall i :: 0 <= i < |r| ==> r[i] in view && LikeContains(r[i].productName, searchName.value))
      && (forall i :: 0 <= i < |view| && LikeContains(view[i].productName, searchName.value) ==> view[i] in r)
  {
    if Searches(searchName) then
      var like := (s: ProductionSuggestion) => LikeContains(s.productName, searchName.value);
      WhereMembers(view, like);
      Where(view, like)
    else view
  }

  /** The rows in the ORDER BY's order; rows equal on every ordering column keep table order. */
  function Ordered(rows: seq<ProductionSuggestion>, o: Ordering): seq<ProductionSuggestion> {
    match o
    case ByPriority => StableSort(rows, Priority)
    case ByValueThenPriority(descending) => StableSort(StableSort(rows, Priority), RankOf(Value, descending))
  }

  /** What the database returns for the query: one page of the matching rows in order. */
  function OrderedPage(view: seq<ProductionSuggestion>, pageIndex: nat, pageSize: nat,
                       searchName: Option<string>, sortDirection: Option<string>): seq<ProductionSuggestion> {
    PageOf(Ordered(Matching(view, searchName), OrderingOf(sortDirection)), pageIndex, pageSize)
  }

  /** count(searchName): all rows for a blank search, else the rows matching the same LIKE. */
  function Count(view: seq<ProductionSuggestion>, searchName: Option<string>): (n: nat)
    ensures n == |Matching(view, searchName)|
    ensures !Searches(searchName) ==> n == |view|
  {
    if Searches(searchName) then
      var like := (s: ProductionSuggestion) => LikeContains(s.productName, searchName.value);
      CountIfIsWhereLength(view, like);
      CountIf(view, like)
    else |view|
  }

  const SearchCondition := " AND LOWER(productName) LIKE LOWER(:searchName)"

  /** The ORDER BY column list of an ordering, with the direction in upper case. */
  function OrderByText(o: Ordering): string {
    match o
    case ByPriority => "priorityRank ASC"
    case ByValueThenPriority(descending) =>
      "productValue " + (if descending then "DESC" else "ASC") + ", priorityRank ASC"
  }

  /** sortDirection.toUpperCase() for a direction that is "asc" or "desc" in some letter case. */
  lemma {:induction false} UpperDirection(d: string)
    requires EqualsIgnoreCase("asc", d) || EqualsIgnoreCase("desc", d)
    ensures ToUpper(d) == if EqualsIgnoreCase("desc", d) then "DESC" else "ASC"
  {
    if EqualsIgnoreCase("desc", d) {
      UpperIgnoresCase("desc", d);
      assert ToUpper("desc") == "DESC";
    } else {
      UpperIgnoresCase("asc", d);
      assert ToUpper("asc") == "ASC";
    }
  }

  /**
   * findAllOrderedByPriority: builds the JPQL text and named parameters
   * step by step and returns the page the database answers with. The
   * condition is "1=1", extended by the name search when there is one; the
   * search binds the untrimmed name between '%' signs; the ORDER BY is the
   * one the direction selects.
   */
  method FindAllOrderedByPriority(view: seq<ProductionSuggestion>, pageIndex: nat, pageSize: nat,
                                  searchName: Option<string>, sortDirection: Option<string>)
    returns (jpql: string, params: map<string, string>, rows: seq<ProductionSuggestion>)
    ensures !Searches(searchName) ==> params == map[]
    ensures Searches(searchName) ==> params == map["searchName" := "%" + searchName.value + "%"]
    ensures jpql == ("1=1" + (if Searches(searchName) then SearchCondition else ""))
                   + (" ORDER BY " + OrderByText(OrderingOf(sortDirection)))
    ensures rows == OrderedPage(view, pageIndex, pageSize, searchName, sortDirection)
  {
    var query := "1=1";
    params := map[];
    if searchName.Some? && HasText(searchName.value) {
      query := query + SearchCondition;
      params := params["searchName" := "%" + searchName.value + "%"];
    }
    var orderBy := " ORDER BY ";
    ghost var ordering := OrderingOf(sortDirection);
    if sortDirection.Some? && (EqualsIgnoreCase("asc", sortDirection.value) || EqualsIgnoreCase("desc", sortDirection.value)) {
      UpperDirection(sortDirection.value);
      orderBy := orderBy + ("productValue " + ToUpper(sortDirection.value) + ", priorityRank ASC");
      assert orderBy == " ORDER BY " + OrderByText(ordering);
    } else {
      orderBy := orderBy + "priorityRank ASC";
      assert orderBy == " ORDER BY " + OrderByText(ordering);
    }
    jpql := query + orderBy;
    rows := OrderedPage(view, pageIndex, pageSize, searchName, sortDirection);
  }

  lemma {:induction false} UpperDescIsDesc()
    ensures EqualsIgnoreCase("desc", "DESC")
  {
    assert "DESC"[1..] == "ESC" && "ESC"[1..] == "SC" && "SC"[1..] == "C" && "C"[1..] == "";
    assert "desc"[1..] == "esc" && "esc"[1..] == "sc" && "sc"[1..] == "c" && "c"[1..] == "";
  }

  lemma {:induction false} CapitalAscIsAsc()
    ensures EqualsIgnoreCase("asc", "Asc")
  {
    assert "Asc"[1..] == "sc" && "asc"[1..] == "sc" && "sc"[1..] == "c" && "c"[1..] == "";
  }

  lemma {:induction false} DescendingOrderByText()
    ensures OrderByText(ByValueThenPriority(true)) == "productValue DESC, priorityRank ASC"
  {
  }

  lemma {:induction false} AscendingOrderByText()
    ensures OrderByText(ByValueThenPriority(false)) == "productValue ASC, priorityRank ASC"
  {
  }

  /**
   * Any case of "desc" orders by descending value, any case of "asc" by
   * ascending; any other direction, blank or missing, by rank.
   */
  lemma {:induction false} OrderingExamples()
    ensures OrderByText(OrderingOf(Some("DESC"))) == "productValue DESC, priorityRank ASC"
    ensures OrderByText(OrderingOf(Some("Asc"))) == "productValue ASC, priorityRank ASC"
    ensures OrderByText(OrderingOf(Some("up"))) == "priorityRank ASC"
    ensures OrderByText(OrderingOf(Some(""))) == "priorityRank ASC"
    ensures OrderByText(OrderingOf(None)) == "priorityRank ASC"
  {
    UpperDescIsDesc();
    CapitalAscIsAsc();
    DescendingOrderByText();
    AscendingOrderByText();
    assert OrderingOf(Some("DESC")) == ByValueThenPriority(true) by {
      assert |ToLower("DESC")| != |ToLower("asc")|;
    }
    assert OrderingOf(Some("Asc")) == ByValueThenPriority(false);
    assert OrderingOf(Some("up")) == ByPriority by {
      assert |ToLower("up")| != |ToLower("asc")| && |ToLower("up")| != |ToLower("desc")|;
    }
    assert OrderingOf(Some("")) == ByPriority by {
      assert |ToLower("")| != |ToLower("asc")| && |ToLower("")| != |ToLower("desc")|;
    }
  }

  /** Ordered by priority: the rows, each once, by ascending priority rank. */
  lemma {:induction false} OrderedByPriority(rows: seq<ProductionSuggestion>)
    ensures var t := Ordered(rows, ByPriority);
      && multiset(t) == multiset(rows) && |t| == |rows|
      && forall i, j :: 0 <= i < j < |t| ==> t[i].priorityRank <= t[j].priorityRank
  {
    StableSortPermutes(rows, Priority);
    StableSortSorted(rows, Priority);
  }

  /**
   * Ordered by value: the rows, each once, ascending or descending by
   * value and, among equal values, by ascending priority rank.
   */
  lemma {:induction false} OrderedByValue(rows: seq<ProductionSuggestion>, descending: bool)
    ensures var t := Ordered(rows, ByValueThenPriority(descending));
      && multiset(t) == multiset(rows) && |t| == |rows|
      && forall i, j :: 0 <= i < j < |t| ==>
           (if descending then t[i].productValue >= t[j].productValue else t[i].productValue <= t[j].productValue)
           && (t[i].productValue == t[j].productValue ==> t[i].priorityRank <= t[j].priorityRank)
  {
    var t := Ordered(rows, ByValueThenPriority(descending));
    var rank := RankOf(Value, descending);
    SortThenSortIsLexicographic(rows, rank, Priority);
    forall i, j | 0 <= i < j < |t|
      ensures (if descending then t[i].productValue >= t[j].productValue else t[i].productValue <= t[j].productValue)
      ensures t[i].productValue == t[j].productValue ==> t[i].priorityRank <= t[j].priorityRank
    {
      assert rank(t[i]) <= rank(t[j]);
      assert rank(t[i]) == (if descending then -Value(t[i]) else Value(t[i]));
      assert rank(t[j]) == (if descending then -Value(t[j]) else Value(t[j]));
      if t[i].productValue == t[j].productValue {
        assert rank(t[i]) == rank(t[j]);
      }
    }
  }

  /** Row a may be listed before row b under ordering o. */
  predicate InOrder(a: ProductionSuggestion, b: ProductionSuggestion, o: Ordering) {
    match o
    case ByPriority => a.priorityRank <= b.priorityRank
    case ByValueThenPriority(descending) =>
      && (if descending then a.productValue >= b.productValue else a.productValue <= b.productValue)
      && (a.productValue == b.productValue ==> a.priorityRank <= b.priorityRank)
  }

  /** Every page of the query lists its rows in the order the ORDER BY asks for. */
  lemma {:induction false} PageInOrder(view: seq<ProductionSuggestion>, pageIndex: nat, pageSize: nat,
                      searchName: Option<string>, sortDirection: Option<string>)
    ensures var page := OrderedPage(view, pageIndex, pageSize, searchName, sortDirection);
      forall i, j :: 0 <= i < j < |page| ==> InOrder(page[i], page[j], OrderingOf(sortDirection))
  {
    var m := Matching(view, searchName);
    var o := OrderingOf(sortDirection);
    OrderedInOrder(m, o);
    PageKeepsOrder(Ordered(m, o), pageIndex, pageSize, (a, b) => InOrder(a, b, o));
  }

  /** The ordered rows meet the ORDER BY pairwise. */
  lemma {:induction false} OrderedInOrder(rows: seq<ProductionSuggestion>, o: Ordering)
    ensures var t := Ordered(rows, o);
      forall i, j :: 0 <= i < j < |t| ==> InOrder(t[i], t[j], o)
  {
    var t := Ordered(rows, o);
    match o
    case ByPriority =>
      OrderedByPriority(rows);
      forall i, j | 0 <= i < j < |t| ensures InOrder(t[i], t[j], o) {
        assert t[i].priorityRank <= t[j].priorityRank;
      }
    case ByValueThenPriority(descending) =>
      OrderedByValue(rows, descending);
      forall i, j | 0 <= i < j < |t| ensures InOrder(t[i], t[j], o) {
        assert (if descending then t[i].productValue >= t[j].productValue else t[i].productValue <= t[j].productValue);
      }
  }

  /** Whatever the direction, the ordered rows are the given rows, each once. */
  lemma {:induction false} OrderedPermutes(rows: seq<ProductionSuggestion>, o: Ordering)
    ensures multiset(Ordered(rows, o)) == multiset(rows) && |Ordered(rows, o)| == |rows|
  {
    match o
    case ByPriority => OrderedByPriority(rows);
    case ByValueThenPriority(descending) => OrderedByValue(rows, descending);
  }

  /** A page never holds more rows than count(searchName) reports, nor more than the page size. */
  lemma {:induction false} PageWithinCount(view: seq<ProductionSuggestion>, pageIndex: nat, pageSize: nat,
                        searchName: Option<string>, sortDirection: Option<string>)
    ensures |OrderedPage(view, pageIndex, pageSize, searchName, sortDirection)| <= Count(view, searchName)
    ensures |OrderedPage(view, pageIndex, pageSize, searchName, sortDirection)| <= pageSize
  {
    OrderedPermutes(Matching(view, searchName), OrderingOf(sortDirection));
  }

  /** Every row of a page is a matching row of the view. */
  lemma {:induction false} PageRowsMatch(view: seq<ProductionSuggestion>, pageIndex: nat, pageSize: nat,
                      searchName: Option<string>, sortDirection: Option<string>)
    ensures var page := OrderedPage(view, pageIndex, pageSize, searchName, sortDirection);
      forall i :: 0 <= i < |page| ==>
        page[i] in view && (Searches(searchName) ==> LikeContains(page[i].productName, searchName.value))
  {
    var m := Matching(view, searchName);
    var t := Ordered(m, OrderingOf(sortDirection));
    OrderedPermutes(m, OrderingOf(sortDirection));
    var listed := (s: ProductionSuggestion) =>
      s in view && (Searches(searchName) ==> LikeContains(s.productName, searchName.value));
    PermutationKeeps(m, t, listed);
    PageKeeps(t, pageIndex, pageSize, listed);
  }
}
