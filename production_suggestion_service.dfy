/**
 * ProductionSuggestionService: one page of the production suggestions,
 * searched by product name and ordered by priority rank or by product
 * value, together with the number of suggestions the search matches.
 */
module ProductionSuggestionService {
  import opened Wrappers
  import opened Table
  import opened Filter
  import opened Entity
  import opened Dto
  import opened ProductionSuggestionMapper
  import opened ProductionSuggestionRepository

  /**
   * getProductionSuggestions: the count of the search and the page the
   * ordered query returns, each row mapped to its response.
   */
  function GetProductionSuggestions(view: seq<ProductionSuggestion>, pageNumber: nat, pageSize: nat,
                                    searchName: Option<string>, sortDirection: Option<string>)
    : (r: PageResponse<ProductionSuggestionResponseDto>)
    ensures r.totalElements == Count(view, searchName)
    ensures r.pageNumber == pageNumber && r.pageSize == pageSize
    ensures |r.content| <= pageSize && |r.content| <= r.totalElements
    ensures var page := OrderedPage(view, pageNumber, pageSize, searchName, sortDirection);
      && |r.content| == |page|
      && forall i :: 0 <= i < |page| ==> r.content[i] == ToResponseDto(page[i])
    ensures forall i :: 0 <= i < |r.content| ==>
      exists k :: 0 <= k < |view| && r.content[i] == ToResponseDto(view[k])
                  && (Searches(searchName) ==> LikeContains(view[k].productName, searchName.value))
  {
    var count := Count(view, searchName);
    var suggestions := OrderedPage(view, pageNumber, pageSize, searchName, sortDirection);
    PageWithinCount(view, pageNumber, pageSize, searchName, sortDirection);
    PageRowsMatch(view, pageNumber, pageSize, searchName, sortDirection);
    var content := seq(|suggestions|, i requires 0 <= i < |suggestions| => ToResponseDto(suggestions[i]));
    assert forall i :: 0 <= i < |content| ==> content[i] == ToResponseDto(suggestions[i]) && suggestions[i] in view;
    PageResponse(content, pageNumber, pageSize, count)
  }

  /**
   * The page lists suggestions by ascending priority rank unless the
   * direction is "asc" or "desc" in some letter case; then by value in that
   * direction, ties broken by ascending priority rank.
   */
  lemma {:induction false} PageOrder(view: seq<ProductionSuggestion>, pageNumber: nat, pageSize: nat,
                  searchName: Option<string>, sortDirection: Option<string>)
    ensures var c := GetProductionSuggestions(view, pageNumber, pageSize, searchName, sortDirection).content;
      && (OrderingOf(sortDirection) == ByPriority ==>
            forall i, j :: 0 <= i < j < |c| ==> c[i].priorityRank <= c[j].priorityRank)
      && (OrderingOf(sortDirection).ByValueThenPriority? ==>
            forall i, j :: 0 <= i < j < |c| ==>
              && (if OrderingOf(sortDirection).descending then c[i].productValue >= c[j].productValue
                  else c[i].productValue <= c[j].productValue)
              && (c[i].productValue == c[j].productValue ==> c[i].priorityRank <= c[j].priorityRank))
  {
    var o := OrderingOf(sortDirection);
    var page := OrderedPage(view, pageNumber, pageSize, searchName, sortDirection);
    var c := GetProductionSuggestions(view, pageNumber, pageSize, searchName, sortDirection).content;
    PageInOrder(view, pageNumber, pageSize, searchName, sortDirection);
    assert |c| == |page| && forall i :: 0 <= i < |c| ==> c[i] == ToResponseDto(page[i]);
    forall i, j | 0 <= i < j < |c|
      ensures o == ByPriority ==> c[i].priorityRank <= c[j].priorityRank
      ensures o.ByValueThenPriority? ==>
        && (if o.descending then c[i].productValue >= c[j].productValue else c[i].productValue <= c[j].productValue)
        && (c[i].productValue == c[j].productValue ==> c[i].priorityRank <= c[j].priorityRank)
    {
      assert InOrder(page[i], page[j], o);
    }
  }

  /**
   * Two suggestions ranked 1 and 2, no search and a blank direction: both
   * are listed, the first ranked first, and the total is 2; with no
   * suggestions the page is empty and the total 0.
   */
  lemma {:induction false} ServiceExamples()
    ensures var a := ProductionSuggestion(1, "Product A", 10.0, 100, 1000.0, 1);
      var b := ProductionSuggestion(2, "Product B", 20.0, 25, 500.0, 2);
      var r := GetProductionSuggestions([a, b], 0, 10, Some(""), Some(""));
      && |r.content| == 2 && r.totalElements == 2
      && r.content[0] == ProductionSuggestionResponseDto(1, "Product A", 10.0, 100, 1000.0, 1)
    ensures var r := GetProductionSuggestions([], 0, 10, Some(""), Some(""));
      r.content == [] && r.totalElements == 0
  {
    var a := ProductionSuggestion(1, "Product A", 10.0, 100, 1000.0, 1);
    var b := ProductionSuggestion(2, "Product B", 20.0, 25, 500.0, 2);
    assert !Searches(Some(""));
    assert OrderingOf(Some("")) == ByPriority;
    assert SortedBy([a, b], Priority);
    StableSortOfSorted([a, b], Priority);
  }
}
