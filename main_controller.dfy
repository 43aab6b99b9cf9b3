/**
 * The page arithmetic of `MainController`: the list shows pages of 10, the
 * pagination widget counts pages from 0 while the data layer counts them
 * from 1, a search starts over on the first page, deleting the only item of a
 * page steps back one page, and adding an entity jumps to the last page.
 *
 * The item count and the page of items come from the data layer's `getCount`
 * and `search`, which are not part of this model: they enter as parameters.
 */
module MainControl {
  import opened Wrappers
  import opened EntityDao
  import opened Paging

  const PAGE_SIZE: nat := 10
  const SORT_CHOICES: seq<string> := ["Date", "Name (A-Z)", "Name (Z-A)"]
  const DESCENDING_CHOICE: string := "Name (Z-A)"

  /**
   * `(int) Math.ceil((double) totalItems / PAGE_SIZE)`: the double quotient of
   * a Java int by 10 is never rounded across an integer, so this is the exact
   * ceiling.
   */
  function PagesFor(totalItems: nat): (n: nat)
    ensures n * PAGE_SIZE >= totalItems
    ensures n == 0 || (n - 1) * PAGE_SIZE < totalItems
  {
    CeilDiv(totalItems, PAGE_SIZE)
  }

  /** The page count `updateView` sets: the pages needed for `totalItems`, but never fewer than 1. */
  function PageCount(totalItems: nat): (n: nat)
    ensures n >= 1
    ensures totalItems <= n * PAGE_SIZE
    ensures n == 1 || (n - 1) * PAGE_SIZE < totalItems
  {
    var n := PagesFor(totalItems);
    if n == 0 then 1 else n
  }

  /** The index `showEditDialog` moves to after an add: one less than the pages needed, but never below 0. */
  function LastPageIndex(totalItems: nat): (k: nat)
    ensures k * PAGE_SIZE < totalItems || k == 0
  {
    var last := PagesFor(totalItems) - 1;
    if last < 0 then 0 else last
  }

  /** The page jumped to after an add is the last page the widget shows for the same count. */
  lemma LastPageIsLastShown(totalItems: nat)
    ensures LastPageIndex(totalItems) == PageCount(totalItems) - 1
    ensures LastPageIndex(totalItems) < PageCount(totalItems)
  {
  }

  /** The page count is the least number of pages of 10 that holds every item, and at least 1. */
  lemma PageCountIsLeast(totalItems: nat, n: nat)
    requires n >= 1 && totalItems <= n * PAGE_SIZE
    ensures PageCount(totalItems) <= n
  {
  }

  /** Sorting is ascending for every selection but exactly "Name (Z-A)". */
  function SortAscending(sortBy: Option<string>): (ascending: bool)
    ensures !ascending <==> sortBy == Some(DESCENDING_CHOICE)
  {
    !(sortBy.Some? && sortBy.value == DESCENDING_CHOICE)
  }

  /** The arguments `updateView` passes to `search`. */
  datatype SearchRequest = SearchRequest(searchTerm: Option<string>, sortBy: Option<string>,
                                         ascending: bool, page: int, pageSize: nat)

  /** The index after a confirmed delete: one back if the shown list had one item and this was not the first page. */
  function IndexAfterDelete(shownItems: nat, index: nat): (k: nat)
    ensures k <= index && index - k <= 1
    ensures k < index <==> shownItems == 1 && index > 0
  {
    if shownItems == 1 && index > 0 then index - 1 else index
  }

  class MainController {
    /** `pagination.getCurrentPageIndex()`, counted from 0. */
    var pageIndex: nat
    /** `pagination.getPageCount()`. */
    var pageCount: nat
    /** The items on show. */
    var entityList: seq<Row>
    /** `searchField.getText()`. */
    var searchText: Option<string>
    /** `sortComboBox.getValue()`. */
    var sortBy: Option<string>

    ghost predicate Valid()
      reads this
    {
      pageCount >= 1
    }

    /** Before `initialize`: the first page, nothing shown, an empty search box, no sort chosen. */
    constructor ()
      ensures Valid() && pageCount == 1
      ensures pageIndex == 0 && entityList == [] && searchText == Some("") && sortBy == None
    {
      pageIndex := 0;
      pageCount := 1;
      entityList := [];
      searchText := Some("");
      sortBy := None;
    }

    /**
     * `updateView`: requests 1-based page `pageIndex + 1` of 10, ascending unless
     * "Name (Z-A)" is chosen; sets the page count from `totalItems` (the
     * result of `getCount`) and shows `found` (the result of `search`).
     */
    method UpdateView(totalItems: nat, found: seq<Row>) returns (request: SearchRequest)
      modifies this`pageCount, this`entityList
      ensures Valid()
      ensures pageCount == PageCount(totalItems) && entityList == found
      ensures request.searchTerm == searchText && request.sortBy == sortBy
      ensures request.ascending <==> sortBy != Some(DESCENDING_CHOICE)
      ensures request.page == pageIndex + 1 && request.pageSize == PAGE_SIZE
    {
      var ascending := SortAscending(sortBy);
      var currentPage := pageIndex + 1;
      pageCount := PageCount(totalItems);
      entityList := found;
      request := SearchRequest(searchText, sortBy, ascending, currentPage, PAGE_SIZE);
    }

    /** `initialize`: the sort box offers its three choices and selects the first, "Date"; then `updateView`. */
    method Initialize(totalItems: nat, found: seq<Row>) returns (request: SearchRequest)
      modifies this`sortBy, this`pageCount, this`entityList
      ensures Valid()
      ensures sortBy == Some(SORT_CHOICES[0]) && request.ascending
      ensures request.page == pageIndex + 1 && pageCount == PageCount(totalItems) && entityList == found
    {
      sortBy := Some(SORT_CHOICES[0]);
      request := UpdateView(totalItems, found);
    }

    /** `handleSearch`: back to the first page, then `updateView`, which asks for page 1. */
    method HandleSearch(totalItems: nat, found: seq<Row>) returns (request: SearchRequest)
      modifies this`pageIndex, this`pageCount, this`entityList
      ensures Valid()
      ensures pageIndex == 0 && request.page == 1
      ensures pageCount == PageCount(totalItems) && entityList == found
    {
      pageIndex := 0;
      request := UpdateView(totalItems, found);
    }

    /** `handleDeleteEntity` after a confirmed delete: step back if the list had one item, then `updateView`. */
    method HandleDeleteEntity(totalItems: nat, found: seq<Row>) returns (request: SearchRequest)
      modifies this`pageIndex, this`pageCount, this`entityList
      ensures Valid()
      ensures pageIndex == IndexAfterDelete(|old(entityList)|, old(pageIndex))
      ensures request.page == pageIndex + 1
      ensures pageCount == PageCount(totalItems) && entityList == found
    {
      if |entityList| == 1 && pageIndex > 0 {
        pageIndex := pageIndex - 1;
      }
      request := UpdateView(totalItems, found);
    }

    /** The end of `showEditDialog` for a new entity: `updateView`, then jump to the last page. */
    method ShowLastPageAfterAdd(totalItems: nat, found: seq<Row>)
      modifies this`pageIndex, this`pageCount, this`entityList
      ensures Valid()
      ensures pageIndex == LastPageIndex(totalItems)
      ensures pageIndex == pageCount - 1
      ensures entityList == found
    {
      var _ := UpdateView(totalItems, found);
      LastPageIsLastShown(totalItems);
      pageIndex := LastPageIndex(totalItems);
    }
  }
}
