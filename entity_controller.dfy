/**
 * `EntityController`: a table view that shows one page of 10 rows at a time,
 * filtered by the text of a filter box. It keeps a 1-based `currentPage`
 * counter that the previous/next buttons move and a filter change resets.
 */
module ListControl {
  import opened Wrappers
  import opened EntityDao

  const PAGE_SIZE: nat := 10
  const PAGE_LABEL_PREFIX: string := "Page "

  function DigitChar(d: nat): (c: char)
    requires d < 10
    ensures '0' <= c <= '9' && (c as int) - ('0' as int) == d
  {
    (d + '0' as int) as char
  }

  /** Java's decimal rendering of a non-negative int, as used by string concatenation. */
  function DecimalString(n: nat): (s: string)
    ensures |s| >= 1
    ensures forall k :: 0 <= k < |s| ==> '0' <= s[k] <= '9'
    ensures s[0] == '0' ==> n == 0
  {
    if n < 10 then [DigitChar(n)] else DecimalString(n / 10) + [DigitChar(n % 10)]
  }

  /** The number a string of decimal digits denotes. */
  function DecimalValue(s: string): nat
    requires forall k :: 0 <= k < |s| ==> '0' <= s[k] <= '9'
  {
    if s == [] then 0 else DecimalValue(s[..|s| - 1]) * 10 + ((s[|s| - 1] as int) - ('0' as int))
  }

  /** The label names the page it shows: reading its digits back gives the page number. */
  lemma {:induction false} DecimalRoundTrip(n: nat)
    ensures DecimalValue(DecimalString(n)) == n
  {
    if n >= 10 {
      DecimalRoundTrip(n / 10);
      var s := DecimalString(n);
      assert s[..|s| - 1] == DecimalString(n / 10);
    }
  }

  /** `"Page " + currentPage`. */
  function PageLabel(page: nat): (text: string)
    ensures |text| > |PAGE_LABEL_PREFIX| && text[..|PAGE_LABEL_PREFIX|] == PAGE_LABEL_PREFIX
  {
    PAGE_LABEL_PREFIX + DecimalString(page)
  }

  /** Distinct pages get distinct labels. */
  lemma PageLabelInjective(p: nat, q: nat)
    requires PageLabel(p) == PageLabel(q)
    ensures p == q
  {
    var n := |PAGE_LABEL_PREFIX|;
    assert PageLabel(p)[n..] == DecimalString(p);
    assert PageLabel(q)[n..] == DecimalString(q);
    DecimalRoundTrip(p);
    DecimalRoundTrip(q);
  }

  class EntityController {
    const dao: EntityDAOImpl
    /** The 1-based page on show. */
    var currentPage: int
    /** `filterField.getText()`. */
    var filterText: Option<string>
    /** The rows on show. */
    var entityList: seq<Row>
    /** `pageLabel.getText()`. */
    var pageLabel: string

    ghost predicate Valid()
      reads this
    {
      currentPage >= 1
    }

    /** A new controller starts on page 1 with an empty filter box. */
    constructor (dao: EntityDAOImpl)
      ensures Valid() && currentPage == 1
      ensures this.dao == dao && filterText == Some("") && entityList == [] && pageLabel == ""
    {
      this.dao := dao;
      currentPage := 1;
      filterText := Some("");
      entityList := [];
      pageLabel := "";
    }

    /** `loadEntities`: shows `getAll(currentPage, 10, filter)` and labels it "Page " + currentPage. */
    method LoadEntities()
      requires Valid()
      modifies this`entityList, this`pageLabel
      ensures entityList == GetAllResult(dao.table.rows, currentPage, PAGE_SIZE, filterText)
      ensures |entityList| <= PAGE_SIZE
      ensures pageLabel == PageLabel(currentPage)
    {
      var entities := dao.GetAll(currentPage, PAGE_SIZE, filterText);
      entityList := entities;
      pageLabel := PAGE_LABEL_PREFIX + DecimalString(currentPage);
    }

    /** `initialize`: load the first page. */
    method Initialize()
      requires Valid()
      modifies this`entityList, this`pageLabel
      ensures entityList == GetAllResult(dao.table.rows, currentPage, PAGE_SIZE, filterText)
      ensures pageLabel == PageLabel(currentPage)
    {
      LoadEntities();
    }

    /** The filter box's listener: with the new text in place, back to page 1 and reload. */
    method FilterEntities(newText: Option<string>)
      requires Valid()
      modifies this`filterText, this`currentPage, this`entityList, this`pageLabel
      ensures Valid() && currentPage == 1 && filterText == newText
      ensures entityList == GetAllResult(dao.table.rows, 1, PAGE_SIZE, newText)
      ensures pageLabel == PageLabel(1)
    {
      filterText := newText;
      currentPage := 1;
      LoadEntities();
    }

    /** `handlePreviousPage`: one page back and reload, or nothing at all on page 1. */
    method HandlePreviousPage()
      requires Valid()
      modifies this`currentPage, this`entityList, this`pageLabel
      ensures Valid()
      ensures currentPage == if old(currentPage) > 1 then old(currentPage) - 1 else old(currentPage)
      ensures old(currentPage) > 1 ==>
        entityList == GetAllResult(dao.table.rows, currentPage, PAGE_SIZE, filterText)
        && pageLabel == PageLabel(currentPage)
      ensures old(currentPage) == 1 ==> entityList == old(entityList) && pageLabel == old(pageLabel)
    {
      if currentPage > 1 {
        currentPage := currentPage - 1;
        LoadEntities();
      }
    }

    /** `handleNextPage`: one page on, without an upper bound, and reload. */
    method HandleNextPage()
      requires Valid()
      modifies this`currentPage, this`entityList, this`pageLabel
      ensures Valid() && currentPage == old(currentPage) + 1
      ensures entityList == GetAllResult(dao.table.rows, currentPage, PAGE_SIZE, filterText)
      ensures pageLabel == PageLabel(currentPage)
    {
      currentPage := currentPage + 1;
      LoadEntities();
    }
  }
}
