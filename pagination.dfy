/**
 * The `Pagination` record: a 1-indexed page, a page size, an optional sort column
 * and direction, and the totals that are filled in once the element count is known.
 */
module PaginationModel {
  import opened Wrappers

  const DEFAULT_PAGE: int := 1
  const DEFAULT_PAGE_SIZE: int := 10
  const DEFAULT_SORT_BY: string := "created_at"
  const DEFAULT_SORT_DIRECTION: string := "desc"

  /**
   * `(total + page_size - 1) // page_size`; Python's floor division agrees with Dafny's `/` for a
   * positive divisor. The result is the ceiling of `total / pageSize`: enough pages for every
   * element, and no spare one.
   */
  function PageCount(total: int, pageSize: int): (n: int)
    requires pageSize > 0
    ensures n * pageSize >= total && (n - 1) * pageSize < total
  {
    var n := (total + pageSize - 1) / pageSize;
    assert total + pageSize - 1 == n * pageSize + (total + pageSize - 1) % pageSize;
    assert (n - 1) * pageSize == n * pageSize - pageSize;
    n
  }

  /** A product with a positive factor has the sign of the other factor. */
  lemma ProductSign(a: int, b: int)
    requires b > 0
    ensures a * b > 0 <==> a > 0
  {
    if a > 0 {
      assert a * b >= b;
    } else {
      assert a * b <= 0;
    }
  }

  /** Those two bounds pin the page count down: no other number of pages satisfies them. */
  lemma PageCountUnique(total: int, pageSize: int, k: int)
    requires pageSize > 0
    requires k * pageSize >= total && (k - 1) * pageSize < total
    ensures k == PageCount(total, pageSize)
  {
    var n := PageCount(total, pageSize);
    assert (k - n + 1) * pageSize == k * pageSize - (n - 1) * pageSize;
    assert (n - k + 1) * pageSize == n * pageSize - (k - 1) * pageSize;
    ProductSign(k - n + 1, pageSize);
    ProductSign(n - k + 1, pageSize);
  }

  /** No elements means no pages; a positive count means at least one page. */
  lemma PageCountSign(total: int, pageSize: int)
    requires pageSize > 0 && total >= 0
    ensures PageCount(total, pageSize) >= 0
    ensures PageCount(total, pageSize) == 0 <==> total == 0
  {
    var n := PageCount(total, pageSize);
    ProductSign(n, pageSize);
  }

  /** The fields of a `Pagination` at one moment. */
  datatype PageState = PageState(
    page: int,
    pageSize: int,
    sortBy: Option<string>,
    sortDirection: Option<string>,
    totalElements: Option<int>,
    totalPages: Option<int>)
  {
    /** The validated bounds on the fields that are only set at construction. */
    predicate Valid()
    {
      page >= 1 && pageSize > 0
    }

    /** The validated bounds on the totals. */
    predicate TotalsInBounds()
    {
      (totalElements.Some? ==> totalElements.value >= 0) && (totalPages.Some? ==> totalPages.value >= 0)
    }
  }

  /**
   * The state after `set_total_elements(total)`: the total is recorded, the page, page size and
   * sort fields are kept, and a valid state gets the ceiling page count.
   */
  function WithTotal(s: PageState, total: int): (t: PageState)
    ensures t.page == s.page && t.pageSize == s.pageSize && t.sortBy == s.sortBy && t.sortDirection == s.sortDirection
    ensures t.totalElements == Some(total)
    ensures t.Valid() <==> s.Valid()
    ensures s.Valid() ==> (t.totalPages.Some?
      && t.totalPages.value * s.pageSize >= total && (t.totalPages.value - 1) * s.pageSize < total)
  {
    if s.pageSize > 0 then s.(totalElements := Some(total), totalPages := Some(PageCount(total, s.pageSize)))
    else s.(totalElements := Some(total))
  }

  /**
   * The state after `model_post_init`: only the page count may change; a valid state with a total
   * gets the ceiling page count, and a state without a total is kept as given.
   */
  function PostInit(s: PageState): (r: PageState)
    ensures r.(totalPages := s.totalPages) == s
    ensures s.totalElements.None? ==> r == s
    ensures s.Valid() && s.totalElements.Some? ==> (r.totalPages.Some?
      && r.totalPages.value * s.pageSize >= s.totalElements.value
      && (r.totalPages.value - 1) * s.pageSize < s.totalElements.value)
  {
    if s.totalElements.Some? && s.pageSize > 0 then s.(totalPages := Some(PageCount(s.totalElements.value, s.pageSize)))
    else s
  }

  /**
   * On a valid state, the totals stay within their bounds after setting a total exactly when
   * the total is not negative, and a zero total means zero pages.
   */
  lemma WithTotalSettles(s: PageState, total: int)
    requires s.Valid()
    ensures var t := WithTotal(s, total);
      (t.TotalsInBounds() <==> total >= 0)
      && (total == 0 ==> t.totalPages == Some(0))
  {
    if total >= 0 {
      PageCountSign(total, s.pageSize);
    }
  }

  /** Setting the same total twice is the same as setting it once. */
  lemma WithTotalIdempotent(s: PageState, total: int)
    ensures WithTotal(WithTotal(s, total), total) == WithTotal(s, total)
  {
  }

  /** Constructing with a total is constructing without it and then setting it; without a total the state is kept as given. */
  lemma PostInitIsSetTotal(s: PageState)
    requires s.Valid()
    ensures s.totalElements.Some? ==> PostInit(s) == WithTotal(s, s.totalElements.value)
    ensures s.totalElements.None? ==> PostInit(s) == s
  {
  }

  /** A validated state stays validated through `model_post_init`. */
  lemma PostInitInBounds(s: PageState)
    requires s.Valid() && s.TotalsInBounds()
    ensures PostInit(s).Valid() && PostInit(s).TotalsInBounds()
  {
    if s.totalElements.Some? {
      PageCountSign(s.totalElements.value, s.pageSize);
    }
  }

  /** The mutable `Pagination` model. */
  class Pagination {
    var page: int
    var pageSize: int
    var sortBy: Option<string>
    var sortDirection: Option<string>
    var totalElements: Option<int>
    var totalPages: Option<int>

    function Snapshot(): PageState
      reads this
    {
      PageState(page, pageSize, sortBy, sortDirection, totalElements, totalPages)
    }

    predicate Valid()
      reads this
    {
      Snapshot().Valid()
    }

    /** Construction with validated fields, followed by `model_post_init`. */
    constructor (page: int, pageSize: int, sortBy: Option<string>, sortDirection: Option<string>,
                 totalElements: Option<int>, totalPages: Option<int>)
      requires page >= 1 && pageSize > 0
      requires totalElements.Some? ==> totalElements.value >= 0
      requires totalPages.Some? ==> totalPages.value >= 0
      ensures Valid() && Snapshot().TotalsInBounds()
      ensures Snapshot() == PostInit(PageState(page, pageSize, sortBy, sortDirection, totalElements, totalPages))
    {
      this.page := page;
      this.pageSize := pageSize;
      this.sortBy := sortBy;
      this.sortDirection := sortDirection;
      this.totalElements := totalElements;
      this.totalPages := totalPages;
      new;
      PostInitInBounds(Snapshot());
      ModelPostInit();
    }

    /** `Pagination()` with every field at its default. */
    constructor Default()
      ensures Valid() && Snapshot().TotalsInBounds()
      ensures Snapshot() == PageState(DEFAULT_PAGE, DEFAULT_PAGE_SIZE, Some(DEFAULT_SORT_BY), Some(DEFAULT_SORT_DIRECTION), None, None)
    {
      page := DEFAULT_PAGE;
      pageSize := DEFAULT_PAGE_SIZE;
      sortBy := Some(DEFAULT_SORT_BY);
      sortDirection := Some(DEFAULT_SORT_DIRECTION);
      totalElements := None;
      totalPages := None;
      new;
      ModelPostInit();
    }

    /** `model_post_init`: derive the page count from the total when one is given. */
    method ModelPostInit()
      modifies this
      ensures Snapshot() == PostInit(old(Snapshot()))
    {
      if totalElements.Some? && pageSize > 0 {
        totalPages := Some(PageCount(totalElements.value, pageSize));
      }
    }

    /**
     * `set_total_elements`: record the total and the ceiling page count. Assignment is not
     * validated, so the totals stay in bounds only for a non-negative total.
     */
    method SetTotalElements(total: int)
      modifies this
      ensures Snapshot() == WithTotal(old(Snapshot()), total)
      ensures Valid() <==> old(Valid())
      ensures old(Valid()) ==> (Snapshot().TotalsInBounds() <==> total >= 0)
    {
      totalElements := Some(total);
      if pageSize > 0 {
        totalPages := Some(PageCount(total, pageSize));
      }
      if old(Valid()) {
        WithTotalSettles(old(Snapshot()), total);
      }
    }
  }
}
