/**
 * Helpers that turn a `Pagination` into query parameters: a 0-indexed page, the
 * page size, and the sort records. They only read the record.
 */
module PaginationUtils {
  import opened Wrappers
  import opened SortUtils
  import opened PaginationModel

  /** A value of the pageable dictionary: an integer (`page`, `size`) or the sort dictionaries (`sort`). */
  datatype PageableValue = Int(n: int) | Sorts(sorts: seq<SortDict>)

  /**
   * `create_pageable_params`: `(max(0, page - 1), page_size)`. The index is never
   * negative and is exactly `page - 1` for a validated page.
   */
  function CreatePageableParams(pagination: Pagination): (r: (int, int))
    reads pagination
    ensures r.0 >= 0
    ensures pagination.page >= 1 ==> r.0 == pagination.page - 1
    ensures pagination.page < 1 ==> r.0 == 0
    ensures r.1 == pagination.pageSize
  {
    (if pagination.page - 1 > 0 then pagination.page - 1 else 0, pagination.pageSize)
  }

  /** `create_pageable_with_sort`: the pageable parameters plus `create_sort(sort_by, sort_direction)`. */
  function CreatePageableWithSort(pagination: Pagination): (r: (int, int, seq<SortInfo>))
    reads pagination
    ensures (r.0, r.1) == CreatePageableParams(pagination)
    ensures r.2 == CreateSort(pagination.sortBy, pagination.sortDirection)
    ensures AllDirectionsValid(r.2)
  {
    var (pageIndex, pageSize) := CreatePageableParams(pagination);
    (pageIndex, pageSize, CreateSort(pagination.sortBy, pagination.sortDirection))
  }

  /** `create_pageable_dict`: the keys `page`, `size` and `sort`, with the sort records as dictionaries. */
  function CreatePageableDict(pagination: Pagination): (r: map<string, PageableValue>)
    reads pagination
    ensures r.Keys == {"page", "size", "sort"}
    ensures r["page"] == Int(CreatePageableParams(pagination).0)
    ensures r["size"] == Int(CreatePageableParams(pagination).1)
    ensures r["sort"] == Sorts(ToSortDict(CreateSort(pagination.sortBy, pagination.sortDirection)))
  {
    var (pageIndex, pageSize) := CreatePageableParams(pagination);
    var sortInfos := CreateSort(pagination.sortBy, pagination.sortDirection);
    map["page" := Int(pageIndex), "size" := Int(pageSize), "sort" := Sorts(ToSortDict(sortInfos))]
  }

  /** The dictionary and the tuple agree: same index, same size, and the same sort records. */
  lemma PageableDictMatchesTuple(pagination: Pagination)
    ensures var (i, n, sorts) := CreatePageableWithSort(pagination);
      var d := CreatePageableDict(pagination);
      d["page"] == Int(i) && d["size"] == Int(n)
      && d["sort"].Sorts? && FromSortDict(d["sort"].sorts) == sorts
  {
    SortDictRoundTrip(CreatePageableWithSort(pagination).2);
  }

  /** With the default sort fields, the sort is the single record (`created_at`, `desc`). */
  lemma DefaultSort(pagination: Pagination)
    requires pagination.sortBy == Some(DEFAULT_SORT_BY) && pagination.sortDirection == Some(DEFAULT_SORT_DIRECTION)
    ensures CreatePageableWithSort(pagination).2 == [SortInfo(DEFAULT_SORT_BY, DESC)]
    ensures CreatePageableDict(pagination)["sort"] == Sorts([map["field" := DEFAULT_SORT_BY, "direction" := DESC]])
  {
    CreateSortSimpleField(DEFAULT_SORT_BY, DESC);
    var dicts := ToSortDict([SortInfo(DEFAULT_SORT_BY, DESC)]);
    assert dicts[0] == map["field" := DEFAULT_SORT_BY, "direction" := DESC];
  }

  /** A freshly defaulted `Pagination` asks for page index 0, ten elements, sorted by `created_at` descending. */
  method DefaultPageable() returns (d: map<string, PageableValue>)
    ensures d == map["page" := Int(0), "size" := Int(DEFAULT_PAGE_SIZE), "sort" := Sorts([map["field" := DEFAULT_SORT_BY, "direction" := DESC]])]
  {
    var pagination := new Pagination.Default();
    d := CreatePageableDict(pagination);
    DefaultSort(pagination);
  }
}
