/** The response envelope: optional data and an optional `Pagination`. */
module ApiResponse {
  import opened Wrappers
  import opened PaginationModel

  /** An envelope holds its pagination by reference: it is the caller's object, not a copy. */
  datatype ApiResponseDto<T> = ApiResponseDto(data: Option<T>, pagination: Option<Pagination>)

  /** `ok(data)`: the data and no pagination. */
  function Ok<T>(data: Option<T>): (r: ApiResponseDto<T>)
    ensures r.data == data && r.pagination.None?
  {
    ApiResponseDto(data, None)
  }

  /** `ok_with_pagination(data, pagination)`: the list and the very same pagination object, unchanged. */
  function OkWithPagination<T>(data: seq<T>, pagination: Pagination): (r: ApiResponseDto<seq<T>>)
    ensures r.data == Some(data) && r.pagination == Some(pagination)
  {
    ApiResponseDto(Some(data), Some(pagination))
  }

  /**
   * `ok_from_page`: when a total is given it is set on the caller's pagination in place
   * (with the page count recomputed); without one the pagination is left alone.
   * Either way the envelope holds that same object.
   */
  method OkFromPage<T>(pageResult: seq<T>, pagination: Pagination, totalElements: Option<int>)
    returns (r: ApiResponseDto<seq<T>>)
    modifies pagination
    ensures r == OkWithPagination(pageResult, pagination)
    ensures totalElements.None? ==> unchanged(pagination)
    ensures totalElements.Some? ==> pagination.Snapshot() == WithTotal(old(pagination.Snapshot()), totalElements.value)
    ensures pagination.Valid() <==> old(pagination.Valid())
  {
    if totalElements.Some? {
      pagination.SetTotalElements(totalElements.value);
    }
    r := ApiResponseDto(Some(pageResult), Some(pagination));
  }
}
