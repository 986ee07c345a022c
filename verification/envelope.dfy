/** The JSON response envelope every route handler returns (shared/helpers/api-response.ts).
    The `timestamp` field is the clock and is not modelled. */
module Envelope {
  import opened Wrappers

  /** `{ data, success, message }`. */
  datatype ApiResponse<T> = ApiResponse(data: T, success: bool, message: string)

  /** The `pagination` block of a list response. */
  datatype Pagination = Pagination(currentPage: int, pageSize: int, total: int, totalPages: int)

  /** `{ success, message, data: T[], pagination }`. */
  datatype PaginatedResponse<T> =
    PaginatedResponse(success: bool, message: string, data: seq<T>, pagination: Pagination)

  const DefaultPaginatedMessage := "Paginated data fetched successfully"
  const DefaultSuccessMessage := "Operation successful"
  const DefaultErrorMessage := "Operation failed"

  /** generatePaginatedResponse: a successful page that carries its rows and its
      pagination block through untouched. */
  function PaginatedSuccess<T>(data: seq<T>, pagination: Pagination,
                               message: string := DefaultPaginatedMessage): (r: PaginatedResponse<T>)
    ensures r.success
    ensures r.data == data && r.pagination == pagination && r.message == message
  {
    PaginatedResponse(true, message, data, pagination)
  }

  /** generateSuccessResponse: a successful envelope around exactly the given data. */
  function SuccessResponse<T>(data: T, message: string := DefaultSuccessMessage): (r: ApiResponse<T>)
    ensures r.success && r.data == data && r.message == message
  {
    ApiResponse(data, true, message)
  }

  /** generateErrorResponse: a failed envelope whose data is `null`. */
  function ErrorResponse<T>(message: string := DefaultErrorMessage): (r: ApiResponse<Option<T>>)
    ensures !r.success && r.data == None && r.message == message
  {
    ApiResponse(None, false, message)
  }

  /** A success envelope and an error envelope are never confused: the `success`
      flag alone tells them apart, and an error never carries data. */
  lemma EnvelopesDistinct<T>(d: Option<T>, m1: string, m2: string)
    ensures SuccessResponse(d, m1) != ErrorResponse<T>(m2)
    ensures SuccessResponse(d, m1).success && !ErrorResponse<T>(m2).success
  {
  }

  /** Calling the helpers without a message gives their documented defaults. */
  lemma DefaultMessages<T>(d: T, rows: seq<T>, p: Pagination)
    ensures SuccessResponse(d).message == "Operation successful"
    ensures ErrorResponse<T>().message == "Operation failed"
    ensures PaginatedSuccess(rows, p).message == "Paginated data fetched successfully"
  {
  }
}
