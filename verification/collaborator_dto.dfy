/** Request and response shapes of the service (src/collaborators/dto/collaborator-dto.ts). */
module Dto {
  import opened Wrappers

  datatype ImportResponse = ImportResponse(imported: int, ignored: int)

  /** The raw query string parameters, each optional. */
  datatype ListQueryParams = ListQueryParams(
    page: Option<string>,
    limit: Option<string>,
    search: Option<string>,
    sort: Option<string>,
    order: Option<string>)

  /** `Math.ceil(count / limit)`: an integer, or `Infinity`/`NaN` when dividing by zero or by `NaN`. */
  datatype PageCount = Pages(n: int) | Infinite | NotANumber

  /** `page` and `limit` are `None` where the source holds `NaN`. */
  datatype Pagination = Pagination(page: Option<int>, limit: Option<int>, total: int, totalPages: PageCount)

  datatype PaginatedResponse<T> = PaginatedResponse(data: seq<T>, pagination: Pagination)
}
