# sucrim pagination, sort parsing and exceptions, in Dafny

This project models the request-shaping helpers of the `sucrim` commons library and the
small exception hierarchy that goes with it:

- **Sort parsing** (`SortUtils`): `parse_sort` turns a query string such as
  `"name:asc,createdAt:desc"` into an ordered list of `SortInfo(field, direction)` records.
  Directions are trimmed, lower-cased and forced to `asc`/`desc` (`asc` is the fallback),
  blank comma-separated parts are skipped, and a part is split on its first colon only.
  `create_sort` either hands a "complex" string (one with a comma or a colon) to the
  parser or builds a single record with a default direction; `to_sort_dict` turns records
  into `{"field", "direction"}` dictionaries.
- **Pagination** (`PaginationModel`): the mutable `Pagination` record (1-indexed page,
  page size, optional sort column and direction, optional totals). `model_post_init` and
  `set_total_elements` derive `total_pages` as the ceiling of `total / page_size`.
- **Pagination helpers** (`PaginationUtils`): the 0-indexed page with clamping, the
  page size, and the sort records, as a tuple or as a dictionary. They only read the record.
- **Response envelope** (`ApiResponse`): `ok`, `ok_with_pagination`, and `ok_from_page`,
  which sets the total on the caller's own `Pagination` object when one is given.
- **Exceptions** (`Exceptions`): `PhoenixBaseException` and the `BusinessException`,
  `ConflictException` and `InternalServerErrorException` subclasses, their status-code and
  process defaults, `__str__` and `to_dict`.

Layout: `wrappers.dfy` (an `Option` type, which also stands for an omitted keyword
argument), `text.dfy` (the Python string operations used: `isspace`, `strip`, `lower`,
`split(sep)`, `split(sep, 1)`), then one file per source module.

Form: `parse_sort` is a method with a `for` loop, proved equal to the specification
function `ParsedSort`; the properties of parsing are lemmas about `ParsedSort`.
`Pagination` is a class whose methods are specified through `Snapshot()`, a value of the
`PageState` datatype, and the pure functions `WithTotal` and `PostInit` that give the new
state; the lemmas are about those functions. `ok_from_page` is a method that modifies
the pagination object. Everything else is functions over datatypes.

The headline results:

- `ParseSort` returns exactly `ParsedSort(input)`, and every record it returns has direction
  `asc` or `desc`.
- `ParseFormatRoundTrip`: writing records as `field:direction,...` and parsing them gives
  the records back, for plain field names and valid directions.
- `ParsePartsAppend`/`ParsedSortConcat`: parsing distributes over the comma, so the
  output order is the input order.
- `ParsePartsLength`: the output has exactly one record per non-blank part.
- `CreateSortMatchesParse`: `create_sort` agrees with `parse_sort` whenever the default
  direction amounts to `asc`.
- `PageCount`/`PageCountUnique`: `total_pages` is the unique `n` with
  `(n - 1) * page_size < total <= n * page_size`.
- `PostInitIsSetTotal`: constructing with a total equals constructing without one and
  then calling `set_total_elements`.

## Model

| member | source | states |
|---|---|---|
| `SortUtils.ParseSort` | sucrim/utils/sort_utils.py:38-63 | the loop returns exactly the specified parse of the input, and every returned direction is `asc` or `desc` |
| `SortUtils.ParseParts` | sucrim/utils/sort_utils.py:42-61 | the records of a list of parts all have valid directions, and there are no more records than parts |
| `SortUtils.NormalizeDirection` | sucrim/utils/sort_utils.py:54-57 | the result is always `asc` or `desc`; it is the trimmed, lower-cased text when that is `asc`/`desc`, and `asc` otherwise |
| `SortUtils.ParsedSort` | sucrim/utils/sort_utils.py:38-63 | every direction is `asc` or `desc`; None, the empty string and whitespace-only strings parse to the empty list |
| `SortUtils.Entries` | sucrim/utils/sort_utils.py:45-61 | one comma-separated part contributes at most one record, and its direction is `asc` or `desc` |
| `SortUtils.ParsePartsAppend` | sucrim/utils/sort_utils.py:44-61 | parsing parts `a + b` gives the records of `a` followed by those of `b`, so output order follows input order |
| `SortUtils.EntriesCount` | sucrim/utils/sort_utils.py:45-61 | a blank part contributes no record and every other part exactly one, colon or not |
| `SortUtils.ParsePartsLength` | sucrim/utils/sort_utils.py:44-61 | the number of records equals the number of non-blank comma-separated parts |
| `SortUtils.ParsedSortConcat` | sucrim/utils/sort_utils.py:42-47 | any two non-blank sort strings (commas allowed in either) joined by a comma parse to the records of the first followed by those of the second |
| `SortUtils.EntriesWithColon` | sucrim/utils/sort_utils.py:49-58 | a part with a colon yields the trimmed text before its first colon as field and the normalised remainder as direction |
| `SortUtils.ParsedSortOnePart` | sucrim/utils/sort_utils.py:42-47 | a non-blank input without commas is a single part |
| `SortUtils.ParsedSortSingleField` | sucrim/utils/sort_utils.py:59-61 | a non-blank input without commas or colons yields one record: the trimmed input, ascending |
| `SortUtils.DirectionWithColon` | sucrim/utils/sort_utils.py:54-57 | direction text that still holds a colon normalises to `asc` |
| `SortUtils.FirstColonOnly` | sucrim/utils/sort_utils.py:49-58 | a part is split at its first colon only; if the remainder holds another colon the record sorts ascending |
| `SortUtils.NormalizeDirectionKeeps` | sucrim/utils/sort_utils.py:54-57 | `asc` and `desc` are read as themselves |
| `SortUtils.ParsedSortFieldDirection` | sucrim/utils/sort_utils.py:49-58 | a single trimmed `field:direction` string parses to that field with the normalised direction |
| `SortUtils.FormatEntryParses` | sucrim/utils/sort_utils.py:49-58 | one `field:direction` entry parses back to its record |
| `SortUtils.ParseFormatRoundTrip` | sucrim/utils/sort_utils.py:15-63 | formatting records with plain fields and valid directions as `field:direction,...` and parsing gives the records back |
| `SortUtils.ExampleTwoFields` | sucrim/utils/sort_utils.py:25-26 | `"name:asc,createdAt:desc"` gives (`name`, `asc`) then (`createdAt`, `desc`) |
| `SortUtils.ExampleFirstColonOnly` | sucrim/utils/sort_utils.py:49-58 | `"a:b:c"` gives field `a`; the direction text `b:c` falls back to `asc` |
| `SortUtils.ExampleDirectionNormalised` | sucrim/utils/sort_utils.py:54 | the direction text `" DESC"` is trimmed and lower-cased to `desc` |
| `SortUtils.ExampleUpperCaseDirection` | sucrim/utils/sort_utils.py:49-58 | `"name: DESC"` gives (`name`, `desc`) |
| `SortUtils.DefaultDirection` | sucrim/utils/sort_utils.py:100-105 | the default direction is always `asc`/`desc`: `asc` when absent, the lower-cased default when that is `asc`/`desc`, and `asc` for any other given default |
| `SortUtils.CreateSort` | sucrim/utils/sort_utils.py:92-106 | every direction is valid; input with a comma or a colon gives exactly what `parse_sort` gives, whatever the default direction; a non-blank input without commas or colons gives one record with the trimmed field and the default direction |
| `SortUtils.CreateSortMatchesParse` | sucrim/utils/sort_utils.py:95-106 | whenever the default direction amounts to `asc`, `create_sort` returns exactly what `parse_sort` returns |
| `SortUtils.CreateSortBlank` | sucrim/utils/sort_utils.py:92-93 | missing or blank `sort_by` gives the empty list whatever the default direction |
| `SortUtils.CreateSortSimpleField` | sucrim/utils/sort_utils.py:99-106 | a plain field with a lower-case `asc`/`desc` default gives one record with that field and direction |
| `SortUtils.ExampleSimpleWithDefault` | sucrim/utils/sort_utils.py:80-81 | `create_sort("name", "desc")` gives (`name`, `desc`) |
| `SortUtils.ToSortDict` | sucrim/utils/sort_utils.py:121-124 | one dictionary per record, in the same order, with exactly the keys `field` and `direction` holding the record's values |
| `SortUtils.SortDictRoundTrip` | sucrim/utils/sort_utils.py:121-124 | the records can be read back from the dictionaries unchanged |
| `Text.Split` | sucrim/utils/sort_utils.py:42 | `split(",")` gives at least one part, no part holds a comma, and joining the parts with commas gives the input back |
| `Text.SplitOnce` | sucrim/utils/sort_utils.py:51 | `split(":", 1)` gives two parts exactly when a colon occurs, the first without a colon, and they rejoin to the input |
| `Text.SplitOnceAtFirst` | sucrim/utils/sort_utils.py:51 | `split(":", 1)` cuts at the first colon whatever follows it |
| `Text.Strip` | sucrim/utils/sort_utils.py:45 | `strip()` never lengthens its input and leaves a string that is empty or starts and ends with a non-space |
| `Text.StripBlank` | sucrim/utils/sort_utils.py:38 | `strip()` gives the empty string exactly for whitespace-only input |
| `Text.Lower` | sucrim/utils/sort_utils.py:54 | `lower()` keeps the length, turns each upper-case ASCII letter into its lower-case letter (code point plus 32, so `D` becomes `d`), and keeps every other character |
| `Text.SplitConcat` | sucrim/utils/sort_utils.py:42 | splitting two texts joined by the separator gives the parts of the first followed by the parts of the second |
| `Text.TrimStartShape` | sucrim/utils/sort_utils.py:45 | leading stripping removes a whitespace prefix and nothing else |
| `Text.TrimEndShape` | sucrim/utils/sort_utils.py:45 | trailing stripping removes a whitespace suffix and nothing else |
| `PaginationModel.PageCount` | sucrim/models/pagination.py:46 | the page count `n` is the ceiling of `total / page_size`: `(n - 1) * page_size < total <= n * page_size` |
| `PaginationModel.PageCountUnique` | sucrim/models/pagination.py:46 | no other page count satisfies those bounds |
| `PaginationModel.PageCountSign` | sucrim/models/pagination.py:46 | a non-negative total gives a non-negative page count, which is 0 exactly when the total is 0 |
| `PaginationModel.WithTotal` | sucrim/models/pagination.py:37-46 | setting a total records it, keeps page, page size and sort fields and their validity, and on a valid state sets the ceiling page count |
| `PaginationModel.WithTotalSettles` | sucrim/models/pagination.py:37-46 | after setting a total on a valid state the totals are in bounds exactly when the total is not negative, and a zero total gives zero pages |
| `PaginationModel.WithTotalIdempotent` | sucrim/models/pagination.py:44-46 | setting the same total twice gives the same state as setting it once |
| `PaginationModel.PostInit` | sucrim/models/pagination.py:32-35 | only the page count may change; without a total the state is kept, and a valid state with a total gets the ceiling page count |
| `PaginationModel.PostInitIsSetTotal` | sucrim/models/pagination.py:32-35 | construction with a total recomputes the page count as `set_total_elements` would; without a total the given page count is kept |
| `PaginationModel.PostInitInBounds` | sucrim/models/pagination.py:25-35 | validated fields stay within their bounds through `model_post_init` |
| `PaginationModel.Pagination.constructor` | sucrim/models/pagination.py:15-35 | validated fields (page at least 1, page size positive, totals non-negative) are stored, then `model_post_init` runs |
| `PaginationModel.Pagination.Default` | sucrim/models/pagination.py:15-30 | the defaults: page 1, size 10, sort by `created_at`, direction `desc`, no totals |
| `PaginationModel.Pagination.ModelPostInit` | sucrim/models/pagination.py:32-35 | the new state is the old one with the page count derived from the total when there is one |
| `PaginationModel.Pagination.SetTotalElements` | sucrim/models/pagination.py:37-46 | the new state is the old one with the total and its ceiling page count; validity is kept, and the totals are in bounds exactly when the total is not negative |
| `PaginationUtils.CreatePageableParams` | sucrim/utils/pagination_utils.py:13-27 | the page index is never negative, equals `page - 1` for `page >= 1` and 0 otherwise; the size is passed through |
| `PaginationUtils.CreatePageableWithSort` | sucrim/utils/pagination_utils.py:30-46 | same index and size as the pageable parameters, sort equal to `create_sort(sort_by, sort_direction)`, every direction valid |
| `PaginationUtils.CreatePageableDict` | sucrim/utils/pagination_utils.py:49-70 | exactly the keys `page`, `size` and `sort`, with the index, the size and the dictionaries of `create_sort(sort_by, sort_direction)` |
| `PaginationUtils.PageableDictMatchesTuple` | sucrim/utils/pagination_utils.py:42-70 | the dictionary and the tuple carry the same index, size and sort records |
| `PaginationUtils.DefaultSort` | sucrim/utils/pagination_utils.py:62-64 | with the default sort fields the sort is the single record (`created_at`, `desc`) |
| `PaginationUtils.DefaultPageable` | sucrim/utils/pagination_utils.py:61-70 | a default `Pagination` gives page 0, size 10 and the sort (`created_at`, `desc`) |
| `ApiResponse.Ok` | sucrim/http/response/api_response_dto.py:19-29 | the envelope holds the data and no pagination |
| `ApiResponse.OkWithPagination` | sucrim/http/response/api_response_dto.py:32-47 | the envelope holds the list and the very same pagination object |
| `ApiResponse.OkFromPage` | sucrim/http/response/api_response_dto.py:50-72 | with a total the caller's pagination gets it and the recomputed page count in place; without one it is unchanged; the envelope holds that same object |
| `Exceptions.Init` | src/exceptions/base_exception.py:20-40 | message, process and status code are stored as given; missing details become the empty list, present ones are kept |
| `Exceptions.NewPhoenixException` | src/exceptions/base_exception.py:20-40 | the status code defaults to 500 and is otherwise kept; details default to the empty list |
| `Exceptions.NewBusinessException` | src/exceptions/business_exception.py:22-38 | the status code defaults to 400 and a given one is kept; message, process and details are forwarded unchanged |
| `Exceptions.NewConflictException` | src/exceptions/conflict_exception.py:21-35 | the status code is always 409; the process defaults to `Resource Conflict`; details default to the empty list |
| `Exceptions.NewInternalServerErrorException` | src/exceptions/internal_server_error_exception.py:20-34 | the status code is always 500; the process defaults to `Internal Server Error`; details default to the empty list |
| `Exceptions.ToString` | src/exceptions/base_exception.py:42-44 | the display is the process, then `": "`, then the message |
| `Exceptions.ToStringRoundTrip` | src/exceptions/base_exception.py:42-44 | for a process without a colon, splitting the display at its first colon gives the process, and the message after one space |
| `Exceptions.ToDict` | src/exceptions/base_exception.py:46-57 | exactly the keys `message`, `process` and `errors` with the stored values; never `status_code` |
| `Exceptions.ToDictIgnoresStatus` | src/exceptions/base_exception.py:53-57 | exceptions that differ only in status code or class have the same dictionary form |
| `Exceptions.BusinessDisplay` | src/exceptions/business_exception.py:38 | a business exception displays as `process: message` |
| `Exceptions.ConflictDefaultDisplay` | src/exceptions/conflict_exception.py:24-35 | with the default process a conflict displays as `Resource Conflict: message` |
| `Exceptions.InternalServerErrorDefaultDisplay` | src/exceptions/internal_server_error_exception.py:23-34 | with the default process an internal server error displays as `Internal Server Error: message` |
| `Exceptions.SubclassesForwardToBase` | src/exceptions/business_exception.py:38 | each subclass is the base exception with its own status code and default process filled in |

## Left out

- `lower()` is modelled for the ASCII letters only; Unicode case mapping is not modelled. The whitespace set of `strip()` is Python's `str.isspace()` set, written out.
- Pydantic validation is not modelled as a framework: the field bounds (`page >= 1`, `page_size > 0`, non-negative totals) are preconditions of the `Pagination` constructor, so the `ValidationError` raised for out-of-range arguments is not modelled.
- `set_total_elements` is modelled without a precondition on `total`, because field assignment is not re-validated (`Config` sets only `frozen = False`). A negative total is stored as given and the model states that the totals are then out of bounds.
- The `ok_with_pagination` docstring says `total_elements will be set if not already`; the code only wraps its arguments, and the model follows the code.
- Pydantic's generic parametrisation and copying of `ApiResponseDto` are left out. The envelope holds the caller's `Pagination` by reference, as an unparametrised model with default settings does.
- `errors` is a list of any type, modelled as a type parameter. Falsy values that are not lists are outside the declared type and are not modelled.
- The `Exception` base class's `args` handling (`super().__init__(message)`) is left out. Class identity is a kind tag on one datatype.
- The other exception subclasses re-exported by `src/exceptions/__init__.py` are not part of this model, because their source files are not available.
- The Keycloak token provider, its cache and refresh, and the bearer-claim decoder (`keycloak_config`) are not part of this model. Only their re-export in `src/auth/__init__.py` is available.
- `sucrim/dto/base_audit_dto.py` holds optional fields and a date encoder with no logic, so it is left out. `sucrim/models/sort_info.py` is the `SortInfo` datatype.
- The pagination helpers read the `Pagination` object as functions, so they cannot modify it. No separate statement of this is needed.
