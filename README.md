# Reservoir data API core, modelled in Dafny

This project models the three pieces of logic in the reservoir-data API that are more than
framework glue:

- **The catalog resource filter** (`fetch_and_filter_parquet_files`). It makes one GET to
  the ONS open-data catalog. It takes `result.resources` out of the JSON answer and keeps the
  entries whose `format` upper-cases to `PARQUET` and that have a URL. When years are given,
  it also applies a year test to the leftmost four-digit run in each entry's `name`.
- **The paginated query helper** (`GCPBigQueryRepository`). It has a lazily created, cached
  warehouse client. It runs a count query, then the base query followed by
  `LIMIT {page_size} OFFSET {(page-1)*page_size}`, and returns the rows with the count's
  `total`.
- **The reservoir query service** (`ReservoirService`). It has a lazily created repository.
  It builds a data query and a count query over the same inclusive `ena_data` range, and
  wraps the repository's answer in a response that echoes the page arguments.

Files:

- `Wrappers.dfy`: `Option` and `Result`.
- `Sequences.dfy`: order-preserving filtering (the shape of a list comprehension with a guard)
  and the subsequence relation.
- `Decimal.dfy`: ASCII numerals. It reads four digits as a year, writes an `int` into SQL
  text, and reads the written integer back.
- `OnsService.dfy`, `BigQueryRepository.dfy`, `BigQueryService.dfy`: one module per source file.

Outside services are inputs:

- The HTTP GET, together with `raise_for_status()` and `.json()`, is a function from URL to
  outcome.
- The environment is an `Option` for `ONS_API_URL` and a `map` for the warehouse variables.
- The warehouse client is an object whose `run` function maps SQL text to rows or to a
  raised error.
- Client creation through the credential chain is an `Option` of such a function. `None`
  means every strategy failed.

The methods return the URLs or SQL texts they sent, so their contracts can state what was
requested and in which order.

How the code was followed where the documentation says otherwise:

- **The year test is modelled as written.** An entry with year `y` is skipped when
  `start <= y and end <= y`, so it is kept exactly when `y < start` or `y < end`. This is not
  the inclusive range that the request fields' descriptions suggest.
- **Names of the filter fields.** The service reads `filters.start_date.year` and
  `filters.end_date.year`, while the request model declares `start_year` and `end_year`.
  Here the filter is two optional years. A present bound stands for a date object, which is
  always truthy, and only its year is read.
- **Exactly one year given.** The source reads `.year` of `None` on line 47. That raises only
  when line 47 runs, that is, at the first entry whose name has a year. It does not raise when
  `start` is present and `y < start`, because Python's `and` stops after a false left side.
  The model raises at exactly those points (`NoneHasNoYear`). When no entry has a year, the
  call succeeds with an empty list.
- **Returned records.** The resource record class the service returns is not defined in the
  source files that exist. Entries are returned as the `{format, url, name}` records they
  were read as.

## Model

| member | source | states |
|---|---|---|
| `OnsService.FetchAndFilterParquetFiles` | src/api/services/ons_service.py:8-53 | With `ONS_API_URL` unset or empty, fails with a configuration error and requests nothing. Otherwise it requests exactly that URL once, and its result is `FilterCatalogAnswer` of the answer: request and status errors are passed on, and otherwise the PARQUET entries are returned, year-filtered when a year is given. |
| `OnsService.Resources` | src/api/services/ons_service.py:23-24 | A missing `result` key or a missing `resources` key gives an empty list, not an error. Otherwise the list is taken as it is. |
| `OnsService.ParquetFormatIgnoresCase` | src/api/services/ons_service.py:29 | The format test accepts exactly the seven letters of PARQUET, each in either case (ASCII). |
| `OnsService.Upper` | src/api/services/ons_service.py:29 | `.upper()` keeps the length, leaves every character that is not a lower-case ASCII letter unchanged, and turns each lower-case letter into its capital, so no lower-case letter remains. |
| `OnsService.UpperIdempotent` | src/api/services/ons_service.py:29 | Upper-casing twice gives the same text as upper-casing once. |
| `OnsService.ParquetEntryIff` | src/api/services/ons_service.py:29 | The comprehension's guard holds exactly when the entry has a format of the seven letters of PARQUET, each in either case, and a present, non-empty URL. A missing format reads as "" and fails. |
| `OnsService.ParquetOnly` | src/api/services/ons_service.py:27-30 | The PARQUET list is a subsequence of the resources, every member passes the guard, and each passing entry keeps its multiplicity. |
| `Sequences.Filter` | src/api/services/ons_service.py:27-30 | The comprehension keeps exactly the elements that pass the guard: every kept element is from the input and passes, and every input element that passes is kept. Each value occurs in the result exactly as often as in the input when it passes, and not at all otherwise. |
| `Sequences.FilterIsSubsequence` | src/api/services/ons_service.py:27-30 | A guarded comprehension keeps input order and neither repeats nor invents elements. |
| `OnsService.AnswerIsParquetSubsequence` | src/api/services/ons_service.py:27-53 | For every filter, a successful result is a subsequence of the catalog's resources. No entry appears more often than in the catalog, and each entry has a PARQUET format and a non-empty URL. |
| `OnsService.NoYearsKeepsEveryParquetEntry` | src/api/services/ons_service.py:36-37 | With neither year given, the result is every PARQUET entry with a URL, whether or not its name holds a year. They keep catalog order and their catalog multiplicity. |
| `OnsService.DatedAnswerWithinUndated` | src/api/services/ons_service.py:36-50 | A result with years given is a subsequence of the result without them. |
| `OnsService.FindFourDigits` | src/api/services/ons_service.py:42 | The regex search finds the leftmost position where four ASCII digits start. When it finds none, no such position exists. |
| `OnsService.YearIn` | src/api/services/ons_service.py:41-46 | A name has a year exactly when it contains four consecutive digits. The year is the value of the leftmost such run, so it lies in 0..9999. |
| `Decimal.NatToStringRoundTrip` | src/api/services/ons_service.py:44 | Reading a written natural number with `int()` gives the number back. |
| `Decimal.DecimalValueBound` | src/api/services/ons_service.py:44 | `int()` of a run of n digits is below 10^n. |
| `OnsService.DropDecision` | src/api/services/ons_service.py:47-48 | The test raises exactly when `start` is missing, or when `start <= y` and `end` is missing. With both years, an entry is kept exactly when `y < start` or `y < end`. A year below `start` is kept without `end` being read. |
| `OnsService.FilterByYear` | src/api/services/ons_service.py:39-50 | The loop with its `continue` skips returns exactly `DateFiltered`, the recursive definition of the year filter. |
| `OnsService.DateFilteredIsSubsequence` | src/api/services/ons_service.py:39-50 | The year loop's output is a subsequence of its input, the PARQUET list. |
| `OnsService.DateFilteredMembers` | src/api/services/ons_service.py:39-50 | On success, the output holds exactly the input entries whose name has a year and whose year test does not drop them. Entries without a year are dropped. Each kept entry occurs exactly as often as in the input. |
| `OnsService.DateFilteredFailsIff` | src/api/services/ons_service.py:39-48 | The year loop fails exactly when the test raises for some entry, and the error is then the missing-bound error. |
| `OnsService.BothYearsKeepBelowEither` | src/api/services/ons_service.py:47-50 | With both years, the loop never fails. It keeps exactly the entries with a year y where y < start or y < end, each as often as in the input. |
| `OnsService.StartYearOnly` | src/api/services/ons_service.py:47-50 | With only a start year, the call fails exactly when some entry's year is at least start. Otherwise it keeps exactly the entries dated before start, each as often as in the input. |
| `OnsService.EndYearOnly` | src/api/services/ons_service.py:47 | With only an end year, the call fails exactly when some entry has a year. Otherwise the result is empty. |
| `Decimal.IntToString` | src/api/repositories/bigquery_repository.py:97 | An `int` is written as an optional minus sign (present exactly for negatives) followed by digits. |
| `Decimal.SplitTrailingIntRoundTrip` | src/api/repositories/bigquery_repository.py:97 | An integer written after a separator is read back exactly, together with the text before it. |
| `BigQueryRepository.EnvGet` | src/api/repositories/bigquery_repository.py:25-26 | An environment lookup gives the variable's value when it is set, and the default otherwise. |
| `BigQueryRepository.GCPBigQueryRepository.constructor` | src/api/repositories/bigquery_repository.py:24-31 | The project defaults to "" and the location to "southamerica-east1". No client exists yet. |
| `BigQueryRepository.GCPBigQueryRepository.GetClient` | src/api/repositories/bigquery_repository.py:33-37 | The first access creates a fresh client and caches it. Later accesses return the same object and create nothing. When creation fails, nothing is cached and the authentication error is raised. |
| `BigQueryRepository.GCPBigQueryRepository.SetClient` | src/api/repositories/bigquery_repository.py:39-41 | An injected client replaces the cache, and every later query goes to it. |
| `BigQueryRepository.Offset` | src/api/repositories/bigquery_repository.py:96 | Page 1 starts at offset 0. With page ≥ 1 and page_size ≥ 0, the offset is not negative. |
| `BigQueryRepository.OffsetCountsWholePages` | src/api/repositories/bigquery_repository.py:96 | For page ≥ 1 and page_size ≥ 1, the offset is a non-negative multiple of page_size that skips exactly page − 1 pages. |
| `BigQueryRepository.PagesTile` | src/api/repositories/bigquery_repository.py:96 | Each page starts where the previous one ends, and two different pages never share a row. |
| `BigQueryRepository.LimitOffsetQueryRoundTrip` | src/api/repositories/bigquery_repository.py:97 | The text `{query} LIMIT {page_size} OFFSET {offset}` reads back as that query, page size and offset, for every integer page size and offset. |
| `BigQueryRepository.PaginatedQuery` | src/api/repositories/bigquery_repository.py:97 | The data query starts with the base query and is longer than it. |
| `BigQueryRepository.PaginatedQueryRoundTrip` | src/api/repositories/bigquery_repository.py:97 | The data query is exactly the base query followed by " LIMIT {page_size} OFFSET {offset}". Reading it back gives the base query, page size and offset. |
| `BigQueryRepository.FirstPageOfTwo` | src/api/tests/test_bigquery_repository.py:14-40 | Page 1 of size 2 of "SELECT * FROM tabela" is sent as "SELECT * FROM tabela LIMIT 2 OFFSET 0". |
| `BigQueryRepository.TotalRecords` | src/api/repositories/bigquery_repository.py:93-94 | An empty count result gives total 0. Otherwise the total is the first row's "total" cell, and a KeyError when the row has no such column. |
| `BigQueryRepository.PaginatedRunMeetsSpec` | src/api/repositories/bigquery_repository.py:84-114 | The count query is sent first. The data query is sent only after a usable count. A client error is re-raised unchanged and no partial page is returned. On success the data is the data query's rows, in row order, and the total comes from the count rows. Without a client, nothing is sent. |
| `BigQueryRepository.GCPBigQueryRepository.ExecutePaginatedQuery` | src/api/repositories/bigquery_repository.py:84-114 | The method sends the queries and returns what `PaginatedRun` describes for the client in use. It reuses a cached client, or creates one on the first query. |
| `BigQueryService.ReservoirService.constructor` | src/api/services/bigquery_service.py:10-12 | The service keeps the injected repository, which may be absent, and uses the table "gold.dados_reservatorios_completo". |
| `BigQueryService.ReservoirService.GetRepository` | src/api/services/bigquery_service.py:14-19 | An injected repository is returned unchanged. Without one, the first access creates a fresh repository from the environment, and later accesses return that same instance. |
| `BigQueryService.BaseQuery` | src/api/services/bigquery_service.py:32-38 | The data query reads `{project_id}.{table_id}`, keeps a date exactly when it lies from start to end inclusive, and is ordered by `ena_data` ascending. |
| `BigQueryService.CountQuery` | src/api/services/bigquery_service.py:40-45 | The count query reads the same table, keeps exactly the same dates, and is not ordered. |
| `BigQueryService.IsoDateReadsBack` | src/api/services/bigquery_service.py:35-36 | A date interpolated into the SQL text is ten characters, YYYY-MM-DD: the dashes sit at positions 4 and 7, and the three digit groups read back as the year, month and day. |
| `BigQueryService.BaseAndCountCoverSameRows` | src/api/services/bigquery_service.py:32-45 | Both queries read `{project_id}.gold.dados_reservatorios_completo` and keep exactly the dates from start to end, inclusive. Only the data query is ordered by `ena_data` ascending. |
| `BigQueryService.Respond` | src/api/services/bigquery_service.py:58-63 | The response carries the repository's data and total unchanged and echoes page = page_offset and page_size. |
| `BigQueryService.Serve` | src/api/services/bigquery_service.py:50-67 | The repository receives page_offset as its page number. The count query goes first and the data query is the base query paged. The response's rows and total are what the warehouse answered, and repository errors reach the caller unchanged. |
| `BigQueryService.ReservoirService.GetReservoirData` | src/api/services/bigquery_service.py:21-67 | The method builds both queries for the repository's project and hands them to the repository. Its result and the SQL sent are `Serve` of the warehouse in use. The repository is created at most once and never replaced. |

## Left out

- Network I/O. The GET to the catalog, `raise_for_status()` and `.json()` form one
  function-valued input. A JSON answer whose `result` or entry fields have unexpected types
  (null, a list or a number where an object or a string is read) is not modelled, and
  neither is a body that is not a JSON object.
- `raise_for_status()`: which statuses count as failures is httpx's decision, so the
  model only takes a failure status from the input.
- Unicode. `str.upper()` and the regex `\d` are modelled on ASCII letters and digits only.
  Python also upper-cases other letters and matches non-ASCII digits.
- The credential chain of `_create_bigquery_client` (src/api/repositories/bigquery_repository.py:46-82)
  is foreign library code. Its outcome is the `connect` input, fixed when the repository is
  constructed, while the source reads the credential variables at the first client access.
- The kind of re-raised exception. GoogleCloudError and other client exceptions are both
  re-raised unchanged. They appear as the two constructors of `ClientError`, and
  `RepositoryError` wraps them as they are.
- Logging (src/api/utils/logger.py and every `log(...)` call) prints only and is not modelled.
- `asyncio.to_thread` is modelled as a plain call.
- SQL layout. The service's queries are records (kind, table, bounds, ordering). They are
  rendered with single spaces, not with the source's triple-quoted indentation and line
  breaks. `Date` does not enforce calendar validity, which the request layer checks.
- Render: the SQL text is modelled as single-spaced text, not the source's triple-quoted
  strings with their indentation and line breaks. Its wording carries no contract beyond the
  dates, which `IsoDateReadsBack` covers.
- Pydantic validation of the response record (`total_records: int`) is not modelled. The
  total is whatever cell the count row holds.
- The upload wrapper in src/api/repositories/gcs_repository.py, the routers, src/api/main.py
  and the placeholder arithmetic in src/api/ci_test.py are outside this core.
- The ingestion-pipeline class that the tests exercise (`OnsService.process_reservoir_data`
  and its helpers) does not exist in `ons_service.py`, so it is not part of this model.
