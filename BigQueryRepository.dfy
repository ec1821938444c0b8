/** The paginated query helper of the warehouse repository: a count query, then the base
    query with a `LIMIT … OFFSET …` suffix, run through a lazily created, cached client.
    The warehouse client is an oracle from SQL text to rows or a raised error. */
module BigQueryRepository {
  import opened Wrappers
  import opened Decimal

  /** A cell of a result row. */
  datatype Value = IntValue(i: int) | StringValue(s: string) | NullValue

  /** A result row, read as `dict(row)`: column name to cell. */
  type Row = map<string, Value>

  /** An exception raised by the warehouse client while running a query. */
  datatype ClientError = GoogleCloudError(message: string) | OtherError(message: string)

  /** What `client.query(sql).result()` gives for one SQL text. */
  datatype QueryOutcome = Rows(rows: seq<Row>) | Raised(error: ClientError)

  datatype RepositoryError =
    | ClientRaised(error: ClientError)   // re-raised unchanged
    | KeyError(key: string)              // the first count row has no such column
    | CouldNotAuthenticate               // every way of creating the client failed

  /** One page of rows and the total the count query reported. */
  datatype Page = Page(data: seq<Row>, totalRecords: Value)

  /** The SQL texts sent to the client, in order, and what the call gives back. */
  datatype Run = Run(sent: seq<string>, result: Result<Page, RepositoryError>)

  /** `os.environ.get(key, default)`. */
  function EnvGet(env: map<string, string>, key: string, default: string): (v: string)
    ensures key in env ==> v == env[key]
    ensures key !in env ==> v == default
  {
    if key in env then env[key] else default
  }

  // ---------------------------------------------------------------------------
  // Offset, query text and total

  /** The number of rows in the pages before `page` (pages are numbered from 1). */
  function Offset(page: int, pageSize: int): (offset: int)
    ensures page == 1 ==> offset == 0
    ensures page >= 1 && pageSize >= 0 ==> offset >= 0
  {
    (page - 1) * pageSize
  }

  /** For valid arguments the offset is a whole number of pages: `page - 1` of them. */
  lemma OffsetCountsWholePages(page: int, pageSize: int)
    requires page >= 1 && pageSize >= 1
    ensures Offset(page, pageSize) >= 0
    ensures Offset(page, pageSize) % pageSize == 0
    ensures Offset(page, pageSize) / pageSize == page - 1
  {
    var offset := Offset(page, pageSize);
    assert offset == (page - 1) * pageSize;
    LemmaDivMultiple(page - 1, pageSize);
  }

  lemma LemmaDivMultiple(k: int, n: int)
    requires n >= 1
    ensures (k * n) % n == 0 && (k * n) / n == k
  {
    var x := k * n;
    var q, r := x / n, x % n;
    assert x == q * n + r && 0 <= r < n;
    assert (k - q) * n == r;
    MultipleOfNonZero(k - q, n);
  }

  lemma MultipleOfNonZero(a: int, n: int)
    requires n >= 1
    ensures a >= 1 ==> a * n >= n
    ensures a <= -1 ==> a * n <= -n
  {
    if a >= 1 {
      assert a * n == (a - 1) * n + n;
      assert (a - 1) * n >= 0;
    } else if a <= -1 {
      assert a * n == (a + 1) * n - n;
      assert (a + 1) * n <= 0;
    }
  }

  /** Consecutive pages follow each other and distinct pages never share a row. */
  lemma PagesTile(p: int, q: int, pageSize: int)
    requires 1 <= p < q && pageSize >= 1
    ensures Offset(p + 1, pageSize) == Offset(p, pageSize) + pageSize
    ensures Offset(p, pageSize) + pageSize <= Offset(q, pageSize)
  {
    Distributes(p - 1, 1, pageSize);
    Distributes(p - 1, q - p, pageSize);
    MultipleOfNonZero(q - p, pageSize);
  }

  lemma Distributes(a: int, b: int, n: int)
    ensures (a + b) * n == a * n + b * n
  {
  }


  /** `f"{query} LIMIT {page_size} OFFSET {offset}"`. */
  function LimitOffsetQuery(query: string, pageSize: int, offset: int): string
  {
    query + " LIMIT " + IntToString(pageSize) + " OFFSET " + IntToString(offset)
  }

  /** The data query of page `page`: the base query followed by its LIMIT and OFFSET. */
  function PaginatedQuery(query: string, page: int, pageSize: int): (sql: string)
    ensures |sql| > |query| && sql[..|query|] == query
  {
    LimitOffsetQuery(query, pageSize, Offset(page, pageSize))
  }

  function EndsWith(s: string, suffix: string): bool
  {
    |suffix| <= |s| && s[|s| - |suffix|..] == suffix
  }

  /** Reads back `keyword` followed by an integer at the end of `s`; gives the text before. */
  function SplitKeywordInt(s: string, keyword: string): Option<(string, int)>
  {
    var tail :- SplitTrailingInt(s);
    var (before, n) := tail;
    if EndsWith(before, keyword) then Some((before[..|before| - |keyword|], n)) else None
  }

  lemma KeywordIntRoundTrip(p: string, keyword: string, n: int)
    requires |keyword| > 0 && keyword[|keyword| - 1] == ' '
    ensures SplitKeywordInt(p + keyword + IntToString(n), keyword) == Some((p, n))
  {
    var before := p + keyword;
    var tail := SplitTrailingInt(before + IntToString(n));
    assert tail.Some? && tail.value.0 == before && tail.value.1 == n by {
      assert before[|before| - 1] == ' ';
      SplitTrailingIntRoundTrip(before, n);
    }
    assert before[|before| - |keyword|..] == keyword;
    assert before[..|before| - |keyword|] == p;
    var r := SplitKeywordInt(before + IntToString(n), keyword);
    assert r.Some? && r.value.0 == p && r.value.1 == n;
    assert r.value == (p, n);
  }

  /** Reads a data query back into its base query, page size and offset. */
  function SplitPaginatedQuery(sql: string): Option<(string, int, int)>
  {
    var offsetPart :- SplitKeywordInt(sql, " OFFSET ");
    var limitPart :- SplitKeywordInt(offsetPart.0, " LIMIT ");
    Some((limitPart.0, limitPart.1, offsetPart.1))
  }

  /** The f-string reads back: the base query, the page size and the offset it was given. */
  lemma LimitOffsetQueryRoundTrip(query: string, pageSize: int, offset: int)
    ensures SplitPaginatedQuery(LimitOffsetQuery(query, pageSize, offset)) ==
            Some((query, pageSize, offset))
  {
    var sizePart := query + " LIMIT " + IntToString(pageSize);
    var sql := LimitOffsetQuery(query, pageSize, offset);
    var offsetSplit := SplitKeywordInt(sql, " OFFSET ");
    assert offsetSplit == Some((sizePart, offset)) by {
      KeywordIntRoundTrip(sizePart, " OFFSET ", offset);
    }
    var limitSplit := SplitKeywordInt(sizePart, " LIMIT ");
    assert limitSplit == Some((query, pageSize)) by {
      KeywordIntRoundTrip(query, " LIMIT ", pageSize);
    }
    var r := SplitPaginatedQuery(sql);
    assert r.Some? && r.value.0 == query && r.value.1 == pageSize && r.value.2 == offset;
    assert r.value == (query, pageSize, offset);
  }

  /** The data query is exactly the base query, then " LIMIT ", the page size, " OFFSET "
      and the offset: reading it back gives all three again. */
  lemma PaginatedQueryRoundTrip(query: string, page: int, pageSize: int)
    ensures SplitPaginatedQuery(PaginatedQuery(query, page, pageSize)) ==
            Some((query, pageSize, Offset(page, pageSize)))
  {
    LimitOffsetQueryRoundTrip(query, pageSize, Offset(page, pageSize));
  }

  /** The first page of two rows of a base query, as the repository's own test expects it. */
  lemma FirstPageOfTwo()
    ensures PaginatedQuery("SELECT * FROM tabela", 1, 2) == "SELECT * FROM tabela LIMIT 2 OFFSET 0"
  {
  }

  /** `count_result[0]["total"] if count_result else 0`. */
  function TotalRecords(countRows: seq<Row>): (r: Result<Value, RepositoryError>)
    ensures countRows == [] ==> r == Success(IntValue(0))
    ensures countRows != [] && "total" in countRows[0] ==> r == Success(countRows[0]["total"])
    ensures countRows != [] && "total" !in countRows[0] ==> r == Failure(KeyError("total"))
  {
    if countRows == [] then Success(IntValue(0))
    else if "total" in countRows[0] then Success(countRows[0]["total"])
    else Failure(KeyError("total"))
  }

  // ---------------------------------------------------------------------------
  // One paginated call against a warehouse

  /** `execute_paginated_query` against the warehouse `backend` answers through; None means
      the client could not be created. */
  function PaginatedRun(backend: Option<string -> QueryOutcome>, query: string, countQuery: string,
                        page: int, pageSize: int): Run
  {
    match backend
    case None => Run([], Failure(CouldNotAuthenticate))
    case Some(run) =>
      match run(countQuery)
      case Raised(e) => Run([countQuery], Failure(ClientRaised(e)))
      case Rows(countRows) =>
        match TotalRecords(countRows)
        case Failure(e) => Run([countQuery], Failure(e))
        case Success(total) =>
          var sql := PaginatedQuery(query, page, pageSize);
          match run(sql)
          case Raised(e) => Run([countQuery, sql], Failure(ClientRaised(e)))
          case Rows(rows) => Run([countQuery, sql], Success(Page(rows, total)))
  }

  /** What `execute_paginated_query` promises about a call `r` against `backend`. */
  predicate PaginatedRunSpec(backend: Option<string -> QueryOutcome>, query: string, countQuery: string,
                             page: int, pageSize: int, r: Run)
  {
    // no client, no query, and the authentication failure is raised
    (backend.None? ==> r == Run([], Failure(CouldNotAuthenticate))) &&
    // the count query goes first, and the data query only after a usable count
    (backend.Some? ==> 1 <= |r.sent| <= 2 && r.sent[0] == countQuery) &&
    (backend.Some? ==>
        (|r.sent| == 2 <==>
         backend.value(countQuery).Rows? && TotalRecords(backend.value(countQuery).rows).Success?)) &&
    (|r.sent| == 2 ==> r.sent[1] == PaginatedQuery(query, page, pageSize)) &&
    // a client error is re-raised as it is, and no partial page is returned
    (backend.Some? && backend.value(countQuery).Raised? ==>
      r.result == Failure(ClientRaised(backend.value(countQuery).error))) &&
    (|r.sent| == 2 && backend.Some? && backend.value(r.sent[1]).Raised? ==>
      r.result == Failure(ClientRaised(backend.value(r.sent[1]).error))) &&
    (r.result.Success? <==> |r.sent| == 2 && backend.Some? && backend.value(r.sent[1]).Rows?) &&
    // on success: one record per data row, in row order, and the count's total
    (r.result.Success? ==>
       |r.sent| == 2 && backend.Some? && backend.value(countQuery).Rows? &&
       r.result.value.data == backend.value(r.sent[1]).rows &&
       TotalRecords(backend.value(countQuery).rows) == Success(r.result.value.totalRecords))
  }

  lemma PaginatedRunMeetsSpec(backend: Option<string -> QueryOutcome>, query: string, countQuery: string,
                              page: int, pageSize: int)
    ensures PaginatedRunSpec(backend, query, countQuery, page, pageSize,
                             PaginatedRun(backend, query, countQuery, page, pageSize))
  {
  }

  // ---------------------------------------------------------------------------
  // The repository object

  /** A warehouse client; `run` is how it answers queries. */
  class BigQueryClient {
    const run: string -> QueryOutcome

    constructor (run: string -> QueryOutcome)
      ensures this.run == run
    {
      this.run := run;
    }
  }

  class GCPBigQueryRepository {
    const projectId: string
    const location: string
    /** What creating a client yields: the warehouse it talks to, or None when every
        credential strategy fails. */
    const connect: Option<string -> QueryOutcome>
    /** The cached client; null until the first access or an injection. */
    var client: BigQueryClient?

    /** The warehouse the next query goes to: the cached client's, or a new one's. */
    ghost function Backend(): Option<string -> QueryOutcome>
      reads this
    {
      if client != null then Some(client.run) else connect
    }

    constructor (env: map<string, string>, connect: Option<string -> QueryOutcome>)
      ensures projectId == EnvGet(env, "GOOGLE_CLOUD_PROJECT", "")
      ensures location == EnvGet(env, "BIGQUERY_LOCATION", "southamerica-east1")
      ensures this.connect == connect && client == null
    {
      projectId := EnvGet(env, "GOOGLE_CLOUD_PROJECT", "");
      location := EnvGet(env, "BIGQUERY_LOCATION", "southamerica-east1");
      this.connect := connect;
      client := null;
    }

    /** The `client` property: creates the client on first access and caches it. */
    method GetClient() returns (r: Result<BigQueryClient, RepositoryError>)
      modifies this
      ensures old(client) != null ==> r == Success(old(client)) && client == old(client)
      ensures old(client) == null && connect.None? ==> r == Failure(CouldNotAuthenticate) && client == null
      ensures old(client) == null && connect.Some? ==>
        r.Success? && fresh(r.value) && r.value.run == connect.value && client == r.value
      ensures Backend() == old(Backend())
    {
      if client == null {
        match connect {
          case None =>
            return Failure(CouldNotAuthenticate);
          case Some(run) =>
            client := new BigQueryClient(run);
        }
      }
      return Success(client);
    }

    /** The `client` setter: later accesses use `value` and create nothing. */
    method SetClient(value: BigQueryClient)
      modifies this
      ensures client == value && Backend() == Some(value.run)
    {
      client := value;
    }

    /** `execute_paginated_query`; `sent` lists the SQL texts given to the client. */
    method ExecutePaginatedQuery(query: string, countQuery: string, page: int, pageSize: int)
      returns (r: Result<Page, RepositoryError>, sent: seq<string>)
      modifies this
      ensures Run(sent, r) == PaginatedRun(old(Backend()), query, countQuery, page, pageSize)
      ensures Backend() == old(Backend())
      ensures old(client) != null ==> client == old(client)
      ensures old(client) == null && connect.Some? ==> fresh(client)
    {
      ghost var backend := Backend();
      sent := [];
      var countClient := GetClient();
      if countClient.Failure? {
        assert backend.None?;
        return Failure(countClient.error), sent;
      }
      assert backend == Some(countClient.value.run);
      sent := [countQuery];
      var countJob := countClient.value.run(countQuery);
      if countJob.Raised? {
        assert PaginatedRun(backend, query, countQuery, page, pageSize) ==
               Run(sent, Failure(ClientRaised(countJob.error)));
        return Failure(ClientRaised(countJob.error)), sent;
      }
      var countResult := countJob.rows;
      var totalRecords := TotalRecords(countResult);
      if totalRecords.Failure? {
        assert PaginatedRun(backend, query, countQuery, page, pageSize) == Run(sent, Failure(totalRecords.error));
        return Failure(totalRecords.error), sent;
      }

      // `offset` is `Offset(page, pageSize)`, so this text is `PaginatedQuery(query, page, pageSize)`
      var offset := (page - 1) * pageSize;
      var paginatedQuery := LimitOffsetQuery(query, pageSize, offset);

      // the count query cached the client, so this access creates nothing and cannot fail
      var dataClient := GetClient();
      assert dataClient.Success?;
      assert dataClient.value == countClient.value;
      sent := [countQuery, paginatedQuery];
      var queryJob := dataClient.value.run(paginatedQuery);
      if queryJob.Raised? {
        assert PaginatedRun(backend, query, countQuery, page, pageSize) ==
               Run(sent, Failure(ClientRaised(queryJob.error)));
        return Failure(ClientRaised(queryJob.error)), sent;
      }
      var data := queryJob.rows;
      assert PaginatedRun(backend, query, countQuery, page, pageSize) ==
             Run(sent, Success(Page(data, totalRecords.value)));
      return Success(Page(data, totalRecords.value)), sent;
    }
  }
}
