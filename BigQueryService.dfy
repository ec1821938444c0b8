/** The reservoir query service: one SELECT over an inclusive date range and one COUNT over
    the same range, handed to the repository with the page arguments, and the repository's
    answer wrapped in a response that echoes the page. */
module BigQueryService {
  import opened Wrappers
  import opened Decimal
  import opened BigQueryRepository

  /** A calendar date as Python's `date` holds it. */
  datatype Date = Date(year: nat, month: nat, day: nat)

  /** Python's ordering of dates: by year, then month, then day. */
  predicate DateLe(a: Date, b: Date)
  {
    a.year < b.year ||
    (a.year == b.year && (a.month < b.month || (a.month == b.month && a.day <= b.day)))
  }

  datatype QueryKind = SelectRows | CountRows

  /** A query over the reservoir table: which table, the bounds on `ena_data` (both
      inclusive), and whether rows come ordered by `ena_data` ascending. */
  datatype ReservoirQuery = ReservoirQuery(kind: QueryKind, table: string, lower: Date, upper: Date,
                                           orderedByDate: bool)

  /** The query keeps a row whose `ena_data` is `d`. */
  predicate Selects(q: ReservoirQuery, d: Date)
  {
    DateLe(q.lower, d) && DateLe(d, q.upper)
  }

  /** The page of data: every column, ordered by date. */
  function BaseQuery(projectId: string, tableId: string, start: Date, end: Date): (q: ReservoirQuery)
    ensures q.kind == SelectRows && q.table == projectId + "." + tableId && q.orderedByDate
    ensures forall d :: Selects(q, d) <==> DateLe(start, d) && DateLe(d, end)
  {
    ReservoirQuery(SelectRows, projectId + "." + tableId, start, end, true)
  }

  /** The total: `COUNT(*) as total` over the same rows, unordered. */
  function CountQuery(projectId: string, tableId: string, start: Date, end: Date): (q: ReservoirQuery)
    ensures q.kind == CountRows && q.table == projectId + "." + tableId && !q.orderedByDate
    ensures forall d :: Selects(q, d) <==> DateLe(start, d) && DateLe(d, end)
  {
    ReservoirQuery(CountRows, projectId + "." + tableId, start, end, false)
  }

  /** Both queries read `{project}.{table}` and keep the same dates, those from `start` to
      `end` inclusive; only the data query is ordered. */
  lemma BaseAndCountCoverSameRows(projectId: string, tableId: string, start: Date, end: Date)
    ensures var base := BaseQuery(projectId, tableId, start, end);
            var count := CountQuery(projectId, tableId, start, end);
      base.kind == SelectRows && count.kind == CountRows &&
      base.table == count.table == projectId + "." + tableId &&
      base.orderedByDate && !count.orderedByDate &&
      forall d :: (Selects(base, d) <==> DateLe(start, d) && DateLe(d, end)) &&
                  (Selects(count, d) <==> Selects(base, d))
  {
  }

  /** `s` with zeros in front up to `width` characters. */
  function ZeroPad(s: string, width: nat): (r: string)
    ensures |r| >= width && |r| >= |s|
    decreases width - |s|
  {
    if |s| >= width then s else ZeroPad("0" + s, width)
  }

  /** Zero-padding a numeral keeps it a numeral of the same number, `width` long when it
      was not longer. */
  lemma {:induction false} ZeroPadReadsBack(s: string, width: nat)
    requires AllDigits(s)
    ensures AllDigits(ZeroPad(s, width))
    ensures DecimalValue(ZeroPad(s, width)) == DecimalValue(s)
    ensures |ZeroPad(s, width)| == if |s| >= width then |s| else width
    decreases width - |s|
  {
    if |s| < width {
      LeadingZero(s);
      ZeroPadReadsBack("0" + s, width);
    }
  }

  /** `str(date)`: YYYY-MM-DD. */
  function IsoDate(d: Date): string
  {
    ZeroPad(NatToString(d.year), 4) + "-" + ZeroPad(NatToString(d.month), 2) + "-" +
    ZeroPad(NatToString(d.day), 2)
  }

  /** For a date Python can hold, `str(date)` is ten characters, dashes at positions 4 and
      7, and its three digit groups read back as the year, the month and the day. */
  lemma IsoDateReadsBack(d: Date)
    requires 1 <= d.year <= 9999 && 1 <= d.month <= 12 && 1 <= d.day <= 31
    ensures var r := IsoDate(d);
      |r| == 10 && r[4] == '-' && r[7] == '-' &&
      AllDigits(r[..4]) && AllDigits(r[5..7]) && AllDigits(r[8..]) &&
      DecimalValue(r[..4]) == d.year && DecimalValue(r[5..7]) == d.month && DecimalValue(r[8..]) == d.day
  {
    assert Pow10(4) == 10000 && Pow10(2) == 100 by {
      assert Pow10(2) == 10 * (10 * Pow10(0));
      assert Pow10(4) == 100 * Pow10(2);
    }
    var y := ZeroPad(NatToString(d.year), 4);
    var m := ZeroPad(NatToString(d.month), 2);
    var dd := ZeroPad(NatToString(d.day), 2);
    NatToStringLength(d.year, 4);
    NatToStringLength(d.month, 2);
    NatToStringLength(d.day, 2);
    ZeroPadReadsBack(NatToString(d.year), 4);
    ZeroPadReadsBack(NatToString(d.month), 2);
    ZeroPadReadsBack(NatToString(d.day), 2);
    NatToStringRoundTrip(d.year);
    NatToStringRoundTrip(d.month);
    NatToStringRoundTrip(d.day);
    var r := IsoDate(d);
    assert r == y + "-" + m + "-" + dd;
    assert r[..4] == y && r[5..7] == m && r[8..] == dd;
  }

  /** The SQL text of a query, one space between words. */
  function Render(q: ReservoirQuery): string
  {
    (match q.kind
     case SelectRows => "SELECT *"
     case CountRows => "SELECT COUNT(*) as total") +
    " FROM `" + q.table + "`" +
    " WHERE ena_data >= '" + IsoDate(q.lower) + "' AND ena_data <= '" + IsoDate(q.upper) + "'" +
    (if q.orderedByDate then " ORDER BY ena_data ASC" else "")
  }

  /** `ReservoirResponseDTO`. */
  datatype ReservoirResponse = ReservoirResponse(data: seq<Row>, totalRecords: Value, page: int, pageSize: int)

  /** Wraps the repository's answer: data and total as they came, page arguments echoed,
      an error passed on as it is. */
  function Respond(answer: Result<Page, RepositoryError>, pageOffset: int, pageSize: int)
    : (r: Result<ReservoirResponse, RepositoryError>)
    ensures r.Success? <==> answer.Success?
    ensures answer.Failure? ==> r.error == answer.error
    ensures answer.Success? ==>
      r.value.data == answer.value.data && r.value.totalRecords == answer.value.totalRecords &&
      r.value.page == pageOffset && r.value.pageSize == pageSize
  {
    match answer
    case Success(page) => Success(ReservoirResponse(page.data, page.totalRecords, pageOffset, pageSize))
    case Failure(e) => Failure(e)
  }

  /** The part of `get_reservoir_data` after the queries are built: the repository call
      against the warehouse `backend` answers through, and the response assembly. */
  function Serve(backend: Option<string -> QueryOutcome>, baseQuery: string, countQuery: string,
                 pageOffset: int, pageSize: int)
    : (r: (seq<string>, Result<ReservoirResponse, RepositoryError>))
    // no repository client, no query
    ensures backend.None? ==> r == ([], Failure(CouldNotAuthenticate))
    // the count query goes first; the data query is the base query paged with
    // `page_offset` as the page number
    ensures backend.Some? ==> 1 <= |r.0| <= 2 && r.0[0] == countQuery
    ensures |r.0| == 2 ==> r.0[1] == PaginatedQuery(baseQuery, pageOffset, pageSize)
    // the response echoes the page arguments and carries the repository's rows and total
    ensures r.1.Success? ==>
      |r.0| == 2 && backend.Some? && backend.value(r.0[1]).Rows? && backend.value(countQuery).Rows? &&
      r.1.value.page == pageOffset && r.1.value.pageSize == pageSize &&
      r.1.value.data == backend.value(r.0[1]).rows &&
      TotalRecords(backend.value(countQuery).rows) == Success(r.1.value.totalRecords)
    // a repository error reaches the caller as it is
    ensures r.1.Failure? ==>
      PaginatedRun(backend, baseQuery, countQuery, pageOffset, pageSize).result == Failure(r.1.error)
  {
    var run := PaginatedRun(backend, baseQuery, countQuery, pageOffset, pageSize);
    PaginatedRunMeetsSpec(backend, baseQuery, countQuery, pageOffset, pageSize);
    (run.sent, Respond(run.result, pageOffset, pageSize))
  }

  class ReservoirService {
    /** The repository; null until first needed unless one was injected. */
    var repository: GCPBigQueryRepository?
    const tableId: string
    /** The environment and the credential outcome a repository created here would see. */
    const env: map<string, string>
    const connect: Option<string -> QueryOutcome>

    /** The warehouse the service's next query goes to. */
    ghost function Backend(): Option<string -> QueryOutcome>
      reads this, repository
    {
      if repository != null then repository.Backend() else connect
    }

    /** The project of the repository the service uses or would create. */
    function ProjectId(): string
      reads this
    {
      if repository != null then repository.projectId else EnvGet(env, "GOOGLE_CLOUD_PROJECT", "")
    }

    constructor (repository: GCPBigQueryRepository?, env: map<string, string>,
                 connect: Option<string -> QueryOutcome>)
      ensures this.repository == repository && this.env == env && this.connect == connect
      ensures tableId == "gold.dados_reservatorios_completo"
    {
      this.repository := repository;
      this.tableId := "gold.dados_reservatorios_completo";
      this.env := env;
      this.connect := connect;
    }

    /** The `repository` property: an injected repository is returned as it is; otherwise
        one is created on first access and the same one returned afterwards. */
    method GetRepository() returns (repo: GCPBigQueryRepository)
      modifies this
      ensures old(repository) != null ==> repo == old(repository)
      ensures old(repository) == null ==>
        fresh(repo) && repo.client == null && repo.connect == connect &&
        repo.projectId == EnvGet(env, "GOOGLE_CLOUD_PROJECT", "") &&
        repo.location == EnvGet(env, "BIGQUERY_LOCATION", "southamerica-east1")
      ensures repository == repo
      ensures ProjectId() == old(ProjectId()) && Backend() == old(Backend())
    {
      if repository == null {
        repository := new GCPBigQueryRepository(env, connect);
      }
      return repository;
    }

    /** `get_reservoir_data`; `sent` lists the SQL texts the warehouse received. */
    method GetReservoirData(start: Date, end: Date, pageOffset: int, pageSize: int)
      returns (r: Result<ReservoirResponse, RepositoryError>, sent: seq<string>)
      modifies this, repository
      ensures (sent, r) == Serve(old(Backend()), Render(BaseQuery(old(ProjectId()), tableId, start, end)),
                                 Render(CountQuery(old(ProjectId()), tableId, start, end)),
                                 pageOffset, pageSize)
      ensures repository != null && ProjectId() == old(ProjectId()) && Backend() == old(Backend())
      ensures old(repository) != null ==> repository == old(repository)
      ensures old(repository) == null ==> fresh(repository)
    {
      var repo := GetRepository();
      var baseQuery := Render(BaseQuery(repo.projectId, tableId, start, end));
      repo := GetRepository();
      var countQuery := Render(CountQuery(repo.projectId, tableId, start, end));
      repo := GetRepository();
      var data;
      data, sent := repo.ExecutePaginatedQuery(baseQuery, countQuery, pageOffset, pageSize);
      r := Respond(data, pageOffset, pageSize);
    }
  }
}
