/** The catalog resource filter of the ONS service: one GET to the catalog API, the
    `result.resources` list dug out of the JSON answer, the PARQUET entries with a URL kept,
    and, when the caller gives years, a year test on the first four-digit run of each name. */
module OnsService {
  import opened Wrappers
  import opened Sequences
  import opened Decimal

  /** One entry of `result.resources`; a key the entry lacks is None. The service hands
      entries back unchanged, so this is also the shape of the returned resource records. */
  datatype Resource = Resource(format: Option<string>, url: Option<string>, name: Option<string>)

  /** The `result` object of the answer; `resources` is None when the key is missing. */
  datatype CatalogResult = CatalogResult(resources: Option<seq<Resource>>)

  /** The decoded JSON answer; `result` is None when the key is missing. */
  datatype Envelope = Envelope(result: Option<CatalogResult>)

  /** What the GET, `raise_for_status()` and `.json()` give together. */
  datatype HttpOutcome = RequestError | StatusError(code: int) | Body(json: Envelope)

  /** The request's filter: a present bound is a date, and only its year is read. */
  datatype DateFilter = DateFilter(start: Option<int>, end: Option<int>)

  datatype ServiceError =
    | ConfigurationError      // ONS_API_URL is unset or empty
    | RequestFailed           // the HTTP client could not reach the catalog
    | HttpStatus(code: int)   // the catalog answered with a failure status
    | NoneHasNoYear           // `.year` was read from a bound that is None

  // ---------------------------------------------------------------------------
  // The JSON envelope

  /** `data.get("result", {}).get("resources", [])`: a missing key reads as an empty list. */
  function Resources(body: Envelope): (rs: seq<Resource>)
    ensures body.result.None? ==> rs == []
    ensures body.result.Some? && body.result.value.resources.None? ==> rs == []
    ensures body.result.Some? && body.result.value.resources.Some? ==>
              rs == body.result.value.resources.value
  {
    match body.result
    case None => []
    case Some(result) => result.resources.GetOr([])
  }

  // ---------------------------------------------------------------------------
  // The PARQUET / url filter

  /** `str.upper()` on ASCII letters; every other character is left as it is. */
  function UpperChar(c: char): char
  {
    if 'a' <= c <= 'z' then (c as int - 32) as char else c
  }

  predicate IsLowerAscii(c: char) { 'a' <= c <= 'z' }

  /** `str.upper()` restricted to ASCII: no lower-case letter is left, and every other
      character stays where and what it was. */
  function Upper(s: string): (u: string)
    ensures |u| == |s|
    ensures forall i :: 0 <= i < |u| ==> !IsLowerAscii(u[i])
    ensures forall i :: 0 <= i < |s| && !IsLowerAscii(s[i]) ==> u[i] == s[i]
    ensures forall i :: 0 <= i < |s| && IsLowerAscii(s[i]) ==> u[i] as int == s[i] as int - 32
  {
    seq(|s|, i requires 0 <= i < |s| => UpperChar(s[i]))
  }

  /** Upper-casing twice is upper-casing once. */
  lemma UpperIdempotent(s: string)
    ensures Upper(Upper(s)) == Upper(s)
  {
    var u := Upper(s);
    assert forall i :: 0 <= i < |u| ==> Upper(u)[i] == u[i];
  }

  predicate IsParquetFormat(format: string)
  {
    Upper(format) == "PARQUET"
  }

  /** The format test is "PARQUET" with every letter in either case, and nothing else. */
  lemma ParquetFormatIgnoresCase(format: string)
    ensures IsParquetFormat(format) <==>
      |format| == 7 &&
      forall i :: 0 <= i < 7 ==> format[i] == "PARQUET"[i] || format[i] == "parquet"[i]
  {
    if |format| == 7 {
      if IsParquetFormat(format) {
        forall i | 0 <= i < 7
          ensures format[i] == "PARQUET"[i] || format[i] == "parquet"[i]
        {
          assert Upper(format)[i] == "PARQUET"[i];
        }
      }
      if forall i :: 0 <= i < 7 ==> format[i] == "PARQUET"[i] || format[i] == "parquet"[i] {
        assert Upper(format) == "PARQUET";
      }
    }
  }

  /** The comprehension's guard: an upper-cased `format` (default "") equal to "PARQUET"
      and a truthy `url`, that is, present and not empty. */
  predicate IsParquetEntry(r: Resource)
  {
    IsParquetFormat(r.format.GetOr("")) && r.url.Some? && r.url.value != ""
  }

  /** The comprehension `[r for r in resources if <guard>]`: exactly the entries that pass
      the guard, each as often as the catalog lists it, in catalog order. */
  function ParquetOnly(rs: seq<Resource>): (r: seq<Resource>)
    ensures forall i :: 0 <= i < |r| ==> IsParquetEntry(r[i])
    ensures forall x :: multiset(r)[x] == (if IsParquetEntry(x) then multiset(rs)[x] else 0)
    ensures IsSubsequence(r, rs)
  {
    FilterIsSubsequence(IsParquetEntry, rs);
    Filter(IsParquetEntry, rs)
  }

  /** The guard spelled out: a format that is PARQUET in any mix of letter cases (a missing
      format never is), and a URL that is present and not empty. */
  lemma ParquetEntryIff(r: Resource)
    ensures IsParquetEntry(r) <==>
      r.format.Some? && |r.format.value| == 7 &&
      (forall i :: 0 <= i < 7 ==> r.format.value[i] == "PARQUET"[i] || r.format.value[i] == "parquet"[i]) &&
      r.url.Some? && r.url.value != ""
  {
    ParquetFormatIgnoresCase(r.format.GetOr(""));
  }

  // ---------------------------------------------------------------------------
  // The year in a name

  function NameOf(r: Resource): string
  {
    r.name.GetOr("")
  }

  /** Four ASCII digits start at position `k` of `s`. */
  predicate DigitRunAt(s: string, k: int)
  {
    0 <= k && k + 4 <= |s| && AllDigits(s[k..k + 4])
  }

  /** `re.search(r"\d{4}", s)` started at `from`: the leftmost run of four digits. */
  function FindFourDigits(s: string, from: nat): (k: Option<nat>)
    ensures k.Some? ==>
      from <= k.value && DigitRunAt(s, k.value) &&
      forall j :: from <= j < k.value ==> !DigitRunAt(s, j)
    ensures k.None? ==> forall j :: from <= j ==> !DigitRunAt(s, j)
    decreases |s| - from
  {
    if from + 4 > |s| then None
    else if DigitRunAt(s, from) then Some(from)
    else FindFourDigits(s, from + 1)
  }

  /** `int(match.group())` for the leftmost four-digit run of `name`, if there is one. */
  function YearIn(name: string): (y: Option<int>)
    ensures y.Some? <==> exists k :: DigitRunAt(name, k)
    ensures y.Some? ==> 0 <= y.value <= 9999
    ensures y.Some? ==>
      exists k :: DigitRunAt(name, k) && y.value == DecimalValue(name[k..k + 4]) &&
                  forall j :: 0 <= j < k ==> !DigitRunAt(name, j)
  {
    match FindFourDigits(name, 0)
    case None => None
    case Some(k) =>
      DecimalValueBound(name[k..k + 4]);
      assert Pow10(4) == 10 * (10 * (10 * (10 * Pow10(0))));
      Some(DecimalValue(name[k..k + 4]))
  }

  // ---------------------------------------------------------------------------
  // The year test

  /** `start.year <= y and end.year <= y`, evaluated as Python does: left to right, the
      `and` stopping at a false left side, and `.year` of a None bound raising.
      `Success(true)` means the entry is skipped. */
  function DropDecision(start: Option<int>, end: Option<int>, y: int): (r: Result<bool, ServiceError>)
    ensures r.Failure? <==> start.None? || (start.value <= y && end.None?)
    ensures r.Failure? ==> r.error == NoneHasNoYear
    ensures start.Some? && end.Some? ==> (r == Success(false) <==> y < start.value || y < end.value)
    ensures start.Some? && y < start.value ==> r == Success(false)
  {
    match start
    case None => Failure(NoneHasNoYear)
    case Some(s) =>
      if !(s <= y) then Success(false)
      else
        match end
        case None => Failure(NoneHasNoYear)
        case Some(e) => Success(e <= y)
  }

  /** The entry survives the year loop: its name has a year and the test does not drop it. */
  predicate KeptByYear(r: Resource, start: Option<int>, end: Option<int>)
  {
    var y := YearIn(NameOf(r));
    y.Some? && DropDecision(start, end, y.value) == Success(false)
  }

  /** Reading the year test on this entry raises. */
  predicate RaisesOn(r: Resource, start: Option<int>, end: Option<int>)
  {
    var y := YearIn(NameOf(r));
    y.Some? && DropDecision(start, end, y.value).Failure?
  }

  /** `acc` followed by what an outcome holds; a failure stays a failure. */
  function After(acc: seq<Resource>, r: Result<seq<Resource>, ServiceError>): Result<seq<Resource>, ServiceError>
  {
    match r
    case Success(rest) => Success(acc + rest)
    case Failure(e) => Failure(e)
  }

  lemma AfterNothing(r: Result<seq<Resource>, ServiceError>)
    ensures After([], r) == r
  {
    if r.Success? {
      assert [] + r.value == r.value;
    }
  }

  lemma AfterAfter(a: seq<Resource>, b: seq<Resource>, r: Result<seq<Resource>, ServiceError>)
    ensures After(a, After(b, r)) == After(a + b, r)
  {
    if r.Success? {
      assert a + (b + r.value) == (a + b) + r.value;
    }
  }

  /** The year loop as a recursive definition: entries without a year are skipped, the
      first entry whose test raises ends the whole call with that error. */
  function DateFiltered(rs: seq<Resource>, start: Option<int>, end: Option<int>): Result<seq<Resource>, ServiceError>
  {
    if rs == [] then Success([])
    else
      match YearIn(NameOf(rs[0]))
      case None => DateFiltered(rs[1..], start, end)
      case Some(y) =>
        match DropDecision(start, end, y)
        case Failure(e) => Failure(e)
        case Success(drop) =>
          if drop then DateFiltered(rs[1..], start, end)
          else After([rs[0]], DateFiltered(rs[1..], start, end))
  }

  /** The year loop of the service, over the PARQUET entries. */
  method FilterByYear(resources: seq<Resource>, start: Option<int>, end: Option<int>)
    returns (r: Result<seq<Resource>, ServiceError>)
    ensures r == DateFiltered(resources, start, end)
  {
    var filtered: seq<Resource> := [];
    var i := 0;
    assert resources[i..] == resources;
    AfterNothing(DateFiltered(resources, start, end));
    while i < |resources|
      invariant 0 <= i <= |resources|
      invariant DateFiltered(resources, start, end) == After(filtered, DateFiltered(resources[i..], start, end))
    {
      var resource := resources[i];
      assert resources[i..][1..] == resources[i + 1..];
      var year := YearIn(NameOf(resource));
      if year.None? {
        i := i + 1;
        continue;
      }
      var y := year.value;
      if start.None? {
        return Failure(NoneHasNoYear);
      }
      if start.value <= y {
        if end.None? {
          return Failure(NoneHasNoYear);
        }
        if end.value <= y {
          i := i + 1;
          continue;
        }
      }
      AfterAfter(filtered, [resource], DateFiltered(resources[i + 1..], start, end));
      filtered := filtered + [resource];
      i := i + 1;
    }
    assert resources[i..] == [] && filtered + [] == filtered;
    return Success(filtered);
  }

  lemma {:induction false} DateFilteredIsSubsequence(rs: seq<Resource>, start: Option<int>, end: Option<int>)
    ensures DateFiltered(rs, start, end).Success? ==> IsSubsequence(DateFiltered(rs, start, end).value, rs)
  {
    if rs != [] {
      DateFilteredIsSubsequence(rs[1..], start, end);
      var r := DateFiltered(rs, start, end);
      var rest := DateFiltered(rs[1..], start, end);
      if r.Success? && r.value != [] {
        if r == rest {
          assert IsSubsequence(r.value, rs[1..]);
        } else {
          assert r.value[0] == rs[0] && r.value[1..] == rest.value;
        }
      }
    }
  }

  /** On success the output holds exactly the entries that have a year and pass its test. */
  lemma {:induction false} DateFilteredMembers(rs: seq<Resource>, start: Option<int>, end: Option<int>)
    requires DateFiltered(rs, start, end).Success?
    ensures forall x :: x in DateFiltered(rs, start, end).value <==> x in rs && KeptByYear(x, start, end)
    ensures forall x :: multiset(DateFiltered(rs, start, end).value)[x] ==
                        (if KeptByYear(x, start, end) then multiset(rs)[x] else 0)
  {
    if rs != [] {
      DateFilteredMembers(rs[1..], start, end);
      assert rs == [rs[0]] + rs[1..];
      var rest := DateFiltered(rs[1..], start, end).value;
      if KeptByYear(rs[0], start, end) {
        assert DateFiltered(rs, start, end).value == [rs[0]] + rest;
      } else {
        assert DateFiltered(rs, start, end).value == rest;
      }
    }
  }

  /** One step of the year loop: it fails on `rs` exactly when the first entry's test
      raises or the loop fails on the rest. */
  lemma DateFilteredFailsStep(rs: seq<Resource>, start: Option<int>, end: Option<int>)
    requires rs != []
    ensures DateFiltered(rs, start, end).Failure? <==>
      RaisesOn(rs[0], start, end) || DateFiltered(rs[1..], start, end).Failure?
    ensures DateFiltered(rs, start, end).Failure? && DateFiltered(rs[1..], start, end).Failure? ==>
      DateFiltered(rs, start, end).error == NoneHasNoYear || DateFiltered(rs, start, end) == DateFiltered(rs[1..], start, end)
  {
  }

  lemma SomeRaisesStep(rs: seq<Resource>, start: Option<int>, end: Option<int>)
    requires rs != []
    ensures (exists i :: 0 <= i < |rs| && RaisesOn(rs[i], start, end)) <==>
      RaisesOn(rs[0], start, end) || exists i :: 0 <= i < |rs[1..]| && RaisesOn(rs[1..][i], start, end)
  {
    if exists i :: 0 <= i < |rs| && RaisesOn(rs[i], start, end) {
      var i :| 0 <= i < |rs| && RaisesOn(rs[i], start, end);
      if i > 0 {
        assert RaisesOn(rs[1..][i - 1], start, end);
      }
    }
    if exists i :: 0 <= i < |rs[1..]| && RaisesOn(rs[1..][i], start, end) {
      var i :| 0 <= i < |rs[1..]| && RaisesOn(rs[1..][i], start, end);
      assert RaisesOn(rs[i + 1], start, end);
    }
  }

  /** The loop raises exactly when some entry's year test reads a None bound. */
  lemma {:induction false} DateFilteredFailsIff(rs: seq<Resource>, start: Option<int>, end: Option<int>)
    ensures DateFiltered(rs, start, end).Failure? <==> exists i :: 0 <= i < |rs| && RaisesOn(rs[i], start, end)
    ensures DateFiltered(rs, start, end).Failure? ==> DateFiltered(rs, start, end).error == NoneHasNoYear
  {
    if rs != [] {
      DateFilteredFailsIff(rs[1..], start, end);
      DateFilteredFailsStep(rs, start, end);
      SomeRaisesStep(rs, start, end);
    }
  }

  /** With both years given: the loop never raises, and an entry is kept exactly when its
      name has a year y with y < start or y < end; entries without a year are dropped. */
  lemma BothYearsKeepBelowEither(rs: seq<Resource>, s: int, e: int)
    ensures DateFiltered(rs, Some(s), Some(e)).Success?
    ensures forall x :: x in DateFiltered(rs, Some(s), Some(e)).value <==>
      x in rs && YearIn(NameOf(x)).Some? &&
      (YearIn(NameOf(x)).value < s || YearIn(NameOf(x)).value < e)
    ensures forall x :: multiset(DateFiltered(rs, Some(s), Some(e)).value)[x] ==
                        (if YearIn(NameOf(x)).Some? &&
                            (YearIn(NameOf(x)).value < s || YearIn(NameOf(x)).value < e)
                         then multiset(rs)[x] else 0)
  {
    DateFilteredFailsIff(rs, Some(s), Some(e));
    DateFilteredMembers(rs, Some(s), Some(e));
  }

  /** Only a start year: entries dated before it are kept, and the first entry dated at or
      after it raises, since the test then reads `.year` of the missing end. */
  lemma StartYearOnly(rs: seq<Resource>, s: int)
    ensures DateFiltered(rs, Some(s), None).Failure? <==>
      exists i :: 0 <= i < |rs| && YearIn(NameOf(rs[i])).Some? && s <= YearIn(NameOf(rs[i])).value
    ensures DateFiltered(rs, Some(s), None).Success? ==>
      forall x :: x in DateFiltered(rs, Some(s), None).value <==>
        x in rs && YearIn(NameOf(x)).Some? && YearIn(NameOf(x)).value < s
    ensures DateFiltered(rs, Some(s), None).Success? ==>
      forall x :: multiset(DateFiltered(rs, Some(s), None).value)[x] ==
                  (if YearIn(NameOf(x)).Some? && YearIn(NameOf(x)).value < s then multiset(rs)[x] else 0)
  {
    DateFilteredFailsIff(rs, Some(s), None);
    if DateFiltered(rs, Some(s), None).Success? {
      DateFilteredMembers(rs, Some(s), None);
    }
  }

  /** Only an end year: the first entry that has a year raises; without one, nothing is kept. */
  lemma EndYearOnly(rs: seq<Resource>, e: int)
    ensures DateFiltered(rs, None, Some(e)).Failure? <==>
      exists i :: 0 <= i < |rs| && YearIn(NameOf(rs[i])).Some?
    ensures DateFiltered(rs, None, Some(e)).Success? ==> DateFiltered(rs, None, Some(e)).value == []
  {
    DateFilteredFailsIff(rs, None, Some(e));
    if DateFiltered(rs, None, Some(e)).Success? {
      DateFilteredMembers(rs, None, Some(e));
      var v := DateFiltered(rs, None, Some(e)).value;
      assert forall x :: x !in v;
    }
  }

  // ---------------------------------------------------------------------------
  // The whole service call

  /** What the service returns once the catalog has answered. */
  function FilterCatalogAnswer(answer: HttpOutcome, filters: DateFilter): Result<seq<Resource>, ServiceError>
  {
    match answer
    case RequestError => Failure(RequestFailed)
    case StatusError(code) => Failure(HttpStatus(code))
    case Body(json) =>
      var parquet := ParquetOnly(Resources(json));
      if filters.start.None? && filters.end.None? then Success(parquet)
      else DateFiltered(parquet, filters.start, filters.end)
  }

  /** `fetch_and_filter_parquet_files`. `apiUrl` is the ONS_API_URL variable and `get` the
      catalog as seen through the HTTP client; `requested` lists the URLs fetched. */
  method FetchAndFilterParquetFiles(apiUrl: Option<string>, get: string -> HttpOutcome, filters: DateFilter)
    returns (r: Result<seq<Resource>, ServiceError>, requested: seq<string>)
    ensures apiUrl.None? || apiUrl.value == "" ==> r == Failure(ConfigurationError) && requested == []
    ensures apiUrl.Some? && apiUrl.value != "" ==>
      requested == [apiUrl.value] && r == FilterCatalogAnswer(get(apiUrl.value), filters)
  {
    if apiUrl.None? || apiUrl.value == "" {
      return Failure(ConfigurationError), [];
    }
    var url := apiUrl.value;
    requested := [url];
    var answer := get(url);
    match answer {
      case RequestError =>
        return Failure(RequestFailed), requested;
      case StatusError(code) =>
        return Failure(HttpStatus(code)), requested;
      case Body(json) =>
        var allResources := Resources(json);
        var parquetResources := ParquetOnly(allResources);
        if filters.start.None? && filters.end.None? {
          return Success(parquetResources), requested;
        }
        r := FilterByYear(parquetResources, filters.start, filters.end);
    }
  }

  /** Whatever the filter, a successful answer lists catalog entries in catalog order, each
      at most as often as the catalog does, each with a PARQUET format and a URL. */
  lemma AnswerIsParquetSubsequence(json: Envelope, filters: DateFilter)
    ensures var r := FilterCatalogAnswer(Body(json), filters);
      r.Success? ==>
        IsSubsequence(r.value, Resources(json)) &&
        multiset(r.value) <= multiset(Resources(json)) &&
        forall i :: 0 <= i < |r.value| ==> IsParquetEntry(r.value[i])
  {
    var all := Resources(json);
    var parquet := ParquetOnly(all);
    var r := FilterCatalogAnswer(Body(json), filters);
    if r.Success? {
      if !(filters.start.None? && filters.end.None?) {
        DateFilteredIsSubsequence(parquet, filters.start, filters.end);
        SubsequenceTransitive(r.value, parquet, all);
        SubsequenceKeepsProperty(IsParquetEntry, r.value, parquet);
      }
      SubsequenceMultiset(r.value, all);
    }
  }

  /** With no year at all the answer is every PARQUET entry with a URL, named or not, as
      often as the catalog lists it and in catalog order. */
  lemma NoYearsKeepsEveryParquetEntry(json: Envelope)
    ensures FilterCatalogAnswer(Body(json), DateFilter(None, None)).Success?
    ensures forall x :: x in FilterCatalogAnswer(Body(json), DateFilter(None, None)).value <==>
      x in Resources(json) && IsParquetEntry(x)
    ensures forall x :: multiset(FilterCatalogAnswer(Body(json), DateFilter(None, None)).value)[x] ==
                        (if IsParquetEntry(x) then multiset(Resources(json))[x] else 0)
    ensures IsSubsequence(FilterCatalogAnswer(Body(json), DateFilter(None, None)).value, Resources(json))
  {
    FilterIsSubsequence(IsParquetEntry, Resources(json));
  }

  /** With years given, the answer is a subsequence of the answer without them. */
  lemma DatedAnswerWithinUndated(json: Envelope, filters: DateFilter)
    requires FilterCatalogAnswer(Body(json), filters).Success?
    ensures IsSubsequence(FilterCatalogAnswer(Body(json), filters).value,
                          FilterCatalogAnswer(Body(json), DateFilter(None, None)).value)
  {
    var parquet := ParquetOnly(Resources(json));
    if filters.start.None? && filters.end.None? {
      SubsequenceReflexive(parquet);
    } else {
      DateFilteredIsSubsequence(parquet, filters.start, filters.end);
    }
  }
}
