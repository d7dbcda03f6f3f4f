/** The HTTP test service for the plot endpoints: the bearer token it
    keeps, the headers it sends, how a plot-detail case turns into a
    request URL, and the module summary over the results. The requests
    themselves are not modelled. */
module PlotTest {
  import opened Wrappers
  import opened PyText
  import opened PyValue
  import opened Tally

  const BaseUrl := "http://47.120.78.249:8000"

  /** `get_auth_headers`: the bearer header of section 2.1 of RFC 6750 when
      a (non-empty) token is set, nothing otherwise. */
  function AuthHeaders(token: Option<string>): (h: Dict<string>)
    ensures token.None? || token == Some("") ==> h == []
    ensures token.Some? && token.value != "" ==> h == [("Authorization", "Bearer " + token.value)]
  {
    if token.Some? && token.value != "" then [("Authorization", "Bearer " + token.value)] else []
  }

  /** The headers of a request: JSON content type, plus the token unless
      the case skips authentication. */
  function RequestHeaders(skipAuth: bool, token: Option<string>): Dict<string> {
    var base := [("Content-Type", "application/json")];
    if skipAuth then base else Merge(base, AuthHeaders(token))
  }

  /** A case that skips authentication never sends a token; any other case
      sends exactly the bearer header of the token, if one is set. */
  lemma HeadersCarryToken(skipAuth: bool, token: Option<string>)
    ensures skipAuth ==> !HasKey(RequestHeaders(skipAuth, token), "Authorization")
    ensures !skipAuth && token.Some? && token.value != "" ==>
      Get(RequestHeaders(skipAuth, token), "Authorization") == Some("Bearer " + token.value)
    ensures !skipAuth && (token.None? || token == Some("")) ==>
      !HasKey(RequestHeaders(skipAuth, token), "Authorization")
    ensures Get(RequestHeaders(skipAuth, token), "Content-Type") == Some("application/json")
  {
    var base := [("Content-Type", "application/json")];
    if skipAuth {
      assert Get(base, "Authorization") == None;
    } else {
      GetMerge(base, AuthHeaders(token), "Authorization");
      GetMerge(base, AuthHeaders(token), "Content-Type");
      assert Get(base, "Authorization") == None;
    }
  }

  const ExistingPlotId := "123e4567-e89b-12d3-a456-426614174000"
  const MissingPlotId := "999e9999-e99b-99d9-a999-999999999999"
  const OverlongPlotId := "invalid-very-long-id-that-exceeds-normal-uuid-length-limits-and-more"

  /** The placeholder ids of the predefined cases and the ids they stand for. */
  predicate IsPlaceholder(id: string) {
    id in {"存在的合法ID", "不存在的ID", "合法ID", "*恰好等于限制长度的ID", "*超过限制长度的ID"}
  }

  /** The plot id a detail case requests. */
  function ResolvePlotId(plotId: Option<string>): (r: Option<string>)
    ensures plotId.None? ==> r.None?
    ensures plotId.Some? && !IsPlaceholder(plotId.value) ==> r == plotId
    ensures plotId.Some? && IsPlaceholder(plotId.value) ==> r.Some? && r.value in {ExistingPlotId, MissingPlotId, OverlongPlotId}
  {
    match plotId
    case None => None
    case Some(id) =>
      if id == "存在的合法ID" then Some(ExistingPlotId)
      else if id == "不存在的ID" then Some(MissingPlotId)
      else if id == "合法ID" then Some(ExistingPlotId)
      else if id == "*恰好等于限制长度的ID" then Some(ExistingPlotId)
      else if id == "*超过限制长度的ID" then Some(OverlongPlotId)
      else plotId
  }

  /** The request URL: ".../plot/" without an id, ".../plot/{id}" with one. */
  function DetailUrl(plotId: Option<string>): (url: string)
    ensures StartsWith(url, BaseUrl + "/plot/")
    ensures plotId.None? ==> url == BaseUrl + "/plot/"
    ensures plotId.Some? ==> url[|BaseUrl + "/plot/"|..] == plotId.value
  {
    match plotId
    case None => BaseUrl + "/plot/"
    case Some(id) => BaseUrl + "/plot/" + id
  }

  /** A placeholder never reaches the URL; a missing id targets the bare
      collection path. */
  lemma UrlOfCase(plotId: Option<string>)
    ensures plotId.Some? && IsPlaceholder(plotId.value) ==>
      DetailUrl(ResolvePlotId(plotId))[|BaseUrl + "/plot/"|..] != plotId.value
    ensures plotId.None? ==> DetailUrl(ResolvePlotId(plotId)) == BaseUrl + "/plot/"
  {
    if plotId.Some? && IsPlaceholder(plotId.value) {
      var id := ResolvePlotId(plotId).value;
      assert |id| == 36 || |id| == 68;
      assert |plotId.value| < 36;
    }
  }

  class PlotTestService {
    var authToken: Option<string>

    constructor()
      ensures authToken == None
    {
      authToken := None;
    }

    /** `set_auth_token`. */
    method SetAuthToken(token: Option<string>)
      modifies this
      ensures authToken == token
    {
      authToken := token;
    }

    /** `get_auth_headers` over the stored token. */
    function GetAuthHeaders(): Dict<string>
      reads this
    {
      AuthHeaders(authToken)
    }
  }

  // ---------------------------------------------------------------------
  // generate_module_summary

  /** A result record; a missing `passed` reads as `False`, a missing or
      `None` duration as `None`, other missing keys as `None`. */
  datatype PlotResult = PlotResult(testId: Value, testPurpose: Value, testType: Option<string>, passed: Value,
                                   expectedStatus: Value, actualStatus: Value, expectedMessage: Value,
                                   actualMessage: Value, error: Value, durationMs: Option<real>)

  function TypeOf(r: PlotResult): string {
    r.testType.GetOr("未知")
  }

  function Rows(results: seq<PlotResult>): (rows: seq<(string, Outcome)>)
    ensures |rows| == |results|
    ensures forall k :: 0 <= k < |results| ==>
      rows[k] == (TypeOf(results[k]), if Truthy(results[k].passed) then Pass else Fail)
  {
    seq(|results|, k requires 0 <= k < |results| =>
      (TypeOf(results[k]), if Truthy(results[k].passed) then Pass else Fail))
  }

  datatype FailedDetail = FailedDetail(testId: Value, testPurpose: Value, expectedStatus: Value, actualStatus: Value,
                                       expectedMessage: Value, actualMessage: Value, errorMessage: Value)

  function Detail(r: PlotResult): FailedDetail {
    FailedDetail(r.testId, r.testPurpose, r.expectedStatus, r.actualStatus, r.expectedMessage, r.actualMessage, r.error)
  }

  function FailedDetails(results: seq<PlotResult>): seq<FailedDetail>
    decreases |results|
  {
    if results == [] then []
    else
      var last := results[|results| - 1];
      FailedDetails(results[..|results| - 1]) + (if Truthy(last.passed) then [] else [Detail(last)])
  }

  /** The durations that are present, in order. */
  function Durations(results: seq<PlotResult>): (ds: seq<real>)
    ensures |ds| <= |results|
    decreases |results|
  {
    if results == [] then []
    else
      var last := results[|results| - 1];
      Durations(results[..|results| - 1]) + (if last.durationMs.Some? then [last.durationMs.value] else [])
  }

  function SumOf(xs: seq<real>): real
    decreases |xs|
  {
    if xs == [] then 0.0 else SumOf(xs[..|xs| - 1]) + xs[|xs| - 1]
  }

  /** The mean response time: over present durations only, 0 without any. */
  function AverageDuration(results: seq<PlotResult>): real {
    var ds := Durations(results);
    if ds == [] then 0.0 else SumOf(ds) / |ds| as real
  }

  /** A result without a duration leaves the average as it was. */
  lemma NoDurationNoEffect(results: seq<PlotResult>, r: PlotResult)
    requires r.durationMs.None?
    ensures AverageDuration(results + [r]) == AverageDuration(results)
  {
    assert (results + [r])[..|results|] == results;
    assert Durations(results + [r]) == Durations(results);
  }

  lemma {:induction false} SumBounds(xs: seq<real>, lo: real, hi: real)
    requires forall k :: 0 <= k < |xs| ==> lo <= xs[k] <= hi
    ensures |xs| as real * lo <= SumOf(xs) <= |xs| as real * hi
    decreases |xs|
  {
    if xs != [] {
      SumBounds(xs[..|xs| - 1], lo, hi);
    }
  }

  lemma {:induction false} DurationsFrom(results: seq<PlotResult>, lo: real, hi: real)
    requires forall k :: 0 <= k < |results| && results[k].durationMs.Some? ==> lo <= results[k].durationMs.value <= hi
    ensures forall k :: 0 <= k < |Durations(results)| ==> lo <= Durations(results)[k] <= hi
    decreases |results|
  {
    if results != [] {
      DurationsFrom(results[..|results| - 1], lo, hi);
    }
  }

  /** The average lies between the least and the greatest present
      duration. */
  lemma AverageWithinBounds(results: seq<PlotResult>, lo: real, hi: real)
    requires forall k :: 0 <= k < |results| && results[k].durationMs.Some? ==> lo <= results[k].durationMs.value <= hi
    requires Durations(results) != []
    ensures lo <= AverageDuration(results) <= hi
  {
    DurationsFrom(results, lo, hi);
    MeanWithinBounds(Durations(results), lo, hi);
  }

  lemma MeanWithinBounds(xs: seq<real>, lo: real, hi: real)
    requires forall k :: 0 <= k < |xs| ==> lo <= xs[k] <= hi
    requires xs != []
    ensures lo <= SumOf(xs) / |xs| as real <= hi
  {
    SumBounds(xs, lo, hi);
    MeanBounds(SumOf(xs), |xs| as real, lo, hi);
  }

  lemma MeanBounds(s: real, n: real, lo: real, hi: real)
    requires n > 0.0 && n * lo <= s <= n * hi
    ensures lo <= s / n <= hi
  {
    var a := s / n;
    assert a * n == s;
  }

  datatype ModuleSummary = ModuleSummary(moduleName: string, summary: Summary, averageResponseTime: real,
                                         typeStatistics: Dict<Stat>, failedDetails: seq<FailedDetail>)

  function ModuleSummaryOf(results: seq<PlotResult>, moduleName: string): ModuleSummary {
    var rows := Rows(results);
    ModuleSummary(moduleName, MakeSummary(|results|, Count(rows, Pass)), AverageDuration(results),
                  ByType(rows), FailedDetails(results))
  }

  /** One failed detail per failed result. */
  lemma {:induction false} FailedDetailsCount(results: seq<PlotResult>)
    ensures |FailedDetails(results)| == |results| - Count(Rows(results), Pass)
    decreases |results|
  {
    if results != [] {
      var init := results[..|results| - 1];
      FailedDetailsCount(init);
      var rows := Rows(results);
      assert rows[..|results| - 1] == Rows(init);
      assert rows[|results| - 1].1 == Pass <==> Truthy(results[|results| - 1].passed);
    }
  }

  /** The summary adds up: one failed detail per failed result, per-type
      totals sum to the number of results and per-type passes to the
      passed count. */
  lemma ModuleSummaryAddsUp(results: seq<PlotResult>, moduleName: string)
    ensures var s := ModuleSummaryOf(results, moduleName);
      |s.failedDetails| == s.summary.failed
      && Sum(s.typeStatistics, Total) == s.summary.total
      && Sum(s.typeStatistics, Passed) == s.summary.passed
  {
    FailedDetailsCount(results);
    ByTypeSums(Rows(results), Total);
    ByTypeSums(Rows(results), Passed);
  }

  /** The counting loop: passes, failed details and present durations. */
  method CountResults(results: seq<PlotResult>) returns (passed: nat, failed: seq<FailedDetail>, durations: seq<real>)
    ensures passed == Count(Rows(results), Pass)
    ensures failed == FailedDetails(results)
    ensures durations == Durations(results)
  {
    var rows := Rows(results);
    passed, failed, durations := 0, [], [];
    var i := 0;
    while i < |results|
      invariant 0 <= i <= |results|
      invariant passed == Count(rows[..i], Pass)
      invariant failed == FailedDetails(results[..i])
      invariant durations == Durations(results[..i])
    {
      assert rows[..i + 1][..i] == rows[..i];
      assert results[..i + 1][..i] == results[..i];
      var r := results[i];
      if Truthy(r.passed) {
        passed := passed + 1;
      } else {
        failed := failed + [Detail(r)];
      }
      if r.durationMs.Some? {
        durations := durations + [r.durationMs.value];
      }
      i := i + 1;
    }
    assert rows[..|results|] == rows;
    assert results[..|results|] == results;
  }

  /** `generate_module_summary` (rounding left out). */
  method GenerateModuleSummary(results: seq<PlotResult>, moduleName: string) returns (s: ModuleSummary)
    ensures s == ModuleSummaryOf(results, moduleName)
  {
    var passed, failed, durations := CountResults(results);
    var stats := TallyByType(Rows(results));
    var total := 0.0;
    var i := 0;
    while i < |durations|
      invariant 0 <= i <= |durations|
      invariant total == SumOf(durations[..i])
    {
      assert durations[..i + 1][..i] == durations[..i];
      total := total + durations[i];
      i := i + 1;
    }
    assert durations[..|durations|] == durations;
    var average := if durations == [] then 0.0 else total / |durations| as real;
    s := ModuleSummary(moduleName, MakeSummary(|results|, passed), average, stats, failed);
  }
}
