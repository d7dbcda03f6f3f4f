/** The helpers of the end-to-end test runner: configuration validation,
    classification of error messages and the run report. Float parsing of
    strings is a parameter; the clock reading of the report is left out. */
module SystemTestUtils {
  import opened Wrappers
  import opened PyText
  import opened PyValue
  import opened Tally

  /** The default end-to-end configuration. */
  function DefaultConfig(): (d: Dict<Value>)
    ensures DistinctKeys(d)
  {
    [("base_url", PyStr("http://127.0.0.1:4000")), ("test_username", PyStr("cxk")),
     ("test_password", PyStr("cxk")), ("headless", PyBool(false)), ("timeout", PyInt(30))]
  }

  const RequiredFields: seq<string> := ["base_url", "test_username", "test_password"]

  const DefaultTimeout := 30

  /** The first required field, in order, that is missing or falsy. */
  function MissingField(d: Dict<Value>, fields: seq<string>): (r: Option<string>)
    ensures r.None? <==> forall k :: 0 <= k < |fields| ==> Truthy(Get(d, fields[k]).GetOr(PyNone))
    ensures r.Some? ==> exists k :: (0 <= k < |fields| && fields[k] == r.value
      && !Truthy(Get(d, fields[k]).GetOr(PyNone))
      && forall j :: 0 <= j < k ==> Truthy(Get(d, fields[j]).GetOr(PyNone)))
  {
    if fields == [] then None
    else if !Truthy(Get(d, fields[0]).GetOr(PyNone)) then Some(fields[0])
    else
      var r := MissingField(d, fields[1..]);
      assert r.Some? ==> exists k :: (0 <= k < |fields| && fields[k] == r.value
        && !Truthy(Get(d, fields[k]).GetOr(PyNone))
        && forall j :: 0 <= j < k ==> Truthy(Get(d, fields[j]).GetOr(PyNone))) by {
        if r.Some? {
          var k :| 0 <= k < |fields| - 1 && fields[1..][k] == r.value
            && !Truthy(Get(d, fields[1..][k]).GetOr(PyNone))
            && forall j :: 0 <= j < k ==> Truthy(Get(d, fields[1..][j]).GetOr(PyNone));
          assert forall j :: 0 <= j < k + 1 ==> Truthy(Get(d, fields[j]).GetOr(PyNone)) by {
            forall j | 0 <= j < k + 1 ensures Truthy(Get(d, fields[j]).GetOr(PyNone)) {
              if j > 0 {
                assert fields[j] == fields[1..][j - 1];
              }
            }
          }
          assert fields[k + 1] == r.value;
        }
      }
      r
  }

  /** `headless` after validation: kept when a bool, else its truthiness. */
  function HeadlessValue(v: Value): (r: Value)
    ensures r.PyBool?
    ensures v.PyBool? ==> r == v
  {
    if v.PyBool? then v else PyBool(Truthy(v))
  }

  /** `timeout` after validation: kept when a number, else `float()` of it,
      and 30 when that raises. */
  function TimeoutValue(v: Value, parseFloat: string -> Option<real>): (r: Value)
    ensures IsNumber(r)
    ensures IsNumber(v) ==> r == v
    ensures !IsNumber(v) && !(v.PyStr? && parseFloat(v.s).Some?) ==> r == PyInt(DefaultTimeout)
  {
    if IsNumber(v) then v
    else if v.PyStr? && parseFloat(v.s).Some? then PyFloat(parseFloat(v.s).value)
    else PyInt(DefaultTimeout)
  }

  /** `validate_test_config`: defaults overridden key by key, required
      fields checked in order, then `headless` and `timeout` normalised. */
  function ValidateTestConfig(config: Dict<Value>, parseFloat: string -> Option<real>): Result<Dict<Value>, string> {
    var merged := Merge(DefaultConfig(), config);
    match MissingField(merged, RequiredFields)
    case Some(field) => Err("缺少必要配置项: " + field)
    case None =>
      var withHeadless := Set(merged, "headless", HeadlessValue(Get(merged, "headless").GetOr(PyBool(false))));
      Ok(Set(withHeadless, "timeout", TimeoutValue(Get(withHeadless, "timeout").GetOr(PyInt(DefaultTimeout)), parseFloat)))
  }

  /** The caller's value wins over the default for every key; the default
      fills every key the caller left out. */
  lemma MergedValue(config: Dict<Value>, k: string)
    requires DistinctKeys(config)
    ensures Get(Merge(DefaultConfig(), config), k) ==
      if HasKey(config, k) then Get(config, k) else Get(DefaultConfig(), k)
  {
    GetMerge(DefaultConfig(), config, k);
  }

  /** The validated configuration: the first missing required field is
      reported; otherwise every key keeps its merged value, except that
      `headless` becomes a bool and `timeout` a number. */
  lemma ValidateTestConfigResult(config: Dict<Value>, parseFloat: string -> Option<real>, k: string)
    requires DistinctKeys(config)
    ensures var merged := Merge(DefaultConfig(), config);
      var r := ValidateTestConfig(config, parseFloat);
      (r.Err? <==> MissingField(merged, RequiredFields).Some?)
      && (r.Err? ==> r.error == "缺少必要配置项: " + MissingField(merged, RequiredFields).value)
      && (r.Ok? ==>
            Get(r.value, "headless").Some? && Get(r.value, "headless").value.PyBool?
            && Get(r.value, "timeout").Some? && IsNumber(Get(r.value, "timeout").value)
            && (k != "headless" && k != "timeout" ==> Get(r.value, k) == Get(merged, k)))
  {
    var merged := Merge(DefaultConfig(), config);
    if MissingField(merged, RequiredFields).None? {
      var withHeadless := Set(merged, "headless", HeadlessValue(Get(merged, "headless").GetOr(PyBool(false))));
      var t := TimeoutValue(Get(withHeadless, "timeout").GetOr(PyInt(DefaultTimeout)), parseFloat);
      GetSet(merged, "headless", HeadlessValue(Get(merged, "headless").GetOr(PyBool(false))), k);
      GetSet(withHeadless, "timeout", t, k);
      GetSet(withHeadless, "timeout", t, "timeout");
      GetSet(merged, "headless", HeadlessValue(Get(merged, "headless").GetOr(PyBool(false))), "headless");
      GetSet(withHeadless, "timeout", t, "headless");
    }
  }

  // ---------------------------------------------------------------------
  // _categorize_error

  /** The categories in the order they are tried, each with its keywords. */
  function Categories(): seq<(string, seq<string>)> {
    [("BROWSER_ERROR", ["chrome", "browser", "driver", "webdriver"]),
     ("NETWORK_ERROR", ["network", "connection", "timeout", "网络", "连接", "超时"]),
     ("ELEMENT_ERROR", ["element", "selector", "not found", "未找到", "无法找到"]),
     ("LOGIN_ERROR", ["login", "登录", "authentication", "认证"]),
     ("UPLOAD_ERROR", ["upload", "file", "上传", "文件"]),
     ("DETECTION_ERROR", ["detection", "检测", "result", "结果"]),
     ("PAGE_LOAD_ERROR", ["page", "load", "页面", "加载"])]
  }

  predicate AnyKeyword(msg: string, keywords: seq<string>) {
    exists k :: 0 <= k < |keywords| && Contains(msg, keywords[k])
  }

  /** The first category, in order, one of whose keywords occurs. */
  function FirstCategory(msg: string, cats: seq<(string, seq<string>)>): (r: string)
    ensures r == "OTHER_ERROR" || exists i :: 0 <= i < |cats| && r == cats[i].0
  {
    if cats == [] then "OTHER_ERROR"
    else if AnyKeyword(msg, cats[0].1) then cats[0].0
    else
      var r := FirstCategory(msg, cats[1..]);
      assert r != "OTHER_ERROR" ==> exists i :: 0 <= i < |cats| && r == cats[i].0 by {
        if r != "OTHER_ERROR" {
          var i :| 0 <= i < |cats| - 1 && r == cats[1..][i].0;
          assert r == cats[i + 1].0;
        }
      }
      r
  }

  /** The winning category is the first whose keywords match; with no match
      the message is OTHER_ERROR. */
  lemma {:induction false} FirstCategoryWins(msg: string, cats: seq<(string, seq<string>)>, i: int)
    requires 0 <= i < |cats| && AnyKeyword(msg, cats[i].1)
    requires forall j :: 0 <= j < i ==> !AnyKeyword(msg, cats[j].1)
    ensures FirstCategory(msg, cats) == cats[i].0
    decreases i
  {
    if i > 0 {
      FirstCategoryWins(msg, cats[1..], i - 1);
    }
  }

  lemma {:induction false} NoCategoryIsOther(msg: string, cats: seq<(string, seq<string>)>)
    requires forall j :: 0 <= j < |cats| ==> !AnyKeyword(msg, cats[j].1)
    ensures FirstCategory(msg, cats) == "OTHER_ERROR"
    decreases |cats|
  {
    if cats != [] {
      NoCategoryIsOther(msg, cats[1..]);
    }
  }

  /** `_categorize_error`. */
  function CategorizeError(message: string): (r: string)
    ensures r == "UNKNOWN" <==> message == []
  {
    if message == [] then "UNKNOWN" else FirstCategory(Lower(message), Categories())
  }

  /** A non-empty message falls in the first category, in order, one of
      whose keywords occurs in its lower-case form. */
  lemma CategorizeErrorOrder(message: string, i: int)
    requires message != []
    requires 0 <= i < |Categories()| && AnyKeyword(Lower(message), Categories()[i].1)
    requires forall j :: 0 <= j < i ==> !AnyKeyword(Lower(message), Categories()[j].1)
    ensures CategorizeError(message) == Categories()[i].0
  {
    FirstCategoryWins(Lower(message), Categories(), i);
  }

  // ---------------------------------------------------------------------
  // generate_test_report

  /** One result of a run; missing keys read as their defaults
      (`execution_time` 0, `attempt` 1, `error_message` ""). */
  datatype E2EResult = E2EResult(status: Option<string>, executionTime: real, attempt: int, errorMessage: string)

  function Rows(results: seq<E2EResult>): (rows: seq<(string, Outcome)>)
    ensures |rows| == |results|
    ensures forall k :: 0 <= k < |results| ==>
      rows[k].1 == (if results[k].status == Some("PASSED") then Pass else Fail)
  {
    seq(|results|, k requires 0 <= k < |results| =>
      ("", if results[k].status == Some("PASSED") then Pass else Fail))
  }

  function TotalTime(results: seq<E2EResult>): real
    decreases |results|
  {
    if results == [] then 0.0 else TotalTime(results[..|results| - 1]) + results[|results| - 1].executionTime
  }

  /** Σ(attempt − 1) over the results. */
  function TotalRetries(results: seq<E2EResult>): int
    decreases |results|
  {
    if results == [] then 0 else TotalRetries(results[..|results| - 1]) + (results[|results| - 1].attempt - 1)
  }

  /** With every attempt at least 1, the retries are never negative and are
      zero exactly when every result succeeded at its first attempt. */
  lemma {:induction false} RetriesNonNegative(results: seq<E2EResult>)
    requires forall k :: 0 <= k < |results| ==> results[k].attempt >= 1
    ensures TotalRetries(results) >= 0
    ensures TotalRetries(results) == 0 <==> forall k :: 0 <= k < |results| ==> results[k].attempt == 1
    decreases |results|
  {
    if results != [] {
      var init := results[..|results| - 1];
      RetriesNonNegative(init);
      assert forall k :: 0 <= k < |init| ==> init[k] == results[k];
    }
  }

  /** The failure counts per category: only FAILED results count. */
  function FailedByType(results: seq<E2EResult>): Dict<nat>
    decreases |results|
  {
    if results == [] then []
    else
      var d := FailedByType(results[..|results| - 1]);
      var last := results[|results| - 1];
      if last.status == Some("FAILED") then
        var cat := CategorizeError(last.errorMessage);
        Increment(d, cat)
      else d
  }

  function CountFailed(results: seq<E2EResult>): (n: nat)
    ensures n <= |results|
    decreases |results|
  {
    if results == [] then 0
    else CountFailed(results[..|results| - 1]) + (if results[|results| - 1].status == Some("FAILED") then 1 else 0)
  }

  /** FAILED results are among the results not PASSED. */
  lemma {:induction false} FailedAmongNotPassed(results: seq<E2EResult>)
    ensures CountFailed(results) <= |results| - Count(Rows(results), Pass)
    decreases |results|
  {
    if results != [] {
      var init := results[..|results| - 1];
      FailedAmongNotPassed(init);
      assert Rows(results)[..|results| - 1] == Rows(init);
    }
  }

  /** The categories' counts add up to the FAILED results. */
  lemma {:induction false} FailedByTypeCounts(results: seq<E2EResult>)
    ensures SumValues(FailedByType(results)) == CountFailed(results)
    decreases |results|
  {
    if results != [] {
      var init := results[..|results| - 1];
      FailedByTypeCounts(init);
      var last := results[|results| - 1];
      if last.status == Some("FAILED") {
        IncrementSum(FailedByType(init), CategorizeError(last.errorMessage));
      }
    }
  }

  datatype TestReport = TestReport(summary: Summary, totalExecutionTime: real, avgExecutionTime: real,
                                   totalRetries: int, failedByType: Dict<nat>, results: seq<E2EResult>)

  /** `generate_test_report` (rounding left out). */
  function ReportOf(results: seq<E2EResult>): TestReport {
    var total := TotalTime(results);
    TestReport(MakeSummary(|results|, Count(Rows(results), Pass)), total,
               if results == [] then 0.0 else total / |results| as real,
               TotalRetries(results), FailedByType(results), results)
  }

  /** The counting loop of the report. */
  method GenerateTestReport(results: seq<E2EResult>) returns (report: TestReport)
    ensures report == ReportOf(results)
  {
    var passed, time, retries := 0, 0.0, 0;
    var failedByType: Dict<nat> := [];
    var rows := Rows(results);
    var i := 0;
    while i < |results|
      invariant 0 <= i <= |results|
      invariant passed == Count(rows[..i], Pass)
      invariant time == TotalTime(results[..i])
      invariant retries == TotalRetries(results[..i])
      invariant failedByType == FailedByType(results[..i])
    {
      assert rows[..i + 1][..i] == rows[..i];
      assert results[..i + 1][..i] == results[..i];
      var r := results[i];
      if r.status == Some("PASSED") {
        passed := passed + 1;
      }
      time := time + r.executionTime;
      retries := retries + (r.attempt - 1);
      if r.status == Some("FAILED") {
        var cat := CategorizeError(r.errorMessage);
        failedByType := Increment(failedByType, cat);
      }
      i := i + 1;
    }
    assert rows[..|results|] == rows;
    assert results[..|results|] == results;
    var average := if results == [] then 0.0 else time / |results| as real;
    report := TestReport(MakeSummary(|results|, passed), time, average, retries, failedByType, results);
  }
}
