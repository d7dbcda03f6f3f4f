/** The mocked plot controller of the test platform: `get_logs` validates a
    plot id and returns the plot's logs sorted by their formatted
    timestamp; `get_plot_by_id` checks an id against a store of plots and
    three failure-simulation flags. Each has an executor that maps the
    outcome to a status and a runner that tallies the results. UUID
    parsing is a parameter. */
module PlotControllerTest {
  import opened Wrappers
  import opened PyText
  import opened PyValue
  import opened PyDateTime
  import opened Tally

  datatype LogDetail = LogDetail(logId: string, timeStamp: string, diseaseName: string, content: string,
                                 imagesURL: string)

  datatype Log = Log(logId: string, plotId: string, timeStamp: DateTime, diseaseName: string,
                     content: string, imagesURL: string)

  datatype User = User(userId: string, username: string, email: string)

  datatype Plant = Plant(plantId: string, plantName: string, plantType: string)

  /** A plot; its user or plant link may be missing. */
  datatype Plot = Plot(plotId: string, user: Option<User>, plant: Option<Plant>, plotName: string,
                       location: string, area: real, createTime: DateTime)

  datatype ExcKind = ValueError | TypeError | AttributeError | GenericException

  /** A raised exception other than `HTTPException`: its class and text. */
  datatype Exc = Exc(kind: ExcKind, msg: string)

  datatype HttpError = HttpError(status: int, detail: string)

  // ---------------------------------------------------------------------
  // The stored data

  const PlotWithLogs := "550e8400-e29b-41d4-a716-446655440000"
  const PlotWithoutLogs := "550e8400-e29b-41d4-a716-446655440001"
  const PlotWithOneLog := "550e8400-e29b-41d4-a716-446655440002"
  const NullTimestampPlot := "550e8400-e29b-41d4-a716-446655440003"
  const MissingPlot := "550e8400-e29b-41d4-a716-446655440999"
  const PlotWith1000Logs := "550e8400-e29b-41d4-a716-446655441000"
  const PlotWith10000Logs := "550e8400-e29b-41d4-a716-446655442000"

  function At10(year: nat, month: nat, day: nat): DateTime {
    DateTime(year, month, day, 10, 0, 0)
  }

  /** Log `i` (from 1) of the plot with a thousand logs. */
  function ThousandLog(i: nat): Log {
    Log("log_" + Pad(i, 4), PlotWith1000Logs, At10(2024, 1, i % 30 + 1), "病害" + NatToString(i),
        "检测到病害" + NatToString(i), "http://example.com/image" + NatToString(i) + ".jpg")
  }

  /** Log `i` (from 1) of the plot with ten thousand logs. */
  function TenThousandLog(i: nat): Log {
    Log("log_" + Pad(i, 5), PlotWith10000Logs, At10(2024, i % 12 + 1, i % 28 + 1), "病害" + NatToString(i),
        "检测到病害" + NatToString(i), "http://example.com/image" + NatToString(i) + ".jpg")
  }

  function InitialLogs(): map<string, seq<Log>> {
    map[PlotWithLogs := [
          Log("log_001", PlotWithLogs, At10(2024, 1, 1), "病害1", "检测到病害1，建议：及时处理", "http://example.com/image1.jpg"),
          Log("log_002", PlotWithLogs, At10(2024, 1, 2), "病害2", "检测到病害2，建议：喷洒农药", "http://example.com/image2.jpg"),
          Log("log_003", PlotWithLogs, At10(2024, 1, 3), "病害3", "检测到病害3，建议：增加通风", "http://example.com/image3.jpg")],
        PlotWithoutLogs := [],
        PlotWithOneLog := [
          Log("log_004", PlotWithOneLog, At10(2024, 1, 1), "病害1", "检测到病害1", "http://example.com/image4.jpg")],
        PlotWith1000Logs := seq(1000, k requires 0 <= k => ThousandLog(k + 1)),
        PlotWith10000Logs := seq(10000, k requires 0 <= k => TenThousandLog(k + 1))]
  }

  const User1 := User("user_001", "testuser1", "test1@example.com")
  const User2 := User("user_002", "testuser2", "test2@example.com")
  const Plant1 := Plant("plant_001", "番茄", "蔬菜")
  const Plant2 := Plant("plant_002", "玉米", "谷物")

  /** "a" repeated `n` times. */
  function As(n: nat): (s: string)
    ensures |s| == n
  {
    seq(n, _ => 'a')
  }

  const StandardId := "plot_" + Zeros(32)

  function InitialPlots(): map<string, Plot> {
    map["plot123" := Plot("plot123", Some(User1), Some(Plant1), "测试地块1", "北京市朝阳区", 100.5, At10(2024, 1, 1)),
        "plot456" := Plot("plot456", Some(User2), Some(Plant2), "测试地块2", "上海市浦东区", 200.0, At10(2024, 1, 2)),
        "a" := Plot("a", Some(User1), Some(Plant1), "最短ID地块", "测试位置", 50.0, At10(2024, 1, 3)),
        StandardId := Plot(StandardId, Some(User1), Some(Plant1), "标准长度地块", "测试位置", 75.0, At10(2024, 1, 4)),
        As(255) := Plot(As(255), Some(User2), Some(Plant2), "最长ID地块", "测试位置", 300.0, At10(2024, 1, 5)),
        "plot789" := Plot("plot789", None, Some(Plant1), "缺失用户关联地块", "测试位置", 120.0, At10(2024, 1, 6)),
        "plot012" := Plot("plot012", Some(User1), None, "缺失植物关联地块", "测试位置", 80.0, At10(2024, 1, 7))]
  }

  /** Every stored plot is filed under its own id. */
  lemma InitialPlotsKeyedById()
    ensures forall k :: k in InitialPlots() ==> InitialPlots()[k].plotId == k
  {
  }

  // ---------------------------------------------------------------------
  // get_logs: validation and sorting

  function ToDetail(log: Log): LogDetail {
    LogDetail(log.logId, Format(log.timeStamp), log.diseaseName, log.content, log.imagesURL)
  }

  function Details(logs: seq<Log>): (ds: seq<LogDetail>)
    ensures |ds| == |logs| && forall k :: 0 <= k < |logs| ==> ds[k] == ToDetail(logs[k])
  {
    seq(|logs|, k requires 0 <= k < |logs| => ToDetail(logs[k]))
  }

  /** Non-decreasing by timestamp text. */
  predicate Sorted(ds: seq<LogDetail>) {
    forall i, j :: 0 <= i < j < |ds| ==> !StrLt(ds[j].timeStamp, ds[i].timeStamp)
  }

  /** Insert after every element whose timestamp is not later. */
  function Insert(ds: seq<LogDetail>, x: LogDetail): (r: seq<LogDetail>)
    ensures |r| == |ds| + 1
  {
    if ds == [] then [x]
    else if StrLt(x.timeStamp, ds[0].timeStamp) then [x] + ds
    else
      assert ds == [ds[0]] + ds[1..];
      [ds[0]] + Insert(ds[1..], x)
  }

  /** `list.sort(key=lambda d: d.timeStamp)` as repeated stable insertion. */
  function SortByTimeStamp(ds: seq<LogDetail>): (r: seq<LogDetail>)
    ensures |r| == |ds|
  {
    if ds == [] then []
    else
      assert ds == ds[..|ds| - 1] + [ds[|ds| - 1]];
      Insert(SortByTimeStamp(ds[..|ds| - 1]), ds[|ds| - 1])
  }

  /** Insertion adds exactly the one element. */
  lemma {:induction false} InsertMultiset(ds: seq<LogDetail>, x: LogDetail)
    ensures multiset(Insert(ds, x)) == multiset(ds) + multiset{x}
  {
    if ds != [] && !StrLt(x.timeStamp, ds[0].timeStamp) {
      InsertMultiset(ds[1..], x);
      assert ds == [ds[0]] + ds[1..];
    }
  }

  /** Inserting before the first element keeps the order when `x` is
      earlier than it. */
  lemma InsertFrontSorted(ds: seq<LogDetail>, x: LogDetail)
    requires Sorted(ds) && ds != [] && StrLt(x.timeStamp, ds[0].timeStamp)
    ensures Sorted([x] + ds)
  {
    var r := [x] + ds;
    forall j | 0 < j < |r| ensures !StrLt(r[j].timeStamp, x.timeStamp) {
      assert r[j] == ds[j - 1];
      if j == 1 { StrLtIrreflexive(ds[0].timeStamp); }
      if StrLt(r[j].timeStamp, x.timeStamp) {
        StrLtTrans(r[j].timeStamp, x.timeStamp, ds[0].timeStamp);
        assert false;
      }
    }
  }

  /** Nothing inserted after the first element is earlier than it. */
  lemma InsertTailNotEarlier(ds: seq<LogDetail>, x: LogDetail)
    requires Sorted(ds) && ds != [] && !StrLt(x.timeStamp, ds[0].timeStamp)
    ensures forall j :: 0 <= j < |Insert(ds[1..], x)| ==> !StrLt(Insert(ds[1..], x)[j].timeStamp, ds[0].timeStamp)
  {
    var tail := Insert(ds[1..], x);
    InsertMultiset(ds[1..], x);
    forall j | 0 <= j < |tail| ensures !StrLt(tail[j].timeStamp, ds[0].timeStamp) {
      assert tail[j] in multiset(tail);
      if tail[j] != x {
        assert tail[j] in multiset(ds[1..]);
        var k :| 0 <= k < |ds[1..]| && ds[1..][k] == tail[j];
        assert ds[k + 1] == tail[j];
      }
    }
  }

  lemma {:induction false} InsertSorted(ds: seq<LogDetail>, x: LogDetail)
    requires Sorted(ds)
    ensures Sorted(Insert(ds, x))
  {
    if ds == [] {
    } else if StrLt(x.timeStamp, ds[0].timeStamp) {
      InsertFrontSorted(ds, x);
    } else {
      InsertSorted(ds[1..], x);
      InsertTailNotEarlier(ds, x);
    }
  }

  /** The sorted details are ordered by timestamp and hold exactly the
      stored logs. */
  lemma {:induction false} SortedAndPermutation(ds: seq<LogDetail>)
    ensures Sorted(SortByTimeStamp(ds))
    ensures multiset(SortByTimeStamp(ds)) == multiset(ds)
  {
    if ds != [] {
      SortedAndPermutation(ds[..|ds| - 1]);
      InsertSorted(SortByTimeStamp(ds[..|ds| - 1]), ds[|ds| - 1]);
      InsertMultiset(SortByTimeStamp(ds[..|ds| - 1]), ds[|ds| - 1]);
      assert ds == ds[..|ds| - 1] + [ds[|ds| - 1]];
    }
  }

  lemma InsertPasses(ys: seq<LogDetail>, j: nat, x: LogDetail)
    requires j < |ys| && !StrLt(x.timeStamp, ys[j].timeStamp)
    ensures Insert(ys[j..], x) == [ys[j]] + Insert(ys[j + 1..], x)
  {
    assert ys[j..][1..] == ys[j + 1..];
  }

  lemma InsertHere(ys: seq<LogDetail>, j: nat, x: LogDetail)
    requires j <= |ys| && (j == |ys| || StrLt(x.timeStamp, ys[j].timeStamp))
    ensures Insert(ys[j..], x) == [x] + ys[j..]
  {
  }

  lemma SortStep(ds: seq<LogDetail>, i: nat)
    requires i < |ds|
    ensures SortByTimeStamp(ds[..i + 1]) == Insert(SortByTimeStamp(ds[..i]), ds[i])
  {
    assert ds[..i + 1][..i] == ds[..i];
  }

  /** The scan for the insertion point: past every timestamp that is not
      later than `x`'s. */
  method FindSlot(sorted: seq<LogDetail>, x: LogDetail) returns (j: nat)
    ensures j <= |sorted|
    ensures Insert(sorted, x) == sorted[..j] + ([x] + sorted[j..])
  {
    j := 0;
    while j < |sorted| && !StrLt(x.timeStamp, sorted[j].timeStamp)
      invariant 0 <= j <= |sorted|
      invariant Insert(sorted, x) == sorted[..j] + Insert(sorted[j..], x)
    {
      InsertPasses(sorted, j, x);
      assert sorted[..j + 1] == sorted[..j] + [sorted[j]];
      j := j + 1;
    }
    InsertHere(sorted, j, x);
  }

  /** The insertion loop: each detail goes before the first later one. */
  method SortDetails(ds: seq<LogDetail>) returns (sorted: seq<LogDetail>)
    ensures sorted == SortByTimeStamp(ds)
  {
    sorted := [];
    var i := 0;
    while i < |ds|
      invariant 0 <= i <= |ds|
      invariant sorted == SortByTimeStamp(ds[..i])
    {
      var j := FindSlot(sorted, ds[i]);
      SortStep(ds, i);
      sorted := sorted[..j] + ([ds[i]] + sorted[j..]);
      i := i + 1;
    }
    assert ds[..|ds|] == ds;
  }

  /** What `get_logs(plotId)` returns (`None` for the missing plot) or
      raises, given the database-error flag, the store and UUID parsing. */
  function GetLogsSpec(plotId: Option<string>, dbError: bool, logs: map<string, seq<Log>>,
                       isUuid: string -> bool): (r: Result<Option<seq<LogDetail>>, Exc>)
    ensures plotId == Some("") ==> r == Err(Exc(ValueError, "Empty UUID string"))
    ensures plotId.None? ==> r == Err(Exc(TypeError, "NoneType object"))
    ensures plotId.Some? && plotId.value != "" && !isUuid(plotId.value) ==>
      r == Err(Exc(ValueError, "Invalid UUID format"))
    ensures r == Ok(None) <==> plotId == Some(MissingPlot) && isUuid(MissingPlot)
  {
    match plotId
    case None => Err(Exc(TypeError, "NoneType object"))
    case Some(p) =>
      if p == "" then Err(Exc(ValueError, "Empty UUID string"))
      else if p == "invalid-uuid" || !isUuid(p) then Err(Exc(ValueError, "Invalid UUID format"))
      else if p == PlotWithLogs && dbError then Err(Exc(GenericException, "Database connection failed"))
      else if p == MissingPlot then Ok(None)
      else if p == NullTimestampPlot then Err(Exc(AttributeError, "NoneType object has no attribute 'strftime'"))
      else Ok(Some(SortByTimeStamp(Details(if p in logs then logs[p] else []))))
  }

  /** A valid id that is not one of the simulated cases lists exactly the
      plot's logs (none for an unknown plot), ordered by timestamp. */
  lemma GetLogsListsStoredLogs(p: string, dbError: bool, logs: map<string, seq<Log>>, isUuid: string -> bool)
    requires p != "" && p != "invalid-uuid" && isUuid(p)
    requires p != MissingPlot && p != NullTimestampPlot && !(p == PlotWithLogs && dbError)
    ensures GetLogsSpec(Some(p), dbError, logs, isUuid).Ok?
    ensures var ds := GetLogsSpec(Some(p), dbError, logs, isUuid).value;
      ds.Some? && Sorted(ds.value)
      && multiset(ds.value) == multiset(Details(if p in logs then logs[p] else []))
      && (p !in logs ==> ds.value == [])
  {
    SortedAndPermutation(Details(if p in logs then logs[p] else []));
  }

  // ---------------------------------------------------------------------
  // get_plot_by_id

  /** The three failure-simulation flags. */
  datatype Flags = Flags(dbError: bool, validationError: bool, integrityError: bool)

  const NoFlags := Flags(false, false, false)

  const MaxPlotIdLength := 255

  /** What `get_plot_by_id(plotId)` returns or raises. */
  function GetPlotSpec(plotId: Option<string>, flags: Flags, plots: map<string, Plot>): (r: Result<Plot, HttpError>)
    ensures plotId.None? ==> r == Err(HttpError(422, "参数校验失败: plotId不能为null"))
    ensures plotId.Some? && |plotId.value| > MaxPlotIdLength ==> r == Err(HttpError(404, "plotId长度超出限制"))
    ensures r.Err? && plotId.Some? ==> r.error.status == 404
    ensures r.Ok? ==> plotId.Some? && plotId.value in plots && r.value == plots[plotId.value]
    ensures plotId.Some? && plotId.value != "" && plotId.value !in plots ==> r.Err?
  {
    match plotId
    case None => Err(HttpError(422, "参数校验失败: plotId不能为null"))
    case Some(p) =>
      if p == "" then Err(HttpError(404, "plotId不能为空字符串"))
      else if |p| > MaxPlotIdLength then Err(HttpError(404, "plotId长度超出限制"))
      else if p == "plot123" && flags.dbError then Err(HttpError(404, "数据库连接错误"))
      else if p == "invalid" && flags.validationError then Err(HttpError(404, "验证错误信息"))
      else if p == "plot123" && flags.integrityError then Err(HttpError(404, "完整性错误信息"))
      else if p == "nonexistent" || p == "missing" then Err(HttpError(404, "DoesNotExist异常信息"))
      else if p !in plots then Err(HttpError(404, "地块不存在"))
      else if p == "plot789" && plots[p].user.None? then Err(HttpError(404, "关联查询异常: userId为null"))
      else if p == "plot012" && plots[p].plant.None? then Err(HttpError(404, "关联查询异常: plantId为null"))
      else Ok(plots[p])
  }

  /** With the initial store and no flags, an id of exactly 255 characters
      is found, an unknown id is "地块不存在", and a found plot carries the
      id it was looked up by. */
  lemma GetPlotOnInitialStore(p: string)
    requires p != "" && |p| <= MaxPlotIdLength && p !in {"nonexistent", "missing"}
    ensures p !in InitialPlots() ==> GetPlotSpec(Some(p), NoFlags, InitialPlots()) == Err(HttpError(404, "地块不存在"))
    ensures GetPlotSpec(Some(p), NoFlags, InitialPlots()).Ok? ==>
      GetPlotSpec(Some(p), NoFlags, InitialPlots()).value.plotId == p
    ensures p == As(255) ==> GetPlotSpec(Some(p), NoFlags, InitialPlots()).Ok?
  {
    InitialPlotsKeyedById();
  }

  // ---------------------------------------------------------------------
  // Executors and runners

  /** One test result: the statuses and messages compared, and the verdict. */
  datatype CaseResult = CaseResult(testId: string, testType: string, expectedStatus: int, actualStatus: int,
                                   expectedMessage: string, actualMessage: string, passed: bool)

  datatype LogsCase = LogsCase(testId: string, testType: string, plotId: Option<string>,
                               expectedStatus: int, expectedMessage: string,
                               expectedCount: Option<int>, simulateDbError: bool)

  /** The text of the `TypeError` raised for a `None` plot id. */
  const NoneTypeObject := "NoneType" + " object"

  /** The text of the `TypeError` that `len(None)` raises. */
  const LenOfNone := "object of type '" + "NoneType" + "' has no len()"

  lemma NoneTypeMessages()
    ensures Contains(NoneTypeObject, "NoneType") && Contains(LenOfNone, "NoneType")
  {
    ContainsMiddle("", "NoneType", " object");
    assert "" + "NoneType" + " object" == NoneTypeObject;
    ContainsMiddle("object of type '", "NoneType", "' has no len()");
  }

  /** The executor's message for a returned list. */
  function ListMessage(n: nat): string {
    if n == 0 then "成功返回空列表" else if n == 1 then "成功返回单条日志" else "成功返回日志列表"
  }

  /** The status of a raised exception: 422 for a `TypeError` mentioning
      "NoneType", 500 otherwise. */
  function ExceptionStatus(e: Exc): (s: int)
    ensures s == 422 <==> e.kind == TypeError && Contains(e.msg, "NoneType")
    ensures s == 422 || s == 500
  {
    if e.kind == TypeError && Contains(e.msg, "NoneType") then 422 else 500
  }

  /** The result of a raised exception: its status, its text, and a pass
      iff the status matches and the expected message occurs in the text. */
  function RaisedResult(tc: LogsCase, e: Exc): (r: CaseResult)
    ensures r.actualMessage == e.msg && r.actualStatus == ExceptionStatus(e)
    ensures r.passed <==> r.actualStatus == tc.expectedStatus && Contains(e.msg, tc.expectedMessage)
  {
    var status := ExceptionStatus(e);
    CaseResult(tc.testId, tc.testType, tc.expectedStatus, status, tc.expectedMessage, e.msg,
               status == tc.expectedStatus && Contains(e.msg, tc.expectedMessage))
  }

  /** How `_execute_call_get_logs_test` judges what `get_logs` did. A
      `None` result is a 500, unless the case expects a count: then
      `len(None)` raises inside the executor and the case is judged as that
      `TypeError`. */
  function JudgeLogs(tc: LogsCase, outcome: Result<Option<seq<LogDetail>>, Exc>): (r: CaseResult)
    ensures r.testId == tc.testId && r.testType == tc.testType
    ensures r.passed ==> r.actualStatus == tc.expectedStatus
  {
    match outcome
    case Err(e) => RaisedResult(tc, e)
    case Ok(None) =>
      if tc.expectedCount.Some? then RaisedResult(tc, Exc(TypeError, LenOfNone))
      else
        CaseResult(tc.testId, tc.testType, tc.expectedStatus, 500, tc.expectedMessage, "内部服务器错误",
                   500 == tc.expectedStatus)
    case Ok(Some(ds)) =>
      CaseResult(tc.testId, tc.testType, tc.expectedStatus, 200, tc.expectedMessage, ListMessage(|ds|),
                 200 == tc.expectedStatus && (tc.expectedCount.None? || |ds| == tc.expectedCount.value))
  }

  /** `_execute_call_get_logs_test` for one case. */
  function LogsCaseOutcome(tc: LogsCase, logs: map<string, seq<Log>>, isUuid: string -> bool): CaseResult {
    JudgeLogs(tc, GetLogsSpec(tc.plotId, tc.simulateDbError, logs, isUuid))
  }

  /** A missing plot id is a `TypeError` about `NoneType`, judged 422. */
  lemma NullPlotIdIs422(tc: LogsCase, logs: map<string, seq<Log>>, isUuid: string -> bool)
    requires tc.plotId.None?
    ensures LogsCaseOutcome(tc, logs, isUuid).actualStatus == 422
    ensures LogsCaseOutcome(tc, logs, isUuid).actualMessage == NoneTypeObject
  {
    NoneTypeMessages();
  }

  /** The plot that yields `None`: a 500 "内部服务器错误", or, when the case
      expects a count, the 422 of `len(None)`. */
  lemma MissingPlotOutcome(tc: LogsCase, logs: map<string, seq<Log>>, isUuid: string -> bool)
    requires tc.plotId == Some(MissingPlot) && isUuid(MissingPlot)
    ensures var r := LogsCaseOutcome(tc, logs, isUuid);
      if tc.expectedCount.Some? then r.actualStatus == 422 && r.actualMessage == LenOfNone
      else r.actualStatus == 500 && r.actualMessage == "内部服务器错误"
  {
    NoneTypeMessages();
  }

  /** Every other failure of `get_logs` is judged 500. */
  lemma OtherFailuresAre500(tc: LogsCase, logs: map<string, seq<Log>>, isUuid: string -> bool)
    requires tc.plotId.Some?
    requires GetLogsSpec(tc.plotId, tc.simulateDbError, logs, isUuid).Err?
    ensures LogsCaseOutcome(tc, logs, isUuid).actualStatus == 500
  {
  }

  /** A returned list is a 200 that passes iff 200 was expected and the
      expected count, if any, is its length. */
  lemma ListOutcome(tc: LogsCase, logs: map<string, seq<Log>>, isUuid: string -> bool, ds: seq<LogDetail>)
    requires GetLogsSpec(tc.plotId, tc.simulateDbError, logs, isUuid) == Ok(Some(ds))
    ensures LogsCaseOutcome(tc, logs, isUuid).actualStatus == 200
    ensures LogsCaseOutcome(tc, logs, isUuid).passed <==>
      tc.expectedStatus == 200 && (tc.expectedCount.None? || tc.expectedCount.value == |ds|)
  {
  }

  datatype PlotCase = PlotCase(testId: string, testType: string, plotId: Option<string>,
                               expectedStatus: int, expectedMessage: string, setup: Option<string>)

  /** The flags in force during a case: the one named by `setup` is raised. */
  function SetUp(flags: Flags, setup: Option<string>): Flags {
    if setup == Some("simulate_db_error") then flags.(dbError := true)
    else if setup == Some("simulate_validation_error") then flags.(validationError := true)
    else if setup == Some("simulate_integrity_error") then flags.(integrityError := true)
    else flags
  }

  /** The status and message the executor reads off a lookup. */
  function Observe(r: Result<Plot, HttpError>): (int, string) {
    match r
    case Ok(plot) => (200, "成功返回Plot对象，plotId: " + plot.plotId)
    case Err(e) => (e.status, e.detail)
  }

  /** The verdict: the status matches and the expected message is empty or
      occurs in the actual one. */
  function Verdict(tc: PlotCase, status: int, message: string): CaseResult {
    CaseResult(tc.testId, tc.testType, tc.expectedStatus, status, tc.expectedMessage, message,
               status == tc.expectedStatus && (tc.expectedMessage == "" || Contains(message, tc.expectedMessage)))
  }

  /** `_execute_get_plot_by_id_test` for one case. */
  function PlotCaseOutcome(tc: PlotCase, flags: Flags, plots: map<string, Plot>): (r: CaseResult)
    ensures r.passed <==> r.actualStatus == tc.expectedStatus
                          && (tc.expectedMessage == "" || Contains(r.actualMessage, tc.expectedMessage))
    ensures r.actualStatus == 200 <==> GetPlotSpec(tc.plotId, SetUp(flags, tc.setup), plots).Ok?
  {
    var (status, message) := Observe(GetPlotSpec(tc.plotId, SetUp(flags, tc.setup), plots));
    Verdict(tc, status, message)
  }

  function CountPassed(results: seq<CaseResult>): (n: nat)
    ensures n <= |results|
  {
    if results == [] then 0 else (if results[0].passed then 1 else 0) + CountPassed(results[1..])
  }

  /** (test type, outcome) rows for the per-type statistics. */
  function Rows(results: seq<CaseResult>): (rows: seq<(string, Outcome)>)
    ensures |rows| == |results|
    ensures forall k :: 0 <= k < |results| ==>
      rows[k] == (results[k].testType, if results[k].passed then Pass else Fail)
  {
    seq(|results|, k requires 0 <= k < |results| => (results[k].testType, if results[k].passed then Pass else Fail))
  }

  lemma {:induction false} PassedRows(results: seq<CaseResult>)
    ensures Count(Rows(results), Pass) == CountPassed(results)
    ensures Count(Rows(results), Error) == 0
    decreases |results|
  {
    if results != [] {
      var init := results[..|results| - 1];
      PassedRows(init);
      assert Rows(results)[..|results| - 1] == Rows(init);
      CountPassedSnoc(init, results[|results| - 1]);
      assert results == init + [results[|results| - 1]];
    }
  }

  lemma {:induction false} CountPassedSnoc(rs: seq<CaseResult>, r: CaseResult)
    ensures CountPassed(rs + [r]) == CountPassed(rs) + (if r.passed then 1 else 0)
    decreases |rs|
  {
    if rs != [] {
      assert (rs + [r])[1..] == rs[1..] + [r];
      CountPassedSnoc(rs[1..], r);
    } else {
      assert [] + [r] == [r];
    }
  }

  /** A runner's summary: totals, and per test type the number of cases and
      of passed cases (failed ones in `failed`). */
  datatype RunReport = RunReport(summary: Summary, typeStatistics: Dict<Stat>, results: seq<CaseResult>)

  /** Per-type totals add up to the number of cases and per-type passes to
      the number of passed cases. */
  lemma ReportAddsUp(results: seq<CaseResult>)
    ensures Sum(ByType(Rows(results)), Total) == |results|
    ensures Sum(ByType(Rows(results)), Passed) == CountPassed(results)
    ensures Sum(ByType(Rows(results)), Errors) == 0
  {
    ByTypeSums(Rows(results), Total);
    ByTypeSums(Rows(results), Passed);
    ByTypeSums(Rows(results), Errors);
    PassedRows(results);
  }

  class PlotControllerTestService {
    var mockLogs: map<string, seq<Log>>
    var mockPlots: map<string, Plot>
    var simulateDbError: bool
    var simulateValidationError: bool
    var simulateIntegrityError: bool

    constructor()
      ensures mockLogs == InitialLogs() && mockPlots == InitialPlots()
      ensures !simulateDbError && !simulateValidationError && !simulateIntegrityError
    {
      mockLogs := InitialLogs();
      mockPlots := InitialPlots();
      simulateDbError := false;
      simulateValidationError := false;
      simulateIntegrityError := false;
    }

    function CurrentFlags(): Flags
      reads this
    {
      Flags(simulateDbError, simulateValidationError, simulateIntegrityError)
    }

    /** `get_logs(plotId)`: the checks, then the details sorted in place. */
    method GetLogs(plotId: Option<string>, isUuid: string -> bool)
      returns (r: Result<Option<seq<LogDetail>>, Exc>)
      ensures r == GetLogsSpec(plotId, simulateDbError, mockLogs, isUuid)
    {
      if plotId == Some("") {
        return Err(Exc(ValueError, "Empty UUID string"));
      }
      if plotId.None? {
        return Err(Exc(TypeError, "NoneType object"));
      }
      var p := plotId.value;
      if p == "invalid-uuid" || !isUuid(p) {
        return Err(Exc(ValueError, "Invalid UUID format"));
      }
      if p == PlotWithLogs && simulateDbError {
        return Err(Exc(GenericException, "Database connection failed"));
      }
      if p == MissingPlot {
        return Ok(None);
      }
      if p == NullTimestampPlot {
        return Err(Exc(AttributeError, "NoneType object has no attribute 'strftime'"));
      }
      var logs := if p in mockLogs then mockLogs[p] else [];
      var details := SortDetails(Details(logs));
      return Ok(Some(details));
    }

    /** `get_plot_by_id(plotId)`. */
    method GetPlotById(plotId: Option<string>) returns (r: Result<Plot, HttpError>)
      ensures r == GetPlotSpec(plotId, CurrentFlags(), mockPlots)
    {
      r := GetPlotSpec(plotId, CurrentFlags(), mockPlots);
    }

    /** `_execute_call_get_logs_test`: the database flag is set or cleared
        for this case and stays so afterwards. */
    method ExecuteCallGetLogsTest(tc: LogsCase, isUuid: string -> bool) returns (res: CaseResult)
      modifies this
      ensures simulateDbError == tc.simulateDbError
      ensures mockLogs == old(mockLogs) && mockPlots == old(mockPlots)
      ensures simulateValidationError == old(simulateValidationError)
      ensures simulateIntegrityError == old(simulateIntegrityError)
      ensures res == LogsCaseOutcome(tc, mockLogs, isUuid)
    {
      simulateDbError := tc.simulateDbError;
      var r := GetLogs(tc.plotId, isUuid);
      res := JudgeLogs(tc, r);
    }

    /** `_execute_get_plot_by_id_test`: raise the flag the case names, run
        it, and clear all three flags afterwards. */
    method ExecuteGetPlotByIdTest(tc: PlotCase) returns (res: CaseResult)
      modifies this
      ensures res == PlotCaseOutcome(tc, old(CurrentFlags()), mockPlots)
      ensures CurrentFlags() == NoFlags
      ensures mockLogs == old(mockLogs) && mockPlots == old(mockPlots)
    {
      RaiseFlag(tc.setup);
      var r := GetPlotById(tc.plotId);
      var (status, message) := Observe(r);
      res := Verdict(tc, status, message);
      ClearFlags();
    }

    /** The setup step of a case: raise the flag it names. */
    method RaiseFlag(setup: Option<string>)
      modifies this
      ensures CurrentFlags() == SetUp(old(CurrentFlags()), setup)
      ensures mockLogs == old(mockLogs) && mockPlots == old(mockPlots)
    {
      if setup == Some("simulate_db_error") {
        simulateDbError := true;
      } else if setup == Some("simulate_validation_error") {
        simulateValidationError := true;
      } else if setup == Some("simulate_integrity_error") {
        simulateIntegrityError := true;
      }
    }

    /** The `finally` step of a case: clear all three flags. */
    method ClearFlags()
      modifies this
      ensures CurrentFlags() == NoFlags
      ensures mockLogs == old(mockLogs) && mockPlots == old(mockPlots)
    {
      simulateDbError, simulateValidationError, simulateIntegrityError := false, false, false;
    }

    /** `run_call_get_logs_tests`. */
    method RunCallGetLogsTests(cases: seq<LogsCase>, isUuid: string -> bool) returns (report: RunReport)
      modifies this
      ensures |report.results| == |cases|
      ensures forall i :: 0 <= i < |cases| ==> report.results[i] == LogsCaseOutcome(cases[i], old(mockLogs), isUuid)
      ensures report.summary == MakeSummary(|cases|, CountPassed(report.results))
      ensures report.typeStatistics == ByType(Rows(report.results))
      ensures mockLogs == old(mockLogs) && mockPlots == old(mockPlots)
      ensures |cases| > 0 ==> simulateDbError == cases[|cases| - 1].simulateDbError
      ensures |cases| == 0 ==> simulateDbError == old(simulateDbError)
      ensures simulateValidationError == old(simulateValidationError)
      ensures simulateIntegrityError == old(simulateIntegrityError)
    {
      var results: seq<CaseResult> := [];
      var i := 0;
      while i < |cases|
        invariant 0 <= i <= |cases| && |results| == i
        invariant mockLogs == old(mockLogs) && mockPlots == old(mockPlots)
        invariant forall j :: 0 <= j < i ==> results[j] == LogsCaseOutcome(cases[j], old(mockLogs), isUuid)
        invariant i > 0 ==> simulateDbError == cases[i - 1].simulateDbError
        invariant i == 0 ==> simulateDbError == old(simulateDbError)
        invariant simulateValidationError == old(simulateValidationError)
        invariant simulateIntegrityError == old(simulateIntegrityError)
      {
        var res := ExecuteCallGetLogsTest(cases[i], isUuid);
        results := results + [res];
        i := i + 1;
      }
      var stats := TallyByType(Rows(results));
      report := RunReport(MakeSummary(|cases|, CountPassed(results)), stats, results);
    }

    /** `run_get_plot_by_id_tests`: the first case runs with the flags as
        found, every later one with all flags cleared. */
    method RunGetPlotByIdTests(cases: seq<PlotCase>) returns (report: RunReport)
      modifies this
      ensures |report.results| == |cases|
      ensures forall i :: 0 <= i < |cases| ==>
        report.results[i] == PlotCaseOutcome(cases[i], if i == 0 then old(CurrentFlags()) else NoFlags, old(mockPlots))
      ensures report.summary == MakeSummary(|cases|, CountPassed(report.results))
      ensures report.typeStatistics == ByType(Rows(report.results))
      ensures |cases| > 0 ==> CurrentFlags() == NoFlags
      ensures |cases| == 0 ==> CurrentFlags() == old(CurrentFlags())
      ensures mockLogs == old(mockLogs) && mockPlots == old(mockPlots)
    {
      var results: seq<CaseResult> := [];
      var i := 0;
      while i < |cases|
        invariant 0 <= i <= |cases| && |results| == i
        invariant mockLogs == old(mockLogs) && mockPlots == old(mockPlots)
        invariant i > 0 ==> CurrentFlags() == NoFlags
        invariant i == 0 ==> CurrentFlags() == old(CurrentFlags())
        invariant forall j :: 0 <= j < i ==>
          results[j] == PlotCaseOutcome(cases[j], if j == 0 then old(CurrentFlags()) else NoFlags, old(mockPlots))
      {
        var res := ExecuteGetPlotByIdTest(cases[i]);
        results := results + [res];
        i := i + 1;
      }
      var stats := TallyByType(Rows(results));
      report := RunReport(MakeSummary(|cases|, CountPassed(results)), stats, results);
    }
  }
}
