/** The unit-test runner of the test platform: resolve a dotted target, run
    every test case against it and summarise the outcomes. Importing the
    target and calling it are Python reflection; here they are parameters. */
module UnitService {
  import opened Wrappers
  import opened PyText
  import opened PyValue
  import opened Tally

  // ---------------------------------------------------------------------
  // _parse_target

  datatype TargetKind = ClassMethod | ModuleFunction

  datatype Target = Target(kind: TargetKind, modulePath: string, targetName: string)

  /** `_parse_target(class_name, method_name)`: three or more dotted parts
      name a class (module path, then class); fewer name a module. */
  function ParseTarget(className: string, methodName: string): (t: Target)
    ensures var parts := Split(className, ".");
      if |parts| >= 3 then
        t.kind == ClassMethod && t.targetName == parts[|parts| - 1] + "." + methodName
        && t.modulePath + "." + parts[|parts| - 1] == className
      else t == Target(ModuleFunction, className, methodName)
  {
    var parts := Split(className, ".");
    if |parts| >= 3 then
      var modulePath := Join(parts[..|parts| - 1], ".");
      assert modulePath + "." + parts[|parts| - 1] == className by {
        JoinSplit(className, ".");
        JoinLast(parts, ".");
      }
      Target(ClassMethod, modulePath, parts[|parts| - 1] + "." + methodName)
    else Target(ModuleFunction, className, methodName)
  }

  /** Joining all parts is joining all but the last, then the last. */
  lemma {:induction false} JoinLast(parts: seq<string>, sep: string)
    requires |parts| >= 2
    ensures Join(parts, sep) == Join(parts[..|parts| - 1], sep) + sep + parts[|parts| - 1]
    decreases |parts|
  {
    if |parts| > 2 {
      JoinLast(parts[1..], sep);
      assert parts[1..][..|parts| - 2] == parts[..|parts| - 1][1..];
    }
  }

  // ---------------------------------------------------------------------
  // _extract_input_params

  /** Keys of a test case that are never passed to the target. */
  const ExcludedKeys: set<string> := {"ID", "期望结果", "测试方法", "测试名称", "测试描述"}

  predicate IsParam(key: string, paramTypes: Dict<string>) {
    key !in ExcludedKeys && HasKey(paramTypes, key)
  }

  /** The parameters of a test case: its entries, in order, whose key is a
      declared parameter and not one of the excluded keys. */
  function InputParams(testCase: Dict<Value>, paramTypes: Dict<string>): Dict<Value>
    decreases |testCase|
  {
    if testCase == [] then []
    else
      var init := InputParams(testCase[..|testCase| - 1], paramTypes);
      var (key, value) := testCase[|testCase| - 1];
      if IsParam(key, paramTypes) then Set(init, key, value) else init
  }

  /** The parameters hold exactly the declared, non-excluded keys of the
      case, each with the case's own value. */
  lemma {:induction false} InputParamsExact(testCase: Dict<Value>, paramTypes: Dict<string>, k: string)
    requires DistinctKeys(testCase)
    ensures Get(InputParams(testCase, paramTypes), k) ==
      if IsParam(k, paramTypes) then Get(testCase, k) else None
    decreases |testCase|
  {
    if testCase != [] {
      var init := testCase[..|testCase| - 1];
      var (key, value) := testCase[|testCase| - 1];
      InputParamsExact(init, paramTypes, k);
      if IsParam(key, paramTypes) {
        GetSet(InputParams(init, paramTypes), key, value, k);
      }
      GetLastAppended(init, key, value, k);
      assert testCase == init + [(key, value)];
    }
  }

  lemma GetLastAppended(d: Dict<Value>, key: string, value: Value, k: string)
    requires DistinctKeys(d + [(key, value)])
    ensures Get(d + [(key, value)], k) == if k == key then Some(value) else Get(d, k)
  {
    if d != [] {
      assert (d + [(key, value)])[1..] == d[1..] + [(key, value)];
      GetLastAppended(d[1..], key, value, k);
    }
  }

  /** The loop that fills `input_params`. */
  method ExtractInputParams(testCase: Dict<Value>, paramTypes: Dict<string>) returns (params: Dict<Value>)
    ensures params == InputParams(testCase, paramTypes)
  {
    params := [];
    var i := 0;
    while i < |testCase|
      invariant 0 <= i <= |testCase|
      invariant params == InputParams(testCase[..i], paramTypes)
    {
      var (key, value) := testCase[i];
      if key !in ExcludedKeys && HasKey(paramTypes, key) {
        params := Set(params, key, value);
      }
      assert testCase[..i + 1][..i] == testCase[..i];
      i := i + 1;
    }
    assert testCase[..|testCase|] == testCase;
  }

  // ---------------------------------------------------------------------
  // _compare_results

  /** The tolerance 1e-9 of numeric comparison. */
  const Tolerance: real := 0.000000001

  function Abs(x: real): real { if x < 0.0 then -x else x }

  /** `_compare_results(expected, actual)`. */
  function CompareResults(expected: Value, actual: Value): (same: bool)
    ensures expected.PyNone? || actual.PyNone? ==> (same <==> expected.PyNone? && actual.PyNone?)
    ensures expected.PyStr? && actual.PyStr? ==> (same <==> Strip(expected.s) == Strip(actual.s))
    ensures IsNumber(expected) && IsNumber(actual) ==>
      (same <==> Abs(NumValue(expected) - NumValue(actual)) < Tolerance)
  {
    if expected.PyNone? && actual.PyNone? then true
    else if expected.PyNone? || actual.PyNone? then false
    else if expected.PyStr? && actual.PyStr? then Strip(expected.s) == Strip(actual.s)
    else if IsNumber(expected) && IsNumber(actual) then
      Abs(NumValue(expected) - NumValue(actual)) < Tolerance
    else Eq(expected, actual)
  }

  /** Every well-formed value matches itself, and surrounding whitespace of
      strings is ignored. */
  lemma CompareReflexive(v: Value, s: string)
    requires WellFormed(v)
    requires s == [] || (!IsSpace(s[0]) && !IsSpace(s[|s| - 1]))
    ensures CompareResults(v, v)
    ensures CompareResults(PyStr(" " + s + "\n"), PyStr(s))
  {
    EqRefl(v);
    var padded := PyStr(" " + s + "\n");
    assert Strip(padded.s) == Strip(s) by {
      StripPadded(s);
      StripNoSpace(s);
    }
  }

  lemma StripPadded(s: string)
    requires s == [] || (!IsSpace(s[0]) && !IsSpace(s[|s| - 1]))
    ensures Strip(" " + s + "\n") == s
  {
    var padded := " " + s + "\n";
    if s == [] {
      assert AllSpace(padded);
    } else {
      assert padded[1..] == s + "\n";
      assert LStrip(s + "\n") == s + "\n";
      assert LStrip(padded) == s + "\n";
      assert (s + "\n")[..|s|] == s;
      assert RStrip(s) == s;
      assert RStrip(s + "\n") == s;
    }
  }

  // ---------------------------------------------------------------------
  // Results and _calculate_summary

  /** One entry of `test_results` (the duration text is not modelled). */
  datatype CaseResult = CaseResult(id: Value, expected: Value, actual: Value, passed: bool)

  function CountPassed(results: seq<CaseResult>): (n: nat)
    ensures n <= |results|
  {
    if results == [] then 0 else (if results[0].passed then 1 else 0) + CountPassed(results[1..])
  }

  /** `_calculate_summary(test_results)`. */
  function CalculateSummary(results: seq<CaseResult>): (s: Summary)
    ensures s.total == |results| && s.passed + s.failed == s.total
    ensures s.passed == CountPassed(results)
    ensures s.rate == ZeroPercent <==> results == []
    ensures s.rate.Percent? ==> 0.0 <= s.rate.value <= 100.0
  {
    var total := |results|;
    var passed := CountPassed(results);
    MakeSummary(total, passed)
  }

  // ---------------------------------------------------------------------
  // execute_unit_test

  /** What a call of the imported target does with keyword arguments. */
  type Callee = Dict<Value> -> Result<Value, string>

  /** `_execute_single_test`: the call's result is compared with the
      expectation; a raising call records no actual value and fails. */
  function RunCase(call: Callee, testCase: Dict<Value>, paramTypes: Dict<string>): (r: CaseResult)
    ensures r.id == Get(testCase, "ID").GetOr(PyStr("unknown"))
    ensures r.expected == Get(testCase, "期望结果").GetOr(PyNone)
    ensures r.passed ==> r.actual.PyNone? == r.expected.PyNone?
    ensures call(InputParams(testCase, paramTypes)).Ok? ==>
      r.actual == call(InputParams(testCase, paramTypes)).value && (r.passed <==> CompareResults(r.expected, r.actual))
    ensures call(InputParams(testCase, paramTypes)).Err? ==> r.actual == PyNone && !r.passed
  {
    var id := Get(testCase, "ID").GetOr(PyStr("unknown"));
    var expected := Get(testCase, "期望结果").GetOr(PyNone);
    match call(InputParams(testCase, paramTypes))
    case Ok(actual) => CaseResult(id, expected, actual, CompareResults(expected, actual))
    case Err(_) => CaseResult(id, expected, PyNone, false)
  }

  /** The record of a case whose mock setup raised. */
  function MockFailure(testCase: Dict<Value>): CaseResult {
    CaseResult(Get(testCase, "ID").GetOr(PyStr("unknown")),
               Get(testCase, "期望结果").GetOr(PyStr("N/A")), PyNone, false)
  }

  datatype Report = Report(success: bool, message: string, summary: Summary, results: seq<CaseResult>)

  /** `execute_unit_test`. Resolving the target either fails with a message
      or yields the callee; `mocksFail` says whether installing the mocks
      raises (it raises for every case alike). */
  method ExecuteUnitTest(className: string, methodName: string, testCases: seq<Dict<Value>>,
                         paramTypes: Dict<string>, resolve: Target -> Result<Callee, string>,
                         mocksFail: bool)
    returns (report: Report)
    ensures resolve(ParseTarget(className, methodName)).Err? ==>
      report == Report(false, "单元测试执行失败: " + resolve(ParseTarget(className, methodName)).error,
                       Summary(|testCases|, 0, |testCases|, ZeroPercent), [])
    ensures resolve(ParseTarget(className, methodName)).Ok? ==>
      report.success && report.message == "单元测试执行完成"
      && |report.results| == |testCases|
      && (forall i :: 0 <= i < |testCases| ==>
            report.results[i] == (if mocksFail then MockFailure(testCases[i])
                                  else RunCase(resolve(ParseTarget(className, methodName)).value,
                                               testCases[i], paramTypes)))
      && report.summary == CalculateSummary(report.results)
  {
    var target := ParseTarget(className, methodName);
    var resolved := resolve(target);
    if resolved.Err? {
      return Report(false, "单元测试执行失败: " + resolved.error,
                    Summary(|testCases|, 0, |testCases|, ZeroPercent), []);
    }
    var call := resolved.value;
    var results: seq<CaseResult> := [];
    var i := 0;
    while i < |testCases|
      invariant 0 <= i <= |testCases| && |results| == i
      invariant forall j :: 0 <= j < i ==>
        results[j] == (if mocksFail then MockFailure(testCases[j]) else RunCase(call, testCases[j], paramTypes))
    {
      var testCase := testCases[i];
      if mocksFail {
        results := results + [MockFailure(testCase)];
      } else {
        var params := ExtractInputParams(testCase, paramTypes);
        var id := Get(testCase, "ID").GetOr(PyStr("unknown"));
        var expected := Get(testCase, "期望结果").GetOr(PyNone);
        var outcome := call(params);
        if outcome.Ok? {
          results := results + [CaseResult(id, expected, outcome.value, CompareResults(expected, outcome.value))];
        } else {
          results := results + [CaseResult(id, expected, PyNone, false)];
        }
      }
      i := i + 1;
    }
    report := Report(true, "单元测试执行完成", CalculateSummary(results), results);
  }

  /** A case whose call raises, or whose mocks cannot be installed, is a
      failed case and counts against the pass rate. */
  lemma RaisingCaseFails(call: Callee, testCase: Dict<Value>, paramTypes: Dict<string>)
    requires call(InputParams(testCase, paramTypes)).Err?
    ensures !RunCase(call, testCase, paramTypes).passed
    ensures RunCase(call, testCase, paramTypes).actual == PyNone
    ensures !MockFailure(testCase).passed
  {
  }
}
