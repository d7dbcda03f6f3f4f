/** The homework runner: look up the stored cases of a course function and
    test method, run the submitted function on each, and tally the results.
    The case catalogue and the loading of the submitted code are parameters. */
module Homework {
  import opened Wrappers
  import opened PyValue
  import opened Tally

  /** One stored case: its input (a list is spread into positional
      arguments) and its expected value. */
  datatype StoredCase = StoredCase(input: Value, expected: Value)

  /** One test method of a function: its display name, description and cases. */
  datatype Suite = Suite(name: string, description: string, cases: seq<StoredCase>)

  /** `TEST_CASES`: per function, its test methods by key. */
  type Catalog = Dict<Dict<Suite>>

  /** The submitted function: positional arguments to a value, or a raised
      exception's text. */
  type Submitted = seq<Value> -> Result<Value, string>

  /** One entry of `test_results` (the duration text is not modelled). */
  datatype CaseResult = CaseResult(id: nat, input: Value, expected: Value, actual: Value, passed: bool)

  datatype Response =
    | UnknownFunction(message: string, availableFunctions: seq<string>)
    | UnknownMethod(message: string, availableMethods: seq<string>)
    | FunctionNotFound(message: string, functionName: string)
    | CodeError(message: string, functionName: string, testMethod: string)
    | Done(functionName: string, testMethod: string, testName: string, description: string,
           summary: Summary, results: seq<CaseResult>)

  /** `f(*input)` for a list input, else `f(input)`. */
  function Arguments(input: Value): seq<Value> {
    if input.PyList? then input.items else [input]
  }

  /** The result of case number `i` (0-based): passed iff the value returned
      equals the expected one; a raised exception is recorded as an
      "执行错误" text and fails. */
  function RunCase(f: Submitted, i: nat, c: StoredCase): (r: CaseResult)
    ensures r.id == i + 1 && r.input == c.input && r.expected == c.expected
    ensures f(Arguments(c.input)).Ok? ==> r.actual == f(Arguments(c.input)).value
    ensures r.passed <==> f(Arguments(c.input)).Ok? && Eq(f(Arguments(c.input)).value, c.expected)
    ensures f(Arguments(c.input)).Err? ==> r.actual == PyStr("执行错误: " + f(Arguments(c.input)).error)
  {
    match f(Arguments(c.input))
    case Ok(actual) => CaseResult(i + 1, c.input, c.expected, actual, Eq(actual, c.expected))
    case Err(e) => CaseResult(i + 1, c.input, c.expected, PyStr("执行错误: " + e), false)
  }

  function CountPassed(results: seq<CaseResult>): (n: nat)
    ensures n <= |results|
  {
    if results == [] then 0 else CountPassed(results[..|results| - 1]) + (if results[|results| - 1].passed then 1 else 0)
  }

  /** `generate_test_cases(code, function_name, test_method)`. `load` is the
      outcome of executing the submitted code and looking the function up:
      an exception's text, no such function, or the function. */
  method GenerateTestCases(catalog: Catalog, supported: seq<string>, functionName: string,
                           testMethod: string, load: Result<Option<Submitted>, string>)
    returns (r: Response)
    ensures !HasKey(catalog, functionName) ==>
      r == UnknownFunction("不支持的函数: " + functionName, supported)
    ensures HasKey(catalog, functionName) && !HasKey(Get(catalog, functionName).value, testMethod) ==>
      r == UnknownMethod("函数" + functionName + "不支持的测试方法: " + testMethod,
                         Keys(Get(catalog, functionName).value))
    ensures HasKey(catalog, functionName) && HasKey(Get(catalog, functionName).value, testMethod) ==>
      match load
      case Err(e) => r == CodeError("代码执行错误: " + e, functionName, testMethod)
      case Ok(None) => r == FunctionNotFound("代码中未找到函数: " + functionName, functionName)
      case Ok(Some(f)) =>
        var suite := Get(Get(catalog, functionName).value, testMethod).value;
        r.Done? && r.functionName == functionName && r.testMethod == testMethod
        && r.testName == suite.name && r.description == suite.description
        && |r.results| == |suite.cases|
        && (forall i :: 0 <= i < |suite.cases| ==> r.results[i] == RunCase(f, i, suite.cases[i]))
        && r.summary == MakeSummary(|suite.cases|, CountPassed(r.results))
  {
    var methods := Get(catalog, functionName);
    if methods.None? {
      return UnknownFunction("不支持的函数: " + functionName, supported);
    }
    var selected := Get(methods.value, testMethod);
    if selected.None? {
      return UnknownMethod("函数" + functionName + "不支持的测试方法: " + testMethod, Keys(methods.value));
    }
    var suite := selected.value;
    if load.Err? {
      return CodeError("代码执行错误: " + load.error, functionName, testMethod);
    }
    if load.value.None? {
      return FunctionNotFound("代码中未找到函数: " + functionName, functionName);
    }
    var f := load.value.value;
    var results, passedCount, failedCount := RunCases(f, suite.cases);
    var total := |suite.cases|;
    return Done(functionName, testMethod, suite.name, suite.description,
                Summary(total, passedCount, failedCount,
                        if total > 0 then Percent(passedCount as real / total as real * 100.0) else ZeroPercent),
                results);
  }

  /** The loop over the cases: one result per case, in order, with the
      passed and failed counts. */
  method RunCases(f: Submitted, cases: seq<StoredCase>) returns (results: seq<CaseResult>, passedCount: nat, failedCount: nat)
    ensures |results| == |cases|
    ensures forall i :: 0 <= i < |cases| ==> results[i] == RunCase(f, i, cases[i])
    ensures passedCount == CountPassed(results) && passedCount + failedCount == |cases|
  {
    results := [];
    passedCount, failedCount := 0, 0;
    var i := 0;
    while i < |cases|
      invariant 0 <= i <= |cases| && |results| == i
      invariant forall j :: 0 <= j < i ==> results[j] == RunCase(f, j, cases[j])
      invariant passedCount == CountPassed(results) && passedCount + failedCount == i
    {
      var c := cases[i];
      var outcome := f(Arguments(c.input));
      var entry: CaseResult;
      if outcome.Ok? {
        var isPassed := Eq(outcome.value, c.expected);
        entry := CaseResult(i + 1, c.input, c.expected, outcome.value, isPassed);
        if isPassed {
          passedCount := passedCount + 1;
        } else {
          failedCount := failedCount + 1;
        }
      } else {
        entry := CaseResult(i + 1, c.input, c.expected, PyStr("执行错误: " + outcome.error), false);
        failedCount := failedCount + 1;
      }
      assert (results + [entry])[..i] == results;
      results := results + [entry];
      i := i + 1;
    }
  }
}
