/** The summaries of the administrator-module tests: `generate_summary`
    (per-type totals and passes), `generate_module_summary` (per-type
    statistics, the failed cases, recommendations) and the two rules that
    decide whether a result record passed. Float rounding and formatting
    are parameters. */
module AdminTest {
  import opened Wrappers
  import opened PyText
  import opened PyValue
  import opened Tally

  /** A result record: the keys every executor writes, and the rest of the
      record (`passed`, `result`, statuses, messages, `error`, each of which
      may be missing). */
  datatype AdminResult = AdminResult(testId: Value, testPurpose: Value, testType: string, caseId: Value,
                                     fields: Dict<Value>)

  /** `is_test_passed` of `generate_summary`: a `passed` entry that is a
      bool, a string or an int decides (the string by "true" in any case,
      the int by 1); otherwise `result == "PASS"` does. */
  predicate IsTestPassed(fields: Dict<Value>) {
    var p := Get(fields, "passed");
    if p.Some? && p.value.PyBool? then p.value.b
    else if p.Some? && p.value.PyStr? then Lower(p.value.s) == "true"
    else if p.Some? && p.value.PyInt? then p.value.i == 1
    else Get(fields, "result") == Some(PyStr("PASS"))
  }

  /** `is_test_passed` of `generate_module_summary`: a `passed` entry must
      be `True` itself; without one, `result == "PASS"` decides. */
  predicate IsModulePassed(fields: Dict<Value>) {
    if HasKey(fields, "passed") then Get(fields, "passed") == Some(PyBool(true))
    else Get(fields, "result") == Some(PyStr("PASS"))
  }

  /** The module rule is the stricter one: what it passes, the summary rule
      passes too, while a `passed` of 1 or "True" satisfies only the
      summary rule. */
  lemma ModuleRuleStricter(fields: Dict<Value>)
    ensures IsModulePassed(fields) ==> IsTestPassed(fields)
    ensures IsTestPassed([("passed", PyInt(1))]) && !IsModulePassed([("passed", PyInt(1))])
    ensures Get(fields, "passed").Some? && Get(fields, "passed").value.PyFloat? ==>
      (IsTestPassed(fields) <==> Get(fields, "result") == Some(PyStr("PASS")))
  {
    var one: Dict<Value> := [("passed", PyInt(1))];
    assert one[0].0 == "passed";
    assert HasKey(one, "passed");
  }

  datatype Rule = SummaryRule | ModuleRule

  predicate Passes(rule: Rule, r: AdminResult) {
    match rule
    case SummaryRule => IsTestPassed(r.fields)
    case ModuleRule => IsModulePassed(r.fields)
  }

  /** (test type, pass or fail) per result. */
  function Rows(results: seq<AdminResult>, rule: Rule): (rows: seq<(string, Outcome)>)
    ensures |rows| == |results|
    ensures forall k :: 0 <= k < |results| ==>
      rows[k] == (results[k].testType, if Passes(rule, results[k]) then Pass else Fail)
  {
    seq(|results|, k requires 0 <= k < |results| =>
      (results[k].testType, if Passes(rule, results[k]) then Pass else Fail))
  }

  lemma {:induction false} NoErrorRows(results: seq<AdminResult>, rule: Rule)
    ensures Count(Rows(results, rule), Error) == 0
    ensures Count(Rows(results, rule), Pass) + Count(Rows(results, rule), Fail) == |results|
    decreases |results|
  {
    if results != [] {
      var init := results[..|results| - 1];
      NoErrorRows(init, rule);
      assert Rows(results, rule)[..|results| - 1] == Rows(init, rule);
    }
  }

  // ---------------------------------------------------------------------
  // generate_summary

  datatype AdminSummary = AdminSummary(summary: Summary, typeStatistics: Dict<Stat>)

  function SummaryOf(results: seq<AdminResult>): AdminSummary {
    var rows := Rows(results, SummaryRule);
    AdminSummary(MakeSummary(|results|, Count(rows, Pass)), ByType(rows))
  }

  /** Per-type totals add up to the number of results and per-type passes
      to the passed count; no type has more passes than cases. */
  lemma {:induction false} SummaryAddsUp(results: seq<AdminResult>, rule: Rule)
    ensures Sum(ByType(Rows(results, rule)), Total) == |results|
    ensures Sum(ByType(Rows(results, rule)), Passed) == Count(Rows(results, rule), Pass)
    ensures Sum(ByType(Rows(results, rule)), Passed) + Sum(ByType(Rows(results, rule)), Failed) == |results|
    ensures forall i :: 0 <= i < |ByType(Rows(results, rule))| ==>
      ByType(Rows(results, rule))[i].1.passed <= ByType(Rows(results, rule))[i].1.total
  {
    var rows := Rows(results, rule);
    ByTypeSums(rows, Total);
    ByTypeSums(rows, Passed);
    ByTypeSums(rows, Failed);
    NoErrorRows(results, rule);
    ByTypeConsistent(rows);
  }

  /** `generate_summary` (average duration left out): count the passes,
      then tally per type. */
  method GenerateSummary(results: seq<AdminResult>) returns (s: AdminSummary)
    ensures s == SummaryOf(results)
  {
    var rows := Rows(results, SummaryRule);
    var passed := 0;
    var i := 0;
    while i < |results|
      invariant 0 <= i <= |results|
      invariant passed == Count(rows[..i], Pass)
    {
      assert rows[..i + 1][..i] == rows[..i];
      if IsTestPassed(results[i].fields) {
        passed := passed + 1;
      }
      i := i + 1;
    }
    assert rows[..|results|] == rows;
    var stats := TallyByType(rows);
    s := AdminSummary(MakeSummary(|results|, passed), stats);
  }

  // ---------------------------------------------------------------------
  // generate_module_summary

  /** One entry of `failed_cases_detail`; an absent key reads as `None`. */
  datatype FailedDetail = FailedDetail(testId: Value, testPurpose: Value, testType: string, caseId: Value,
                                       expectedStatus: Value, actualStatus: Value,
                                       expectedMessage: Value, actualMessage: Value, error: Value)

  function Detail(r: AdminResult): FailedDetail {
    var f := r.fields;
    FailedDetail(r.testId, r.testPurpose, r.testType, r.caseId,
                 Get(f, "expected_status").GetOr(PyNone), Get(f, "actual_status").GetOr(PyNone),
                 Get(f, "expected_message").GetOr(PyNone), Get(f, "actual_message").GetOr(PyNone),
                 Get(f, "error").GetOr(PyNone))
  }

  /** The details of the results the module rule does not pass, in order. */
  function FailedDetails(results: seq<AdminResult>): (ds: seq<FailedDetail>)
    decreases |results|
  {
    if results == [] then []
    else
      var last := results[|results| - 1];
      FailedDetails(results[..|results| - 1]) + (if IsModulePassed(last.fields) then [] else [Detail(last)])
  }

  /** One detail per failed result. */
  lemma {:induction false} FailedDetailsCount(results: seq<AdminResult>)
    ensures |FailedDetails(results)| == Count(Rows(results, ModuleRule), Fail)
    ensures |FailedDetails(results)| == |results| - Count(Rows(results, ModuleRule), Pass)
    decreases |results|
  {
    if results != [] {
      var init := results[..|results| - 1];
      FailedDetailsCount(init);
      assert Rows(results, ModuleRule)[..|results| - 1] == Rows(init, ModuleRule);
    }
    NoErrorRows(results, ModuleRule);
  }

  /** Python's rounding and printing of floats, and `str()` of a status. */
  datatype Formatting = Formatting(round2: real -> real, show: real -> string, show1: real -> string,
                                   showValue: Value -> string)

  /** The printed overall pass rate (`0` when there are no cases). */
  function RateValue(rate: PassRate, f: Formatting): real {
    match rate
    case ZeroPercent => 0.0
    case Percent(v) => f.round2(v)
  }

  function RateText(rate: PassRate, f: Formatting): string {
    match rate
    case ZeroPercent => "0"
    case Percent(v) => f.show(f.round2(v))
  }

  /** A line that does not end like the all-passed line. */
  predicate EndsOther(line: string) {
    |line| > 0 && line[|line| - 1] != '量'
  }

  /** The opening line: excellent from 90, good from 70, low below. */
  function OverallLine(moduleName: string, rate: PassRate, f: Formatting): (line: string)
    ensures EndsOther(line)
  {
    if RateValue(rate, f) >= 90.0 then moduleName + "模块测试表现优秀，通过率达到" + RateText(rate, f) + "%"
    else if RateValue(rate, f) >= 70.0 then moduleName + "模块测试表现良好，但仍有改进空间"
    else moduleName + "模块测试通过率较低(" + RateText(rate, f) + "%)，需要重点关注"
  }

  function TypeRate(s: Stat): real
    requires s.total > 0
  {
    s.passed as real / s.total as real * 100.0
  }

  function TypeLine(moduleName: string, testType: string, s: Stat, f: Formatting): (line: string)
    requires s.total > 0
    ensures EndsOther(line)
  {
    testType + "测试通过率偏低(" + f.show1(TypeRate(s)) + "%)，建议检查" + moduleName + "接口的" + testType + "处理逻辑"
  }

  /** One line per test type whose pass rate is below 80%, in table order. */
  function TypeLines(moduleName: string, stats: Dict<Stat>, f: Formatting): (lines: seq<string>)
    ensures forall k :: 0 <= k < |lines| ==> EndsOther(lines[k])
    decreases |stats|
  {
    if stats == [] then []
    else
      var (t, s) := stats[|stats| - 1];
      TypeLines(moduleName, stats[..|stats| - 1], f)
      + (if s.total > 0 && TypeRate(s) < 80.0 then [TypeLine(moduleName, t, s, f)] else [])
  }

  /** `f"期望{expected}实际{actual}"`. */
  function PatternKey(d: FailedDetail, f: Formatting): string {
    "期望" + f.showValue(d.expectedStatus) + "实际" + f.showValue(d.actualStatus)
  }

  function PatternRows(failed: seq<FailedDetail>, f: Formatting): (rows: seq<(string, Outcome)>)
    ensures |rows| == |failed| && forall k :: 0 <= k < |failed| ==> rows[k] == (PatternKey(failed[k], f), Fail)
  {
    seq(|failed|, k requires 0 <= k < |failed| => (PatternKey(failed[k], f), Fail))
  }

  /** The entries of a count table seen more than once, in table order. */
  function Repeated(counts: Dict<Stat>): (r: Dict<Stat>)
    ensures forall k :: 0 <= k < |r| ==> r[k].1.total > 1
    decreases |counts|
  {
    if counts == [] then []
    else
      var last := counts[|counts| - 1];
      Repeated(counts[..|counts| - 1]) + (if last.1.total > 1 then [last] else [])
  }

  function PatternLine(moduleName: string, pattern: string, count: nat): (line: string)
    ensures EndsOther(line)
  {
    "检测到多个" + pattern + "的状态码不匹配(" + NatToString(count) + "个)，建议检查" + moduleName + "接口的状态码返回逻辑"
  }

  function PatternLines(moduleName: string, repeated: Dict<Stat>): (lines: seq<string>)
    ensures |lines| == |repeated|
    ensures forall k :: 0 <= k < |lines| ==> lines[k] == PatternLine(moduleName, repeated[k].0, repeated[k].1.total)
  {
    seq(|repeated|, k requires 0 <= k < |repeated| => PatternLine(moduleName, repeated[k].0, repeated[k].1.total))
  }

  /** The failure patterns and how often each occurs. */
  function PatternCounts(failed: seq<FailedDetail>, f: Formatting): Dict<Stat> {
    ByType(PatternRows(failed, f))
  }

  function ModuleLines(moduleName: string): (lines: seq<string>)
    ensures forall k :: 0 <= k < |lines| ==> EndsOther(lines[k])
  {
    if moduleName == "add_package" then ["建议关注套餐名重复性检查和参数校验的性能"]
    else if moduleName == "add_plant" then ["建议关注植物名重复性检查和图片URL校验的性能"]
    else []
  }

  function AllPassedLine(moduleName: string): string {
    moduleName + "模块所有测试用例均通过，建议保持当前的代码质量"
  }

  /** `_generate_module_recommendations`. The opening line comes first and
      the all-passed line is present exactly when nothing failed. */
  function Recommendations(moduleName: string, stats: Dict<Stat>, failed: seq<FailedDetail>, rate: PassRate,
                           f: Formatting): (recs: seq<string>)
    ensures |recs| > 0 && recs[0] == OverallLine(moduleName, rate, f)
    ensures AllPassedLine(moduleName) in recs <==> failed == []
  {
    var patterns := if failed != [] then PatternLines(moduleName, Repeated(PatternCounts(failed, f))) else [];
    var body := [OverallLine(moduleName, rate, f)] + TypeLines(moduleName, stats, f) + patterns
                + ModuleLines(moduleName);
    AllEndOther([OverallLine(moduleName, rate, f)], TypeLines(moduleName, stats, f));
    AllEndOther([OverallLine(moduleName, rate, f)] + TypeLines(moduleName, stats, f), patterns);
    AllEndOther([OverallLine(moduleName, rate, f)] + TypeLines(moduleName, stats, f) + patterns,
                ModuleLines(moduleName));
    AllPassedNotInBody(moduleName, body);
    body + (if failed == [] then [AllPassedLine(moduleName)] else [])
  }

  lemma AllEndOther(a: seq<string>, b: seq<string>)
    requires forall k :: 0 <= k < |a| ==> EndsOther(a[k])
    requires forall k :: 0 <= k < |b| ==> EndsOther(b[k])
    ensures forall k :: 0 <= k < |a + b| ==> EndsOther((a + b)[k])
  {
  }

  /** The all-passed line ends in '量', which no other line does. */
  lemma AllPassedNotInBody(moduleName: string, body: seq<string>)
    requires forall k :: 0 <= k < |body| ==> EndsOther(body[k])
    ensures AllPassedLine(moduleName) !in body
  {
    assert AllPassedLine(moduleName)[|AllPassedLine(moduleName)| - 1] == '量';
  }

  /** A failure pattern gets a recommendation exactly when it occurs more
      than once, at most one each, stating how often it occurs. */
  lemma RepeatedPatternsReported(failed: seq<FailedDetail>, f: Formatting, pattern: string)
    ensures var counts := PatternCounts(failed, f);
      (HasKey(Repeated(counts), pattern) <==> CountKey(PatternRows(failed, f), pattern) > 1)
      && DistinctKeys(Repeated(counts))
      && forall i :: 0 <= i < |Repeated(counts)| ==>
           Repeated(counts)[i].1.total == CountKey(PatternRows(failed, f), Repeated(counts)[i].0)
  {
    var rows := PatternRows(failed, f);
    var counts := ByType(rows);
    ByTypeKeys(rows);
    ByTypeTotal(rows, pattern);
    RepeatedKeys(counts, pattern);
    forall i | 0 <= i < |Repeated(counts)|
      ensures Repeated(counts)[i].1.total == CountKey(rows, Repeated(counts)[i].0)
    {
      var e := Repeated(counts)[i];
      RepeatedFrom(counts, i);
      var j :| 0 <= j < |counts| && counts[j] == e;
      GetDistinct(counts, j);
      ByTypeTotal(rows, e.0);
    }
  }

  /** Each kept entry is an entry of the table. */
  lemma {:induction false} RepeatedFrom(counts: Dict<Stat>, i: nat)
    requires i < |Repeated(counts)|
    ensures exists j :: 0 <= j < |counts| && counts[j] == Repeated(counts)[i]
    decreases |counts|
  {
    var init := counts[..|counts| - 1];
    if i < |Repeated(init)| {
      RepeatedFrom(init, i);
      var j :| 0 <= j < |init| && init[j] == Repeated(init)[i];
      assert counts[j] == Repeated(counts)[i];
    } else {
      assert Repeated(counts)[i] == counts[|counts| - 1];
    }
  }

  /** Over a table with distinct keys the kept entries have distinct keys,
      and a key is kept iff its count exceeds one. */
  lemma RepeatedKeys(counts: Dict<Stat>, k: string)
    requires DistinctKeys(counts)
    ensures DistinctKeys(Repeated(counts))
    ensures HasKey(Repeated(counts), k) <==> Get(counts, k).GetOr(Zero).total > 1
  {
    RepeatedHas(counts, k);
    RepeatedDistinct(counts);
  }

  /** The kept keys of a table with distinct keys: those counted more than
      once. */
  lemma {:induction false} RepeatedHas(counts: Dict<Stat>, k: string)
    requires DistinctKeys(counts)
    ensures HasKey(Repeated(counts), k) <==> Get(counts, k).GetOr(Zero).total > 1
    decreases |counts|
  {
    if counts != [] {
      var init := counts[..|counts| - 1];
      var last := counts[|counts| - 1];
      assert counts == init + [last];
      RepeatedHas(init, k);
      GetAppend(init, last.0, last.1, k);
      RepeatedSnocHas(init, last, k);
      if last.0 == k {
        forall j | 0 <= j < |init| ensures init[j].0 != k {
          assert counts[j] == init[j];
        }
      }
    }
  }

  /** Appending an entry keeps the kept keys and adds its own key when it
      was counted more than once. */
  lemma RepeatedSnocHas(init: Dict<Stat>, last: (string, Stat), k: string)
    ensures HasKey(Repeated(init + [last]), k) <==> HasKey(Repeated(init), k) || (last.1.total > 1 && last.0 == k)
  {
    var counts := init + [last];
    assert counts[..|counts| - 1] == init && counts[|counts| - 1] == last;
    var r := Repeated(counts);
    var ri := Repeated(init);
    assert r == ri + (if last.1.total > 1 then [last] else []);
    if HasKey(r, k) {
      var j :| 0 <= j < |r| && r[j].0 == k;
      if j < |ri| { assert ri[j].0 == k; }
    }
    if HasKey(ri, k) {
      var j :| 0 <= j < |ri| && ri[j].0 == k;
      assert r[j].0 == k;
    }
    if last.1.total > 1 && last.0 == k { assert r[|r| - 1].0 == k; }
  }

  /** Over a table with distinct keys the kept entries have distinct keys. */
  lemma {:induction false} RepeatedDistinct(counts: Dict<Stat>)
    requires DistinctKeys(counts)
    ensures DistinctKeys(Repeated(counts))
    decreases |counts|
  {
    if counts != [] {
      var init := counts[..|counts| - 1];
      var last := counts[|counts| - 1];
      assert counts == init + [last];
      RepeatedDistinct(init);
      var r := Repeated(counts);
      var ri := Repeated(init);
      if last.1.total > 1 {
        forall i | 0 <= i < |ri| ensures ri[i].0 != last.0 {
          RepeatedFrom(init, i);
          var j :| 0 <= j < |init| && init[j] == ri[i];
          assert counts[j] == init[j];
        }
        forall i, j | 0 <= i < j < |r| ensures r[i].0 != r[j].0 {
          if j == |ri| {
            assert r[j] == last;
            assert ri[i].0 == r[i].0;
          }
        }
      }
    }
  }

  datatype ModuleSummary = ModuleSummary(moduleName: string, summary: Summary, typeStatistics: Dict<Stat>,
                                         failedDetails: seq<FailedDetail>, recommendations: seq<string>)

  function ModuleSummaryOf(results: seq<AdminResult>, moduleName: string, f: Formatting): ModuleSummary {
    var rows := Rows(results, ModuleRule);
    var summary := MakeSummary(|results|, Count(rows, Pass));
    ModuleSummary(moduleName, summary, ByType(rows), FailedDetails(results),
                  Recommendations(moduleName, ByType(rows), FailedDetails(results), summary.rate, f))
  }

  /** The loop over the type statistics. */
  method TypeRecommendations(moduleName: string, stats: Dict<Stat>, f: Formatting) returns (lines: seq<string>)
    ensures lines == TypeLines(moduleName, stats, f)
  {
    lines := [];
    var i := 0;
    while i < |stats|
      invariant 0 <= i <= |stats|
      invariant lines == TypeLines(moduleName, stats[..i], f)
    {
      assert stats[..i + 1][..i] == stats[..i];
      var (t, s) := stats[i];
      if s.total > 0 && TypeRate(s) < 80.0 {
        lines := lines + [TypeLine(moduleName, t, s, f)];
      }
      i := i + 1;
    }
    assert stats[..|stats|] == stats;
  }

  /** The loop over the failure patterns and their counts. */
  method PatternRecommendations(moduleName: string, counts: Dict<Stat>) returns (lines: seq<string>)
    ensures lines == PatternLines(moduleName, Repeated(counts))
  {
    lines := [];
    var j := 0;
    while j < |counts|
      invariant 0 <= j <= |counts|
      invariant lines == PatternLines(moduleName, Repeated(counts[..j]))
    {
      assert counts[..j + 1][..j] == counts[..j];
      if counts[j].1.total > 1 {
        lines := lines + [PatternLine(moduleName, counts[j].0, counts[j].1.total)];
      }
      j := j + 1;
    }
    assert counts[..|counts|] == counts;
  }

  /** `_generate_module_recommendations`: lines are appended section by
      section. */
  method GenerateModuleRecommendations(moduleName: string, stats: Dict<Stat>, failed: seq<FailedDetail>,
                                       rate: PassRate, f: Formatting) returns (recs: seq<string>)
    ensures recs == Recommendations(moduleName, stats, failed, rate, f)
  {
    recs := [OverallLine(moduleName, rate, f)];
    var typeLines := TypeRecommendations(moduleName, stats, f);
    recs := recs + typeLines;
    if failed != [] {
      var counts := TallyByType(PatternRows(failed, f));
      var patternLines := PatternRecommendations(moduleName, counts);
      recs := recs + patternLines;
    }
    recs := recs + ModuleLines(moduleName);
    if failed == [] {
      recs := recs + [AllPassedLine(moduleName)];
    }
  }

  /** The counting loop of `generate_module_summary`. */
  method CountModuleResults(results: seq<AdminResult>) returns (passed: nat, failed: seq<FailedDetail>)
    ensures passed == Count(Rows(results, ModuleRule), Pass)
    ensures failed == FailedDetails(results)
  {
    var rows := Rows(results, ModuleRule);
    passed := 0;
    failed := [];
    var i := 0;
    while i < |results|
      invariant 0 <= i <= |results|
      invariant passed == Count(rows[..i], Pass)
      invariant failed == FailedDetails(results[..i])
    {
      assert rows[..i + 1][..i] == rows[..i];
      assert results[..i + 1][..i] == results[..i];
      if IsModulePassed(results[i].fields) {
        passed := passed + 1;
      } else {
        failed := failed + [Detail(results[i])];
      }
      i := i + 1;
    }
    assert rows[..|results|] == rows;
    assert results[..|results|] == results;
  }

  /** `generate_module_summary` (average duration and per-type rate text
      left out). */
  method GenerateModuleSummary(results: seq<AdminResult>, moduleName: string, f: Formatting)
    returns (s: ModuleSummary)
    ensures s == ModuleSummaryOf(results, moduleName, f)
  {
    var passed, failed := CountModuleResults(results);
    var rows := Rows(results, ModuleRule);
    var stats := TallyByType(rows);
    var summary := MakeSummary(|results|, passed);
    var recs := GenerateModuleRecommendations(moduleName, stats, failed, summary.rate, f);
    s := ModuleSummary(moduleName, summary, stats, failed, recs);
  }
}
