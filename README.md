# A verified model of the software-testing course platform

This project models the logic of a software-testing course repository. The repository has three parts:

- **Course exercises**: small classification and arithmetic programs students test. These are the triangle judge, the next-day calendar, two computer-sales commissions, the telecom fee and the seller bonus.
- **The test platform backend** (`backend/app/service`). It has two parts:
  - Services that drive test cases. They parse targets and parameter types, convert inputs, compare results, tally passes and failures by test type, scan source trees for testable functions and classes, and categorise errors.
  - Mock controllers with small mutable stores. These are the log store with its database-error flag, the plot store with its simulation flags, and the current user of the detection controller.
- **The plant-disease backend** (`project_backend`):
  - the yearly disease statistics;
  - package and city-CSV validation;
  - the usage balance;
  - the detector's standard-output parser and its round trip with the detector's printed line;
  - the image-extension checks;
  - the disease-name maps.

There is one module per core source file, plus shared modules:

- `Wrappers`: `Option` and `Result`.
- `PyText`: the Python string operations used (`split`, `strip`, `lower`, `splitlines`, `os.path.splitext`, `os.path.join`, integer formatting).
- `PyValue`: dynamic Python values, and dictionaries as insertion-ordered association lists.
- `PyDateTime`: a date-time record and its `strftime("%Y-%m-%d %H:%M:%S")` text.
- `Tally`: the per-type pass/fail statistics that the report generators share.

The model follows each file's form:

- Pure guard chains become functions.
- Loops become methods with invariants. Each is proved equal to a specification function, and the properties are proved about that function.
- Services that keep state in fields become classes whose methods state the whole new state.

Calls that cannot be seen are parameters of the operations that make them. These include:

- the function under test;
- `float()`, `str()`, `eval`, imports and `inspect`;
- file existence, opening and walking;
- the detector subprocess;
- the database;
- the clock.

## Model

| member | source | states |
|---|---|---|
| TriangleJudge.TriangleJudge | course_exercise/triangle_judge.py:1-12 | each of the five messages is returned exactly when its condition holds: a side outside 1..200 is out of range before anything else, a triple failing the strict triangle inequality is not a triangle, three equal sides are equilateral, exactly two equal sides isosceles, all distinct ordinary |
| TriangleJudge.JudgeIsSortedJudge | course_exercise/triangle_judge.py:2-12 | the verdict equals an independent rule stated on the sides sorted ascending (a triangle iff the two shorter sides outweigh the longest) for every ordering of the same sides |
| TriangleJudge.SortedTriple | course_exercise/triangle_judge.py:2-12 | two ascending triples with the same multiset of sides are equal, which is what makes the sorted rule well defined |
| TriangleJudge.PermutationInvariant | course_exercise/triangle_judge.py:2-12 | permuting the three sides never changes the verdict |
| TriangleJudge.Sort3 | course_exercise/triangle_judge.py:2-12 | every triple has an ascending rearrangement with the same multiset of sides |
| CalendarProblem.MonthDays | course_exercise/calendar_problem.py:7-15 | the month table has twelve entries: February has 29 days exactly in leap years (divisible by 400, or by 4 and not by 100) and 28 otherwise, April, June, September and November 30, the other months 31 |
| CalendarProblem.NextDay | course_exercise/calendar_problem.py:21-29 | the day after a valid date is again a valid date |
| CalendarProblem.Calendar | course_exercise/calendar_problem.py:1-31 | the year error exactly for years outside 1900..2100, checked first; the month error exactly for valid years with a month outside 1..12; the day error exactly for a day outside 1..days-in-month; otherwise the "Y/M/D" text of the next day |
| CalendarProblem.CalendarProblem | course_exercise/calendar_problem.py:1-31 | the step-by-step version with the month table bumped in place and the three result slots carried over returns exactly `Calendar`'s answer |
| CalendarProblem.WholeYear | course_exercise/calendar_problem.py:7-15 | the twelve month lengths add up to 366 in leap years and 365 otherwise |
| CalendarProblem.NextDayIsSuccessor | course_exercise/calendar_problem.py:21-29 | the computed next day is exactly one day later when days are counted from 1 January 1900, across month ends, year ends and leap Februaries |
| CalendarProblem.FormatReadsBack | course_exercise/calendar_problem.py:31 | the answer splits at '/' into the unpadded decimal year, month and day, each of which reads back as its number |
| CalendarProblem.YearRollover | course_exercise/calendar_problem.py:23-29 | 31 December gives 1 January of the next year for every accepted year, 2100 included |
| CalendarProblem.LeapFebruary | course_exercise/calendar_problem.py:8-19 | 1900-02-29 is rejected with the day error and 2000-02-29 is followed by 2000/3/1 |
| ComputerSelling.ComputerSelling | course_exercise/computer_selling.py:1-24 | host -1 gives the start message whatever the other counts; any count below 1 gives the lower-bound message before the upper bounds; the upper bounds are reported in the order hosts, monitors, peripherals; a commission exactly for valid counts, with a total between 100 and 8200 and a positive amount at the tier rate |
| ComputerSelling.MoreSalesMoreCommission | course_exercise/computer_selling.py:16-24 | selling more of any part never lowers the commission, across the tier boundaries too |
| ComputerSale.Rate | exercise/computer_sale.py:1-8 | the rate is 10% exactly up to 1000, 20% exactly above 1800, and 15% in between |
| ComputerSale.CommissionMonotone | exercise/computer_sale.py:1-8 | a larger sales amount never earns a smaller commission |
| ComputerSale.Apply | exercise/computer_sale.py:39-62 | an accepted entry adds its counts to the totals and 25h+30d+45p to the sales; an entry with a negative count, one that would pass a 70/80/90 limit, or an unreadable one leaves the totals unchanged; the limits are preserved |
| ComputerSale.RunWithinLimits | exercise/computer_sale.py:15-62 | whatever is entered, the cumulative totals stay within 70/80/90 and the sales stay equal to the priced totals |
| ComputerSale.StopEndsInput | exercise/computer_sale.py:28-31 | entering "-1" for the hosts ends the input: later entries have no effect |
| ComputerSale.SettleWhenComplete | exercise/computer_sale.py:77-85 | a commission is paid exactly when every component total is at least 1, and it is then at least 10 |
| ComputerSale.MonthlySales | exercise/computer_sale.py:10-85 | the input loop's final totals are those of the entries up to the end marker, they are within the limits, and the commission is the end-of-month decision on them |
| TelecomSystem.Level | course_exercise/telecom_system.py:7-16 | the level is 1..4 exactly for the bands (0,60], (60,120], (120,180], (180,300], and 5 for every other duration, 0 included |
| TelecomSystem.LevelsAgree | backend/app/data/static_data.py:47-60 | the banding agrees with the early-return `get_level` copy for every duration |
| TelecomSystem.TelecomSystem | course_exercise/telecom_system.py:1-23 | the duration error exactly for durations outside 0..44640, checked before the late count; the count error exactly for counts outside 0..11; otherwise a fee between 25 and the undiscounted fee, exactly 25 for no calls, and discounted exactly when the late count is within the band's limit from [1,2,3,3,6] |
| SellerBonus.Factor | course_exercise/selller_bonus.py:21-30 | no commission exactly for sales over 200 with at most 10 days of leave and under 60% cash; factor 7 for those with at least 60% cash; otherwise 6 up to 85% cash and 5 above |
| SellerBonus.CalculateCommission | course_exercise/selller_bonus.py:1-32 | the sales, leave and cash checks fail in argument order, each with its own message; for valid arguments the commission is sales divided by the factor (0 when none is due), between 0 and sales/5 |
| SellerBonus.LeaveMustBeInt | course_exercise/selller_bonus.py:16-17 | a float number of leave days is refused even when whole, while a bool passes as an int |
| Tally.MakeSummary | backend/app/service/homework.py:121-135 | the summary of `total` cases with `passed` passes: failures are the rest, the rate is the bare "0%" exactly when there are no cases, and otherwise a percentage between 0 and 100 that is 100 exactly when all passed and 0 exactly when none did |
| Tally.TallyByType | backend/app/service/detect_controller_test.py:384-396 | the statistics loop (look the test type up, add a zeroed entry the first time, bump total and the outcome's counter) builds exactly the per-type table `ByType` of the results |
| Tally.FindKey | backend/app/service/detect_controller_test.py:387 | the `not in type_stats` lookup finds the first entry with the key, or reports that there is none |
| Tally.RecordAt | backend/app/service/detect_controller_test.py:387-396 | recording an outcome bumps the existing entry in place, or appends a fresh zeroed-then-bumped entry when the type is new |
| Tally.CountsAddUp | backend/app/service/detect_controller_test.py:378-381 | the passed, failed and error counts of the results add up to the number of results |
| Tally.ByTypeSums | backend/app/service/detect_controller_test.py:384-396 | summed over all test types, each column of the per-type table equals the overall figure: totals give the number of results, the passed/failed/errors columns the overall counts |
| Tally.ByTypeConsistent | backend/app/service/detect_controller_test.py:388-396 | in every per-type entry the passed, failed and error counters add up to its total |
| Tally.ByTypeKeys | backend/app/service/detect_controller_test.py:386-388 | each test type has exactly one entry, and the types listed are exactly those occurring in the results |
| Tally.TypesOccur | backend/app/service/detect_controller_test.py:385-386 | a type is among the result types exactly when some result carries it |
| Tally.ByTypeTotal | backend/app/service/detect_controller_test.py:390 | a type's total is the number of results of that type (0, with no entry, for a type that never occurs) |
| UnitService.ParseTarget | backend/app/service/unit.py:100-122 | three or more dotted parts name a class method, with the module path being everything before the last part and the target "Class.method"; fewer parts name a module function with the whole text as module path |
| UnitService.JoinLast | backend/app/service/unit.py:113-114 | joining all parts with '.' is joining all but the last, then '.', then the last, so module path and class name put back together give the original dotted name |
| UnitService.ExtractInputParams | backend/app/service/unit.py:374-392 | the loop over the test case's items keeps exactly the entries `InputParams` describes, in order |
| UnitService.InputParamsExact | backend/app/service/unit.py:386-390 | a key is among the parameters exactly when it is declared in the parameter types and is not one of the five excluded keys, and it then carries the case's own value |
| UnitService.CompareResults | backend/app/service/unit.py:458-488 | None matches only None; two strings match exactly when equal after stripping; two numbers (bool included) match exactly when they differ by less than 1e-9 |
| UnitService.CompareReflexive | backend/app/service/unit.py:458-488 | every value matches itself, and a string matches its copy padded with surrounding whitespace |
| UnitService.CalculateSummary | backend/app/service/unit.py:490-510 | total is the number of results, passed is the number marked passed, failed the rest, the rate is "0%" exactly for no results and otherwise between 0 and 100 |
| UnitService.RunCase | backend/app/service/unit.py:325-372 | the record carries the case's ID (default "unknown") and expected value (default None); when the call returns, the actual value is what it returned and the case passes exactly when `compare_results` accepts it; a raising call records None and fails |
| UnitService.ExecuteUnitTest | backend/app/service/unit.py:18-98 | a target that cannot be resolved gives the failure report with every case counted as failed and no results; otherwise one result per case in order, each from running the case (or the mock-failure record when the mocks cannot be installed), and the summary of those results |
| UnitService.RaisingCaseFails | backend/app/service/unit.py:357-372 | a case whose call raises, or whose mocks cannot be installed, is recorded with no actual value and counts as failed |
| Homework.RunCase | backend/app/service/homework.py:66-111 | case i gets ID i+1, its input and expected value; a list input is spread into positional arguments; it passes exactly when the call returns a value equal to the expected one; a raised exception is recorded as "执行错误: " + its text and fails |
| Homework.CountPassed | backend/app/service/homework.py:93-96 | the number of passed cases never exceeds the number of cases |
| Homework.RunCases | backend/app/service/homework.py:48-111 | the case loop records one result per case, in order, each the result of `RunCase`; the passed count is the number of passed results and the two counts add up to the number of cases |
| Homework.GenerateTestCases | backend/app/service/homework.py:11-135 | an unknown function is refused with the supported list, an unknown test method with the function's method keys, a code error or a missing function with its message; otherwise one result per stored case in order and a summary of those results |
| ServiceUtils.ContainerMatch | backend/app/service/utils.py:91 | a match of the pattern `^(\w+)\(([^)]+)\)$` yields a word, then one '(', a non-empty inner part without ')', then ')' that together make up the text |
| ServiceUtils.ContainerMatchComplete | backend/app/service/utils.py:91 | every text of the form word + "(" + inner + ")" with a non-empty inner part free of ')' is matched, with exactly that word and inner part |
| ServiceUtils.ParseComplexType | backend/app/service/utils.py:85-96 | on a match of the stripped text, the lower-cased container name and the stripped inner type; otherwise no container and the type text as given |
| ServiceUtils.ParseContainer | backend/app/service/utils.py:85-96 | any "name(inner)" type text, up to surrounding whitespace, parses to the lower-cased name and the stripped inner type |
| ServiceUtils.Trunc | backend/app/service/utils.py:245 | `int()` of a float truncates toward zero: the result is the integer part, rounded down for non-negative and up for negative values |
| ServiceUtils.ConvertSimple | backend/app/service/utils.py:240-277 | a string converts to bool exactly when its lower case is one of true/1/yes/on; str gives `str(v)`; int gives `int(float(v))`; an unknown type name without '.' returns the value unchanged |
| ServiceUtils.ConvertItems | backend/app/service/utils.py:205-216 | on success, one converted item per item, in order, each the conversion of the corresponding item |
| ServiceUtils.ConvertListItems | backend/app/service/utils.py:204-217 | the item loop of the list branch computes exactly `ConvertItems`: the converted items in order, or the first failure |
| ServiceUtils.ConvertContainer | backend/app/service/utils.py:187-237 | a container other than list and dict is refused with "不支持的容器类型: " and the container's name; a list converts each of its items (a list's own items, or any other value as a single item) in order and fails exactly when one item fails; a dict comes back as parsed, or, when the inner type is a class path, as the object `dict_to_object` builds for that class; a parse or lookup failure is raised |
| ServiceUtils.ConvertValue | backend/app/service/utils.py:162-185 | None, the empty string and any casing of "none" become None; otherwise the container or simple conversion's value; its ValueError, TypeError and SyntaxError come back as one ValueError naming the value, the type and the cause, and any other exception passes through |
| ServiceUtils.DictPassesThrough | backend/app/service/utils.py:219-234 | a dict converted to "dict(T)" with a simple inner type is returned unchanged |
| ServiceUtils.DictBecomesObject | backend/app/service/utils.py:219-232 | a dict converted to "dict(pkg.Class)" becomes the object `dict_to_object` builds for the class the path names |
| ServiceUtils.ListConvertsEachItem | backend/app/service/utils.py:190-217 | a list converted to "list(T)" becomes a list as long as the original whose k-th item is the k-th original item converted to T |
| ServiceUtils.UnsupportedContainer | backend/app/service/utils.py:162-237 | a type such as "set(int)" is refused with the ValueError that names the value, the type as given and the lower-cased container |
| ServiceUtils.ConvertCaseKeeps | backend/app/service/utils.py:298-317 | a converted case keeps its keys in order, and keeps the value of every system field, every None or empty value and every key that is not a declared parameter |
| ServiceUtils.BuildCases | backend/app/service/utils.py:284-320 | on success, one converted case per case, in order, each the conversion of the corresponding case |
| ServiceUtils.BuildTestObjects | backend/app/service/utils.py:284-320 | the outer loop over the cases computes exactly `BuildCases`: all converted cases, or the first case's failure |
| ServiceUtils.ConvertOneCase | backend/app/service/utils.py:299-317 | the inner loop over the parameter types computes exactly `ConvertCase`, a failing ValueError being re-raised with the case ID and the parameter name in front |
| Scan.SerializeParam | backend/app/service/scan.py:8-15 | name and kind are copied; default and annotation are null exactly when absent and otherwise their text |
| Scan.Walk | backend/app/service/scan.py:59-103 | a top-down walk visits the top directory first, with its own files |
| Scan.PrunedWalkAvoidsExcluded | backend/app/service/scan.py:48-61 | with `dirs` pruned, no visited directory has .venv, \_\_pycache\_\_ or site-packages on its way down from the top |
| Scan.FullWalkVisitsAll | backend/app/service/scan.py:103 | an unpruned walk visits every directory of the tree exactly once |
| Scan.RelPath | backend/app/service/scan.py:65-111 | the path of a .py file relative to the top still ends in ".py" |
| Scan.ClassModuleName | backend/app/service/scan.py:67 | the module name is the relative path without its last three characters, each '/' turned into '.' |
| Scan.FunctionModuleNameAsWritten | backend/app/service/scan.py:111-112 | as written: the dotted path with every trailing '.', 'p' and 'y' character stripped, so the name never ends in ".py" and the `[:-3]` step of line 112 never applies |
| Scan.FunctionModuleName | backend/app/service/scan.py:111-112 | corrected: the dotted path without its ".py" suffix, the same name the class scan derives |
| Scan.FunctionModuleNameOfStem | backend/app/service/scan.py:111-112 | the corrected name of stem + ".py" is the dotted stem |
| Scan.AsWrittenAgreesIff | backend/app/service/scan.py:111-112 | the name as written is right exactly when the stem is empty or does not end in '.', 'p', 'y' or '/' |
| Scan.HappyBecomesHa | backend/app/service/scan.py:111 | for "happy.py" the name as written differs from the intended module name |
| Scan.ParamList | backend/app/service/scan.py:86-90 | no listed parameter is `self` or `cls`, there are no more entries than parameters, and none is dropped when neither name occurs |
| Scan.ParamListConcat | backend/app/service/scan.py:86-90 | the parameters are listed in signature order: those of an earlier run come before those of a later one |
| Scan.ParamListSingle | backend/app/service/scan.py:86-90 | a single parameter is dropped exactly when it is named `self` or `cls`, and otherwise kept in its serialized form |
| Scan.MethodMap | backend/app/service/scan.py:79-93 | the method map has an entry exactly for each method name of the class not starting with '_' |
| Scan.ScanClassesInDirectory | backend/app/service/scan.py:50-98 | the class scan computes `ClassMapOf` over the pruned walk: for each eligible file whose module imports, each class the module defines itself, keyed "module.Class", with its method map |
| Scan.TopLevelFunctions | backend/app/service/scan.py:24-45 | a function is listed exactly when it is a function definition standing directly in the module body, and there are no more of them than statements |
| Scan.TopLevelFunctionsConcat | backend/app/service/scan.py:38-45 | the functions are listed in the order of the module body: those of an earlier run of statements come before those of a later one |
| Scan.ExtractFunctionInfo | backend/app/service/scan.py:28-47 | empty exactly on a syntax error or when the module has no top-level function, and otherwise the module name mapped to its top-level functions |
| Scan.SkippedDirContributesNothing | backend/app/service/scan.py:105-106 | a directory whose path contains .venv, \_\_pycache\_\_ or site-packages anywhere contributes nothing to the function map |
| Scan.ScanFunctionsInDirectory | backend/app/service/scan.py:100-117 | the function scan computes `FunctionMapOf` over the full walk, merging each .py file's functions under its module name; the name is the corrected `FunctionModuleName`, not the `rstrip(".py")` name of line 111 (see Findings) |
| LogControllerTest.SetLogError | backend/app/service/log_controller_test.py:76-116 | any null argument is the 422 "参数校验失败"; otherwise a call fails exactly when it is not accepted (database flag, disease name over 255, advice over 500, image URL over 500, "nonexistent" or the not-found flag, empty plot id, empty disease name, unknown plot, in that order), and every failure but the 422 is a 500 |
| LogControllerTest.LengthBeforePlot | backend/app/service/log_controller_test.py:95-105 | an over-long disease name is reported as the length error before the plot is looked at |
| LogControllerTest.EmptyAdviceAndURLAccepted | backend/app/service/log_controller_test.py:95-116 | empty advice and an empty image URL pass every check |
| LogControllerTest.CaseOutcome | backend/app/service/log_controller_test.py:546-582 | a case passes exactly when both status and message equal the expected ones; the status is 200 exactly when `set_log` raises nothing, and the message is then "创建日志成功" |
| LogControllerTest.DbErrorCaseExpectsFailure | backend/app/service/log_controller_test.py:548-551 | a case that sets the database flag, with no null argument, passes exactly when it expects the 500 "创建日志失败: 数据库异常" |
| LogControllerTest.CreatedLogs | backend/app/service/log_controller_test.py:584-592 | a run never appends more logs than it has cases |
| LogControllerTest.LogControllerTestService.constructor | backend/app/service/log_controller_test.py:41-74 | three stored plots, no logs, every simulation flag cleared |
| LogControllerTest.LogControllerTestService.SetLog | backend/app/service/log_controller_test.py:76-139 | a refused call raises the first failing check and leaves the store unchanged; an accepted one appends one log with the formatted content "检测到…，建议：…" and returns "创建日志成功"; the plots and the flags it does not set stay as they were |
| LogControllerTest.LogControllerTestService.ExecuteSetLogTest | backend/app/service/log_controller_test.py:521-582 | the database flag is set exactly for a "db_error" case, the result is `CaseOutcome`, and the store grows by the one log of a successful case |
| LogControllerTest.LogControllerTestService.RunSetLogCase | backend/app/service/log_controller_test.py:590-591 | one pass of the case loop: the case's outcome on the initial store, its log (if any) placed before the logs of the later cases, the database flag as the case sets it |
| LogControllerTest.LogControllerTestService.RunSetLogTests | backend/app/service/log_controller_test.py:584-592 | one result per case, in order, each depending on that case alone; the store grows by exactly the logs of the successful cases; the database flag is left as the last case set it and the other flags are unchanged |
| PlotControllerTest.InitialPlotsKeyedById | backend/app/service/plot_controller_test.py:139-214 | every stored plot is filed under its own id |
| PlotControllerTest.Details | backend/app/service/plot_controller_test.py:254-263 | one detail per log, in order, each carrying the log's fields and its formatted timestamp |
| PlotControllerTest.SortedAndPermutation | backend/app/service/plot_controller_test.py:265-266 | sorting by timestamp yields an ascending order that is a permutation of the details |
| PlotControllerTest.SortDetails | backend/app/service/plot_controller_test.py:265-266 | the insertion loop computes exactly `SortByTimeStamp` |
| PlotControllerTest.FindSlot | backend/app/service/plot_controller_test.py:265-266 | the slot found is where `Insert` puts the new detail, after every detail that is not later |
| PlotControllerTest.GetLogsSpec | backend/app/service/plot_controller_test.py:218-268 | "" raises the empty-UUID ValueError, null the NoneType TypeError, a text that is not a UUID the invalid-format ValueError; `None` is returned exactly for the one missing-plot id |
| PlotControllerTest.GetLogsListsStoredLogs | backend/app/service/plot_controller_test.py:250-268 | any other valid id lists exactly that plot's logs as details (none for an unknown plot), ordered by timestamp |
| PlotControllerTest.GetPlotSpec | backend/app/service/plot_controller_test.py:710-759 | null is the 422 "参数校验失败: plotId不能为null"; an id over 255 characters the 404 "plotId长度超出限制"; every other failure a 404; a plot comes back only for a stored id and is that plot; a non-empty unknown id never succeeds |
| PlotControllerTest.GetPlotOnInitialStore | backend/app/service/plot_controller_test.py:710-759 | with no flag raised, an id missing from the store is the 404 "地块不存在", and the 255-character id is found |
| PlotControllerTest.ExceptionStatus | backend/app/service/plot_controller_test.py:555-559 | an exception is judged 422 exactly when it is a TypeError whose text mentions "NoneType", and 500 otherwise |
| PlotControllerTest.RaisedResult | backend/app/service/plot_controller_test.py:555-585 | a raised case reports the exception's text and status, and passes exactly when the status matches and the expected message occurs in the text |
| PlotControllerTest.JudgeLogs | backend/app/service/plot_controller_test.py:483-585 | the record keeps the case's id and type, and a pass always has the expected status |
| PlotControllerTest.NullPlotIdIs422 | backend/app/service/plot_controller_test.py:556-559 | a null plot id is judged 422 with the "NoneType object" text |
| PlotControllerTest.MissingPlotOutcome | backend/app/service/plot_controller_test.py:506-527 | the missing plot gives the 500 "内部服务器错误", unless the case expects a count: then `len(None)` raises inside the executor and the case becomes a 422 |
| PlotControllerTest.OtherFailuresAre500 | backend/app/service/plot_controller_test.py:556-559 | every other exception of `get_logs` is judged 500 |
| PlotControllerTest.ListOutcome | backend/app/service/plot_controller_test.py:505-527 | a returned list is a 200 that passes exactly when 200 was expected and the expected count, if any, is its length |
| PlotControllerTest.PlotCaseOutcome | backend/app/service/plot_controller_test.py:923-1017 | a case passes exactly when the status matches and the expected message is empty or occurs in the actual one; the status is 200 exactly when the lookup under the case's flags succeeds |
| PlotControllerTest.PassedRows | backend/app/service/plot_controller_test.py:598-606 | the rows fed to the type statistics count the passed cases as passes and hold no errors |
| PlotControllerTest.ReportAddsUp | backend/app/service/plot_controller_test.py:594-606 | summed over test types, totals give the number of cases, passes the number passed, errors none |
| PlotControllerTest.PlotControllerTestService.constructor | backend/app/service/plot_controller_test.py:55-216 | the stored logs and plots of the simulation and every flag cleared |
| PlotControllerTest.PlotControllerTestService.GetLogs | backend/app/service/plot_controller_test.py:218-268 | the logs call answers exactly `GetLogsSpec` for the current flag and store |
| PlotControllerTest.PlotControllerTestService.GetPlotById | backend/app/service/plot_controller_test.py:710-759 | the lookup answers exactly `GetPlotSpec` for the current flags and store |
| PlotControllerTest.PlotControllerTestService.ExecuteCallGetLogsTest | backend/app/service/plot_controller_test.py:483-585 | the database flag is set exactly as the case asks, the stores are unchanged, and the result is `LogsCaseOutcome` |
| PlotControllerTest.PlotControllerTestService.ExecuteGetPlotByIdTest | backend/app/service/plot_controller_test.py:923-1017 | the result is `PlotCaseOutcome` under the flags raised by the case's setup, and every flag is cleared afterwards |
| PlotControllerTest.PlotControllerTestService.RaiseFlag | backend/app/service/plot_controller_test.py:930-935 | raises exactly the flag the setup names |
| PlotControllerTest.PlotControllerTestService.ClearFlags | backend/app/service/plot_controller_test.py:1014-1017 | clears all three flags and nothing else |
| PlotControllerTest.PlotControllerTestService.RunCallGetLogsTests | backend/app/service/plot_controller_test.py:587-623 | one result per case, in order, each the case's own outcome on the initial store; the summary and the per-type statistics of those results; the database flag is left as the last case set it and the other flags are unchanged |
| PlotControllerTest.PlotControllerTestService.RunGetPlotByIdTests | backend/app/service/plot_controller_test.py:1019-1060 | one result per case, in order; the summary and the per-type statistics of those results; no flag stays raised after a non-empty run, and an empty run changes no flag |
| DetectControllerTest.Access | backend/app/service/detect_controller_test.py:75-104 | no user is the 401 "未认证"; a missing or unknown plot the 404 "地块验证失败: 地块 <id> 不存在" (a null id printed as None); another user's plot the 403 "未授权的地块访问"; the plot is returned exactly when it exists and belongs to the user |
| DetectControllerTest.InitialAccess | backend/app/service/detect_controller_test.py:29-104 | with the stored users and plots, a user is granted a plot exactly when it is their own |
| DetectControllerTest.UserOf | backend/app/service/detect_controller_test.py:64-69 | a user is logged in exactly when the id is given and known |
| DetectControllerTest.Judge | backend/app/service/detect_controller_test.py:329-358 | the record carries the observed status and message; the case is PASS exactly when the status matches and the expected message occurs in the actual one ignoring letter case, and never ERROR |
| DetectControllerTest.SkipAuthIsUnauthenticated | backend/app/service/detect_controller_test.py:305-306 | a case that skips authentication always observes 401 "未认证" |
| DetectControllerTest.UnknownPlotMatchesPrefix | backend/app/service/detect_controller_test.py:331-332 | a logged-in case on an unknown plot that expects 404 "地块验证失败" passes |
| DetectControllerTest.Rows | backend/app/service/detect_controller_test.py:385-396 | one (test type, outcome) row per result, in order |
| DetectControllerTest.WithOutcome | backend/app/service/detect_controller_test.py:420-421 | the failed (or error) case list holds only results with that outcome |
| DetectControllerTest.WithOutcomeCount | backend/app/service/detect_controller_test.py:379-421 | the failed and error case lists are exactly as long as the failed and error counts |
| DetectControllerTest.ReportAddsUp | backend/app/service/detect_controller_test.py:374-422 | passed, failed and errors add up to the total, overall and within each test type, and the per-type columns sum to the overall counts |
| DetectControllerTest.GenerateTestReport | backend/app/service/detect_controller_test.py:374-422 | the counting loops build exactly `ReportOf` the results |
| DetectControllerTest.DetectTestService.constructor | backend/app/service/detect_controller_test.py:29-62 | the three stored users and plots, nobody logged in |
| DetectControllerTest.DetectTestService.SetCurrentUser | backend/app/service/detect_controller_test.py:64-69 | the stored user of that id, or nobody for an unknown or missing id; the stores are unchanged |
| DetectControllerTest.DetectTestService.ValidatePlotAccess | backend/app/service/detect_controller_test.py:82-104 | answers exactly `Access` for the given user, or the current user when none is given |
| DetectControllerTest.DetectTestService.ExecuteTest | backend/app/service/detect_controller_test.py:297-365 | logs in as the case says, and the result is `CaseOutcome` of the case on the stores |
| DetectControllerTest.DetectTestService.RunTests | backend/app/service/detect_controller_test.py:286-295 | one result per case, in order, each depending on that case alone; the last case's login is left in place |
| AdminTest.ModuleRuleStricter | backend/app/service/admin_test.py:972-1022 | whatever the module summary's rule passes, the summary's rule passes too; a `passed` of 1 satisfies only the summary's rule; any float `passed` is ignored by the summary's rule and `result == "PASS"` decides |
| AdminTest.Rows | backend/app/service/admin_test.py:995-1041 | one (test type, pass or fail) row per result under the chosen rule, in order |
| AdminTest.NoErrorRows | backend/app/service/admin_test.py:1037-1041 | every result is counted as passed or failed, never as an error |
| AdminTest.SummaryAddsUp | backend/app/service/admin_test.py:989-1002 | per-type totals add up to the number of results, per-type passes to the passed count, passes and failures to the total, and no type has more passes than cases |
| AdminTest.GenerateSummary | backend/app/service/admin_test.py:968-1011 | the counting loop and the per-type tally give exactly `SummaryOf` the results |
| AdminTest.FailedDetailsCount | backend/app/service/admin_test.py:1052-1066 | there is one failed-case detail per result the module rule does not pass |
| AdminTest.OverallLine | backend/app/service/admin_test.py:1090-1096 | the opening recommendation (excellent from 90, good from 70, low below) never reads like the all-passed line |
| AdminTest.TypeLines | backend/app/service/admin_test.py:1099-1103 | the per-type lines, one for each type below 80%, never read like the all-passed line |
| AdminTest.Repeated | backend/app/service/admin_test.py:1114-1116 | only patterns seen more than once are kept |
| AdminTest.PatternLines | backend/app/service/admin_test.py:1114-1116 | one line per repeated pattern, in table order, stating the pattern and its count |
| AdminTest.Recommendations | backend/app/service/admin_test.py:1084-1127 | the opening line comes first, and the all-passed line is present exactly when no case failed |
| AdminTest.RepeatedPatternsReported | backend/app/service/admin_test.py:1106-1116 | a status-mismatch pattern is reported exactly when it occurs more than once among the failed cases, at most once, with its number of occurrences |
| AdminTest.RepeatedKeys | backend/app/service/admin_test.py:1114-1116 | the repeated patterns have distinct keys, and a pattern is among them exactly when its count exceeds one |
| AdminTest.TypeRecommendations | backend/app/service/admin_test.py:1099-1103 | the loop over the type statistics computes exactly `TypeLines` |
| AdminTest.PatternRecommendations | backend/app/service/admin_test.py:1114-1116 | the loop over the pattern counts computes exactly the lines of the repeated patterns |
| AdminTest.GenerateModuleRecommendations | backend/app/service/admin_test.py:1084-1127 | the sections appended in order give exactly `Recommendations` |
| AdminTest.CountModuleResults | backend/app/service/admin_test.py:1024-1066 | the passed count under the module rule and the failed-case details, in order |
| AdminTest.GenerateModuleSummary | backend/app/service/admin_test.py:1013-1082 | the module summary is exactly `ModuleSummaryOf` the results: counts, per-type statistics, failed details and recommendations |
| PlotTest.AuthHeaders | backend/app/service/plot_test.py:16-20 | no header for a missing or empty token, otherwise exactly the bearer header of the token |
| PlotTest.HeadersCarryToken | backend/app/service/plot_test.py:396-401 | a case that skips authentication never sends a token; any other case sends the bearer header exactly when a non-empty token is set; the JSON content type is always sent |
| PlotTest.ResolvePlotId | backend/app/service/plot_test.py:381-394 | no id stays absent, an ordinary id is used as given, and each of the five placeholders is replaced by the existing, the missing or the over-long id |
| PlotTest.DetailUrl | backend/app/service/plot_test.py:403-408 | the URL is the plot path followed by the id, or the bare plot path without one |
| PlotTest.UrlOfCase | backend/app/service/plot_test.py:381-408 | a placeholder never reaches the URL, and a missing id requests the bare plot path |
| PlotTest.PlotTestService.constructor | backend/app/service/plot_test.py:6-10 | no token is set |
| PlotTest.PlotTestService.SetAuthToken | backend/app/service/plot_test.py:12-14 | stores exactly the token given |
| PlotTest.Rows | backend/app/service/plot_test.py:546-553 | one row per result, its test type (default "未知") and whether it passed |
| PlotTest.NoDurationNoEffect | backend/app/service/plot_test.py:556-557 | a result without a duration leaves the average response time as it was |
| PlotTest.AverageWithinBounds | backend/app/service/plot_test.py:556-557 | the average response time lies between the least and the greatest present duration |
| PlotTest.FailedDetailsCount | backend/app/service/plot_test.py:560-571 | there is one failed-case detail per result that did not pass |
| PlotTest.ModuleSummaryAddsUp | backend/app/service/plot_test.py:538-582 | failed details match the failed count, per-type totals sum to the number of results and per-type passes to the passed count |
| PlotTest.CountResults | backend/app/service/plot_test.py:543-571 | the counting loop yields the passed count, the failed details in order and the present durations |
| PlotTest.GenerateModuleSummary | backend/app/service/plot_test.py:538-582 | the summary is exactly `ModuleSummaryOf` the results |
| SystemTestUtils.DefaultConfig | backend/app/static/system_test.py:7-13 | the default configuration has each of its five keys once |
| SystemTestUtils.MissingField | backend/app/service/system_test/utils.py:36-39 | no field is reported exactly when every required field is present and truthy; otherwise the first one, in order, that is not |
| SystemTestUtils.HeadlessValue | backend/app/service/system_test/utils.py:41-42 | `headless` always ends up a bool, and a bool is kept as it is |
| SystemTestUtils.TimeoutValue | backend/app/service/system_test/utils.py:44-48 | `timeout` always ends up a number: a number is kept, a parsable string becomes its float, anything else 30 |
| SystemTestUtils.MergedValue | backend/app/service/system_test/utils.py:33 | the caller's value wins over the default for every key, and the default fills every key the caller left out |
| SystemTestUtils.ValidateTestConfigResult | backend/app/service/system_test/utils.py:19-50 | the error is raised exactly when a required field of the merged configuration is missing or falsy, naming the first; otherwise every key keeps its merged value except that `headless` is a bool and `timeout` a number |
| SystemTestUtils.FirstCategory | backend/app/service/system_test/utils.py:186-215 | the category is OTHER_ERROR or one of the listed categories |
| SystemTestUtils.FirstCategoryWins | backend/app/service/system_test/utils.py:186-213 | the first category in order with a matching keyword wins |
| SystemTestUtils.NoCategoryIsOther | backend/app/service/system_test/utils.py:215 | a message that matches no keyword is OTHER_ERROR |
| SystemTestUtils.CategorizeError | backend/app/service/system_test/utils.py:172-183 | UNKNOWN exactly for the empty message |
| SystemTestUtils.CategorizeErrorOrder | backend/app/service/system_test/utils.py:183-215 | a non-empty message falls in the first category, in order, one of whose keywords occurs in its lower-case form |
| SystemTestUtils.Rows | backend/app/service/system_test/utils.py:133 | a result counts as passed exactly when its status is "PASSED" |
| SystemTestUtils.RetriesNonNegative | backend/app/service/system_test/utils.py:144 | with every attempt at least 1 the total of retries is never negative, and zero exactly when every test succeeded at its first attempt |
| SystemTestUtils.CountFailed | backend/app/service/system_test/utils.py:148-149 | no more FAILED results than results |
| SystemTestUtils.FailedAmongNotPassed | backend/app/service/system_test/utils.py:133-149 | FAILED results are among those not PASSED |
| SystemTestUtils.FailedByTypeCounts | backend/app/service/system_test/utils.py:147-151 | the per-category failure counts add up to the number of FAILED results |
| SystemTestUtils.GenerateTestReport | backend/app/service/system_test/utils.py:122-169 | the counting loop builds exactly `ReportOf` the results |
| SystemTestConfig.AddDefaultsGet | backend/app/service/system_test/config.py:17-21 | after the defaults are added a key keeps its own value if present, and otherwise has the default's |
| SystemTestConfig.AddDefaultsDistinct | backend/app/service/system_test/config.py:17-21 | adding defaults never duplicates a key |
| SystemTestConfig.PyDictObject.constructor | backend/app/service/system_test/config.py:14 | the dict object holds the entries given |
| SystemTestConfig.E2ETestConfig.constructor | backend/app/service/system_test/config.py:13-15 | a non-empty caller dict is adopted and gets the defaults added in place, so the caller sees them; an empty or missing one is replaced by a new dict holding only the defaults, and the caller's empty dict stays empty |
| SystemTestConfig.E2ETestConfig.SetDefaults | backend/app/service/system_test/config.py:17-21 | adds each default whose key is absent, in order |
| SystemTestConfig.E2ETestConfig.GetOr | backend/app/service/system_test/config.py:23-25 | the stored value of a present key, the given default otherwise |
| SystemTestConfig.E2ETestConfig.Validate | backend/app/service/system_test/config.py:31-36 | no error exactly when every required field is present and truthy; otherwise the message names the first required field, in order, that is missing or falsy |
| SystemTestConfig.E2ETestConfig.Update | backend/app/service/system_test/config.py:38-40 | the stored dict is updated in place with the given entries |
| SystemTestConfig.E2ETestConfig.ToDict | backend/app/service/system_test/config.py:42-44 | a new dict with the same entries |
| SystemTestConfig.ConstructedConfig | backend/app/service/system_test/config.py:13-21 | a constructed configuration has every default key and keeps every caller value |
| SystemTestConfig.UpdateOverwrites | backend/app/service/system_test/config.py:38-40 | `update` overwrites exactly the keys it is given |
| SystemTestConfig.MutateCopy | backend/app/service/system_test/config.py:42-44 | changing the copy `to_dict` returns leaves the configuration as it was |
| LogService.PlantPlotSetsGet | project_backend/backend/service/log.py:21-23 | the per-plant set of a plant that occurs is exactly the set of distinct plot ids growing it, and a plant that does not occur has no entry |
| LogService.PlantPlotCountExact | project_backend/backend/service/log.py:21-24 | `plant_plot_count[p]` is the number of distinct plot ids whose plant is p, and absent for a plant that does not occur |
| LogService.CollectPlantPlots | project_backend/backend/service/log.py:21-23 | the loop builds the per-plant plot sets in first-seen order |
| LogService.Sizes | project_backend/backend/service/log.py:24 | keeps the keys in order and replaces each set by its size |
| LogService.ZeroMonths | project_backend/backend/service/log.py:27 | twelve monthly slots, all zero |
| LogService.Step | project_backend/backend/service/log.py:33-53 | one log keeps the twelve monthly slots |
| LogService.CountFrom | project_backend/backend/service/log.py:31-53 | the counting keeps the twelve monthly slots |
| LogService.CountCounted | project_backend/backend/service/log.py:35-42 | no more logs are counted than there are logs |
| LogService.CountFromAppend | project_backend/backend/service/log.py:31-53 | counting the logs of several plots one after the other is counting their concatenation |
| LogService.UncountedChangeNothing | project_backend/backend/service/log.py:35-53 | healthy logs, logs outside the current year and logs whose timestamp does not parse leave all three counters unchanged |
| LogService.MonthlyTotal | project_backend/backend/service/log.py:40-42 | the monthly counts total the counted logs |
| LogService.StepMonthly | project_backend/backend/service/log.py:40-42 | one log adds one to the monthly total exactly when it is counted |
| LogService.PlantTotal | project_backend/backend/service/log.py:44-45 | the per-plant disease counts total the counted logs, hence the monthly total |
| LogService.DiseaseTotal | project_backend/backend/service/log.py:47-49 | the per-disease counts, which skip empty names, total no more than the counted logs |
| LogService.CountLog | project_backend/backend/service/log.py:33-53 | one pass of the inner loop body updates the monthly array and both dictionaries as one counting step |
| LogService.CountPlot | project_backend/backend/service/log.py:32-53 | the inner loop counts the logs of one plot |
| LogService.CountLogs | project_backend/backend/service/log.py:27-53 | the nested loops over a fresh twelve-slot array yield exactly the counters of all logs of all plots |
| LogService.MostCommonIsFirstMax | project_backend/backend/service/log.py:56-61 | the result count is the maximum, a name is returned exactly when it is positive, and the name is the first entry in insertion order attaining it |
| LogService.MostCommonDisease | project_backend/backend/service/log.py:55-61 | the max-search loop computes `MostCommon` |
| LogService.AnalyzePlotDetails | project_backend/backend/service/log.py:16-73 | computes `AnalysisOf`, the plot count, the per-plant plot counts, the counters and the prediction of the most common disease |
| LogService.AnalysisProperties | project_backend/backend/service/log.py:18-49 | twelve months, plot count equal to the number of distinct plot ids, per-plant plot counts exact, monthly and per-plant disease counts totalling the counted logs, per-disease counts no more |
| LogService.EmptyStatistics | project_backend/backend/service/log.py:82-88 | the answer for no plots: zero plots, empty dictionaries and twelve zero months |
| LogService.GetSummaryAsWritten | project_backend/backend/service/log.py:76-112 | as written: every failure is a 500 (never the balance refusal), and a user without plots gets the empty statistics, whatever the balance |
| LogService.NoBalanceStillServed | project_backend/backend/service/log.py:78-88 | as written, a user with no balance is still answered |
| LogService.GetSummary | project_backend/backend/service/log.py:76-112 | a user without balance gets 400 and is not charged; otherwise one unit is charged and the answer is the summary of the plots, with a load or analysis failure turned into a 500 |
| DiseaseMap.ReverseInverts | project_backend/backend/schemas/Map.py:6-22 | the reverse map sends every non-healthy Chinese name back to its class label, and every reverse entry comes from the forward map |
| DiseaseMap.HealthHasNoReverse | project_backend/backend/schemas/Map.py:7-22 | both health classes, and only they, map to "健康", which has no reverse entry |
| DiseaseMap.ReverseInjective | project_backend/backend/schemas/Map.py:16-22 | distinct Chinese names have distinct class labels |
| UserController.UserAccount.constructor | project_backend/backend/models/models.py:11 | the account holds the balance given |
| UserController.UserAccount.MinusSumCount | project_backend/backend/controller/userController.py:60-66 | charges exactly when the balance is positive, taking exactly one; otherwise the balance is unchanged; a non-negative balance stays non-negative |
| UserController.UserAccount.Purchase | project_backend/backend/service/package.py:25-30 | the balance grows by the package's count |
| AdminRouter.AddPackage | project_backend/backend/routers/admin.py:40-68 | a non-positive price is 400 before a non-positive count is; with both positive, success exactly when the insert succeeds, carrying its id and the inputs; a failure is a 400 or a 500 prefixed "创建套餐失败: " |
| AdminRouter.ValidateCityFile | project_backend/backend/routers/admin.py:16-37 | a missing file is 404 before a non-".csv" extension in any letter case is 400; success exactly when the file exists, has that extension and opens, giving the joined path |
| AdminRouter.UpperCaseCsvAccepted | project_backend/backend/routers/admin.py:23-24 | illustration on one name: "cities.CSV" is accepted when it exists and opens |
| AdminRouter.FirstBadRow | project_backend/backend/routers/admin.py:164-174 | the 1-based number of the first row of at least two cells with a blank name or code, and none exactly when there is no such row |
| AdminRouter.CityOf | project_backend/backend/routers/admin.py:167-178 | the stripped name or code is empty exactly when the cell is blank |
| AdminRouter.Cities | project_backend/backend/routers/admin.py:164-180 | at most one city per row |
| AdminRouter.CitiesNonEmpty | project_backend/backend/routers/admin.py:167-174 | without a bad row every imported city has a non-empty name and code |
| AdminRouter.ShortRowCounts | project_backend/backend/routers/admin.py:164-166 | a short row imports nothing but still advances the row number reported for a later bad row |
| AdminRouter.CityTable.constructor | project_backend/backend/routers/admin.py:159 | the table holds the cities given |
| AdminRouter.CheckRows | project_backend/backend/routers/admin.py:162-180 | the row loop finds `FirstBadRow` and otherwise collects `Cities` |
| AdminRouter.CityInput | project_backend/backend/routers/admin.py:150-199 | a file error is returned with the table untouched; otherwise the first bad row, a read error, no data and a failed insert are errors in that order, any error leaves the table empty, and success leaves exactly one city per valid row and reports their number |
| DetectService.ModelScript | project_backend/backend/service/detect.py:15-20 | a script exactly for "Grape" and "Potato", named after the type; anything else raises ValueError("model_type not supported") |
| DetectService.PlantTypesAreModels | project_backend/backend/schemas/Map.py:1-4 | the model types of the plant table are exactly those `detect` accepts |
| DetectService.FieldValue | project_backend/backend/service/detect.py:43-44 | a field without ": " raises IndexError |
| DetectService.ParseLine | project_backend/backend/service/detect.py:42-45 | the disease of a parsed line is the value of its first ", "-separated field |
| DetectService.ParseLines | project_backend/backend/service/detect.py:39-48 | no verdict exactly when no line mentions both "类别" and "置信度" |
| DetectService.FirstDetectionLineWins | project_backend/backend/service/detect.py:40-46 | lines before the first detection line, and all lines after it, do not affect the verdict |
| DetectService.ParseStdout | project_backend/backend/service/detect.py:39-48 | the loop with its break computes `ParseLines` over the split output |
| DetectService.Detect | project_backend/backend/service/detect.py:14-48 | an unsupported type fails before anything runs; otherwise the output of the script's command line is parsed |
| DetectService.KeyValue | project_backend/backend/service/detect.py:43-44 | a "key: value" field yields its value |
| DetectService.PrintedLineParts | project_backend/backend/yolov8/Potato_defect.py:30 | the printed line splits into its two fields |
| DetectService.PrintedLineDetected | project_backend/backend/yolov8/Potato_defect.py:30 | a printed line is a detection line |
| DetectService.ParsePrintedLine | project_backend/backend/service/detect.py:41-45 | parsing a printed line gives back the printed class label and the confidence read from the printed text |
| DetectService.DetectRecoversLabel | project_backend/backend/service/detect.py:39-48 | whatever the detector printed around its verdict line, the parsed output recovers its class label |
| DetectService.PrepareUpload | project_backend/backend/service/detect.py:67-76 | an unknown plant is 404 before a bad extension is 400; success exactly when both pass, with a supported model type and the stored name of identifier plus extension |
| DetectService.UpperCaseUploadRefused | project_backend/backend/service/detect.py:73-75 | illustration on the names ending in ".JPG": the extension is compared as written, so they are refused |
| PlotService.ValidateImageFile | project_backend/backend/service/plot.py:14-25 | a missing file gives "图片不存在" before a non-image extension, compared in lower case, gives "不支持此拓展名"; otherwise the public URL of the icon |
| PlotService.ServedOrMessage | project_backend/backend/service/plot.py:17-25 | the answer is a served URL exactly when the file exists and has an image extension |
| PlotService.UpperCaseIconAccepted | project_backend/backend/service/plot.py:22-25 | illustration on the names ending in ".JPG": an existing one is served |
| PlotService.UploadCheckIsStricter | project_backend/backend/service/plot.py:22-24 | an icon name this check accepts is refused by the upload check of the detector |

## Left out

- `src/services/api.ts`: a client-side HTTP wrapper with no logic of its own.
- `backend/app.py`, `backend/run.py`, the Flask and FastAPI route files and `project_backend/backend/main.py`: request plumbing.
- `backend/app/service/system_test/e2e_test.py`: browser automation, sleeps and screenshots.
- The HTTP-calling executors and runners of `admin_test.py` and `plot_test.py`: network I/O. Their results enter the model as given sequences of result records.
- JWT, bcrypt and Redis code: foreign libraries.
- Tortoise ORM calls. A database read enters as a parameter and a failed write as an optional error. `purchase` is kept only as the credit step on the balance.
- `UnitTestService._import_target` and its `module_cache`, `importlib`, `inspect`, `eval`/`exec`, `unittest.mock` and pandas loading: dynamic Python machinery. Imported callables, parsed modules and class lookups are parameters.
- Subprocesses and disk access (`subprocess`, `open`, `os.walk`, `os.path.exists`, saving uploads). A directory tree is a datatype; existence, opening and the detector's output are parameters.
- The yolov8 scripts: machine-learning inference. Only the printed verdict line of `Potato_defect.py` is modelled.
- Floating-point output. Amounts are exact reals, so the model does not reproduce:
  - the decimal strings of `str(float)`;
  - the telecom `round(... * 100) / 100`;
  - the seller `round(..., 2)`;
  - pass-rate percentages;
  - `format_execution_time`.
- Timing: `time.time()`, `perf_counter()` and durations are not modelled, and neither is the rounding of average response times. The current year, `uuid4` and timestamps are parameters.
- `PyValue.Eq`: compares two instances by class and attributes, where Python's default `==` compares them by identity. No comparison in the model reaches two instances: expected values are a system field that is never converted.
- `DetectService.FloatError`: quotes the unreadable text between single quotes. Python's `repr` would also switch to double quotes or escape characters for text holding quotes, backslashes or unprintable characters.
- `PyText.Lower`: folds ASCII letters only, where Python's `lower` folds all of Unicode.
- `ServiceUtils.ContainerMatch`: the pattern's `\w` matches ASCII letters, digits and '_' only. Python's `\w` on a str pattern also matches other Unicode letters and digits, so a type such as "列表(int)" is a container type in the source (refused as unsupported) and a simple type, passed through unchanged, in the model.
- `Scan.ScanFunctionsInDirectory`: keys each file's functions by the corrected module name. The source keys them by the `rstrip(".py")` name of `scan.py:111`, so "happy.py" is filed under "ha" there and under "happy" here. The as-written name is `Scan.FunctionModuleNameAsWritten` (see Findings).
- `ComputerSale.MonthlySales`: the console is a finite sequence of entries, and running out of entries ends the month like a "-1". In the source, the end of input raises EOFError, which the loop's `except Exception` catches, so the loop never ends without a "-1".
- `LogControllerTestService.generate_test_report` (`backend/app/service/log_controller_test.py:623-658`): it refers to the undefined names `jsonify` and `results`.
- `generate_get_plot_by_id_test_report` and `PlotControllerTestService.generate_test_report`: they read keys the executors never produce.
- The predefined case tables in the service files and in `homework_data.py`: data. Cases are inputs of the runners.
- `CityInput`: a failure of the table clear is not modelled. A CSV reading error is reported once all rows are read, not at the row where it occurs.
- `ServiceUtils.ConvertItems`: states the converted items on success only. Which item's failure is reported follows from its definition and is not stated separately.
- `LogService.Step` and `LogService.CountFrom`: their own contracts state only the twelve monthly slots. The totals are stated by `MonthlyTotal`, `PlantTotal`, `DiseaseTotal` and `UncountedChangeNothing`.

## Findings

| source | as written | input that shows it | evidently intended | confidence | as-written member | corrected member |
|---|---|---|---|---|---|---|
| backend/app/service/scan.py:111 | the module name of a function file is taken with `rstrip(".py")`, which strips any trailing run of the characters '.', 'p' and 'y' | the file `happy.py` becomes module `ha` (`Scan.HappyBecomesHa`) | strip the ".py" suffix only, giving `happy` (`Scan.FunctionModuleNameOfStem`) | not executed | Scan.FunctionModuleNameAsWritten | Scan.FunctionModuleName |
| project_backend/backend/service/log.py:78-79 | `minus(user)` is a coroutine that is never awaited and is always truthy, so the balance is neither checked nor charged | a user whose balance is 0 and who has no plots still gets the empty statistics (`LogService.NoBalanceStillServed`) | await `minus(user)`, so that one unit is charged, and let the 400 "余额不足，请充值" for a user without balance pass the handler: as written, the `except Exception` of lines 110-112 would also turn that 400 into a 500 "获取统计信息失败: …" | not executed | LogService.GetSummaryAsWritten | LogService.GetSummary |
