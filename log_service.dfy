/** The yearly disease statistics over a user's plots and their detection
    logs. The current year, timestamp parsing, the plot and log queries and
    the prediction lookup are parameters. */
module LogService {
  import opened Wrappers
  import opened PyText
  import opened PyValue
  import opened DiseaseMap
  import opened UserController

  datatype LogDetail = LogDetail(timeStamp: string, diseaseName: string)

  datatype PlotDetails = PlotDetails(plotId: string, plantName: string, logs: seq<LogDetail>)

  type Month = m: int | 1 <= m <= 12 witness 1

  datatype Date = Date(year: int, month: Month)

  /** `strptime(text, "%Y-%m-%d %H:%M:%S")`, `None` where it raises. */
  type DateParser = string -> Option<Date>

  /** The timestamp up to its first '.'. */
  function DatePart(timeStamp: string): string {
    Split(timeStamp, ".")[0]
  }

  /** A log is counted when it is not healthy and its timestamp parses to
      a date in the current year. */
  predicate Counted(log: LogDetail, year: int, parse: DateParser) {
    log.diseaseName != Healthy && parse(DatePart(log.timeStamp)).Some?
    && parse(DatePart(log.timeStamp)).value.year == year
  }

  // ---------------------------------------------------------------------
  // Distinct plots

  function PlotIds(details: seq<PlotDetails>): set<string> {
    set i | 0 <= i < |details| :: details[i].plotId
  }

  function Plants(details: seq<PlotDetails>): set<string> {
    set i | 0 <= i < |details| :: details[i].plantName
  }

  /** The distinct plots growing plant `p`. */
  function PlantPlots(details: seq<PlotDetails>, p: string): set<string> {
    set i | 0 <= i < |details| && details[i].plantName == p :: details[i].plotId
  }

  /** The `defaultdict(set)` of plot ids per plant, plants in first-seen
      order. */
  function PlantPlotSets(details: seq<PlotDetails>): Dict<set<string>>
    decreases |details|
  {
    if details == [] then []
    else
      var d := PlantPlotSets(details[..|details| - 1]);
      var p := details[|details| - 1];
      Set(d, p.plantName, Get(d, p.plantName).GetOr({}) + {p.plotId})
  }

  /** Each plant seen has the set of its distinct plots; no other plant
      has an entry. */
  lemma {:induction false} PlantPlotSetsGet(details: seq<PlotDetails>, k: string)
    ensures Get(PlantPlotSets(details), k) == if k in Plants(details) then Some(PlantPlots(details, k)) else None
    decreases |details|
  {
    if details != [] {
      var init := details[..|details| - 1];
      var p := details[|details| - 1];
      var d := PlantPlotSets(init);
      var v := Get(d, p.plantName).GetOr({}) + {p.plotId};
      assert PlantPlotSets(details) == Set(d, p.plantName, v);
      assert Get(Set(d, p.plantName, v), k) == if k == p.plantName then Some(v) else Get(d, k) by {
        GetSet(d, p.plantName, v, k);
      }
      assert Get(d, k) == if k in Plants(init) then Some(PlantPlots(init, k)) else None by {
        PlantPlotSetsGet(init, k);
      }
      assert Plants(details) == Plants(init) + {p.plantName} by {
        PlantsSnoc(details);
      }
      assert PlantPlots(details, k) == PlantPlots(init, k) + (if p.plantName == k then {p.plotId} else {}) by {
        PlantPlotsSnoc(details, k);
      }
      if k == p.plantName {
        if k !in Plants(init) {
          PlantPlotsEmpty(init, k);
          assert v == PlantPlots(init, k) + {p.plotId};
        } else {
          assert v == PlantPlots(init, k) + {p.plotId};
        }
        assert k in Plants(details);
      } else {
        assert k in Plants(details) <==> k in Plants(init);
        assert PlantPlots(details, k) == PlantPlots(init, k);
      }
    }
  }

  lemma PlantPlotsEmpty(details: seq<PlotDetails>, k: string)
    requires k !in Plants(details)
    ensures PlantPlots(details, k) == {}
  {
    forall i | 0 <= i < |details| ensures details[i].plantName != k {
      assert details[i].plantName in Plants(details);
    }
  }

  lemma PlantsSnoc(details: seq<PlotDetails>)
    requires details != []
    ensures Plants(details) == Plants(details[..|details| - 1]) + {details[|details| - 1].plantName}
  {
    var init := details[..|details| - 1];
    forall x | x in Plants(details) ensures x in Plants(init) + {details[|details| - 1].plantName} {
      var i :| 0 <= i < |details| && details[i].plantName == x;
      if i < |init| {
        assert init[i] == details[i];
      }
    }
    forall x | x in Plants(init) ensures x in Plants(details) {
      var i :| 0 <= i < |init| && init[i].plantName == x;
      assert details[i] == init[i];
    }
  }

  lemma PlantPlotsSnoc(details: seq<PlotDetails>, k: string)
    requires details != []
    ensures var p := details[|details| - 1];
      PlantPlots(details, k) == PlantPlots(details[..|details| - 1], k) + (if p.plantName == k then {p.plotId} else {})
  {
    var init := details[..|details| - 1];
    var p := details[|details| - 1];
    forall x | x in PlantPlots(details, k)
      ensures x in PlantPlots(init, k) + (if p.plantName == k then {p.plotId} else {})
    {
      var i :| 0 <= i < |details| && details[i].plantName == k && details[i].plotId == x;
      if i < |init| {
        assert init[i] == details[i];
      }
    }
    forall x | x in PlantPlots(init, k) ensures x in PlantPlots(details, k) {
      var i :| 0 <= i < |init| && init[i].plantName == k && init[i].plotId == x;
      assert details[i] == init[i];
    }
  }

  /** `{plant: len(plots) for plant, plots in ...}`. */
  function Sizes(d: Dict<set<string>>): (r: Dict<nat>)
    ensures |r| == |d|
    ensures forall i :: 0 <= i < |d| ==> r[i] == (d[i].0, |d[i].1|)
  {
    seq(|d|, i requires 0 <= i < |d| => (d[i].0, |d[i].1|))
  }

  lemma {:induction false} GetSizes(d: Dict<set<string>>, k: string)
    ensures Get(Sizes(d), k) == if Get(d, k).Some? then Some(|Get(d, k).value|) else None
    decreases |d|
  {
    if d != [] {
      assert Sizes(d)[1..] == Sizes(d[1..]);
      GetSizes(d[1..], k);
    }
  }

  /** `plant_plot_count[p]` is the number of distinct plots growing `p`. */
  lemma PlantPlotCountExact(details: seq<PlotDetails>, k: string)
    ensures Get(Sizes(PlantPlotSets(details)), k) ==
      if k in Plants(details) then Some(|PlantPlots(details, k)|) else None
  {
    GetSizes(PlantPlotSets(details), k);
    PlantPlotSetsGet(details, k);
  }

  /** The loop that fills the per-plant sets of plot ids. */
  method CollectPlantPlots(details: seq<PlotDetails>) returns (sets: Dict<set<string>>)
    ensures sets == PlantPlotSets(details)
  {
    sets := [];
    var i := 0;
    while i < |details|
      invariant 0 <= i <= |details|
      invariant sets == PlantPlotSets(details[..i])
    {
      assert details[..i + 1][..i] == details[..i];
      var p := details[i];
      sets := Set(sets, p.plantName, Get(sets, p.plantName).GetOr({}) + {p.plotId});
      i := i + 1;
    }
    assert details[..|details|] == details;
  }

  // ---------------------------------------------------------------------
  // Counting the logs

  /** The logs of all plots in order, each with its plot's plant. */
  function Pairs(p: PlotDetails): (r: seq<(string, LogDetail)>)
    ensures |r| == |p.logs|
    ensures forall j :: 0 <= j < |p.logs| ==> r[j] == (p.plantName, p.logs[j])
  {
    seq(|p.logs|, j requires 0 <= j < |p.logs| => (p.plantName, p.logs[j]))
  }

  function Entries(details: seq<PlotDetails>): seq<(string, LogDetail)>
    decreases |details|
  {
    if details == [] then [] else Entries(details[..|details| - 1]) + Pairs(details[|details| - 1])
  }

  /** The three counters: per month, per plant, per disease name. */
  datatype Counters = Counters(monthly: seq<nat>, plantDisease: Dict<nat>, disease: Dict<nat>)

  function ZeroMonths(): (z: seq<nat>)
    ensures |z| == 12 && forall m :: 0 <= m < 12 ==> z[m] == 0
  {
    [0, 0, 0, 0, 0, 0, 0, 0, 0, 0, 0, 0]
  }

  /** One log through the loop body. */
  function Step(c: Counters, e: (string, LogDetail), year: int, parse: DateParser): (r: Counters)
    requires |c.monthly| == 12
    ensures |r.monthly| == 12
  {
    var (plant, log) := e;
    if !Counted(log, year, parse) then c
    else
      var m := parse(DatePart(log.timeStamp)).value.month - 1;
      Counters(c.monthly[m := c.monthly[m] + 1], Increment(c.plantDisease, plant),
               if log.diseaseName != "" then Increment(c.disease, log.diseaseName) else c.disease)
  }

  function CountFrom(c: Counters, es: seq<(string, LogDetail)>, year: int, parse: DateParser): (r: Counters)
    requires |c.monthly| == 12
    ensures |r.monthly| == 12
    decreases |es|
  {
    if es == [] then c else Step(CountFrom(c, es[..|es| - 1], year, parse), es[|es| - 1], year, parse)
  }

  lemma {:induction false} CountFromAppend(c: Counters, a: seq<(string, LogDetail)>, b: seq<(string, LogDetail)>,
                                           year: int, parse: DateParser)
    requires |c.monthly| == 12
    ensures CountFrom(c, a + b, year, parse) == CountFrom(CountFrom(c, a, year, parse), b, year, parse)
    decreases |b|
  {
    if b == [] {
      assert a + b == a;
    } else {
      assert (a + b)[..|a + b| - 1] == a + b[..|b| - 1];
      CountFromAppend(c, a, b[..|b| - 1], year, parse);
    }
  }

  /** A healthy log, one outside the current year and one whose timestamp
      does not parse touch no counter: logs that are not counted leave all
      three counters as they were. */
  lemma {:induction false} UncountedChangeNothing(c: Counters, es: seq<(string, LogDetail)>, year: int, parse: DateParser)
    requires |c.monthly| == 12
    requires forall k :: 0 <= k < |es| ==> !Counted(es[k].1, year, parse)
    ensures CountFrom(c, es, year, parse) == c
    decreases |es|
  {
    if es != [] {
      var init := es[..|es| - 1];
      assert forall k :: 0 <= k < |init| ==> init[k] == es[k];
      UncountedChangeNothing(c, init, year, parse);
    }
  }

  function SumSeq(xs: seq<nat>): nat
    decreases |xs|
  {
    if xs == [] then 0 else xs[0] + SumSeq(xs[1..])
  }

  lemma {:induction false} SumSeqBump(xs: seq<nat>, m: int)
    requires 0 <= m < |xs|
    ensures SumSeq(xs[m := xs[m] + 1]) == SumSeq(xs) + 1
    decreases |xs|
  {
    if m > 0 {
      assert xs[m := xs[m] + 1][1..] == xs[1..][m - 1 := xs[m] + 1];
      SumSeqBump(xs[1..], m - 1);
    }
  }

  function CountCounted(es: seq<(string, LogDetail)>, year: int, parse: DateParser): (n: nat)
    ensures n <= |es|
    decreases |es|
  {
    if es == [] then 0
    else CountCounted(es[..|es| - 1], year, parse) + (if Counted(es[|es| - 1].1, year, parse) then 1 else 0)
  }

  function Start(): (c: Counters)
    ensures |c.monthly| == 12
  {
    Counters(ZeroMonths(), [], [])
  }

  lemma ZeroMonthsSum()
    ensures SumSeq(ZeroMonths()) == 0
  {
    var z := ZeroMonths();
    assert z == [0] + [0] + [0] + [0] + [0] + [0] + [0] + [0] + [0] + [0] + [0] + [0];
  }

  /** Each counted log adds one to one month: the monthly counts total the
      counted logs. */
  lemma {:induction false} MonthlyTotal(es: seq<(string, LogDetail)>, year: int, parse: DateParser)
    ensures SumSeq(CountFrom(Start(), es, year, parse).monthly) == CountCounted(es, year, parse)
    decreases |es|
  {
    if es == [] {
      ZeroMonthsSum();
    } else {
      var init := es[..|es| - 1];
      MonthlyTotal(init, year, parse);
      StepMonthly(CountFrom(Start(), init, year, parse), es[|es| - 1], year, parse);
    }
  }

  lemma StepMonthly(c: Counters, e: (string, LogDetail), year: int, parse: DateParser)
    requires |c.monthly| == 12
    ensures SumSeq(Step(c, e, year, parse).monthly) == SumSeq(c.monthly) + if Counted(e.1, year, parse) then 1 else 0
  {
    if Counted(e.1, year, parse) {
      SumSeqBump(c.monthly, parse(DatePart(e.1.timeStamp)).value.month - 1);
    }
  }

  /** Each counted log adds one to its plant: the per-plant counts total
      the counted logs. */
  lemma {:induction false} PlantTotal(es: seq<(string, LogDetail)>, year: int, parse: DateParser)
    ensures SumValues(CountFrom(Start(), es, year, parse).plantDisease) == CountCounted(es, year, parse)
    decreases |es|
  {
    if es != [] {
      var init := es[..|es| - 1];
      PlantTotal(init, year, parse);
      if Counted(es[|es| - 1].1, year, parse) {
        IncrementSum(CountFrom(Start(), init, year, parse).plantDisease, es[|es| - 1].0);
      }
    }
  }

  /** A counted log adds at most one to its disease (none when the name is
      empty): the per-disease counts total no more than the counted logs. */
  lemma {:induction false} DiseaseTotal(es: seq<(string, LogDetail)>, year: int, parse: DateParser)
    ensures SumValues(CountFrom(Start(), es, year, parse).disease) <= CountCounted(es, year, parse)
    decreases |es|
  {
    if es != [] {
      var init := es[..|es| - 1];
      var log := es[|es| - 1].1;
      DiseaseTotal(init, year, parse);
      if Counted(log, year, parse) && log.diseaseName != "" {
        IncrementSum(CountFrom(Start(), init, year, parse).disease, log.diseaseName);
      }
    }
  }

  /** The body of the inner loop: one log. */
  method CountLog(monthly: array<nat>, plantDisease: Dict<nat>, disease: Dict<nat>, plant: string, log: LogDetail,
                  year: int, parse: DateParser)
    returns (plantDisease': Dict<nat>, disease': Dict<nat>)
    requires monthly.Length == 12
    modifies monthly
    ensures Counters(monthly[..], plantDisease', disease') ==
      Step(Counters(old(monthly[..]), plantDisease, disease), (plant, log), year, parse)
  {
    plantDisease', disease' := plantDisease, disease;
    if log.diseaseName != Healthy {
      var date := parse(DatePart(log.timeStamp));
      if date.Some? && date.value.year == year {
        var m := date.value.month - 1;
        monthly[m] := monthly[m] + 1;
        plantDisease' := Increment(plantDisease', plant);
        if log.diseaseName != "" {
          disease' := Increment(disease', log.diseaseName);
        }
      }
    }
  }

  /** The inner loop: the logs of one plot. */
  method CountPlot(monthly: array<nat>, plantDisease: Dict<nat>, disease: Dict<nat>, p: PlotDetails,
                   year: int, parse: DateParser)
    returns (plantDisease': Dict<nat>, disease': Dict<nat>)
    requires monthly.Length == 12
    modifies monthly
    ensures Counters(monthly[..], plantDisease', disease') ==
      CountFrom(Counters(old(monthly[..]), plantDisease, disease), Pairs(p), year, parse)
  {
    ghost var start := Counters(monthly[..], plantDisease, disease);
    plantDisease', disease' := plantDisease, disease;
    var pairs := Pairs(p);
    var j := 0;
    while j < |p.logs|
      invariant 0 <= j <= |p.logs|
      invariant Counters(monthly[..], plantDisease', disease') == CountFrom(start, pairs[..j], year, parse)
    {
      assert pairs[..j + 1][..j] == pairs[..j];
      assert pairs[j] == (p.plantName, p.logs[j]);
      plantDisease', disease' := CountLog(monthly, plantDisease', disease', p.plantName, p.logs[j], year, parse);
      j := j + 1;
    }
    assert pairs[..|p.logs|] == pairs;
  }

  /** The outer loop over the plots. */
  method CountLogs(details: seq<PlotDetails>, year: int, parse: DateParser)
    returns (monthly: array<nat>, plantDisease: Dict<nat>, disease: Dict<nat>)
    ensures fresh(monthly)
    ensures Counters(monthly[..], plantDisease, disease) ==
      CountFrom(Start(), Entries(details), year, parse)
  {
    monthly := new nat[12](_ => 0);
    assert monthly[..] == ZeroMonths();
    plantDisease, disease := [], [];
    var i := 0;
    while i < |details|
      invariant 0 <= i <= |details| && monthly.Length == 12
      invariant Counters(monthly[..], plantDisease, disease) ==
        CountFrom(Start(), Entries(details[..i]), year, parse)
    {
      assert details[..i + 1][..i] == details[..i];
      CountFromAppend(Start(), Entries(details[..i]), Pairs(details[i]), year, parse);
      plantDisease, disease := CountPlot(monthly, plantDisease, disease, details[i], year, parse);
      i := i + 1;
    }
    assert details[..|details|] == details;
  }

  // ---------------------------------------------------------------------
  // The most common disease

  /** The first entry, in insertion order, with the strictly largest
      count, and that count; `(None, 0)` when no count is positive. */
  function MostCommon(d: Dict<nat>): (Option<string>, nat)
    decreases |d|
  {
    if d == [] then (None, 0)
    else
      var (m, c) := MostCommon(d[..|d| - 1]);
      if d[|d| - 1].1 > c then (Some(d[|d| - 1].0), d[|d| - 1].1) else (m, c)
  }

  /** The result is the maximum; a name is returned exactly when some
      count is positive, and it is the first entry attaining the maximum. */
  lemma {:induction false} MostCommonIsFirstMax(d: Dict<nat>)
    ensures var (m, c) := MostCommon(d);
      (forall i :: 0 <= i < |d| ==> d[i].1 <= c)
      && (m.None? <==> c == 0)
      && (m.Some? ==> exists i :: 0 <= i < |d| && d[i] == (m.value, c) && forall j :: 0 <= j < i ==> d[j].1 < c)
    decreases |d|
  {
    if d != [] {
      var init := d[..|d| - 1];
      MostCommonIsFirstMax(init);
      var (m, c) := MostCommon(init);
      if d[|d| - 1].1 > c {
        assert forall j :: 0 <= j < |d| - 1 ==> d[j].1 < d[|d| - 1].1 by {
          forall j | 0 <= j < |d| - 1 ensures d[j].1 < d[|d| - 1].1 {
            assert d[j] == init[j];
          }
        }
      } else if m.Some? {
        var i :| 0 <= i < |init| && init[i] == (m.value, c) && forall j :: 0 <= j < i ==> init[j].1 < c;
        assert d[i] == init[i];
        assert forall j :: 0 <= j < i ==> d[j].1 < c by {
          forall j | 0 <= j < i ensures d[j].1 < c {
            assert d[j] == init[j];
          }
        }
      }
      assert forall i :: 0 <= i < |d| - 1 ==> d[i].1 <= MostCommon(d).1 by {
        forall i | 0 <= i < |d| - 1 ensures d[i].1 <= MostCommon(d).1 {
          assert d[i] == init[i];
        }
      }
    }
  }

  /** The max-search loop. */
  method MostCommonDisease(d: Dict<nat>) returns (most: Option<string>, maxCount: nat)
    ensures (most, maxCount) == MostCommon(d)
  {
    most, maxCount := None, 0;
    var i := 0;
    while i < |d|
      invariant 0 <= i <= |d|
      invariant (most, maxCount) == MostCommon(d[..i])
    {
      assert d[..i + 1][..i] == d[..i];
      var (disease, count) := d[i];
      if count > maxCount {
        maxCount := count;
        most := Some(disease);
      }
      i := i + 1;
    }
    assert d[..|d|] == d;
  }

  // ---------------------------------------------------------------------
  // analyze_plot_details and get_summary

  /** The statistics; the empty-plot answer has no disease counts and no
      prediction. */
  datatype Statistics = Statistics(plotCount: nat, plantPlotCount: Dict<nat>, monthly: seq<nat>,
                                   plantDisease: Dict<nat>, disease: Option<Dict<nat>>, prediction: Option<Value>)

  /** The prediction for a class label (`None` when there is no label);
      it fails with the message of the lookup's error. */
  type PredictionLookup = Option<string> -> Result<Value, string>

  /** The class label of a Chinese disease name, as `DISEASE_NAME_RMAP.get`. */
  function LabelOf(name: Option<string>): Option<string> {
    if name.Some? && name.value in DiseaseNameRMap() then Some(DiseaseNameRMap()[name.value]) else None
  }

  function AnalysisOf(details: seq<PlotDetails>, year: int, parse: DateParser, lookup: PredictionLookup)
    : Result<Statistics, string>
  {
    var c := CountFrom(Start(), Entries(details), year, parse);
    var prediction := lookup(LabelOf(MostCommon(c.disease).0));
    if prediction.Err? then Err(prediction.error)
    else Ok(Statistics(|PlotIds(details)|, Sizes(PlantPlotSets(details)), c.monthly, c.plantDisease,
                       Some(c.disease), Some(prediction.value)))
  }

  /** `analyze_plot_details`. */
  method AnalyzePlotDetails(details: seq<PlotDetails>, year: int, parse: DateParser, lookup: PredictionLookup)
    returns (r: Result<Statistics, string>)
    ensures r == AnalysisOf(details, year, parse, lookup)
  {
    var plotCount := |PlotIds(details)|;
    var sets := CollectPlantPlots(details);
    var monthly, plantDisease, disease := CountLogs(details, year, parse);
    var most, _ := MostCommonDisease(disease);
    var prediction := lookup(LabelOf(most));
    if prediction.Err? {
      return Err(prediction.error);
    }
    r := Ok(Statistics(plotCount, Sizes(sets), monthly[..], plantDisease, Some(disease), Some(prediction.value)));
  }

  /** The statistics of a successful analysis: twelve months, per-plant
      counts of distinct plots, monthly and per-plant disease counts that
      total the counted logs, and per-disease counts no more. */
  lemma AnalysisProperties(details: seq<PlotDetails>, year: int, parse: DateParser, lookup: PredictionLookup, k: string)
    requires AnalysisOf(details, year, parse, lookup).Ok?
    ensures var s := AnalysisOf(details, year, parse, lookup).value;
      var n := CountCounted(Entries(details), year, parse);
      |s.monthly| == 12 && s.plotCount == |PlotIds(details)|
      && Get(s.plantPlotCount, k) == (if k in Plants(details) then Some(|PlantPlots(details, k)|) else None)
      && SumSeq(s.monthly) == n && SumValues(s.plantDisease) == n
      && s.disease.Some? && SumValues(s.disease.value) <= n
  {
    MonthlyTotal(Entries(details), year, parse);
    PlantTotal(Entries(details), year, parse);
    DiseaseTotal(Entries(details), year, parse);
    PlantPlotCountExact(details, k);
  }

  datatype HttpError = HttpError(status: int, detail: string)

  const NoBalance := HttpError(400, "余额不足，请充值")

  function Failure(e: string): HttpError {
    HttpError(500, "获取统计信息失败: " + e)
  }

  /** The answer for a user without plots. */
  function EmptyStatistics(): (s: Statistics)
    ensures s.plotCount == 0 && s.plantPlotCount == [] && s.plantDisease == []
    ensures |s.monthly| == 12 && forall m :: 0 <= m < 12 ==> s.monthly[m] == 0
    ensures s.disease.None? && s.prediction.None?
  {
    Statistics(0, [], ZeroMonths(), [], None, None)
  }

  /** `get_summary` after the balance step: the plots (or the error of
      loading them) in, the statistics or a 500 out. */
  function SummaryOf(plots: Result<seq<PlotDetails>, string>, year: int, parse: DateParser, lookup: PredictionLookup)
    : Result<Statistics, HttpError>
  {
    match plots
    case Err(e) => Err(Failure(e))
    case Ok(details) =>
      if details == [] then Ok(EmptyStatistics())
      else match AnalysisOf(details, year, parse, lookup)
        case Err(e) => Err(Failure(e))
        case Ok(s) => Ok(s)
  }

  /** `get_summary` as written: the balance call is not awaited, so its
      coroutine is always truthy; the balance is neither checked nor
      charged. */
  function GetSummaryAsWritten(balance: int, plots: Result<seq<PlotDetails>, string>, year: int,
                               parse: DateParser, lookup: PredictionLookup): (r: Result<Statistics, HttpError>)
    ensures r.Err? ==> r.error.status == 500
    ensures plots == Ok([]) ==> r == Ok(EmptyStatistics())
  {
    SummaryOf(plots, year, parse, lookup)
  }

  /** A user with no balance left is still served. */
  lemma NoBalanceStillServed(year: int, parse: DateParser, lookup: PredictionLookup)
    ensures GetSummaryAsWritten(0, Ok([]), year, parse, lookup) == Ok(EmptyStatistics())
  {
  }

  /** `get_summary` as intended: one unit of balance is charged, and a user
      with none gets 400. */
  method GetSummary(user: UserAccount, plots: Result<seq<PlotDetails>, string>, year: int,
                    parse: DateParser, lookup: PredictionLookup)
    returns (r: Result<Statistics, HttpError>)
    modifies user
    ensures old(user.sumCount) <= 0 ==> r == Err(NoBalance) && user.sumCount == old(user.sumCount)
    ensures old(user.sumCount) > 0 ==>
      r == SummaryOf(plots, year, parse, lookup) && user.sumCount == old(user.sumCount) - 1
  {
    var charged := user.MinusSumCount();
    if !charged {
      return Err(NoBalance);
    }
    if plots.Err? {
      return Err(Failure(plots.error));
    }
    if plots.value == [] {
      return Ok(EmptyStatistics());
    }
    var analysis := AnalyzePlotDetails(plots.value, year, parse, lookup);
    if analysis.Err? {
      return Err(Failure(analysis.error));
    }
    r := Ok(analysis.value);
  }
}
