/** The aggregation behind the benchmark table and the order of its rows (results.ts), over the reals. */
module BenchmarkRows {
  import opened Json

  datatype Status = Current | Missing | Stale

  datatype Treatment = Baseline | Guided

  datatype Experiment = Experiment(id: string, groupId: string, treatment: Treatment)

  datatype Result = Result(
    experimentId: string, caseId: string, status: Status,
    passedRuns: Option<nat>, validRuns: Option<nat>,
    meanDurationMs: Option<real>, meanTokenConsumption: Option<real>, meanToolInvocationCount: Option<real>,
    measuredAt: Option<string>)

  datatype Suite = Suite(caseCount: nat, runsPerCell: nat)

  datatype Metric = DurationMs | TokenConsumption | ToolInvocationCount

  datatype CaseRow = CaseRow(
    caseId: string,
    averageDurationMs: Option<real>, averageTokenConsumption: Option<real>, averageToolInvocationCount: Option<real>,
    baselineSuccessRate: Option<real>, guidedSuccessRate: Option<real>)

  datatype Row = Row(
    averageDurationMs: Option<real>, baselineSuccessRate: Option<real>, guidedSuccessRate: Option<real>,
    latestMeasuredAt: Option<string>, cases: seq<CaseRow>)

  function MetricOf(r: Result, metric: Metric): Option<real> {
    match metric
    case DurationMs => r.meanDurationMs
    case TokenConsumption => r.meanTokenConsumption
    case ToolInvocationCount => r.meanToolInvocationCount
  }

  predicate IsMeasured(r: Result) {
    !r.status.Missing? && r.validRuns.Some? && r.meanDurationMs.Some?
  }

  /** What is added up over results: passed runs of an experiment, run counts, or means weighted by runs. */
  datatype Quantity = PassedRuns(experimentId: string) | RunCount(metric: Metric) | RunWeighted(metric: Metric)

  predicate Weighs(r: Result, metric: Metric) {
    r.validRuns.Some? && MetricOf(r, metric).Some?
  }

  function Amount(q: Quantity, r: Result): real {
    match q
    case PassedRuns(id) => if r.experimentId == id then r.passedRuns.GetOr(0) as real else 0.0
    case RunCount(metric) => if Weighs(r, metric) then r.validRuns.value as real else 0.0
    case RunWeighted(metric) =>
      if Weighs(r, metric) then MetricOf(r, metric).value * r.validRuns.value as real else 0.0
  }

  function Total(q: Quantity, results: seq<Result>): real {
    if results == [] then 0.0 else Amount(q, results[0]) + Total(q, results[1..])
  }

  function SuccessRate(results: seq<Result>, experimentId: string, expectedRuns: nat): Option<real> {
    if expectedRuns == 0 then None
    else Some((Total(PassedRuns(experimentId), results) / expectedRuns as real) * 100.0)
  }

  function WeightedAverageMetric(results: seq<Result>, metric: Metric): Option<real> {
    if Total(RunCount(metric), results) == 0.0 then None
    else Some(Total(RunWeighted(metric), results) / Total(RunCount(metric), results))
  }

  function Find(experiments: seq<Experiment>, treatment: Treatment): Option<Experiment> {
    if experiments == [] then None
    else if experiments[0].treatment == treatment then Some(experiments[0])
    else Find(experiments[1..], treatment)
  }

  function OfCase(results: seq<Result>, caseId: string): seq<Result> {
    if results == [] then []
    else (if results[0].caseId == caseId then [results[0]] else []) + OfCase(results[1..], caseId)
  }

  function OfExperiment(results: seq<Result>, experimentId: string): seq<Result> {
    if results == [] then []
    else (if results[0].experimentId == experimentId then [results[0]] else []) + OfExperiment(results[1..], experimentId)
  }

  function Measured(results: seq<Result>): (measured: seq<Result>)
    ensures forall r :: r in measured ==> r in results
  {
    if results == [] then []
    else (if IsMeasured(results[0]) then [results[0]] else []) + Measured(results[1..])
  }

  predicate RunBy(r: Result, experiment: Option<Experiment>) {
    experiment.Some? && experiment.value.id == r.experimentId
  }

  function GroupResults(results: seq<Result>, baseline: Option<Experiment>, guided: Option<Experiment>): seq<Result> {
    if results == [] then []
    else
      (if RunBy(results[0], baseline) || RunBy(results[0], guided) then [results[0]] else [])
      + GroupResults(results[1..], baseline, guided)
  }

  /** The case ids in order of first appearance. */
  function CaseIds(results: seq<Result>): (ids: seq<string>)
    ensures Enumerates(ids, results)
  {
    if results == [] then []
    else
      var front, last := CaseIds(results[..|results| - 1]), results[|results| - 1];
      assert results == results[..|results| - 1] + [last];
      if last.caseId in front then front else front + [last.caseId]
  }

  /** The ids name the results' cases, none of them twice. */
  predicate Enumerates(ids: seq<string>, results: seq<Result>) {
    Unrepeated(ids) && forall r :: r in results ==> r.caseId in ids
  }

  predicate Unrepeated(ids: seq<string>) {
    forall i, j :: 0 <= i < j < |ids| ==> ids[i] != ids[j]
  }

  /** The success rate of one case: null without a measured result of the experiment. */
  function CaseRate(measured: seq<Result>, experiment: Option<Experiment>, caseId: string, runsPerCell: nat): Option<real> {
    if experiment.None? then None
    else
      var own := OfExperiment(OfCase(measured, caseId), experiment.value.id);
      if own == [] then None else SuccessRate(own, experiment.value.id, runsPerCell)
  }

  function CaseRows(
    measured: seq<Result>, baseline: Option<Experiment>, guided: Option<Experiment>, ids: seq<string>, suite: Suite)
    : seq<CaseRow>
  {
    if ids == [] then []
    else
      var own := OfCase(measured, ids[0]);
      [CaseRow(
        ids[0],
        WeightedAverageMetric(own, DurationMs),
        WeightedAverageMetric(own, TokenConsumption),
        WeightedAverageMetric(own, ToolInvocationCount),
        CaseRate(measured, baseline, ids[0], suite.runsPerCell),
        CaseRate(measured, guided, ids[0], suite.runsPerCell))]
      + CaseRows(measured, baseline, guided, ids[1..], suite)
  }

  function OverallRate(measured: seq<Result>, experiment: Option<Experiment>, suite: Suite): Option<real> {
    if experiment.None? then None
    else SuccessRate(measured, experiment.value.id, suite.caseCount * suite.runsPerCell)
  }

  /** The order in which strings are sorted by default. */
  predicate Below(a: string, b: string) {
    b != "" && (a == "" || a[0] < b[0] || (a[0] == b[0] && Below(a[1..], b[1..])))
  }

  /** The last of the results' dates in string order. */
  function LatestMeasuredAt(results: seq<Result>): Option<string> {
    if results == [] then None
    else
      var date, later := results[0].measuredAt, LatestMeasuredAt(results[1..]);
      if date.None? || (later.Some? && !Below(later.value, date.value)) then later else date
  }

  /** The row of one group of experiments. */
  function GroupRow(experiments: seq<Experiment>, results: seq<Result>, suite: Suite): Row {
    var baseline, guided := Find(experiments, Baseline), Find(experiments, Guided);
    var group := GroupResults(results, baseline, guided);
    var measured := Measured(group);
    Row(
      WeightedAverageMetric(measured, DurationMs),
      OverallRate(measured, baseline, suite),
      OverallRate(measured, guided, suite),
      LatestMeasuredAt(measured),
      CaseRows(measured, baseline, guided, CaseIds(group), suite))
  }

  // ----- the whole agrees with its parts

  function TotalOfCases(q: Quantity, ids: seq<string>, results: seq<Result>): real {
    if ids == [] then 0.0 else Total(q, OfCase(results, ids[0])) + TotalOfCases(q, ids[1..], results)
  }

  lemma TotalOfCaseCons(q: Quantity, first: Result, rest: seq<Result>, caseId: string)
    ensures Total(q, OfCase([first] + rest, caseId))
      == (if first.caseId == caseId then Amount(q, first) else 0.0) + Total(q, OfCase(rest, caseId))
  {
    assert ([first] + rest)[1..] == rest;
    if first.caseId == caseId {
      assert ([first] + OfCase(rest, caseId))[1..] == OfCase(rest, caseId);
    } else {
      assert [] + OfCase(rest, caseId) == OfCase(rest, caseId);
    }
  }

  lemma {:induction false} OneMoreResult(q: Quantity, ids: seq<string>, first: Result, rest: seq<Result>)
    requires Unrepeated(ids)
    ensures TotalOfCases(q, ids, [first] + rest)
      == TotalOfCases(q, ids, rest) + if first.caseId in ids then Amount(q, first) else 0.0
  {
    if ids != [] {
      TotalOfCaseCons(q, first, rest, ids[0]);
      OneMoreResult(q, ids[1..], first, rest);
    }
  }

  /** Whatever is added up, the total is the sum of the cases' totals. */
  lemma {:induction false} TotalByCase(q: Quantity, ids: seq<string>, results: seq<Result>)
    requires Enumerates(ids, results)
    ensures TotalOfCases(q, ids, results) == Total(q, results)
  {
    if results == [] {
      NothingToTotal(q, ids);
    } else {
      assert results == [results[0]] + results[1..];
      TotalByCase(q, ids, results[1..]);
      OneMoreResult(q, ids, results[0], results[1..]);
    }
  }

  lemma {:induction false} NothingToTotal(q: Quantity, ids: seq<string>)
    ensures TotalOfCases(q, ids, []) == 0.0
  {
    if ids != [] {
      NothingToTotal(q, ids[1..]);
    }
  }

  function SumOfRates(ids: seq<string>, measured: seq<Result>, experiment: Option<Experiment>, runsPerCell: nat): real {
    if ids == [] then 0.0
    else CaseRate(measured, experiment, ids[0], runsPerCell).GetOr(0.0)
         + SumOfRates(ids[1..], measured, experiment, runsPerCell)
  }

  lemma {:induction false} PassedByOwn(results: seq<Result>, id: string)
    ensures Total(PassedRuns(id), OfExperiment(results, id)) == Total(PassedRuns(id), results)
  {
    if results != [] {
      var own := OfExperiment(results[1..], id);
      PassedByOwn(results[1..], id);
      if results[0].experimentId == id {
        assert ([results[0]] + own)[1..] == own;
      } else {
        assert [] + own == own;
      }
    }
  }

  lemma CaseRateIs(measured: seq<Result>, experiment: Experiment, caseId: string, runsPerCell: nat)
    requires runsPerCell > 0
    ensures CaseRate(measured, Some(experiment), caseId, runsPerCell).GetOr(0.0)
      == Total(PassedRuns(experiment.id), OfCase(measured, caseId)) / runsPerCell as real * 100.0
  {
    PassedByOwn(OfCase(measured, caseId), experiment.id);
  }

  lemma {:induction false} SumOfRatesIs(ids: seq<string>, measured: seq<Result>, experiment: Experiment, runsPerCell: nat)
    requires runsPerCell > 0
    ensures SumOfRates(ids, measured, Some(experiment), runsPerCell)
      == TotalOfCases(PassedRuns(experiment.id), ids, measured) / runsPerCell as real * 100.0
  {
    if ids != [] {
      CaseRateIs(measured, experiment, ids[0], runsPerCell);
      SumOfRatesIs(ids[1..], measured, experiment, runsPerCell);
      QuotientOfSum(Total(PassedRuns(experiment.id), OfCase(measured, ids[0])),
        TotalOfCases(PassedRuns(experiment.id), ids[1..], measured), runsPerCell as real);
    }
  }

  lemma QuotientOfSum(a: real, b: real, c: real)
    requires c > 0.0
    ensures (a + b) / c * 100.0 == a / c * 100.0 + b / c * 100.0
  {
  }

  lemma QuotientByProduct(a: real, b: real, c: real)
    requires b > 0.0 && c > 0.0
    ensures a / (b * c) * 100.0 == (a / c * 100.0) / b
  {
    var q := a / (b * c);
    assert q * (b * c) == a;
    assert a / c == q * b by {
      assert (q * b) * c == a;
    }
    assert (q * b * 100.0) / b == q * 100.0;
  }

  lemma MeanOfRates(total: real, n: nat, c: nat)
    requires n * c != 0
    ensures n > 0 && c > 0
    ensures total / (n * c) as real * 100.0 == (total / c as real * 100.0) / n as real
  {
    assert (n * c) as real == n as real * c as real;
    QuotientByProduct(total, n as real, c as real);
  }

  /**
   * Each overall success rate is the sum of the cases' rates, null counting as zero, divided by the case count;
   * it is null exactly when there is no such experiment or no run is expected.
   */
  lemma OverallRateIsMeanOfCases(measured: seq<Result>, experiment: Option<Experiment>, ids: seq<string>, suite: Suite)
    requires Enumerates(ids, measured)
    ensures OverallRate(measured, experiment, suite).None? <==>
      experiment.None? || suite.caseCount * suite.runsPerCell == 0
    ensures OverallRate(measured, experiment, suite).Some? ==>
      && suite.caseCount > 0
      && OverallRate(measured, experiment, suite).value
           == SumOfRates(ids, measured, experiment, suite.runsPerCell) / suite.caseCount as real
  {
    if experiment.Some? && suite.caseCount * suite.runsPerCell != 0 {
      var q := PassedRuns(experiment.value.id);
      MeanOfRates(Total(q, measured), suite.caseCount, suite.runsPerCell);
      TotalByCase(q, ids, measured);
      SumOfRatesIs(ids, measured, experiment.value, suite.runsPerCell);
    }
  }

  /** Every case's average, counted once per run of the case. */
  function SumOfAverages(ids: seq<string>, measured: seq<Result>, metric: Metric): real {
    if ids == [] then 0.0
    else
      var own := OfCase(measured, ids[0]);
      WeightedAverageMetric(own, metric).GetOr(0.0) * Total(RunCount(metric), own)
      + SumOfAverages(ids[1..], measured, metric)
  }

  lemma {:induction false} CountsAreNatural(results: seq<Result>, metric: Metric)
    ensures Total(RunCount(metric), results) >= 0.0
    ensures Total(RunCount(metric), results) == 0.0 ==> Total(RunWeighted(metric), results) == 0.0
  {
    if results != [] {
      CountsAreNatural(results[1..], metric);
    }
  }

  lemma AverageTimesRuns(results: seq<Result>, metric: Metric)
    ensures WeightedAverageMetric(results, metric).GetOr(0.0) * Total(RunCount(metric), results)
      == Total(RunWeighted(metric), results)
  {
    CountsAreNatural(results, metric);
  }

  lemma {:induction false} SumOfAveragesIs(ids: seq<string>, measured: seq<Result>, metric: Metric)
    ensures SumOfAverages(ids, measured, metric) == TotalOfCases(RunWeighted(metric), ids, measured)
  {
    if ids != [] {
      AverageTimesRuns(OfCase(measured, ids[0]), metric);
      SumOfAveragesIs(ids[1..], measured, metric);
    }
  }

  /** The overall average is the run-weighted combination of the per-case averages. */
  lemma OverallAverageCombinesCases(measured: seq<Result>, ids: seq<string>, metric: Metric)
    requires Enumerates(ids, measured)
    ensures Total(RunCount(metric), measured) == TotalOfCases(RunCount(metric), ids, measured)
    ensures WeightedAverageMetric(measured, metric).None? <==> Total(RunCount(metric), measured) == 0.0
    ensures WeightedAverageMetric(measured, metric).GetOr(0.0) * Total(RunCount(metric), measured)
      == SumOfAverages(ids, measured, metric)
  {
    TotalByCase(RunCount(metric), ids, measured);
    TotalByCase(RunWeighted(metric), ids, measured);
    SumOfAveragesIs(ids, measured, metric);
    AverageTimesRuns(measured, metric);
  }

  predicate Within(results: seq<Result>, metric: Metric, lo: real, hi: real) {
    forall r :: r in results && Weighs(r, metric) && r.validRuns.value > 0 ==> lo <= MetricOf(r, metric).value <= hi
  }

  /** A weight accumulated over `count` runs whose means all lie between `lo` and `hi`. */
  predicate Bounded(lo: real, hi: real, count: real, weight: real) {
    lo * count <= weight <= hi * count
  }

  lemma BoundedSum(lo: real, hi: real, n: real, w: real, m: real, v: real)
    requires Bounded(lo, hi, n, w) && Bounded(lo, hi, m, v)
    ensures Bounded(lo, hi, n + m, w + v)
  {
    assert lo * (n + m) == lo * n + lo * m;
    assert hi * (n + m) == hi * n + hi * m;
  }

  lemma BoundedProduct(lo: real, hi: real, n: real, mean: real)
    requires lo <= mean <= hi && n >= 0.0
    ensures Bounded(lo, hi, n, mean * n)
  {
    assert (mean - lo) * n >= 0.0 && (hi - mean) * n >= 0.0;
  }

  lemma AmountBounded(r: Result, metric: Metric, lo: real, hi: real)
    requires Weighs(r, metric) && r.validRuns.value > 0 ==> lo <= MetricOf(r, metric).value <= hi
    ensures Bounded(lo, hi, Amount(RunCount(metric), r), Amount(RunWeighted(metric), r))
  {
    if Weighs(r, metric) && r.validRuns.value > 0 {
      BoundedProduct(lo, hi, r.validRuns.value as real, MetricOf(r, metric).value);
    }
  }

  lemma {:induction false} TotalBounded(results: seq<Result>, metric: Metric, lo: real, hi: real)
    requires Within(results, metric, lo, hi)
    ensures Bounded(lo, hi, Total(RunCount(metric), results), Total(RunWeighted(metric), results))
  {
    if results != [] {
      var first, rest := results[0], results[1..];
      assert first in results;
      AmountBounded(first, metric, lo, hi);
      assert Within(rest, metric, lo, hi);
      TotalBounded(rest, metric, lo, hi);
      BoundedSum(lo, hi, Amount(RunCount(metric), first), Amount(RunWeighted(metric), first),
        Total(RunCount(metric), rest), Total(RunWeighted(metric), rest));
    }
  }

  lemma Scale(a: real, b: real, n: real)
    requires a < b && n > 0.0
    ensures a * n < b * n
  {
  }

  lemma QuotientWithin(w: real, n: real, lo: real, hi: real)
    requires n > 0.0 && Bounded(lo, hi, n, w)
    ensures lo <= w / n <= hi
  {
    var q := w / n;
    assert q * n == w;
    if q < lo {
      Scale(q, lo, n);
    }
    if q > hi {
      Scale(hi, q, n);
    }
  }

  /** An average lies between any bounds of the means it averages. */
  lemma AverageWithin(results: seq<Result>, metric: Metric, lo: real, hi: real)
    requires Within(results, metric, lo, hi)
    ensures WeightedAverageMetric(results, metric).Some? ==>
      lo <= WeightedAverageMetric(results, metric).value <= hi
  {
    CountsAreNatural(results, metric);
    if Total(RunCount(metric), results) != 0.0 {
      TotalBounded(results, metric, lo, hi);
      QuotientWithin(Total(RunWeighted(metric), results), Total(RunCount(metric), results), lo, hi);
    }
  }

  /** The rates that a row's case rows show, null counting as zero. */
  function ShownRates(rows: seq<CaseRow>, treatment: Treatment): real {
    if rows == [] then 0.0
    else (if treatment.Baseline? then rows[0].baselineSuccessRate else rows[0].guidedSuccessRate).GetOr(0.0)
         + ShownRates(rows[1..], treatment)
  }

  lemma {:induction false} ShownRatesAre(
    measured: seq<Result>, baseline: Option<Experiment>, guided: Option<Experiment>, ids: seq<string>, suite: Suite)
    ensures var rows := CaseRows(measured, baseline, guided, ids, suite);
      && ShownRates(rows, Baseline) == SumOfRates(ids, measured, baseline, suite.runsPerCell)
      && ShownRates(rows, Guided) == SumOfRates(ids, measured, guided, suite.runsPerCell)
  {
    if ids != [] {
      ShownRatesAre(measured, baseline, guided, ids[1..], suite);
      var rows := CaseRows(measured, baseline, guided, ids, suite);
      assert rows[1..] == CaseRows(measured, baseline, guided, ids[1..], suite);
    }
  }

  /** A row's overall rates are the means, over the suite's cases, of the rates its case rows show. */
  lemma RowRatesAreMeans(experiments: seq<Experiment>, results: seq<Result>, suite: Suite)
    ensures var row := GroupRow(experiments, results, suite);
      && (row.baselineSuccessRate.Some? ==>
            suite.caseCount > 0
            && row.baselineSuccessRate.value == ShownRates(row.cases, Baseline) / suite.caseCount as real)
      && (row.guidedSuccessRate.Some? ==>
            suite.caseCount > 0
            && row.guidedSuccessRate.value == ShownRates(row.cases, Guided) / suite.caseCount as real)
  {
    var baseline, guided := Find(experiments, Baseline), Find(experiments, Guided);
    var group := GroupResults(results, baseline, guided);
    var measured, ids := Measured(group), CaseIds(group);
    OverallRateIsMeanOfCases(measured, baseline, ids, suite);
    OverallRateIsMeanOfCases(measured, guided, ids, suite);
    ShownRatesAre(measured, baseline, guided, ids, suite);
  }

  /** The durations that a row's case rows show, null counting as zero, each once per run of its case. */
  function ShownDurations(rows: seq<CaseRow>, measured: seq<Result>): real {
    if rows == [] then 0.0
    else rows[0].averageDurationMs.GetOr(0.0) * Total(RunCount(DurationMs), OfCase(measured, rows[0].caseId))
         + ShownDurations(rows[1..], measured)
  }

  lemma {:induction false} ShownDurationsAre(
    measured: seq<Result>, baseline: Option<Experiment>, guided: Option<Experiment>, ids: seq<string>, suite: Suite)
    ensures ShownDurations(CaseRows(measured, baseline, guided, ids, suite), measured)
      == SumOfAverages(ids, measured, DurationMs)
  {
    if ids != [] {
      ShownDurationsAre(measured, baseline, guided, ids[1..], suite);
      var rows := CaseRows(measured, baseline, guided, ids, suite);
      assert rows[1..] == CaseRows(measured, baseline, guided, ids[1..], suite);
    }
  }

  function MeasuredOf(experiments: seq<Experiment>, results: seq<Result>): seq<Result> {
    Measured(GroupResults(results, Find(experiments, Baseline), Find(experiments, Guided)))
  }

  lemma OverallAverageIsMeanOfCases(measured: seq<Result>, ids: seq<string>, metric: Metric)
    requires Enumerates(ids, measured)
    ensures var average, runs := WeightedAverageMetric(measured, metric), Total(RunCount(metric), measured);
      && (average.None? <==> runs == 0.0)
      && (average.Some? ==> runs > 0.0 && average.value == SumOfAverages(ids, measured, metric) / runs)
  {
    TotalByCase(RunWeighted(metric), ids, measured);
    SumOfAveragesIs(ids, measured, metric);
    CountsAreNatural(measured, metric);
  }

  /** A row's overall duration is the run-weighted mean of the durations its case rows show, null without a run. */
  lemma RowDurationCombinesCases(experiments: seq<Experiment>, results: seq<Result>, suite: Suite)
    ensures var row, measured := GroupRow(experiments, results, suite), MeasuredOf(experiments, results);
      var runs := Total(RunCount(DurationMs), measured);
      && (row.averageDurationMs.None? <==> runs == 0.0)
      && (row.averageDurationMs.Some? ==>
            runs > 0.0 && row.averageDurationMs.value == ShownDurations(row.cases, measured) / runs)
  {
    var baseline, guided := Find(experiments, Baseline), Find(experiments, Guided);
    var group := GroupResults(results, baseline, guided);
    var measured, ids := Measured(group), CaseIds(group);
    OverallAverageIsMeanOfCases(measured, ids, DurationMs);
    ShownDurationsAre(measured, baseline, guided, ids, suite);
  }

  lemma {:induction false} BelowIsOrder(a: string, b: string, c: string)
    ensures !Below(a, a)
    ensures Below(a, b) && Below(b, c) ==> Below(a, c)
    decreases |a| + |b| + |c|
  {
    if a != "" {
      BelowIsOrder(a[1..], if b == "" then "" else b[1..], if c == "" then "" else c[1..]);
    }
  }

  /** The date shown is one of the results' own, no other sorts after it, and there is none only if they have none. */
  lemma {:induction false} LatestIsLast(results: seq<Result>)
    ensures var latest := LatestMeasuredAt(results);
      && (latest.None? <==> forall r :: r in results ==> r.measuredAt.None?)
      && (latest.Some? ==> exists r :: r in results && r.measuredAt == latest)
      && forall r :: r in results && r.measuredAt.Some? ==> !Below(latest.value, r.measuredAt.value)
  {
    if results != [] {
      LatestIsLast(results[1..]);
      assert results == [results[0]] + results[1..];
      var date, later := results[0].measuredAt, LatestMeasuredAt(results[1..]);
      if date.Some? {
        BelowIsOrder(date.value, date.value, date.value);
      }
      if date.Some? && later.Some? {
        forall r | r in results[1..] && r.measuredAt.Some?
          ensures Below(later.value, date.value) ==> !Below(date.value, r.measuredAt.value)
        {
          BelowIsOrder(later.value, date.value, r.measuredAt.value);
        }
      }
      if LatestMeasuredAt(results) == date {
        assert results[0] in results;
      }
    }
  }

  // ----- rows from the published results alone

  /** The results of these experiments, of one case or of all, that were measured. */
  datatype Selection = Selection(ids: set<string>, caseId: Option<string>)

  predicate Selected(r: Result, s: Selection) {
    && r.experimentId in s.ids && (s.caseId.Some? ==> r.caseId == s.caseId.value)
    && r.status != Missing && r.validRuns != None && r.meanDurationMs != None
  }

  /** The passed runs of the results selected, null as 0. */
  function PassedOf(results: seq<Result>, s: Selection): int {
    if results == [] then 0
    else
      var first := results[0];
      (if Selected(first, s) && first.passedRuns.Some? then first.passedRuns.value else 0) + PassedOf(results[1..], s)
  }

  function DurationOf(r: Result): Option<real> { r.meanDurationMs }

  function TokensOf(r: Result): Option<real> { r.meanTokenConsumption }

  function InvocationsOf(r: Result): Option<real> { r.meanToolInvocationCount }

  /** The valid runs of those results selected that have the measurement. */
  function RunsOf(results: seq<Result>, s: Selection, measure: Result -> Option<real>): int {
    if results == [] then 0
    else
      var first := results[0];
      (if Selected(first, s) && measure(first).Some? && first.validRuns.Some? then first.validRuns.value else 0)
      + RunsOf(results[1..], s, measure)
  }

  /** Their measurements added up, each once per valid run. */
  function MeasuredRuns(results: seq<Result>, s: Selection, measure: Result -> Option<real>): real {
    if results == [] then 0.0
    else
      var first := results[0];
      (if Selected(first, s) && measure(first).Some? && first.validRuns.Some?
       then measure(first).value * first.validRuns.value as real
       else 0.0)
      + MeasuredRuns(results[1..], s, measure)
  }

  function Percent(passed: int, expected: nat): Option<real> {
    if expected == 0 then None else Some(passed as real / expected as real * 100.0)
  }

  function MeanOf(results: seq<Result>, s: Selection, measure: Result -> Option<real>): Option<real> {
    if RunsOf(results, s, measure) == 0 then None
    else Some(MeasuredRuns(results, s, measure) / RunsOf(results, s, measure) as real)
  }

  /** The results selected, in order. */
  function Picked(results: seq<Result>, s: Selection): seq<Result> {
    if results == [] then [] else (if Selected(results[0], s) then [results[0]] else []) + Picked(results[1..], s)
  }

  /** The ids of a row's experiments. */
  function IdsOf(baseline: Option<Experiment>, guided: Option<Experiment>): set<string> {
    (if baseline.Some? then {baseline.value.id} else {}) + (if guided.Some? then {guided.value.id} else {})
  }

  /** One result, kept or not, in front of others. */
  function Kept(first: Result, keep: bool, rest: seq<Result>): seq<Result> {
    (if keep then [first] else []) + rest
  }

  lemma KeptUnfolds(first: Result, keep: bool, rest: seq<Result>)
    ensures keep ==> var kept := Kept(first, keep, rest); kept != [] && kept[0] == first && kept[1..] == rest
    ensures !keep ==> Kept(first, keep, rest) == rest
  {
  }

  lemma {:induction false} MeasuredIsPicked(
    results: seq<Result>, baseline: Option<Experiment>, guided: Option<Experiment>)
    ensures Measured(GroupResults(results, baseline, guided))
      == Picked(results, Selection(IdsOf(baseline, guided), None))
  {
    if results != [] {
      var first, rest := results[0], results[1..];
      MeasuredIsPicked(rest, baseline, guided);
      KeptUnfolds(first, RunBy(first, baseline) || RunBy(first, guided), GroupResults(rest, baseline, guided));
    }
  }

  lemma {:induction false} CasePicked(results: seq<Result>, ids: set<string>, caseId: string)
    ensures OfCase(Picked(results, Selection(ids, None)), caseId) == Picked(results, Selection(ids, Some(caseId)))
  {
    if results != [] {
      var first, rest := results[0], results[1..];
      CasePicked(rest, ids, caseId);
      KeptUnfolds(first, Selected(first, Selection(ids, None)), Picked(rest, Selection(ids, None)));
    }
  }

  lemma {:induction false} ExperimentPicked(results: seq<Result>, s: Selection, id: string)
    requires id in s.ids
    ensures OfExperiment(Picked(results, s), id) == Picked(results, s.(ids := {id}))
  {
    if results != [] {
      ExperimentPicked(results[1..], s, id);
      KeptUnfolds(results[0], Selected(results[0], s), Picked(results[1..], s));
    }
  }

  lemma {:induction false} PassedIsSum(results: seq<Result>, s: Selection, id: string)
    requires id in s.ids
    ensures Total(PassedRuns(id), Picked(results, s)) == PassedOf(results, s.(ids := {id})) as real
  {
    if results != [] {
      PassedIsSum(results[1..], s, id);
      KeptUnfolds(results[0], Selected(results[0], s), Picked(results[1..], s));
    }
  }

  lemma TotalOfKept(q: Quantity, first: Result, keep: bool, rest: seq<Result>)
    ensures Total(q, Kept(first, keep, rest)) == (if keep then Amount(q, first) else 0.0) + Total(q, rest)
  {
    KeptUnfolds(first, keep, rest);
  }

  lemma {:induction false} RunsAreSums(results: seq<Result>, s: Selection, metric: Metric, measure: Result -> Option<real>)
    requires forall r :: measure(r) == MetricOf(r, metric)
    ensures Total(RunCount(metric), Picked(results, s)) == RunsOf(results, s, measure) as real
    ensures Total(RunWeighted(metric), Picked(results, s)) == MeasuredRuns(results, s, measure)
  {
    if results != [] {
      var first, rest := results[0], results[1..];
      RunsAreSums(rest, s, metric, measure);
      assert Picked(results, s) == Kept(first, Selected(first, s), Picked(rest, s));
      TotalOfKept(RunCount(metric), first, Selected(first, s), Picked(rest, s));
      TotalOfKept(RunWeighted(metric), first, Selected(first, s), Picked(rest, s));
    }
  }

  lemma AverageIsMean(results: seq<Result>, s: Selection, metric: Metric, measure: Result -> Option<real>)
    requires forall r :: measure(r) == MetricOf(r, metric)
    ensures WeightedAverageMetric(Picked(results, s), metric) == MeanOf(results, s, measure)
  {
    RunsAreSums(results, s, metric, measure);
  }

  lemma {:induction false} PickedSome(results: seq<Result>, s: Selection)
    ensures Picked(results, s) == [] <==> forall r :: r in results ==> !Selected(r, s)
  {
    if results != [] {
      PickedSome(results[1..], s);
      assert results == [results[0]] + results[1..];
    }
  }

  /** The rate shown for one experiment, overall or for a case: its passed runs against those expected. */
  function ShownRate(results: seq<Result>, experiment: Option<Experiment>, expected: nat): Option<real> {
    if experiment.None? then None else Percent(PassedOf(results, Selection({experiment.value.id}, None)), expected)
  }

  /** In a case row there is no rate either without a measured result. */
  ghost function ShownCaseRate(
    results: seq<Result>, experiment: Option<Experiment>, caseId: string, expected: nat): Option<real>
  {
    if experiment.None? then None
    else
      var s := Selection({experiment.value.id}, Some(caseId));
      if forall r :: r in results ==> !Selected(r, s) then None else Percent(PassedOf(results, s), expected)
  }

  lemma OverallRateIsShown(
    results: seq<Result>, experiment: Option<Experiment>, ids: set<string>, suite: Suite)
    requires experiment.Some? ==> experiment.value.id in ids
    ensures OverallRate(Picked(results, Selection(ids, None)), experiment, suite)
      == ShownRate(results, experiment, suite.caseCount * suite.runsPerCell)
  {
    if experiment.Some? {
      PassedIsSum(results, Selection(ids, None), experiment.value.id);
    }
  }

  lemma CaseRateIsShown(
    results: seq<Result>, experiment: Option<Experiment>, ids: set<string>, caseId: string, runsPerCell: nat)
    requires experiment.Some? ==> experiment.value.id in ids
    ensures CaseRate(Picked(results, Selection(ids, None)), experiment, caseId, runsPerCell)
      == ShownCaseRate(results, experiment, caseId, runsPerCell)
  {
    if experiment.Some? {
      var id, s := experiment.value.id, Selection(ids, Some(caseId));
      CasePicked(results, ids, caseId);
      ExperimentPicked(results, s, id);
      PickedSome(results, Selection({id}, Some(caseId)));
      PassedIsSum(results, Selection({id}, Some(caseId)), id);
    }
  }

  /** What a row shows, overall, in terms of the published results: passed, valid and expected runs. */
  lemma RowFromResults(experiments: seq<Experiment>, results: seq<Result>, suite: Suite)
    ensures var row := GroupRow(experiments, results, suite);
      var baseline, guided := Find(experiments, Baseline), Find(experiments, Guided);
      var expected := suite.caseCount * suite.runsPerCell;
      && row.baselineSuccessRate == ShownRate(results, baseline, expected)
      && row.guidedSuccessRate == ShownRate(results, guided, expected)
      && row.averageDurationMs == MeanOf(results, Selection(IdsOf(baseline, guided), None), DurationOf)
  {
    var baseline, guided := Find(experiments, Baseline), Find(experiments, Guided);
    var ids := IdsOf(baseline, guided);
    MeasuredIsPicked(results, baseline, guided);
    OverallRateIsShown(results, baseline, ids, suite);
    OverallRateIsShown(results, guided, ids, suite);
    AverageIsMean(results, Selection(ids, None), DurationMs, DurationOf);
  }

  /** A case row in terms of the published results. */
  ghost predicate IsCaseRow(
    row: CaseRow, results: seq<Result>, baseline: Option<Experiment>, guided: Option<Experiment>, runsPerCell: nat)
  {
    var s := Selection(IdsOf(baseline, guided), Some(row.caseId));
    && row.averageDurationMs == MeanOf(results, s, DurationOf)
    && row.averageTokenConsumption == MeanOf(results, s, TokensOf)
    && row.averageToolInvocationCount == MeanOf(results, s, InvocationsOf)
    && row.baselineSuccessRate == ShownCaseRate(results, baseline, row.caseId, runsPerCell)
    && row.guidedSuccessRate == ShownCaseRate(results, guided, row.caseId, runsPerCell)
  }

  lemma {:induction false} CaseRowsAre(
    results: seq<Result>, baseline: Option<Experiment>, guided: Option<Experiment>, ids: seq<string>, suite: Suite)
    ensures var rows := CaseRows(Picked(results, Selection(IdsOf(baseline, guided), None)), baseline, guided, ids, suite);
      && |rows| == |ids|
      && forall k :: 0 <= k < |ids| ==>
           rows[k].caseId == ids[k] && IsCaseRow(rows[k], results, baseline, guided, suite.runsPerCell)
  {
    if ids != [] {
      var group := IdsOf(baseline, guided);
      var measured := Picked(results, Selection(group, None));
      CasePicked(results, group, ids[0]);
      AverageIsMean(results, Selection(group, Some(ids[0])), DurationMs, DurationOf);
      AverageIsMean(results, Selection(group, Some(ids[0])), TokenConsumption, TokensOf);
      AverageIsMean(results, Selection(group, Some(ids[0])), ToolInvocationCount, InvocationsOf);
      CaseRateIsShown(results, baseline, group, ids[0], suite.runsPerCell);
      CaseRateIsShown(results, guided, group, ids[0], suite.runsPerCell);
      CaseRowsAre(results, baseline, guided, ids[1..], suite);
      var rows := CaseRows(measured, baseline, guided, ids, suite);
      assert rows[0].caseId == ids[0] && IsCaseRow(rows[0], results, baseline, guided, suite.runsPerCell);
      assert rows[1..] == CaseRows(measured, baseline, guided, ids[1..], suite);
    }
  }

  /** The case ids are those of the results, measured or not, each once. */
  lemma {:induction false} CaseIdsAre(results: seq<Result>)
    ensures Unrepeated(CaseIds(results))
    ensures forall id :: id in CaseIds(results) <==> exists r :: r in results && r.caseId == id
  {
    if results != [] {
      var front, last := results[..|results| - 1], results[|results| - 1];
      CaseIdsAre(front);
      assert results == front + [last];
    }
  }

  lemma {:induction false} InGroup(
    results: seq<Result>, baseline: Option<Experiment>, guided: Option<Experiment>, r: Result)
    ensures r in GroupResults(results, baseline, guided) <==>
      r in results && r.experimentId in IdsOf(baseline, guided)
  {
    if results != [] {
      InGroup(results[1..], baseline, guided, r);
      assert results == [results[0]] + results[1..];
    }
  }

  /** The published results of a row's experiments, measured or not, name this case. */
  ghost predicate NamesCase(results: seq<Result>, ids: set<string>, caseId: string) {
    exists r :: r in results && r.experimentId in ids && r.caseId == caseId
  }

  lemma GroupNamesCases(results: seq<Result>, baseline: Option<Experiment>, guided: Option<Experiment>, caseId: string)
    ensures caseId in CaseIds(GroupResults(results, baseline, guided))
      <==> NamesCase(results, IdsOf(baseline, guided), caseId)
  {
    var group := GroupResults(results, baseline, guided);
    CaseIdsAre(group);
    forall r
      ensures r in group <==> r in results && r.experimentId in IdsOf(baseline, guided)
    {
      InGroup(results, baseline, guided, r);
    }
  }

  lemma RowHasCaseRows(experiments: seq<Experiment>, results: seq<Result>, suite: Suite)
    ensures var cases := GroupRow(experiments, results, suite).cases;
      var baseline, guided := Find(experiments, Baseline), Find(experiments, Guided);
      var ids := CaseIds(GroupResults(results, baseline, guided));
      && |cases| == |ids|
      && forall k :: 0 <= k < |cases| ==>
           cases[k].caseId == ids[k] && IsCaseRow(cases[k], results, baseline, guided, suite.runsPerCell)
  {
    var baseline, guided := Find(experiments, Baseline), Find(experiments, Guided);
    MeasuredIsPicked(results, baseline, guided);
    CaseRowsAre(results, baseline, guided, CaseIds(GroupResults(results, baseline, guided)), suite);
  }

  /**
   * A row has one case row for every case with a result of its experiments, measured or not, and each shows what the
   * published results of that case say.
   */
  lemma CaseRowsFromResults(experiments: seq<Experiment>, results: seq<Result>, suite: Suite)
    ensures var cases := GroupRow(experiments, results, suite).cases;
      var baseline, guided := Find(experiments, Baseline), Find(experiments, Guided);
      && (forall k :: 0 <= k < |cases| ==> IsCaseRow(cases[k], results, baseline, guided, suite.runsPerCell))
      && (forall j, k :: 0 <= j < k < |cases| ==> cases[j].caseId != cases[k].caseId)
      && (forall caseId :: NamesCase(results, IdsOf(baseline, guided), caseId) <==>
            exists k :: 0 <= k < |cases| && cases[k].caseId == caseId)
  {
    var baseline, guided := Find(experiments, Baseline), Find(experiments, Guided);
    var ids := CaseIds(GroupResults(results, baseline, guided));
    var cases := GroupRow(experiments, results, suite).cases;
    RowHasCaseRows(experiments, results, suite);
    CaseIdsAre(GroupResults(results, baseline, guided));
    forall caseId
      ensures NamesCase(results, IdsOf(baseline, guided), caseId) <==>
        exists k :: 0 <= k < |cases| && cases[k].caseId == caseId
    {
      GroupNamesCases(results, baseline, guided, caseId);
      if caseId in ids {
        var k :| 0 <= k < |ids| && ids[k] == caseId;
        assert cases[k].caseId == caseId;
      }
    }
  }

  /** The experiment of a treatment is the first one listed with it. */
  lemma {:induction false} FindIsFirst(experiments: seq<Experiment>, treatment: Treatment)
    ensures var found := Find(experiments, treatment);
      if found.None? then forall i :: 0 <= i < |experiments| ==> experiments[i].treatment != treatment
      else exists i ::
             && 0 <= i < |experiments| && experiments[i] == found.value && experiments[i].treatment == treatment
             && forall j :: 0 <= j < i ==> experiments[j].treatment != treatment
  {
    if experiments != [] && experiments[0].treatment != treatment {
      var rest := experiments[1..];
      FindIsFirst(rest, treatment);
      assert forall j :: 0 <= j < |rest| ==> rest[j] == experiments[j + 1];
      if Find(rest, treatment).Some? {
        var i :| 0 <= i < |rest| && rest[i] == Find(rest, treatment).value && rest[i].treatment == treatment
          && forall j :: 0 <= j < i ==> rest[j].treatment != treatment;
        assert experiments[i + 1] == rest[i];
        forall j | 0 <= j < i + 1
          ensures experiments[j].treatment != treatment
        {
          assert j > 0 ==> experiments[j] == rest[j - 1];
        }
      }
    }
  }

  lemma {:induction false} PickedMembers(results: seq<Result>, s: Selection, r: Result)
    ensures r in Picked(results, s) <==> r in results && Selected(r, s)
  {
    if results != [] {
      PickedMembers(results[1..], s, r);
      assert results == [results[0]] + results[1..];
    }
  }

  /** The strings agree up to `k`, where the first ends or has the smaller character. */
  predicate DecidedAt(a: string, b: string, k: nat) {
    k <= |a| && k < |b| && a[..k] == b[..k] && (k == |a| || a[k] < b[k])
  }

  lemma DecidedFurtherOn(a: string, b: string, k: nat)
    requires a != "" && b != ""
    ensures DecidedAt(a, b, k + 1) <==> a[0] == b[0] && DecidedAt(a[1..], b[1..], k)
  {
    if k + 1 <= |a| && k + 1 < |b| {
      assert a[..k + 1] == [a[0]] + a[1..][..k] && b[..k + 1] == [b[0]] + b[1..][..k];
      assert a[..k + 1][0] == a[0] && b[..k + 1][0] == b[0];
      assert a[..k + 1][1..] == a[1..][..k] && b[..k + 1][1..] == b[1..][..k];
    }
  }

  /** The order of strings: the first difference decides, the end of a string coming before any character. */
  lemma {:induction false} BelowExactly(a: string, b: string)
    ensures Below(a, b) <==> exists k :: DecidedAt(a, b, k)
  {
    if a == "" || b == "" {
      assert b != "" ==> DecidedAt(a, b, 0);
    } else {
      BelowExactly(a[1..], b[1..]);
      assert DecidedAt(a, b, 0) <==> a[0] < b[0];
      if exists k: nat :: DecidedAt(a[1..], b[1..], k) {
        var k: nat :| DecidedAt(a[1..], b[1..], k);
        DecidedFurtherOn(a, b, k);
      }
      if exists k: nat :: DecidedAt(a, b, k) {
        var k: nat :| DecidedAt(a, b, k);
        if k > 0 {
          DecidedFurtherOn(a, b, k - 1);
        }
      }
    }
  }

  /** The row's date is the last, in string order, of the dates of its measured results; null iff none has one. */
  lemma RowDateFromResults(experiments: seq<Experiment>, results: seq<Result>, suite: Suite)
    ensures var latest := GroupRow(experiments, results, suite).latestMeasuredAt;
      var s := Selection(IdsOf(Find(experiments, Baseline), Find(experiments, Guided)), None);
      && (latest.None? <==> forall r :: r in results && Selected(r, s) ==> r.measuredAt.None?)
      && (latest.Some? ==> exists r :: r in results && Selected(r, s) && r.measuredAt == latest)
      && forall r :: r in results && Selected(r, s) && r.measuredAt.Some? ==> !Below(latest.value, r.measuredAt.value)
  {
    var baseline, guided := Find(experiments, Baseline), Find(experiments, Guided);
    var s := Selection(IdsOf(baseline, guided), None);
    var measured := Measured(GroupResults(results, baseline, guided));
    MeasuredIsPicked(results, baseline, guided);
    LatestIsLast(measured);
    forall r
      ensures r in measured <==> r in results && Selected(r, s)
    {
      PickedMembers(results, s, r);
    }
  }
}
