/** components/Dashboard.tsx: the whole useMemo body, from the records and
    the selected window and modes to the statistics, the bar series, the
    trend series and the daily-view flag. */
module DashboardView {
  import opened Seqs
  import opened Calendar
  import opened Types
  import opened Constants
  import opened Dashboard
  import opened Charts

  /** The memoised value, without the locale-dependent labels. */
  datatype View = View(stats: Stats, barChartData: seq<Bar>, trendChartData: seq<TrendPoint>, isDailyView: bool)

  /** What the dashboard shows for these records and settings. */
  function DashboardOf(records: seq<FuelRecord>, w: Window, chartMode: ChartMode, trendMode: TrendMode): View
  {
    var ps := Points(records, w);
    var daily := IsDailyView(w);
    View(StatsOf(ps), Bars(Buckets(ps, KeyFn(daily)), chartMode), TrendSeries(ps, trendMode), daily)
  }

  /** The useMemo body step by step: sort, filter, annotate, accumulate,
      choose daily or monthly, group, sort the buckets, build the trend. */
  method ComputeDashboard(records: seq<FuelRecord>, w: Window, chartMode: ChartMode, trendMode: TrendMode)
    returns (view: View)
    ensures view == DashboardOf(records, w, chartMode, trendMode)
  {
    var sortedAll := Chronological(records);
    var filteredRecords := Filtered(sortedAll, w);
    var processedForCharts := Map(filteredRecords, AnnotateIn(sortedAll));
    var totals := Accumulate(processedForCharts);
    var avgConsumption := if totals.weightedCount > 0.0 then totals.weightedSum / totals.weightedCount else 0.0;
    var avgCostPerUnit := if totals.dist > 0.0 then totals.cost / totals.dist else 0.0;

    var dynamicDailyView := DailyViewFlag(w);
    var barChartArray := BarChart(processedForCharts, dynamicDailyView, chartMode);
    var trendArray := TrendSeries(processedForCharts, trendMode);

    var lastRefuelDate := if |filteredRecords| > 0 then Some(filteredRecords[|filteredRecords| - 1].date) else None;
    assert processedForCharts == Points(records, w);
    if |filteredRecords| > 0 {
      var n := |filteredRecords| - 1;
      assert processedForCharts[n] == Annotate(sortedAll, filteredRecords[n]);
      assert processedForCharts[n].record == filteredRecords[n];
    }
    var stats := Stats(totals.cost, avgConsumption, avgCostPerUnit, lastRefuelDate);
    assert stats == StatsOf(processedForCharts);
    view := View(stats, barChartArray, trendArray, dynamicDailyView);
  }

  /** The cost bars add up to the total cost shown, and the volume bars to
      the total volume of the window. */
  lemma BarsAddUp(records: seq<FuelRecord>, w: Window, chartMode: ChartMode, trendMode: TrendMode)
    ensures var view := DashboardOf(records, w, chartMode, trendMode);
      Sum(view.barChartData, BarValue) ==
        if chartMode == CostChart then view.stats.totalCost else TotalsOf(Points(records, w)).gallons
  {
    var ps := Points(records, w);
    var buckets := Buckets(ps, KeyFn(IsDailyView(w)));
    BarsSum(buckets, chartMode);
    BucketsAddUp(ps, KeyFn(IsDailyView(w)));
  }

  /** On the dashboard, each bar's order is the earliest time among the
      points of its bucket. */
  lemma BarOrderIsEarliest(records: seq<FuelRecord>, w: Window, k: BucketKey)
    ensures var ps := Points(records, w);
      forall i :: 0 <= i < |ps| && KeyOf(IsDailyView(w), ps[i]) == k ==>
        BucketOf(ps, KeyFn(IsDailyView(w)), k).order <= TimeOf(ps[i])
  {
    var ps := Points(records, w);
    PointsSpec(records, w);
    BucketOrderIsEarliest(ps, KeyFn(IsDailyView(w)), k);
  }

  /** For a custom window between two dates as the date inputs write them,
      the bars are daily exactly when the end is at most 45 days after the
      start; 'week' and '30d' are always daily, '6m', 'year' and 'all'
      never. */
  lemma DailyViewRule(w: Window, a: Date, b: Date)
    requires ValidDate(a) && 1000 <= a.year <= 9999 && ValidDate(b) && 1000 <= b.year <= 9999
    ensures w.range == Custom && w.customStart == LocalDateString(a) && w.customEnd == LocalDateString(b) ==>
      (IsDailyView(w) <==> DayNumber(b) - DayNumber(a) <= 45)
    ensures w.range in {Week, ThirtyDays} ==> IsDailyView(w)
    ensures w.range in {SixMonths, Year, AllTime} ==> !IsDailyView(w)
  {
    if w.range == Custom && w.customStart == LocalDateString(a) && w.customEnd == LocalDateString(b) {
      LocalDateStringParses(a);
      LocalDateStringParses(b);
      assert ParseDate(w.customStart) == Some(a);
      assert ParseDate(w.customEnd) == Some(b);
    }
  }

  /** A custom window with a bound that is not a date shows months. */
  lemma MalformedBoundShowsMonths(w: Window)
    requires w.range == Custom && (ParseDate(w.customStart).None? || ParseDate(w.customEnd).None?)
    ensures !IsDailyView(w)
  {
  }
}
