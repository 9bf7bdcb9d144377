/** components/Dashboard.tsx, the first half of the useMemo body: the
    chronological sort, the reporting window, the distance and efficiency
    attached to each record in the window, and the accumulated statistics. */
module Dashboard {
  import opened Seqs
  import opened Text
  import opened Calendar
  import opened Types

  // --------------------------------------------------------------- window

  datatype TimeRange = Week | ThirtyDays | SixMonths | Year | AllTime | Custom

  /** The reporting window: the selected range, today's local date (the
      source's `now` reset to midnight) and the two custom bounds as typed
      into the date inputs. */
  datatype Window = Window(range: TimeRange, today: Date, customStart: string, customEnd: string)

  /** Whole days from the record's date to today. */
  function DaysAgo(w: Window, d: Date): int
  {
    DayNumber(w.today) - DayNumber(d)
  }

  /** The filter callback, test by test. A date that does not parse is
      outside every window but 'all' and 'custom' (its day difference and
      its year are NaN). The custom bounds are compared as strings. */
  predicate InWindow(w: Window, r: FuelRecord)
  {
    if w.range == AllTime then true
    else if w.range == Custom then !LexLess(r.date, w.customStart) && !LexLess(w.customEnd, r.date)
    else match ParseDate(r.date)
      case None => false
      case Some(d) =>
        match w.range
        case Week => 0 <= DaysAgo(w, d) <= 7
        case ThirtyDays => 0 <= DaysAgo(w, d) <= 30
        case SixMonths => 0 <= DaysAgo(w, d) <= 180
        case Year => d.year == w.today.year
        case _ => true
  }

  function InWindowOf(w: Window): FuelRecord -> bool
  {
    (r: FuelRecord) => InWindow(w, r)
  }

  /** filteredRecords: the sorted records inside the window, in order. */
  function Filtered(sorted: seq<FuelRecord>, w: Window): (filtered: seq<FuelRecord>)
    ensures forall i :: 0 <= i < |filtered| ==> filtered[i] in sorted && InWindow(w, filtered[i])
    ensures forall i :: 0 <= i < |sorted| && InWindow(w, sorted[i]) ==> sorted[i] in filtered
    ensures IsSubsequence(filtered, sorted)
    ensures forall x :: multiset(filtered)[x] == if InWindow(w, x) then multiset(sorted)[x] else 0
  {
    FilterIsSubsequence(sorted, InWindowOf(w));
    FilterCount(sorted, InWindowOf(w));
    FilterMembers(sorted, InWindowOf(w));
    Filter(sorted, InWindowOf(w))
  }

  /** 'all' keeps every record. */
  lemma AllTimeKeepsAll(sorted: seq<FuelRecord>, w: Window)
    requires w.range == AllTime
    ensures Filtered(sorted, w) == sorted
  {
    FilterKeepsAll(sorted, InWindowOf(w));
  }

  /** For well-formed dates, the string comparison of the custom window is
      the calendar comparison: the record's day lies between the bounds. */
  lemma CustomWindowByDay(w: Window, r: FuelRecord)
    requires w.range == Custom
    requires ParseDate(r.date).Some? && ParseDate(w.customStart).Some? && ParseDate(w.customEnd).Some?
    ensures InWindow(w, r) <==> DateKey(w.customStart) <= DateKey(r.date) <= DateKey(w.customEnd)
  {
    DateStringOrder(r.date, w.customStart);
    DateStringOrder(w.customEnd, r.date);
  }

  /** The length in days of the 'week', '30d' and '6m' windows. */
  function DayLimit(range: TimeRange): int
  {
    match range
    case Week => 7
    case ThirtyDays => 30
    case _ => 180
  }

  /** A day difference of 0..limit is a walk of 0..limit calendar days
      from the date to today. */
  lemma WithinDays(w: Window, d: Date, limit: int)
    requires ValidDate(w.today) && ValidDate(d)
    ensures (0 <= DaysAgo(w, d) <= limit) <==> exists n: nat :: n <= limit && AddDays(d, n) == w.today
  {
    forall n: nat
      ensures AddDays(d, n) == w.today <==> DaysAgo(w, d) == n
    {
      StepsBetween(d, w.today, n);
    }
    if 0 <= DaysAgo(w, d) <= limit {
      var k: nat := DaysAgo(w, d);
      assert AddDays(d, k) == w.today;
    }
  }

  /** The day-count windows: a record is inside exactly when its date
      parses and today is reached from it in 0..N calendar days
      (N = 7, 30, 180); the year window keeps the parsed dates of today's
      year. Today is a real calendar date (it comes from the clock). */
  lemma DayWindows(w: Window, r: FuelRecord)
    requires ValidDate(w.today)
    ensures w.range in {Week, ThirtyDays, SixMonths} ==>
      (InWindow(w, r) <==>
       ParseDate(r.date).Some? && exists n: nat :: n <= DayLimit(w.range) && AddDays(ParseDate(r.date).value, n) == w.today)
    ensures w.range == Year ==>
      (InWindow(w, r) <==> ParseDate(r.date).Some? && ParseDate(r.date).value.year == w.today.year)
  {
    if w.range in {Week, ThirtyDays, SixMonths} && ParseDate(r.date).Some? {
      var d := ParseDate(r.date).value;
      assert InWindow(w, r) <==> 0 <= DaysAgo(w, d) <= DayLimit(w.range);
      WithinDays(w, d, DayLimit(w.range));
    }
  }

  /** Record by record, the week window lies inside the 30-day window,
      which lies inside the 6-month one. */
  lemma WindowsNestRecord(w: Window, r: FuelRecord)
    requires w.range == Week
    ensures InWindow(w, r) ==> InWindow(w.(range := ThirtyDays), r)
    ensures InWindow(w.(range := ThirtyDays), r) ==> InWindow(w.(range := SixMonths), r)
  {
  }

  /** So the filtered lists nest too, copies included. */
  lemma WindowsNest(sorted: seq<FuelRecord>, w: Window)
    requires w.range == Week
    ensures multiset(Filtered(sorted, w)) <= multiset(Filtered(sorted, w.(range := ThirtyDays)))
    ensures multiset(Filtered(sorted, w.(range := ThirtyDays))) <= multiset(Filtered(sorted, w.(range := SixMonths)))
  {
    var m, t := w.(range := ThirtyDays), w.(range := SixMonths);
    var fw, fm, ft := Filtered(sorted, w), Filtered(sorted, m), Filtered(sorted, t);
    forall x
      ensures multiset(fw)[x] <= multiset(fm)[x] && multiset(fm)[x] <= multiset(ft)[x]
    {
      WindowsNestRecord(w, x);
    }
  }

  // --------------------------------------------------------------- points

  /** A processedForCharts entry: the record with its distance, its
      efficiency and its Date object. */
  datatype Point = Point(record: FuelRecord, dist: real, efficiency: real, dateObj: DateValue)

  /** dateObj.getTime(), in days. */
  function TimeOf(p: Point): int
  {
    p.dateObj.time
  }

  /** sortedAll.findIndex(r => r.id === id): the first index, or -1. */
  function FindIndex(s: seq<FuelRecord>, id: string): (k: int)
    ensures -1 <= k < |s|
    ensures k >= 0 ==> s[k].id == id && forall j :: 0 <= j < k ==> s[j].id != id
    ensures k == -1 ==> forall j :: 0 <= j < |s| ==> s[j].id != id
  {
    if s == [] then -1
    else if s[0].id == id then 0
    else
      var k := FindIndex(s[1..], id);
      if k == -1 then -1 else k + 1
  }

  /** The map callback: distance to the record before the first record with
      this id in the full sorted list, and distance per volume when both
      are positive. A negative distance is kept. */
  function Annotate(sorted: seq<FuelRecord>, r: FuelRecord): (p: Point)
    ensures p.record == r && p.dateObj == DateOf(r.date)
    ensures TimeOf(p) == ByDate(r)
    ensures p.efficiency > 0.0 <==> p.dist > 0.0 && r.gallons > 0.0
    ensures p.efficiency > 0.0 ==> p.efficiency == p.dist / r.gallons
    ensures p.efficiency <= 0.0 ==> p.efficiency == 0.0
  {
    var k := FindIndex(sorted, r.id);
    if k > 0 then
      var dist := r.odometer - sorted[k - 1].odometer;
      Point(r, dist, if dist > 0.0 && r.gallons > 0.0 then dist / r.gallons else 0.0, DateOf(r.date))
    else Point(r, 0.0, 0.0, DateOf(r.date))
  }

  function AnnotateIn(sorted: seq<FuelRecord>): FuelRecord -> Point
  {
    (r: FuelRecord) => Annotate(sorted, r)
  }

  /** processedForCharts. */
  function Points(records: seq<FuelRecord>, w: Window): seq<Point>
  {
    var sorted := Chronological(records);
    Map(Filtered(sorted, w), AnnotateIn(sorted))
  }

  /** The ids of the records are pairwise different. */
  ghost predicate DistinctIds(s: seq<FuelRecord>)
  {
    forall i, j :: 0 <= i < j < |s| ==> s[i].id != s[j].id
  }

  /** With distinct ids the distance is measured against the immediate
      predecessor in the full sorted list, whatever the window; the first
      record overall has distance and efficiency 0. */
  lemma PredecessorInFullList(sorted: seq<FuelRecord>, j: nat)
    requires DistinctIds(sorted) && j < |sorted|
    ensures j == 0 ==> Annotate(sorted, sorted[j]).dist == 0.0 && Annotate(sorted, sorted[j]).efficiency == 0.0
    ensures j > 0 ==> Annotate(sorted, sorted[j]).dist == sorted[j].odometer - sorted[j - 1].odometer
  {
    assert FindIndex(sorted, sorted[j].id) == j;
  }

  /** Whatever the ids, every record carrying an id is measured against
      the predecessor of the first record with that id; when that first
      record opens the sorted list, every copy has distance and
      efficiency 0. */
  lemma RepeatedIdUsesFirst(sorted: seq<FuelRecord>, r: FuelRecord, k: nat)
    requires k < |sorted| && sorted[k].id == r.id
    requires forall j :: 0 <= j < k ==> sorted[j].id != r.id
    ensures k > 0 ==> Annotate(sorted, r).dist == r.odometer - sorted[k - 1].odometer
    ensures k == 0 ==> Annotate(sorted, r).dist == 0.0 && Annotate(sorted, r).efficiency == 0.0
  {
    assert FindIndex(sorted, r.id) == k;
  }

  /** The points follow the filtered records one to one, in date order. */
  lemma PointsSpec(records: seq<FuelRecord>, w: Window)
    ensures var filtered := Filtered(Chronological(records), w);
      |Points(records, w)| == |filtered|
      && forall i :: 0 <= i < |filtered| ==> Points(records, w)[i].record == filtered[i]
    ensures forall i, j :: 0 <= i < j < |Points(records, w)| ==>
      TimeOf(Points(records, w)[i]) <= TimeOf(Points(records, w)[j])
  {
    var sorted := Chronological(records);
    FilterSortedBy(sorted, InWindowOf(w), ByDate);
  }

  // ----------------------------------------------------------- statistics

  /** totalDist, totalCost, totalGallons, weightedEfficiencySum and
      weightedEfficiencyCount. */
  datatype DashTotals = DashTotals(dist: real, cost: real, gallons: real, weightedSum: real, weightedCount: real)

  function PointDist(p: Point): real { p.dist }
  function PointCost(p: Point): real { p.record.totalCost }
  function PointGallons(p: Point): real { p.record.gallons }
  /** efficiency * gallons for a point with positive efficiency, else nothing. */
  function PointWeighted(p: Point): real { if p.efficiency > 0.0 then p.efficiency * p.record.gallons else 0.0 }
  function PointWeight(p: Point): real { if p.efficiency > 0.0 then p.record.gallons else 0.0 }

  /** The totals over the points: every point adds its distance (negative
      ones included), cost and volume; only points with positive
      efficiency add to the weighted sum and its weight. */
  function TotalsOf(ps: seq<Point>): DashTotals
  {
    DashTotals(Sum(ps, PointDist), Sum(ps, PointCost), Sum(ps, PointGallons), Sum(ps, PointWeighted), Sum(ps, PointWeight))
  }

  lemma TotalsSnoc(ps: seq<Point>, p: Point)
    ensures TotalsOf(ps + [p]) == DashTotals(
      TotalsOf(ps).dist + p.dist, TotalsOf(ps).cost + p.record.totalCost, TotalsOf(ps).gallons + p.record.gallons,
      TotalsOf(ps).weightedSum + PointWeighted(p), TotalsOf(ps).weightedCount + PointWeight(p))
  {
    SumSnoc(ps, p, PointDist);
    SumSnoc(ps, p, PointCost);
    SumSnoc(ps, p, PointGallons);
    SumSnoc(ps, p, PointWeighted);
    SumSnoc(ps, p, PointWeight);
  }

  /** The forEach loop over processedForCharts. */
  method Accumulate(ps: seq<Point>) returns (t: DashTotals)
    ensures t == TotalsOf(ps)
  {
    var totalDist, totalCost, totalGallons := 0.0, 0.0, 0.0;
    var weightedEfficiencySum, weightedEfficiencyCount := 0.0, 0.0;
    for i := 0 to |ps|
      invariant DashTotals(totalDist, totalCost, totalGallons, weightedEfficiencySum, weightedEfficiencyCount) == TotalsOf(ps[..i])
    {
      var r := ps[i];
      TotalsSnoc(ps[..i], r);
      assert ps[..i + 1] == ps[..i] + [r];
      totalCost := totalCost + r.record.totalCost;
      totalGallons := totalGallons + r.record.gallons;
      totalDist := totalDist + r.dist;
      if r.efficiency > 0.0 {
        weightedEfficiencySum := weightedEfficiencySum + r.efficiency * r.record.gallons;
        weightedEfficiencyCount := weightedEfficiencyCount + r.record.gallons;
      }
    }
    assert ps[..|ps|] == ps;
    t := DashTotals(totalDist, totalCost, totalGallons, weightedEfficiencySum, weightedEfficiencyCount);
  }

  /** The stats object. lastRefuelDate is None where the source has null. */
  datatype Stats = Stats(totalCost: real, avgConsumption: real, avgCostPerUnit: real, lastRefuelDate: Option<string>)

  /** The statistics of the points, from their totals. */
  function StatsOf(ps: seq<Point>): Stats
  {
    var t := TotalsOf(ps);
    Stats(
      t.cost,
      if t.weightedCount > 0.0 then t.weightedSum / t.weightedCount else 0.0,
      if t.dist > 0.0 then t.cost / t.dist else 0.0,
      if |ps| > 0 then Some(ps[|ps| - 1].record.date) else None)
  }

  function RecordCost(r: FuelRecord): real { r.totalCost }

  /** The total cost counts every record in the window, whatever its
      efficiency, and the last refuelling date is the window's last
      record's date. */
  lemma StatsOfWindow(records: seq<FuelRecord>, w: Window)
    ensures var filtered := Filtered(Chronological(records), w);
      StatsOf(Points(records, w)).totalCost == Sum(filtered, RecordCost)
      && StatsOf(Points(records, w)).lastRefuelDate == (if filtered == [] then None else Some(filtered[|filtered| - 1].date))
  {
    var sorted := Chronological(records);
    var filtered := Filtered(sorted, w);
    var ps := Points(records, w);
    PointsCost(filtered, sorted);
  }

  /** The cost per distance unit is the window's total cost over the sum
      of every point's distance, negative odometer deltas included, or 0
      when that sum is not positive. */
  lemma CostPerUnitOfWindow(records: seq<FuelRecord>, w: Window)
    ensures var ps := Points(records, w);
      StatsOf(ps).avgCostPerUnit ==
        (if Sum(ps, PointDist) > 0.0 then Sum(Filtered(Chronological(records), w), RecordCost) / Sum(ps, PointDist) else 0.0)
  {
    StatsOfWindow(records, w);
  }

  lemma PointsCost(rs: seq<FuelRecord>, sorted: seq<FuelRecord>)
    ensures Sum(Map(rs, AnnotateIn(sorted)), PointCost) == Sum(rs, RecordCost)
  {
    forall i | 0 <= i < |rs|
      ensures RecordCost(rs[i]) == PointCost(AnnotateIn(sorted)(rs[i]))
    {
      assert Annotate(sorted, rs[i]).record == rs[i];
    }
    SumMap(rs, AnnotateIn(sorted), PointCost, RecordCost);
  }

  /** Over all time the total cost is the cost of all records. */
  lemma AllTimeTotalCost(records: seq<FuelRecord>, w: Window)
    requires w.range == AllTime
    ensures StatsOf(Points(records, w)).totalCost == Sum(records, RecordCost)
  {
    StatsOfWindow(records, w);
    AllTimeKeepsAll(Chronological(records), w);
    SumPermutation(Chronological(records), records, RecordCost);
  }

  /** The distance of a point with positive efficiency, else nothing. */
  function ValidDist(p: Point): real { if p.efficiency > 0.0 then p.dist else 0.0 }

  /** Each weighted term is the point's distance, so the weighted sum is
      the distance covered by the points with positive efficiency. */
  lemma {:induction false} WeightedSumIsValidDist(ps: seq<Point>)
    requires forall i :: 0 <= i < |ps| ==> ps[i].efficiency > 0.0 ==> ps[i].record.gallons > 0.0 && ps[i].efficiency == ps[i].dist / ps[i].record.gallons
    ensures Sum(ps, PointWeighted) == Sum(ps, ValidDist)
  {
    forall i | 0 <= i < |ps| ensures PointWeighted(ps[i]) == ValidDist(ps[i]) {
      var p := ps[i];
      if p.efficiency > 0.0 {
        DivMul(p.dist, p.record.gallons);
      }
    }
    SumCongruence(ps, PointWeighted, ValidDist);
  }

  lemma DivMul(d: real, g: real)
    requires g > 0.0
    ensures d / g * g == d
  {
  }

  /** avgConsumption is the distance over the volume of the points with
      positive efficiency (0 when there are none). */
  lemma AvgConsumptionIsDistPerVolume(records: seq<FuelRecord>, w: Window)
    ensures var ps := Points(records, w);
      StatsOf(ps).avgConsumption ==
        (if Sum(ps, PointWeight) > 0.0 then Sum(ps, ValidDist) / Sum(ps, PointWeight) else 0.0)
  {
    var ps := Points(records, w);
    forall i | 0 <= i < |ps|
      ensures ps[i].efficiency > 0.0 ==> ps[i].record.gallons > 0.0 && ps[i].efficiency == ps[i].dist / ps[i].record.gallons
    {
    }
    WeightedSumIsValidDist(ps);
  }

  function ValidEfficiency(p: Point): real { if p.efficiency > 0.0 then p.efficiency else 0.0 }
  function ValidCount(p: Point): real { if p.efficiency > 0.0 then 1.0 else 0.0 }

  /** The weighted sums scale with a common volume. */
  predicate Scaled(ps: seq<Point>, g: real)
  {
    Sum(ps, PointWeighted) == g * Sum(ps, ValidEfficiency) && Sum(ps, PointWeight) == g * Sum(ps, ValidCount)
  }

  lemma EqualVolumes(ps: seq<Point>, g: real)
    requires forall i :: 0 <= i < |ps| ==> ps[i].efficiency > 0.0 ==> ps[i].record.gallons == g
    ensures Scaled(ps, g)
  {
    SumScale(ps, PointWeighted, ValidEfficiency, g);
    SumScale(ps, PointWeight, ValidCount, g);
  }

  /** When every point with positive efficiency has the same volume,
      avgConsumption is the plain mean of their efficiencies. */
  lemma AvgConsumptionEqualVolumes(ps: seq<Point>, g: real)
    requires g > 0.0
    requires forall i :: 0 <= i < |ps| ==> ps[i].efficiency > 0.0 ==> ps[i].record.gallons == g
    requires Sum(ps, ValidCount) > 0.0
    ensures StatsOf(ps).avgConsumption == Sum(ps, ValidEfficiency) / Sum(ps, ValidCount)
  {
    var e, n := Sum(ps, ValidEfficiency), Sum(ps, ValidCount);
    EqualVolumes(ps, g);
    assert TotalsOf(ps).weightedSum == g * e && TotalsOf(ps).weightedCount == g * n;
    MeanScaled(e, n, g);
  }

  lemma MeanScaled(e: real, n: real, g: real)
    requires g > 0.0 && n > 0.0
    ensures g * n > 0.0 && (g * e) / (g * n) == e / n
  {
  }
}
