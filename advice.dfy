/** components/AIAnalysis.tsx: calculateStats, the summary handed to the
    advice request, and the guard of handleAnalyze. */
module Advice {
  import opened Seqs
  import opened Calendar
  import opened Types

  /** One entry of the intervals array. */
  datatype Interval = Interval(date: string, efficiency: real, price: real)

  datatype Trend = Improving | Worsening | Stable

  /** The object calculateStats returns; the averages are kept as numbers
      (the source formats them with toFixed(2)). */
  datatype AdviceStats = AdviceStats(
    totalRecords: nat,
    avgEfficiency: real,
    avgPrice: real,
    recentAvgEfficiency: real,
    previousAvgEfficiency: real,
    trend: Trend,
    lastPrice: real,
    firstPrice: real)

  // ------------------------------------------------------------ intervals

  /** current.odometer - prev.odometer at loop index i. */
  function Dist(s: seq<FuelRecord>, i: nat): real
    requires 1 <= i < |s|
  {
    s[i].odometer - s[i - 1].odometer
  }

  /** The loop's test: a positive distance and a positive volume. */
  predicate IsInterval(s: seq<FuelRecord>, i: nat)
    requires 1 <= i < |s|
  {
    Dist(s, i) > 0.0 && s[i].gallons > 0.0
  }

  /** The interval pushed at index i. */
  function IntervalAt(s: seq<FuelRecord>, i: nat): Interval
    requires 1 <= i < |s| && IsInterval(s, i)
  {
    Interval(s[i].date, Dist(s, i) / s[i].gallons, s[i].pricePerGallon)
  }

  /** The indices below n at which the loop pushes an interval: exactly
      the i in 1..n-1 that pass the test, in increasing order. */
  function IntervalIndices(s: seq<FuelRecord>, n: nat): (idx: seq<nat>)
    requires n <= 1 || n <= |s|
    ensures forall k :: 0 <= k < |idx| ==> 1 <= idx[k] < n && IsInterval(s, idx[k])
    ensures forall k, l :: 0 <= k < l < |idx| ==> idx[k] < idx[l]
    ensures forall i :: 1 <= i < n && IsInterval(s, i) ==> i in idx
    ensures |idx| <= if n == 0 then 0 else n - 1
    decreases n
  {
    if n <= 1 then [] else IntervalIndices(s, n - 1) + (if IsInterval(s, n - 1) then [n - 1] else [])
  }

  /** The intervals array after the loop has run up to n. */
  function Intervals(s: seq<FuelRecord>, n: nat): seq<Interval>
    requires n <= 1 || n <= |s|
  {
    var idx := IntervalIndices(s, n);
    seq(|idx|, k requires 0 <= k < |idx| => IntervalAt(s, idx[k]))
  }

  /** The three running totals of the loop. */
  datatype Totals = Totals(dist: real, gallons: real, price: real)

  /** totalDist, totalGallons and totalPrice once the loop has run up to n:
      each interval adds its distance, its volume and its price. */
  function TotalsUpTo(s: seq<FuelRecord>, n: nat): Totals
    requires n <= 1 || n <= |s|
    decreases n
  {
    if n <= 1 then Totals(0.0, 0.0, 0.0)
    else
      var t := TotalsUpTo(s, n - 1);
      if IsInterval(s, n - 1) then Totals(t.dist + Dist(s, n - 1), t.gallons + s[n - 1].gallons, t.price + s[n - 1].pricePerGallon)
      else t
  }

  /** Volume is summed only over intervals, each of which has a positive
      volume, so it is positive as soon as there is one interval. */
  lemma {:induction false} GallonsPositive(s: seq<FuelRecord>, n: nat)
    requires n <= 1 || n <= |s|
    ensures IntervalIndices(s, n) != [] ==> TotalsUpTo(s, n).gallons > 0.0
    ensures TotalsUpTo(s, n).gallons >= 0.0
    decreases n
  {
    if n > 1 {
      GallonsPositive(s, n - 1);
    }
  }

  // ---------------------------------------------------------------- trend

  /** Math.min(3, Math.floor(m / 2)). */
  function RecentCount(m: nat): nat
  {
    if 3 <= m / 2 then 3 else m / 2
  }

  /** A relative index of Array.prototype.slice, clamped to 0..len. */
  function SliceIndex(k: int, len: nat): (r: nat)
    ensures r <= len
  {
    if k < 0 then (if len + k < 0 then 0 else len + k)
    else if k > len then len else k
  }

  /** Array.prototype.slice(start, end). */
  function Slice<T>(s: seq<T>, start: int, end: int): seq<T>
  {
    var from := SliceIndex(start, |s|);
    var to := SliceIndex(end, |s|);
    if from < to then s[from..to] else []
  }

  function Efficiency(iv: Interval): real
  {
    iv.efficiency
  }

  /** The ±5% rule on the two averages. */
  function ClassifyTrend(recentAvg: real, previousAvg: real): Trend
  {
    var diff := recentAvg - previousAvg;
    if diff > previousAvg * 0.05 then Improving
    else if diff < -(previousAvg * 0.05) then Worsening
    else Stable
  }

  datatype TrendSummary = TrendSummary(recentAvg: real, previousAvg: real, trend: Trend)

  /** The last recentCount intervals against the recentCount before them. */
  function TrendOf(ivs: seq<Interval>): TrendSummary
  {
    var rc := RecentCount(|ivs|);
    if rc > 0 then
      var recent := Slice(ivs, -(rc as int), |ivs|);
      var previous := Slice(ivs, -(rc as int) * 2, -(rc as int));
      var recentAvg := Sum(recent, Efficiency) / (rc as real);
      if |previous| > 0 then
        var previousAvg := Sum(previous, Efficiency) / (|previous| as real);
        TrendSummary(recentAvg, previousAvg, ClassifyTrend(recentAvg, previousAvg))
      else TrendSummary(recentAvg, 0.0, Stable)
    else TrendSummary(0.0, 0.0, Stable)
  }

  // ---------------------------------------------------------------- stats

  function RecordPrice(r: FuelRecord): real
  {
    r.pricePerGallon
  }

  /** What calculateStats returns, stated on the specification functions:
      null without intervals, otherwise the summary. */
  function StatsOf(records: seq<FuelRecord>): (r: Option<AdviceStats>)
    ensures r.None? <==> IntervalIndices(Chronological(records), |records|) == []
  {
    var sorted := Chronological(records);
    if IntervalIndices(sorted, |sorted|) == [] then None
    else
      GallonsPositive(sorted, |sorted|);
      var totals := TotalsUpTo(sorted, |sorted|);
      var ts := TrendOf(Intervals(sorted, |sorted|));
      Some(AdviceStats(
        |sorted|,
        totals.dist / totals.gallons,
        if |sorted| > 0 then Sum(sorted, RecordPrice) / (|sorted| as real) else 0.0,
        ts.recentAvg,
        ts.previousAvg,
        ts.trend,
        sorted[|sorted| - 1].pricePerGallon,
        sorted[0].pricePerGallon))
  }

  /** One more loop index. */
  lemma IndicesStep(s: seq<FuelRecord>, i: nat)
    requires 1 <= i < |s|
    ensures IntervalIndices(s, i + 1) == IntervalIndices(s, i) + (if IsInterval(s, i) then [i] else [])
    ensures Intervals(s, i + 1) == Intervals(s, i) + (if IsInterval(s, i) then [IntervalAt(s, i)] else [])
  {
    var idx := IntervalIndices(s, i);
    var idx' := IntervalIndices(s, i + 1);
    if IsInterval(s, i) {
      assert idx' == idx + [i];
      assert forall k :: 0 <= k < |idx| ==> idx'[k] == idx[k];
    } else {
      assert idx' == idx;
    }
  }

  /** One iteration of the loop, on the specification: index i either
      pushes its interval and adds to the totals, or changes nothing. */
  lemma IntervalLoopStep(s: seq<FuelRecord>, i: nat)
    requires 1 <= i < |s|
    ensures var t := TotalsUpTo(s, i); var d := s[i].odometer - s[i - 1].odometer;
      if d > 0.0 && s[i].gallons > 0.0 then
        Intervals(s, i + 1) == Intervals(s, i) + [Interval(s[i].date, d / s[i].gallons, s[i].pricePerGallon)]
        && TotalsUpTo(s, i + 1) == Totals(t.dist + d, t.gallons + s[i].gallons, t.price + s[i].pricePerGallon)
      else
        Intervals(s, i + 1) == Intervals(s, i) && TotalsUpTo(s, i + 1) == t
  {
    IndicesStep(s, i);
  }

  /** The for loop of calculateStats (i from 1 while i < sorted.length):
      it pushes the intervals and accumulates totalDist, totalGallons and
      totalPrice. */
  method IntervalLoop(sorted: seq<FuelRecord>) returns (intervals: seq<Interval>, totalDist: real, totalGallons: real, totalPrice: real)
    ensures intervals == Intervals(sorted, |sorted|)
    ensures Totals(totalDist, totalGallons, totalPrice) == TotalsUpTo(sorted, |sorted|)
  {
    totalDist, totalGallons, totalPrice := 0.0, 0.0, 0.0;
    intervals := [];
    var i := 1;
    while i < |sorted|
      invariant 1 <= i && (i == 1 || i <= |sorted|)
      invariant intervals == Intervals(sorted, i)
      invariant Totals(totalDist, totalGallons, totalPrice) == TotalsUpTo(sorted, i)
    {
      var current := sorted[i];
      var prev := sorted[i - 1];
      var dist := current.odometer - prev.odometer;
      IntervalLoopStep(sorted, i);
      if dist > 0.0 && current.gallons > 0.0 {
        var eff := dist / current.gallons;
        intervals := intervals + [Interval(current.date, eff, current.pricePerGallon)];
        totalDist := totalDist + dist;
        totalGallons := totalGallons + current.gallons;
        totalPrice := totalPrice + current.pricePerGallon;
      }
      i := i + 1;
    }
  }

  /** calculateStats: the interval loop over the sorted records, then the
      averages and the trend. */
  method CalculateStats(records: seq<FuelRecord>) returns (stats: Option<AdviceStats>)
    ensures stats == StatsOf(records)
  {
    var sorted := Chronological(records);
    var intervals, totalDist, totalGallons, totalPrice := IntervalLoop(sorted);
    if |intervals| == 0 {
      return None;
    }
    GallonsPositive(sorted, |sorted|);
    var avgEfficiency := totalDist / totalGallons;
    var avgPrice := if |sorted| > 0 then Sum(sorted, RecordPrice) / (|sorted| as real) else 0.0;
    var ts := TrendOf(intervals);
    stats := Some(AdviceStats(|sorted|, avgEfficiency, avgPrice, ts.recentAvg, ts.previousAvg, ts.trend,
                              sorted[|sorted| - 1].pricePerGallon, sorted[0].pricePerGallon));
  }

  // -------------------------------------------------------------- handleAnalyze

  /** What handleAnalyze does: ask for more records, stop because there
      are no stats, or send the stats to the advice request. */
  datatype Analysis = NeedMoreRecords | NoStats | Request(stats: AdviceStats)

  /** handleAnalyze up to the request: fewer than two records are refused
      before any statistics are computed. */
  method HandleAnalyze(records: seq<FuelRecord>) returns (a: Analysis)
    ensures |records| < 2 ==> a == NeedMoreRecords
    ensures |records| >= 2 ==> a == match StatsOf(records) case None => NoStats case Some(st) => Request(st)
  {
    if |records| < 2 {
      return NeedMoreRecords;
    }
    var stats := CalculateStats(records);
    if stats.None? {
      return NoStats;
    }
    a := Request(stats.value);
  }

  // --------------------------------------------------------------- lemmas

  /** An interval is emitted for sorted index i >= 1 exactly when the
      distance and the volume are positive; it carries that record's date,
      distance per volume and price; there are at most n - 1 of them and
      they are in date order. */
  lemma IntervalsSpec(records: seq<FuelRecord>)
    ensures var s := Chronological(records); var idx := IntervalIndices(s, |s|);
      (forall i :: 1 <= i < |s| ==> (IsInterval(s, i) <==> i in idx))
      && (forall i :: i in idx ==> 1 <= i < |s|)
      && |Intervals(s, |s|)| <= (if |s| == 0 then 0 else |s| - 1)
      && (forall k :: 0 <= k < |idx| ==>
            Intervals(s, |s|)[k] == Interval(s[idx[k]].date, Dist(s, idx[k]) / s[idx[k]].gallons, s[idx[k]].pricePerGallon))
      && (forall k, l :: 0 <= k < l < |idx| ==>
            DateKey(Intervals(s, |s|)[k].date) <= DateKey(Intervals(s, |s|)[l].date))
  {
    var s := Chronological(records);
    var idx := IntervalIndices(s, |s|);
    forall k, l | 0 <= k < l < |idx|
      ensures DateKey(Intervals(s, |s|)[k].date) <= DateKey(Intervals(s, |s|)[l].date)
    {
      assert idx[k] < idx[l];
      assert ByDate(s[idx[k]]) <= ByDate(s[idx[l]]);
    }
  }

  /** With fewer than two records there is no interval, so no stats. */
  lemma FewRecordsNoStats(records: seq<FuelRecord>)
    requires |records| < 2
    ensures StatsOf(records).None?
  {
  }

  /** Each interval's distance is its efficiency times its volume. */
  lemma WeightedTerm(d: real, g: real)
    requires g > 0.0
    ensures (d / g) * g == d
  {
  }

  /** lo and hi bound the distance per volume of the totals. */
  predicate WithinRates(t: Totals, lo: real, hi: real)
  {
    lo * t.gallons <= t.dist <= hi * t.gallons
  }

  /** The distance total is at most hi times the volume total (and at
      least lo times it) when every interval's efficiency lies in lo..hi:
      the efficiency total is a volume-weighted mean. */
  lemma {:induction false} TotalsBetween(s: seq<FuelRecord>, n: nat, lo: real, hi: real)
    requires n <= 1 || n <= |s|
    requires forall i :: 1 <= i < n && IsInterval(s, i) ==> lo <= IntervalAt(s, i).efficiency <= hi
    ensures WithinRates(TotalsUpTo(s, n), lo, hi)
    decreases n
  {
    if n > 1 {
      TotalsBetween(s, n - 1, lo, hi);
      var i := n - 1;
      if IsInterval(s, i) {
        var g := s[i].gallons;
        var e := IntervalAt(s, i).efficiency;
        WeightedTerm(Dist(s, i), g);
        assert e * g == Dist(s, i);
        assert lo * g <= e * g <= hi * g;
      }
    }
  }

  /** avgEfficiency is totalDist / totalGallons. */
  lemma AvgEfficiencyOfTotals(records: seq<FuelRecord>)
    requires StatsOf(records).Some?
    ensures var s := Chronological(records);
      TotalsUpTo(s, |s|).gallons > 0.0
      && StatsOf(records).value.avgEfficiency == TotalsUpTo(s, |s|).dist / TotalsUpTo(s, |s|).gallons
  {
    GallonsPositive(Chronological(records), |records|);
  }

  /** The ratio of the totals lies between the smallest and the largest
      interval efficiency. */
  lemma RatioBetween(s: seq<FuelRecord>, lo: real, hi: real)
    requires IntervalIndices(s, |s|) != []
    requires forall iv :: iv in Intervals(s, |s|) ==> lo <= iv.efficiency <= hi
    ensures TotalsUpTo(s, |s|).gallons > 0.0
    ensures lo <= TotalsUpTo(s, |s|).dist / TotalsUpTo(s, |s|).gallons <= hi
  {
    forall i | 1 <= i < |s| && IsInterval(s, i) ensures lo <= IntervalAt(s, i).efficiency <= hi {
      IntervalListed(s, i);
    }
    RatioOfTotals(s, lo, hi);
  }

  lemma RatioOfTotals(s: seq<FuelRecord>, lo: real, hi: real)
    requires IntervalIndices(s, |s|) != []
    requires forall i :: 1 <= i < |s| && IsInterval(s, i) ==> lo <= IntervalAt(s, i).efficiency <= hi
    ensures TotalsUpTo(s, |s|).gallons > 0.0
    ensures lo <= TotalsUpTo(s, |s|).dist / TotalsUpTo(s, |s|).gallons <= hi
  {
    TotalsBetween(s, |s|, lo, hi);
    GallonsPositive(s, |s|);
    DivBetween(TotalsUpTo(s, |s|), lo, hi);
  }

  lemma IntervalListed(s: seq<FuelRecord>, i: nat)
    requires 1 <= i < |s| && IsInterval(s, i)
    ensures IntervalAt(s, i) in Intervals(s, |s|)
  {
    var idx := IntervalIndices(s, |s|);
    var k :| 0 <= k < |idx| && idx[k] == i;
    assert Intervals(s, |s|)[k] == IntervalAt(s, i);
  }

  /** Indices of s at which an interval is pushed. */
  predicate IntervalIndexList(s: seq<FuelRecord>, idx: seq<nat>)
  {
    forall k :: 0 <= k < |idx| ==> 1 <= idx[k] < |s| && IsInterval(s, idx[k])
  }

  /** The sum of efficiency times volume over the intervals at idx. */
  function WeightedSum(s: seq<FuelRecord>, idx: seq<nat>): real
    requires IntervalIndexList(s, idx)
  {
    if idx == [] then 0.0
    else
      var i := idx[|idx| - 1];
      WeightedSum(s, idx[..|idx| - 1]) + IntervalAt(s, i).efficiency * s[i].gallons
  }

  /** The sum of the volumes of the intervals at idx. */
  function WeightSum(s: seq<FuelRecord>, idx: seq<nat>): real
    requires IntervalIndexList(s, idx)
  {
    if idx == [] then 0.0
    else WeightSum(s, idx[..|idx| - 1]) + s[idx[|idx| - 1]].gallons
  }

  lemma IndexListSnoc(s: seq<FuelRecord>, idx: seq<nat>, i: nat)
    requires IntervalIndexList(s, idx) && 1 <= i < |s| && IsInterval(s, i)
    ensures IntervalIndexList(s, idx + [i])
  {
    var idx' := idx + [i];
    forall k | 0 <= k < |idx'|
      ensures 1 <= idx'[k] < |s| && IsInterval(s, idx'[k])
    {
      if k < |idx| {
        assert idx'[k] == idx[k];
      }
    }
  }

  /** One more interval adds its efficiency times its volume, which is
      its distance. */
  lemma WeightedSnoc(s: seq<FuelRecord>, idx: seq<nat>, i: nat)
    requires IntervalIndexList(s, idx) && 1 <= i < |s| && IsInterval(s, i) && IntervalIndexList(s, idx + [i])
    ensures WeightedSum(s, idx + [i]) == WeightedSum(s, idx) + Dist(s, i)
  {
    var idx' := idx + [i];
    assert idx'[..|idx'| - 1] == idx;
    IntervalWeight(s, i);
  }

  /** An interval's efficiency times its volume is its distance. */
  lemma IntervalWeight(s: seq<FuelRecord>, i: nat)
    requires 1 <= i < |s| && IsInterval(s, i)
    ensures IntervalAt(s, i).efficiency * s[i].gallons == Dist(s, i)
  {
    WeightedTerm(Dist(s, i), s[i].gallons);
  }

  /** One more interval adds its volume. */
  lemma WeightSnoc(s: seq<FuelRecord>, idx: seq<nat>, i: nat)
    requires IntervalIndexList(s, idx) && 1 <= i < |s| && IsInterval(s, i) && IntervalIndexList(s, idx + [i])
    ensures WeightSum(s, idx + [i]) == WeightSum(s, idx) + s[i].gallons
  {
    var idx' := idx + [i];
    assert idx'[..|idx'| - 1] == idx;
  }

  /** The loop's step on the two sums: adding interval i to totals that
      equal the sums over prev gives the sums over prev + [i]. */
  lemma WeightedStep(s: seq<FuelRecord>, prev: seq<nat>, i: nat, t: Totals)
    requires IntervalIndexList(s, prev) && 1 <= i < |s| && IsInterval(s, i)
    requires t.dist == WeightedSum(s, prev) && t.gallons == WeightSum(s, prev)
    ensures IntervalIndexList(s, prev + [i])
    ensures t.dist + Dist(s, i) == WeightedSum(s, prev + [i])
    ensures t.gallons + s[i].gallons == WeightSum(s, prev + [i])
  {
    IndexListSnoc(s, prev, i);
    WeightedSnoc(s, prev, i);
    WeightSnoc(s, prev, i);
  }

  /** totalDist is the sum of efficiency times volume over the intervals,
      and totalGallons the sum of their volumes. */
  lemma {:induction false} TotalsAreWeighted(s: seq<FuelRecord>, n: nat)
    requires n <= |s|
    ensures TotalsUpTo(s, n).dist == WeightedSum(s, IntervalIndices(s, n))
    ensures TotalsUpTo(s, n).gallons == WeightSum(s, IntervalIndices(s, n))
    decreases n
  {
    if n > 1 {
      TotalsAreWeighted(s, n - 1);
      var i := n - 1;
      var prev, t := IntervalIndices(s, i), TotalsUpTo(s, i);
      if IsInterval(s, i) {
        assert IntervalIndices(s, n) == prev + [i];
        assert TotalsUpTo(s, n).dist == t.dist + Dist(s, i);
        assert TotalsUpTo(s, n).gallons == t.gallons + s[i].gallons;
        WeightedStep(s, prev, i, t);
      } else {
        assert IntervalIndices(s, n) == IntervalIndices(s, i);
      }
    }
  }

  /** avgEfficiency is the volume-weighted mean of the interval
      efficiencies, so it lies between the smallest and the largest of
      them; when all intervals have the same efficiency it is that
      efficiency. */
  lemma AvgEfficiencyIsWeightedMean(records: seq<FuelRecord>, lo: real, hi: real)
    requires StatsOf(records).Some?
    requires forall iv :: iv in Intervals(Chronological(records), |records|) ==> lo <= iv.efficiency <= hi
    ensures var s := Chronological(records); var idx := IntervalIndices(s, |s|);
      WeightSum(s, idx) > 0.0 && StatsOf(records).value.avgEfficiency == WeightedSum(s, idx) / WeightSum(s, idx)
    ensures lo <= StatsOf(records).value.avgEfficiency <= hi
  {
    AvgEfficiencyOfTotals(records);
    TotalsAreWeighted(Chronological(records), |records|);
    RatioBetween(Chronological(records), lo, hi);
  }

  lemma DivBetween(t: Totals, lo: real, hi: real)
    requires t.gallons > 0.0 && WithinRates(t, lo, hi)
    ensures lo <= t.dist / t.gallons <= hi
  {
  }

  /** avgPrice is the plain mean price over all records, those without an
      interval included, whatever their order. */
  lemma AvgPriceOverAllRecords(records: seq<FuelRecord>)
    requires StatsOf(records).Some?
    ensures StatsOf(records).value.avgPrice == Sum(records, RecordPrice) / (|records| as real)
  {
    SumPermutation(Chronological(records), records, RecordPrice);
  }

  /** firstPrice and lastPrice come from a record with the earliest and
      one with the latest date. */
  lemma FirstAndLastPrice(records: seq<FuelRecord>)
    requires StatsOf(records).Some?
    ensures exists r :: (r in records && r.pricePerGallon == StatsOf(records).value.firstPrice
                         && forall x :: x in records ==> ByDate(r) <= ByDate(x))
    ensures exists r :: (r in records && r.pricePerGallon == StatsOf(records).value.lastPrice
                         && forall x :: x in records ==> ByDate(x) <= ByDate(r))
  {
    var s := Chronological(records);
    var st := StatsOf(records).value;
    assert IntervalIndices(s, |records|) != [];
    assert |records| > 0;
    assert st.firstPrice == s[0].pricePerGallon && st.lastPrice == s[|s| - 1].pricePerGallon;
    ChronologicalEnds(records);
    var first, last := s[0], s[|s| - 1];
    assert first in records && first.pricePerGallon == st.firstPrice
      && forall x :: x in records ==> ByDate(first) <= ByDate(x);
    assert last in records && last.pricePerGallon == st.lastPrice
      && forall x :: x in records ==> ByDate(x) <= ByDate(last);
  }

  /** recent is the last recentCount intervals and previous the
      recentCount just before them; recentCount is min(3, m / 2), so
      previous has full length whenever recent is non-empty. */
  lemma SlicesSpec(ivs: seq<Interval>)
    ensures var m := |ivs|; var rc := RecentCount(m);
      rc <= 3 && 2 * rc <= m && (rc == 0 <==> m < 2) && (m >= 6 ==> rc == 3)
      && (rc > 0 ==> (Slice(ivs, -(rc as int), m) == ivs[m - rc..]
                      && Slice(ivs, -(rc as int) * 2, -(rc as int)) == ivs[m - 2 * rc..m - rc]))
  {
  }

  /** The trend compares the mean efficiency of the two slices; with
      fewer than two intervals it is stable with both averages 0. */
  lemma TrendOfSpec(ivs: seq<Interval>)
    ensures var m := |ivs|; var rc := RecentCount(m);
      rc > 0 ==> TrendOf(ivs) == TrendSummary(
        Sum(ivs[m - rc..], Efficiency) / (rc as real),
        Sum(ivs[m - 2 * rc..m - rc], Efficiency) / (rc as real),
        ClassifyTrend(Sum(ivs[m - rc..], Efficiency) / (rc as real), Sum(ivs[m - 2 * rc..m - rc], Efficiency) / (rc as real)))
    ensures |ivs| < 2 ==> TrendOf(ivs) == TrendSummary(0.0, 0.0, Stable)
  {
    SlicesSpec(ivs);
  }

  /** The ±5% rule as a relative change: for a positive previous average
      the trend improves above 105% of it, worsens below 95% of it, and is
      stable in between, bounds included. */
  lemma TrendRule(recentAvg: real, previousAvg: real)
    requires previousAvg > 0.0
    ensures ClassifyTrend(recentAvg, previousAvg) == Improving <==> recentAvg > 1.05 * previousAvg
    ensures ClassifyTrend(recentAvg, previousAvg) == Worsening <==> recentAvg < 0.95 * previousAvg
    ensures ClassifyTrend(recentAvg, previousAvg) == Stable <==> 0.95 * previousAvg <= recentAvg <= 1.05 * previousAvg
  {
  }
}
