/** components/Dashboard.tsx, the second half of the useMemo body: the
    choice between daily and monthly bars, the grouping of the points into
    buckets, the bar series sorted by each bucket's time, and the trend
    series. */
module Charts {
  import opened Seqs
  import opened Calendar
  import opened Types
  import opened Dashboard

  datatype ChartMode = CostChart | VolumeChart
  datatype TrendMode = PriceTrend | EfficiencyTrend

  // ------------------------------------------------------ daily or monthly

  /** The if-chain that sets dynamicDailyView. */
  method DailyViewFlag(w: Window) returns (dynamicDailyView: bool)
    ensures dynamicDailyView == IsDailyView(w)
  {
    dynamicDailyView := false;
    if w.range == Week || w.range == ThirtyDays {
      dynamicDailyView := true;
    } else if w.range == Custom {
      var start, end := ParseDate(w.customStart), ParseDate(w.customEnd);
      if start.Some? && end.Some? && DayNumber(end.value) - DayNumber(start.value) <= 45 {
        dynamicDailyView := true;
      }
    }
  }

  /** dynamicDailyView: the week and 30-day windows show days; a custom
      window shows days when both bounds are dates at most 45 days apart
      (an end before the start included); an unparseable bound gives NaN
      and so months; the other windows show months. */
  predicate IsDailyView(w: Window)
  {
    match w.range
    case Week => true
    case ThirtyDays => true
    case Custom =>
      ParseDate(w.customStart).Some? && ParseDate(w.customEnd).Some?
      && DayNumber(ParseDate(w.customEnd).value) - DayNumber(ParseDate(w.customStart).value) <= 45
    case _ => false
  }

  // -------------------------------------------------------------- buckets

  /** The grouping key: the date string itself in the daily view, else the
      year and zero-based month of the parsed date; all unparseable dates
      share the month key the source spells "NaN-NaN". */
  datatype BucketKey = DayBucket(date: string) | MonthBucket(year: int, monthIndex: int) | InvalidMonth

  function KeyOf(daily: bool, p: Point): BucketKey
  {
    if daily then DayBucket(p.record.date)
    else match p.dateObj.fields
      case Some(d) => MonthBucket(d.year, d.month - 1)
      case None => InvalidMonth
  }

  /** The grouping key of every point. The bucket lemmas below hold for
      any key function; the dashboard uses this one. */
  function KeyFn(daily: bool): Point -> BucketKey
  {
    (p: Point) => KeyOf(daily, p)
  }

  /** A groupedData entry: the summed cost and volume and the sort order,
      the time of the bucket's first point. */
  datatype Bucket = Bucket(key: BucketKey, cost: real, volume: real, order: int)

  function HasKey(key: Point -> BucketKey, k: BucketKey): Point -> bool
  {
    (p: Point) => key(p) == k
  }

  /** The points that fall into bucket k, in order. */
  function Members(ps: seq<Point>, key: Point -> BucketKey, k: BucketKey): seq<Point>
  {
    Filter(ps, HasKey(key, k))
  }

  /** The bucket of key k over the points, as the grouping should leave it. */
  function BucketOf(ps: seq<Point>, key: Point -> BucketKey, k: BucketKey): Bucket
  {
    var m := Members(ps, key, k);
    Bucket(k, Sum(m, PointCost), Sum(m, PointGallons), if m == [] then 0 else TimeOf(m[0]))
  }

  /** The keys of groupedData in insertion order, which is the order
      Object.values lists them in: each key where its first point occurs. */
  function KeysOf(ps: seq<Point>, key: Point -> BucketKey): (ks: seq<BucketKey>)
    ensures Distinct(ks)
    ensures forall i :: 0 <= i < |ps| ==> key(ps[i]) in ks
  {
    if ps == [] then []
    else
      var ks := KeysOf(ps[..|ps| - 1], key);
      var p := ps[|ps| - 1];
      assert forall i :: 0 <= i < |ps| - 1 ==> ps[i] == ps[..|ps| - 1][i];
      if key(p) in ks then ks else ks + [key(p)]
  }

  function BucketFor(ps: seq<Point>, key: Point -> BucketKey): BucketKey -> Bucket
  {
    (k: BucketKey) => BucketOf(ps, key, k)
  }

  /** Object.values(groupedData). */
  function Buckets(ps: seq<Point>, key: Point -> BucketKey): seq<Bucket>
  {
    Map(KeysOf(ps, key), BucketFor(ps, key))
  }

  /** A key with no point has an empty bucket; a listed key has a
      non-empty one. */
  lemma KeyPresence(ps: seq<Point>, key: Point -> BucketKey, k: BucketKey)
    ensures k !in KeysOf(ps, key) ==> Members(ps, key, k) == []
    ensures k in KeysOf(ps, key) ==> Members(ps, key, k) != []
  {
    if k !in KeysOf(ps, key) {
      FilterKeepsNone(ps, HasKey(key, k));
    } else {
      var i := KeySeen(ps, key, k);
      FilterMembers(ps, HasKey(key, k));
      assert ps[i] in Members(ps, key, k);
    }
  }

  /** Every listed key is the key of some point. */
  lemma {:induction false} KeySeen(ps: seq<Point>, key: Point -> BucketKey, k: BucketKey) returns (i: nat)
    requires k in KeysOf(ps, key)
    ensures i < |ps| && key(ps[i]) == k
  {
    var ps' := ps[..|ps| - 1];
    if key(ps[|ps| - 1]) == k {
      i := |ps| - 1;
    } else {
      i := KeySeen(ps', key, k);
    }
  }

  /** One more point joins only the bucket of its own key, at its end. */
  lemma MembersStep(ps: seq<Point>, p: Point, key: Point -> BucketKey, k: BucketKey)
    ensures Members(ps + [p], key, k) == Members(ps, key, k) + (if key(p) == k then [p] else [])
  {
    FilterSnoc(ps, p, HasKey(key, k));
  }

  /** One more point changes only its own bucket: it adds its cost and
      volume, and it sets the order when it is the bucket's first point. */
  lemma BucketStep(ps: seq<Point>, p: Point, key: Point -> BucketKey, k: BucketKey)
    ensures key(p) != k ==> BucketOf(ps + [p], key, k) == BucketOf(ps, key, k)
    ensures key(p) == k ==>
      BucketOf(ps + [p], key, k).key == k
      && BucketOf(ps + [p], key, k).cost == BucketOf(ps, key, k).cost + p.record.totalCost
      && BucketOf(ps + [p], key, k).volume == BucketOf(ps, key, k).volume + p.record.gallons
      && BucketOf(ps + [p], key, k).order ==
           if Members(ps, key, k) == [] then TimeOf(p) else BucketOf(ps, key, k).order
  {
    var m, m' := Members(ps, key, k), Members(ps + [p], key, k);
    MembersStep(ps, p, key, k);
    if key(p) == k {
      SumSnoc(m, p, PointCost);
      SumSnoc(m, p, PointGallons);
      assert m'[0] == if m == [] then p else m[0];
    } else {
      assert m' == m;
    }
  }

  /** The forEach that fills groupedData: a new key gets a bucket with
      zero sums and the time of the point that created it, and every point
      adds its cost and volume to its bucket. keys records the insertion
      order. */
  method GroupBuckets(ps: seq<Point>, daily: bool) returns (grouped: map<BucketKey, Bucket>, keys: seq<BucketKey>)
    ensures grouped == GroupedMap(ps, KeyFn(daily)) && keys == KeysOf(ps, KeyFn(daily))
  {
    var keyOf := KeyFn(daily);
    grouped, keys := map[], [];
    for i := 0 to |ps|
      invariant grouped == GroupedMap(ps[..i], keyOf) && keys == KeysOf(ps[..i], keyOf)
    {
      var r := ps[i];
      ghost var before, beforeKeys := grouped, keys;
      var key := keyOf(r);
      GroupedDomain(ps[..i], keyOf, key);
      if key !in grouped {
        grouped := grouped[key := Bucket(key, 0.0, 0.0, TimeOf(r))];
        keys := keys + [key];
      }
      var b := grouped[key];
      grouped := grouped[key := b.(cost := b.cost + r.record.totalCost, volume := b.volume + r.record.gallons)];
      assert grouped == AddPoint(before, r, keyOf);
      assert keys == AddKey(beforeKeys, r, keyOf);
      assert ps[..i + 1] == ps[..i] + [r];
      KeysOfSnoc(ps[..i], r, keyOf);
      GroupedMapSnoc(ps[..i], r, keyOf);
    }
    assert ps[..|ps|] == ps;
  }

  /** The map the grouping loop builds, point by point. */
  function GroupedMap(ps: seq<Point>, key: Point -> BucketKey): map<BucketKey, Bucket>
  {
    if ps == [] then map[] else AddPoint(GroupedMap(ps[..|ps| - 1], key), ps[|ps| - 1], key)
  }

  lemma GroupedMapSnoc(ps: seq<Point>, r: Point, key: Point -> BucketKey)
    ensures GroupedMap(ps + [r], key) == AddPoint(GroupedMap(ps, key), r, key)
  {
    assert (ps + [r])[..|ps|] == ps;
  }

  /** The map has an entry exactly for the listed keys. */
  lemma {:induction false} GroupedDomain(ps: seq<Point>, key: Point -> BucketKey, k: BucketKey)
    ensures k in GroupedMap(ps, key) <==> k in KeysOf(ps, key)
  {
    if ps != [] {
      var ps', r := ps[..|ps| - 1], ps[|ps| - 1];
      assert ps == ps' + [r];
      GroupedDomain(ps', key, k);
      KeysOfSnoc(ps', r, key);
      GroupedMapSnoc(ps', r, key);
    }
  }

  /** The grouping is exact: groupedData has one entry per key, in the
      order of their first points, and each entry is the bucket of all the
      points with that key. */
  lemma {:induction false} GroupedMapSpec(ps: seq<Point>, key: Point -> BucketKey)
    ensures IsGrouping(ps, key, GroupedMap(ps, key), KeysOf(ps, key))
  {
    if ps != [] {
      var ps', r := ps[..|ps| - 1], ps[|ps| - 1];
      GroupedMapSpec(ps', key);
      assert ps == ps' + [r];
      KeysOfSnoc(ps', r, key);
      assert GroupedMap(ps, key) == AddPoint(GroupedMap(ps', key), r, key);
      assert KeysOf(ps, key) == AddKey(KeysOf(ps', key), r, key);
      GroupStep(ps', r, key, GroupedMap(ps', key), KeysOf(ps', key));
    }
  }

  /** grouped and keys are what the grouping leaves after the points ps:
      the keys in insertion order, one entry per key, each the bucket of
      its key. */
  ghost predicate IsGrouping(ps: seq<Point>, key: Point -> BucketKey, grouped: map<BucketKey, Bucket>, keys: seq<BucketKey>)
  {
    keys == KeysOf(ps, key)
    && (forall k :: k in grouped <==> k in keys)
    && forall k :: k in grouped ==> grouped[k] == BucketOf(ps, key, k)
  }

  /** The map after grouping one more point r, as the loop body leaves it. */
  function AddPoint(grouped: map<BucketKey, Bucket>, r: Point, key: Point -> BucketKey): map<BucketKey, Bucket>
  {
    var g1 := if key(r) in grouped then grouped else grouped[key(r) := Bucket(key(r), 0.0, 0.0, TimeOf(r))];
    var b := g1[key(r)];
    g1[key(r) := b.(cost := b.cost + r.record.totalCost, volume := b.volume + r.record.gallons)]
  }

  /** The keys after grouping one more point r. */
  function AddKey(keys: seq<BucketKey>, r: Point, key: Point -> BucketKey): seq<BucketKey>
  {
    if key(r) in keys then keys else keys + [key(r)]
  }

  /** Grouping one more point, as the loop body does, keeps the grouping exact. */
  lemma GroupStep(ps: seq<Point>, r: Point, key: Point -> BucketKey, grouped: map<BucketKey, Bucket>, keys: seq<BucketKey>)
    requires IsGrouping(ps, key, grouped, keys)
    ensures IsGrouping(ps + [r], key, AddPoint(grouped, r, key), AddKey(keys, r, key))
  {
    var g2 := AddPoint(grouped, r, key);
    KeysOfSnoc(ps, r, key);
    GroupDomainStep(ps, r, key, grouped, keys);
    GroupOwnBucketStep(ps, r, key, grouped, keys);
    forall j | j in g2 && j != key(r) ensures g2[j] == BucketOf(ps + [r], key, j) {
      GroupOtherBucketStep(ps, r, key, grouped, keys, j);
    }
  }

  lemma GroupDomainStep(ps: seq<Point>, r: Point, key: Point -> BucketKey, grouped: map<BucketKey, Bucket>, keys: seq<BucketKey>)
    requires IsGrouping(ps, key, grouped, keys)
    ensures forall j :: j in AddPoint(grouped, r, key) <==> j in AddKey(keys, r, key)
  {
  }

  lemma GroupOwnBucketStep(ps: seq<Point>, r: Point, key: Point -> BucketKey, grouped: map<BucketKey, Bucket>, keys: seq<BucketKey>)
    requires IsGrouping(ps, key, grouped, keys)
    ensures AddPoint(grouped, r, key)[key(r)] == BucketOf(ps + [r], key, key(r))
  {
    KeyPresence(ps, key, key(r));
    BucketStep(ps, r, key, key(r));
  }

  lemma GroupOtherBucketStep(ps: seq<Point>, r: Point, key: Point -> BucketKey, grouped: map<BucketKey, Bucket>, keys: seq<BucketKey>, j: BucketKey)
    requires IsGrouping(ps, key, grouped, keys)
    requires j in grouped && j != key(r)
    ensures AddPoint(grouped, r, key)[j] == BucketOf(ps + [r], key, j)
  {
    BucketStep(ps, r, key, j);
  }

  /** Every point falls into exactly one bucket, the bucket of its key. */
  lemma EachPointInOneBucket(ps: seq<Point>, key: Point -> BucketKey, i: nat, k: BucketKey)
    requires i < |ps|
    ensures key(ps[i]) in KeysOf(ps, key)
    ensures ps[i] in Members(ps, key, k) <==> k == key(ps[i])
  {
    FilterMembers(ps, HasKey(key, k));
  }

  function MemberSum(ps: seq<Point>, key: Point -> BucketKey, f: Point -> real): BucketKey -> real
  {
    (k: BucketKey) => Sum(Members(ps, key, k), f)
  }

  lemma MemberSumStep(ps: seq<Point>, p: Point, key: Point -> BucketKey, f: Point -> real, k: BucketKey)
    ensures MemberSum(ps + [p], key, f)(k) == MemberSum(ps, key, f)(k) + (if k == key(p) then f(p) else 0.0)
  {
    MembersStep(ps, p, key, k);
    if k == key(p) {
      SumSnoc(Members(ps, key, k), p, f);
    } else {
      assert Members(ps + [p], key, k) == Members(ps, key, k);
    }
  }

  /** The buckets partition the points: summing a quantity bucket by
      bucket gives its sum over all points. */
  lemma {:induction false} PartitionSum(ps: seq<Point>, key: Point -> BucketKey, f: Point -> real)
    ensures Sum(KeysOf(ps, key), MemberSum(ps, key, f)) == Sum(ps, f)
  {
    if ps != [] {
      var ps', p := ps[..|ps| - 1], ps[|ps| - 1];
      assert ps == ps' + [p];
      var ks := KeysOf(ps', key);
      var total := Sum(ks, MemberSum(ps, key, f));
      PartitionSum(ps', key, f);
      SumSnoc(ps', p, f);
      KeysOfSnoc(ps', p, key);
      OldKeysSum(ps', p, key, f);
      if key(p) in ks {
        assert KeysOf(ps, key) == ks;
        assert total == Sum(ps', f) + f(p);
      } else {
        NewKeySum(ps', p, key, f);
        assert KeysOf(ps, key) == ks + [key(p)];
        assert total == Sum(ps', f);
      }
    }
  }

  /** Over the keys seen before p, adding p adds f(p) once, at its own key. */
  lemma OldKeysSum(ps: seq<Point>, p: Point, key: Point -> BucketKey, f: Point -> real)
    ensures var ks := KeysOf(ps, key);
      Sum(ks, MemberSum(ps + [p], key, f)) == Sum(ks, MemberSum(ps, key, f)) + (if key(p) in ks then f(p) else 0.0)
  {
    var ks, before, after := KeysOf(ps, key), MemberSum(ps, key, f), MemberSum(ps + [p], key, f);
    forall i | 0 <= i < |ks| ensures after(ks[i]) == before(ks[i]) + (if ks[i] == key(p) then f(p) else 0.0) {
      MemberSumStep(ps, p, key, f, ks[i]);
    }
    SumBump(ks, after, before, key(p), f(p));
  }

  /** A new key's bucket holds p alone. */
  lemma NewKeySum(ps: seq<Point>, p: Point, key: Point -> BucketKey, f: Point -> real)
    requires key(p) !in KeysOf(ps, key)
    ensures var ks := KeysOf(ps, key);
      Sum(ks + [key(p)], MemberSum(ps + [p], key, f)) == Sum(ks, MemberSum(ps + [p], key, f)) + f(p)
  {
    KeyPresence(ps, key, key(p));
    MemberSumStep(ps, p, key, f, key(p));
    SumSnoc(KeysOf(ps, key), key(p), MemberSum(ps + [p], key, f));
  }

  lemma KeysOfSnoc(ps: seq<Point>, p: Point, key: Point -> BucketKey)
    ensures KeysOf(ps + [p], key) == if key(p) in KeysOf(ps, key) then KeysOf(ps, key) else KeysOf(ps, key) + [key(p)]
  {
    assert (ps + [p])[..|ps|] == ps;
  }

  function BucketCost(b: Bucket): real { b.cost }
  function BucketVolume(b: Bucket): real { b.volume }

  /** The bars add up to the window's totals: the bucket costs sum to the
      total cost and the bucket volumes to the total volume. */
  lemma BucketsAddUp(ps: seq<Point>, key: Point -> BucketKey)
    ensures Sum(Buckets(ps, key), BucketCost) == TotalsOf(ps).cost
    ensures Sum(Buckets(ps, key), BucketVolume) == TotalsOf(ps).gallons
  {
    var ks := KeysOf(ps, key);
    SumMap(ks, BucketFor(ps, key), BucketCost, MemberSum(ps, key, PointCost));
    SumMap(ks, BucketFor(ps, key), BucketVolume, MemberSum(ps, key, PointGallons));
    PartitionSum(ps, key, PointCost);
    PartitionSum(ps, key, PointGallons);
  }

  /** On chronological points, a bucket's order is the earliest date of
      its points. */
  lemma BucketOrderIsEarliest(ps: seq<Point>, key: Point -> BucketKey, k: BucketKey)
    requires SortedBy(ps, TimeOf)
    ensures forall i :: 0 <= i < |ps| && key(ps[i]) == k ==> BucketOf(ps, key, k).order <= TimeOf(ps[i])
  {
    forall i | 0 <= i < |ps| && key(ps[i]) == k ensures BucketOf(ps, key, k).order <= TimeOf(ps[i]) {
      FilterHeadIsLeast(ps, HasKey(key, k), TimeOf, i);
    }
  }

  // ----------------------------------------------------------------- bars

  /** A barChartArray entry without its label: the bucket key and the
      plotted value. */
  datatype Bar = Bar(key: BucketKey, value: real)

  function BucketOrder(b: Bucket): int { b.order }

  function BarOf(mode: ChartMode): Bucket -> Bar
  {
    (b: Bucket) => Bar(b.key, if mode == CostChart then b.cost else b.volume)
  }

  /** barChartArray: the buckets sorted by order, each plotted by cost or
      by volume. */
  function Bars(buckets: seq<Bucket>, mode: ChartMode): seq<Bar>
  {
    Map(SortBy(buckets, BucketOrder), BarOf(mode))
  }

  /** The bars are the buckets in ascending order of time, one bar per
      bucket, buckets of equal order kept in insertion order. */
  lemma BarsSpec(buckets: seq<Bucket>, mode: ChartMode, order: int)
    ensures |Bars(buckets, mode)| == |buckets|
    ensures var sorted := SortBy(buckets, BucketOrder);
      multiset(sorted) == multiset(buckets)
      && (forall i, j :: 0 <= i < j < |sorted| ==> sorted[i].order <= sorted[j].order)
      && Filter(sorted, KeyIs(BucketOrder, order)) == Filter(buckets, KeyIs(BucketOrder, order))
      && forall i :: 0 <= i < |sorted| ==>
           Bars(buckets, mode)[i] == Bar(sorted[i].key, if mode == CostChart then sorted[i].cost else sorted[i].volume)
  {
    SortByStable(buckets, BucketOrder, order);
  }

  /** The plotted quantity of a bucket. */
  function Plotted(mode: ChartMode): Bucket -> real
  {
    if mode == CostChart then BucketCost else BucketVolume
  }

  function BarValue(b: Bar): real { b.value }

  /** The bars add up to the plotted quantity over all buckets. */
  lemma BarsSum(buckets: seq<Bucket>, mode: ChartMode)
    ensures Sum(Bars(buckets, mode), BarValue) == Sum(buckets, Plotted(mode))
  {
    var sorted := SortBy(buckets, BucketOrder);
    SumMap(sorted, BarOf(mode), BarValue, Plotted(mode));
    SumPermutation(sorted, buckets, Plotted(mode));
  }

  /** Object.values(groupedData): the entries in the order of keys. */
  function Values(grouped: map<BucketKey, Bucket>, keys: seq<BucketKey>): (values: seq<Bucket>)
    requires forall k :: k in keys ==> k in grouped
    ensures |values| == |keys| && forall i :: 0 <= i < |keys| ==> values[i] == grouped[keys[i]]
  {
    seq(|keys|, i requires 0 <= i < |keys| => grouped[keys[i]])
  }

  /** The values of the grouped map are the buckets, in insertion order. */
  lemma GroupedValues(ps: seq<Point>, key: Point -> BucketKey)
    ensures forall k :: k in KeysOf(ps, key) ==> k in GroupedMap(ps, key)
    ensures Values(GroupedMap(ps, key), KeysOf(ps, key)) == Buckets(ps, key)
  {
    GroupedMapSpec(ps, key);
  }

  /** barChartArray, from the points: group, list the values, sort. */
  method BarChart(ps: seq<Point>, daily: bool, chartMode: ChartMode) returns (bars: seq<Bar>)
    ensures bars == Bars(Buckets(ps, KeyFn(daily)), chartMode)
  {
    var groupedData, keys := GroupBuckets(ps, daily);
    GroupedValues(ps, KeyFn(daily));
    bars := Bars(Values(groupedData, keys), chartMode);
  }

  // ---------------------------------------------------------------- trend

  /** A trendArray entry without its label. */
  datatype TrendPoint = TrendPoint(date: string, value: real)

  function Shown(mode: TrendMode): Point -> bool
  {
    (p: Point) => mode == PriceTrend || p.efficiency > 0.0
  }

  function TrendPointOf(mode: TrendMode): Point -> TrendPoint
  {
    (p: Point) => TrendPoint(p.record.date, if mode == PriceTrend then p.record.pricePerGallon else p.efficiency)
  }

  /** trendArray: every point's price, or the efficiency of the points
      that have one. */
  function TrendSeries(ps: seq<Point>, mode: TrendMode): seq<TrendPoint>
  {
    Map(Filter(ps, Shown(mode)), TrendPointOf(mode))
  }

  /** The number of points with a positive efficiency. */
  function PositiveCount(ps: seq<Point>): nat
  {
    if ps == [] then 0 else (if ps[0].efficiency > 0.0 then 1 else 0) + PositiveCount(ps[1..])
  }

  lemma {:induction false} ShownCount(ps: seq<Point>)
    ensures |Filter(ps, Shown(EfficiencyTrend))| == PositiveCount(ps)
  {
    if ps != [] {
      ShownCount(ps[1..]);
    }
  }

  /** The price trend has one entry per point, in order. */
  lemma PriceTrendSpec(ps: seq<Point>)
    ensures |TrendSeries(ps, PriceTrend)| == |ps|
    ensures forall i :: 0 <= i < |ps| ==>
      TrendSeries(ps, PriceTrend)[i] == TrendPoint(ps[i].record.date, ps[i].record.pricePerGallon)
  {
    FilterKeepsAll(ps, Shown(PriceTrend));
  }

  /** The efficiency trend plots only positive efficiencies, leaves out no
      point that has one, and is an order-preserving selection of the
      points' (date, efficiency) pairs. */
  lemma EfficiencyTrendSpec(ps: seq<Point>)
    ensures forall i :: 0 <= i < |TrendSeries(ps, EfficiencyTrend)| ==> TrendSeries(ps, EfficiencyTrend)[i].value > 0.0
    ensures forall i :: 0 <= i < |ps| && ps[i].efficiency > 0.0 ==>
      TrendPoint(ps[i].record.date, ps[i].efficiency) in TrendSeries(ps, EfficiencyTrend)
    ensures IsSubsequence(TrendSeries(ps, EfficiencyTrend), Map(ps, TrendPointOf(EfficiencyTrend)))
    ensures |TrendSeries(ps, EfficiencyTrend)| == PositiveCount(ps)
  {
    ShownCount(ps);
    EfficiencyTrendMembers(ps);
    EfficiencyTrendOrder(ps);
  }

  lemma EfficiencyTrendMembers(ps: seq<Point>)
    ensures forall i :: 0 <= i < |TrendSeries(ps, EfficiencyTrend)| ==> TrendSeries(ps, EfficiencyTrend)[i].value > 0.0
    ensures forall i :: 0 <= i < |ps| && ps[i].efficiency > 0.0 ==>
      TrendPoint(ps[i].record.date, ps[i].efficiency) in TrendSeries(ps, EfficiencyTrend)
  {
    var kept := Filter(ps, Shown(EfficiencyTrend));
    FilterMembers(ps, Shown(EfficiencyTrend));
    forall i | 0 <= i < |ps| && ps[i].efficiency > 0.0
      ensures TrendPoint(ps[i].record.date, ps[i].efficiency) in TrendSeries(ps, EfficiencyTrend)
    {
      var j :| 0 <= j < |kept| && kept[j] == ps[i];
      assert TrendSeries(ps, EfficiencyTrend)[j] == TrendPoint(ps[i].record.date, ps[i].efficiency);
    }
  }

  lemma EfficiencyTrendOrder(ps: seq<Point>)
    ensures IsSubsequence(TrendSeries(ps, EfficiencyTrend), Map(ps, TrendPointOf(EfficiencyTrend)))
  {
    FilterIsSubsequence(ps, Shown(EfficiencyTrend));
    MapSubsequence(Filter(ps, Shown(EfficiencyTrend)), ps, TrendPointOf(EfficiencyTrend));
  }

  /** On chronological points both trends are in date order. */
  lemma TrendChronological(ps: seq<Point>, mode: TrendMode)
    requires forall i, j :: 0 <= i < j < |ps| ==> ByDate(ps[i].record) <= ByDate(ps[j].record)
    ensures forall i, j :: 0 <= i < j < |TrendSeries(ps, mode)| ==>
      DateKey(TrendSeries(ps, mode)[i].date) <= DateKey(TrendSeries(ps, mode)[j].date)
  {
    assert SortedBy(ps, PointDate);
    FilterSortedBy(ps, Shown(mode), PointDate);
  }

  function PointDate(p: Point): int { ByDate(p.record) }
}
