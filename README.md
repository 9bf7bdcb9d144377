# Fuel-expense tracker: a verified model of its statistics core

The tracker keeps a list of refuelling records. Each record has an id, a
date string, the odometer reading, the volume, the price per unit, the
total cost and optional notes. The app derives efficiency, spending and
trends from that list. This project models the logic inside the React
components that turns the list into each of these:

- **Dashboard** (`components/Dashboard.tsx`): the chronological sort and the
  reporting window. Every record in the window gets the distance and
  efficiency measured against its predecessor in the *full* list. The
  totals are accumulated and the weighted average consumption computed.
  The bars are grouped daily or monthly into buckets and sorted, and a
  price or efficiency trend series is built.
  - Modules: `Dashboard` (window, points, totals); `Charts` (daily or
    monthly choice, grouping map, bars, trend); `DashboardView` (the whole
    `useMemo` body as one method).
- **Advice statistics** (`components/AIAnalysis.tsx`): the `calculateStats`
  loop over valid intervals, the historical weighted efficiency, the simple
  average price, the last-k-against-previous-k trend rule with its ±5%
  threshold, and the `records.length < 2` guard of `handleAnalyze`
  (module `Advice`). The `renderMarkdown`/`parseBold` line classifier is
  module `Markdown`.
- **Record collection** (`App.tsx`): upsert-by-id save, delete-by-id and the
  import merge, where existing ids win (module `Store`).
- **History** (`components/History.tsx`): newest-first sort and the search
  filter (module `History`).
- **Entry form** (`components/EntryForm.tsx`): the initial form, single-field
  changes, the automatic total cost and submission validation (module
  `EntryForm`).
- **Constants** (`constants.ts`): `getLocalDate` and `INITIAL_RECORD` (module
  `Constants`).

Shared modules:
- `Seqs`: `filter`, `map`, sums, and a stable sort by an integer key (the
  engine's `Array.prototype.sort` with a numeric comparator).
- `Text`: the JavaScript string built-ins the components call.
- `Calendar`: `YYYY-MM-DD` dates and day numbers.
- `Types`: the record type and the chronological sort.

Numbers are Dafny `real`. Dates stay strings, as in the source. A string
is parsed into a calendar date only where the source builds a `Date`.

The loops of the source are methods proved against specification
functions:
- `Dashboard.Accumulate`: the `forEach` accumulators.
- `Charts.GroupBuckets`: the `groupedData` map, filled per record.
- `Charts.DailyViewFlag`: the `dynamicDailyView` if-chain.
- `Advice.IntervalLoop` and `Advice.CalculateStats`: the `for` loop that
  pushes intervals.

Lemmas about those functions then state what the source promises.

Two behaviours of the dashboard code that the model keeps:
- A negative odometer delta stays on the point as a negative distance and
  is added to `totalDist` (components/Dashboard.tsx:95, 112).
  `Dashboard.TotalsOf` sums every point's distance.
- A custom range whose end lies before its start is daily, because the
  test is `diffDays <= 45` (components/Dashboard.tsx:132-133,
  `Charts.IsDailyView`).

## Model

| member | source | states |
|---|---|---|
| `Types.ChronologicalSpec` | components/Dashboard.tsx:53-55 | `sortedAll` is a permutation of the records, non-decreasing by date, and records of equal date keep their input order |
| `Calendar.DayNumberOrder` | components/Dashboard.tsx:53-55 | comparing day numbers orders valid dates exactly as the calendar does, and equal numbers mean equal dates; the sort's key `new Date(date).getTime()` of a date-only string is its UTC midnight, 86400000 times the day number plus a constant |
| `Calendar.DateStringOrder` | components/Dashboard.tsx:67 | for two well-formed date strings, `<` on the strings holds iff the first date's day number is smaller, and the strings are equal iff the dates are |
| `Calendar.Successor` | components/Dashboard.tsx:69-70 | the day after a valid date is a valid date whose day number is one more, across month and year ends and in leap years |
| `Calendar.AddDaysNumber` | components/Dashboard.tsx:69-70 | n days after a valid date is a valid date whose day number is n more |
| `Calendar.StepsBetween` | components/Dashboard.tsx:69-70 | for valid dates a and b, b is n calendar days after a iff the day-number difference is n, so `diffDays` counts calendar days |
| `Dashboard.WithinDays` | components/Dashboard.tsx:69-75 | a day difference in 0..limit holds iff today is 0..limit calendar days after the date |
| `Calendar.ParseDate` | components/Dashboard.tsx:63 | a date string that parses is `YYYY-MM-DD` shaped, a real calendar day with a four-digit year, and its fields are the digits' values |
| `Dashboard.InWindow` | components/Dashboard.tsx:61-78 | the window test of `filter`, branch by branch; `Dashboard.CustomWindowByDay`, `Dashboard.DayWindows` and `Dashboard.AllTimeKeepsAll` state what each branch keeps |
| `Dashboard.Filtered` | components/Dashboard.tsx:62-79 | the window keeps only in-window records of the sorted list, keeps every in-window one, and keeps their order (a subsequence); each record occurs in the result exactly as often as in the sorted list when in the window, and not at all otherwise |
| `Dashboard.AllTimeKeepsAll` | components/Dashboard.tsx:65 | the 'all' window returns the sorted list unchanged |
| `Dashboard.CustomWindowByDay` | components/Dashboard.tsx:66-68 | for well-formed dates, the string comparison of the custom window keeps a record iff its day lies between the two bounds, inclusive |
| `Dashboard.DayWindows` | components/Dashboard.tsx:70-76 | for a real calendar date today, 'week', '30d' and '6m' keep a record iff its date parses and today is reached from it in 0..7, 0..30 or 0..180 steps of `Calendar.NextDay`; 'year' keeps the parsed dates of today's year |
| `Dashboard.WindowsNestRecord` | components/Dashboard.tsx:73-75 | a record in the week window is in the 30-day window, and one in the 30-day window is in the 6-month window |
| `Dashboard.WindowsNest` | components/Dashboard.tsx:62-79 | the filtered records of the week window are a sub-multiset of those of the 30-day window, which are a sub-multiset of those of the 6-month window |
| `Dashboard.FindIndex` | components/Dashboard.tsx:89 | `findIndex` returns the first index carrying the id, or −1 exactly when no record carries it |
| `Dashboard.Annotate` | components/Dashboard.tsx:88-106 | the point keeps the record and its Date; efficiency is positive iff distance and volume are, is then distance over volume, and is 0 otherwise; a negative distance is kept |
| `Dashboard.PredecessorInFullList` | components/Dashboard.tsx:93-95 | with distinct ids a record's distance is measured against its immediate predecessor in the full sorted list, and the first record overall has distance and efficiency 0 |
| `Dashboard.RepeatedIdUsesFirst` | components/Dashboard.tsx:89-95 | whatever the ids, every record carrying an id is measured against the predecessor of the first record with that id, and when that first record opens the sorted list every copy has distance and efficiency 0 |
| `Dashboard.Points` | components/Dashboard.tsx:88-106 | `processedForCharts`, the filtered records mapped through `Annotate`; `Dashboard.PointsSpec` states one point per filtered record, in order, and the predecessor lemmas fix each distance |
| `Dashboard.PointsSpec` | components/Dashboard.tsx:88-106 | there is one point per filtered record, in order, and the points' times are non-decreasing |
| `Dashboard.TotalsOf` | components/Dashboard.tsx:108-116 | the five sums of the `forEach`; `Dashboard.Accumulate` proves the loop computes them and `Dashboard.WeightedSumIsValidDist` relates the weighted sum to the valid distance |
| `Dashboard.Accumulate` | components/Dashboard.tsx:108-116 | the loop's five accumulators equal the sums of distance, cost and volume over all points, and of efficiency×volume and volume over the points with positive efficiency |
| `Dashboard.StatsOf` | components/Dashboard.tsx:118-123 | the `stats` object; `Dashboard.StatsOfWindow`, `Dashboard.AllTimeTotalCost`, `Dashboard.AvgConsumptionIsDistPerVolume` and `Dashboard.CostPerUnitOfWindow` state its fields |
| `Dashboard.CostPerUnitOfWindow` | components/Dashboard.tsx:123 | `avgCostPerUnit` is the window's total record cost divided by `totalDist`, the sum of every point's distance with negative odometer deltas included, or 0 when that sum is not positive |
| `Dashboard.StatsOfWindow` | components/Dashboard.tsx:180-186 | `totalCost` is the cost of every record in the window, whatever its efficiency, and `lastRefuelDate` is the last filtered record's date, or none when the window is empty |
| `Dashboard.AllTimeTotalCost` | components/Dashboard.tsx:109 | over all time, `totalCost` is the sum of the costs of all records |
| `Dashboard.AvgConsumptionIsDistPerVolume` | components/Dashboard.tsx:118-120 | `avgConsumption` is the distance over the volume of the points with positive efficiency, or 0 when there are none |
| `Dashboard.WeightedSumIsValidDist` | components/Dashboard.tsx:113-114 | each weighted term efficiency×volume equals the point's distance, so the weighted sum is the distance of the valid points |
| `Dashboard.AvgConsumptionEqualVolumes` | components/Dashboard.tsx:118-120 | when all valid points share one volume, `avgConsumption` is the plain mean of their efficiencies |
| `Charts.IsDailyView` | components/Dashboard.tsx:125-133 | the daily-view decision; `Charts.DailyViewFlag` proves the if-chain computes it and `DashboardView.DailyViewRule` states it in days |
| `Charts.DailyViewFlag` | components/Dashboard.tsx:125-133 | the daily-view flag's if-chain: `week`/`30d` are daily; `custom` is daily iff both bounds parse and end − start ≤ 45 days (an end before the start is daily); every other range is monthly |
| `DashboardView.DailyViewRule` | components/Dashboard.tsx:126-133 | for a custom window between two date-input strings, daily iff end − start ≤ 45 days (45 daily, 46 monthly); week and 30d always daily; 6m, year and all never |
| `DashboardView.MalformedBoundShowsMonths` | components/Dashboard.tsx:129-132 | a custom bound that is not a date (a NaN difference) gives monthly bars |
| `Charts.KeyOf` | components/Dashboard.tsx:143-148 | the bucket key: the date string in the daily view, the year and month of the Date otherwise; `Charts.EachPointInOneBucket` puts each point in exactly its key's bucket |
| `Charts.KeysOf` | components/Dashboard.tsx:137-158 | the bucket keys list every point's key |
| `Charts.KeySeen` | components/Dashboard.tsx:137-158 | every listed key is the key of some point |
| `Charts.KeyPresence` | components/Dashboard.tsx:150-157 | a key that no point has gets no bucket, and a listed key's bucket is non-empty |
| `Charts.GroupBuckets` | components/Dashboard.tsx:137-158 | the grouping loop leaves exactly the map that groups the points one by one, and the keys in insertion order |
| `Charts.GroupedMapSpec` | components/Dashboard.tsx:137-158 | that map has one entry per listed key and no other; each entry's cost and volume are the sums over its points, and its order is the time of its first point |
| `Charts.BucketStep` | components/Dashboard.tsx:150-157 | one more point changes only its own bucket: it adds its cost and volume, and it sets the order only when it opens the bucket |
| `Charts.GroupStep` | components/Dashboard.tsx:150-157 | one iteration of the loop body keeps the map and the keys exact for the extended list of points |
| `Charts.EachPointInOneBucket` | components/Dashboard.tsx:137-158 | every point's key is listed, and the point belongs to a bucket iff that bucket has its key |
| `Charts.PartitionSum` | components/Dashboard.tsx:137-158 | summing any per-point quantity bucket by bucket gives its sum over all points |
| `Charts.BucketsAddUp` | components/Dashboard.tsx:155-156 | the buckets' costs add up to the total cost, and their volumes to the total volume |
| `Charts.BucketOrderIsEarliest` | components/Dashboard.tsx:150-155 | on chronological points, a bucket's order is no later than the time of any of its points |
| `DashboardView.BarOrderIsEarliest` | components/Dashboard.tsx:150-155 | on the dashboard's own points, each bucket's order is the earliest time among its points |
| `Charts.GroupedValues` | components/Dashboard.tsx:162 | `Object.values(groupedData)` lists the buckets in key-insertion order |
| `Charts.BarsSpec` | components/Dashboard.tsx:162-168 | the bars are the buckets, as a permutation, ascending by order, equal orders kept in insertion order; each bar plots its bucket's cost or volume |
| `Charts.BarChart` | components/Dashboard.tsx:137-168 | the bar series groups, lists and sorts the buckets of the points |
| `Charts.Bars` | components/Dashboard.tsx:163-168 | the bar values of the sorted buckets; `Charts.BarsSpec` and `Charts.BarsSum` state each value and their total |
| `Charts.BarsSum` | components/Dashboard.tsx:162-168 | the bar values add up to the plotted quantity over all buckets |
| `DashboardView.BarsAddUp` | components/Dashboard.tsx:137-168 | the cost bars add up to the `totalCost` shown, and the volume bars to the window's total volume |
| `Charts.TrendSeries` | components/Dashboard.tsx:171-178 | `trendArray`; `Charts.PriceTrendSpec`, `Charts.EfficiencyTrendSpec` and `Charts.TrendChronological` state its entries, count and order |
| `Charts.PriceTrendSpec` | components/Dashboard.tsx:171-178 | in price mode the trend has one entry per point, in order, carrying its date and price |
| `Charts.EfficiencyTrendSpec` | components/Dashboard.tsx:171-178 | in efficiency mode every plotted value is positive, and the series is an order-preserving subsequence of the points' (date, efficiency) pairs with one entry per positive-efficiency point: each such point appears exactly once |
| `Charts.TrendChronological` | components/Dashboard.tsx:171-178 | on chronological points both trend series are in date order |
| `DashboardView.DashboardOf` | components/Dashboard.tsx:51-191 | the value of the `useMemo` body; `DashboardView.ComputeDashboard` computes it, and `DashboardView.BarsAddUp`, `DashboardView.BarOrderIsEarliest` and `DashboardView.DailyViewRule` state its parts |
| `DashboardView.ComputeDashboard` | components/Dashboard.tsx:51-191 | the `useMemo` body computes exactly the statistics, bars, trend and daily flag that the specification functions give |
| `Advice.IntervalIndices` | components/AIAnalysis.tsx:39-55 | the loop visits i = 1..n−1 in order and emits i iff the distance and current volume are positive; at most n−1 intervals |
| `Advice.IndicesStep` | components/AIAnalysis.tsx:39-55 | one loop iteration appends interval i exactly when its test holds |
| `Advice.IntervalLoop` | components/AIAnalysis.tsx:32-55 | the loop's interval list and its three totals equal the interval specification and the totals over the valid intervals |
| `Advice.Intervals` | components/AIAnalysis.tsx:39-55 | the `intervals` array; `Advice.IntervalsSpec` states which indices yield an interval, its contents, order and count |
| `Advice.IntervalsSpec` | components/AIAnalysis.tsx:39-55 | an interval exists at sorted index i ≥ 1 iff dist > 0 and gallons > 0; it carries the date, dist/gallons and the price; intervals are in date order, at most records − 1 |
| `Advice.StatsOf` | components/AIAnalysis.tsx:57 | the statistics are null exactly when there is no valid interval |
| `Advice.CalculateStats` | components/AIAnalysis.tsx:28-92 | `calculateStats` returns exactly the specified statistics |
| `Advice.HandleAnalyze` | components/AIAnalysis.tsx:95-105 | fewer than 2 records stop with the message before any statistics; otherwise a null result stops and a non-null one is sent on |
| `Advice.FewRecordsNoStats` | components/AIAnalysis.tsx:39-57 | with fewer than 2 records there is never an interval, so the statistics are null |
| `Advice.GallonsPositive` | components/AIAnalysis.tsx:52-59 | once an interval exists the total volume is positive, so the division at line 59 is defined |
| `Advice.AvgEfficiencyOfTotals` | components/AIAnalysis.tsx:59 | `avgEfficiency` is the total interval distance over the total interval volume |
| `Advice.TotalsAreWeighted` | components/AIAnalysis.tsx:39-54 | `totalDist` is the sum of efficiency × volume over the intervals and `totalGallons` the sum of their volumes |
| `Advice.AvgEfficiencyIsWeightedMean` | components/AIAnalysis.tsx:51-59 | `avgEfficiency` is the volume-weighted mean Σ(efficiency × volume) / Σ volume over the intervals, and so lies between the smallest and largest interval efficiency |
| `Advice.RatioBetween` | components/AIAnalysis.tsx:51-59 | total distance over total volume lies within any bounds of the interval efficiencies |
| `Advice.RatioOfTotals` | components/AIAnalysis.tsx:51-59 | the same bound, stated over the interval test of each sorted index |
| `Advice.TotalsBetween` | components/AIAnalysis.tsx:51-52 | efficiencies within [lo, hi] keep the running distance between lo× and hi× the running volume |
| `Advice.DivBetween` | components/AIAnalysis.tsx:59 | distance between lo× and hi× a positive volume gives a ratio between lo and hi |
| `Advice.WeightedTerm` | components/AIAnalysis.tsx:45-52 | an interval's efficiency times its volume is its distance |
| `Advice.IntervalListed` | components/AIAnalysis.tsx:44-50 | every index passing the test has its interval in the list |
| `Advice.AvgPriceOverAllRecords` | components/AIAnalysis.tsx:60 | `avgPrice` is the simple mean of the price over all records, including those without an interval |
| `Advice.SliceIndex` | components/AIAnalysis.tsx:69-70 | `slice` normalises a negative index against the length and clamps to 0..length |
| `Advice.SlicesSpec` | components/AIAnalysis.tsx:63-70 | recentCount = min(3, ⌊n/2⌋), zero iff n < 2; recent is the last recentCount intervals and previous the recentCount just before, disjoint and of full length |
| `Advice.TrendOf` | components/AIAnalysis.tsx:62-80 | the trend block; `Advice.SlicesSpec` and `Advice.TrendOfSpec` state the slices, their means and the classification |
| `Advice.ClassifyTrend` | components/AIAnalysis.tsx:76-78 | the ±5% rule; `Advice.TrendRule` states it as relative thresholds |
| `Advice.TrendOfSpec` | components/AIAnalysis.tsx:62-80 | the averages are the means over recent and previous and the trend classifies them; with fewer than 2 intervals both averages are 0 and the trend is stable |
| `Advice.TrendRule` | components/AIAnalysis.tsx:76-78 | for a positive previous average: improving iff recent > 1.05×previous, worsening iff recent < 0.95×previous, else stable |
| `Advice.FirstAndLastPrice` | components/AIAnalysis.tsx:89-90 | firstPrice and lastPrice are the prices of a record with the earliest and one with the latest date |
| `Markdown.CloseAt` | components/AIAnalysis.tsx:163 | the lazy `.*?` finds the first `**` after the opening one without crossing a line terminator |
| `Markdown.BoldAt` | components/AIAnalysis.tsx:163 | a match at q spans a `**…**` token of length at least 4 |
| `Markdown.SplitBold` | components/AIAnalysis.tsx:163 | the `split` with the lazy bold group; `Markdown.SplitPieces`, `Markdown.SplitPiecesConcat` and `Markdown.BoldClosesEarly` state its pieces |
| `Markdown.SplitPieces` | components/AIAnalysis.tsx:163 | `split` with a capturing group yields an odd number of pieces, and every odd piece is a bold token |
| `Markdown.SplitPiecesConcat` | components/AIAnalysis.tsx:163 | the pieces concatenate back to the text |
| `Markdown.Inner` | components/AIAnalysis.tsx:166 | `slice(2, -2)` of a token of length ≥ 4 that starts and ends with `**` is what lies between them |
| `Markdown.ParseBold` | components/AIAnalysis.tsx:162-170 | one span per piece; odd pieces become bold spans whose content rewrapped in `**` is the piece; even pieces are classified the same way |
| `Markdown.ParseBoldRoundTrip` | components/AIAnalysis.tsx:162-170 | when no piece is a degenerate `**`…`**` shorter than 4, the spans written back give the text |
| `Markdown.BoldClosesEarly` | components/AIAnalysis.tsx:163-166 | `"**a**b**"` splits into `""`, `"**a**"`, `"b**"`: the lazy match closes at the first `**` |
| `Text.RemoveCharKeeps` | components/AIAnalysis.tsx:180 | `replace(/#/g, '')` keeps every other character, as often as before and in order |
| `Text.RemoveStarPairsKeeps` | components/AIAnalysis.tsx:180 | `replace(/\*\*/g, '')` keeps every character other than `*`, as often as before and in order |
| `Markdown.HeaderContent` | components/AIAnalysis.tsx:180 | the header content has no `#` and no `**` left, keeps every character other than `#` and `*` as often as the trimmed line has it, and is a subsequence of that line |
| `Markdown.MarkerAt` | components/AIAnalysis.tsx:186 | a list marker found at p ends after p |
| `Markdown.FirstMarker` | components/AIAnalysis.tsx:186 | the leftmost marker match lies within the line |
| `Markdown.RemoveMarker` | components/AIAnalysis.tsx:186 | the marker `replace`; `Markdown.MarkerAtStart` and `Markdown.RemoveMarkerOfListLine` state what it removes |
| `Markdown.RemoveMarkerOfListLine` | components/AIAnalysis.tsx:185-186 | on a list line, the replace removes the leading `-`/`*`, or the leading digits and dot |
| `Markdown.ClassifyLine` | components/AIAnalysis.tsx:175-202 | the classes are tested in order header, list item, blank, paragraph; a header's content is `HeaderContent` of the trimmed line; list items parse the trimmed, unmarked line and paragraphs the raw line |
| `Markdown.BlankIffWhitespace` | components/AIAnalysis.tsx:195 | a line is blank iff it is all JavaScript white space |
| `Markdown.ParagraphKeepsLine` | components/AIAnalysis.tsx:197-201 | a paragraph without degenerate pieces renders its whole line |
| `Markdown.RenderMarkdown` | components/AIAnalysis.tsx:172-203 | `renderMarkdown`; `Markdown.RenderMarkdownSpec` states the blocks it yields |
| `Markdown.RenderMarkdownSpec` | components/AIAnalysis.tsx:172-203 | empty text renders nothing; otherwise there is one block per line (newlines + 1), each the class of its line, and the lines join back to the text |
| `Text.TrimShape` | components/AIAnalysis.tsx:176 | the trimmed string is empty or starts and ends with a character that is not JavaScript white space |
| `Text.SplitJoin` | components/AIAnalysis.tsx:175 | `split('\n')` then `join('\n')` gives back the text |
| `Text.SplitCount` | components/AIAnalysis.tsx:175 | `split('\n')` yields one more piece than there are newlines |
| `Store.SaveRecord` | App.tsx:49-56 | an existing id is replaced in place (length and positions unchanged, other records unchanged); a new id is appended after the unchanged records |
| `Store.SaveStoresRecord` | App.tsx:49-56 | after saving, the record is in the list and the ids are the old ids plus its id |
| `Store.SaveIdempotent` | App.tsx:49-56 | saving the same record twice is saving it once |
| `Store.DeleteRecord` | App.tsx:61-63 | delete keeps no record with the id, keeps every other record with all its copies (the same number of occurrences), and keeps their order |
| `Store.DeleteAfterSave` | App.tsx:49-63 | deleting a just-saved record's id gives the list with that id deleted, whether the save replaced or appended |
| `Store.DeleteAbsent` | App.tsx:61-63 | deleting an id that no record has leaves the list unchanged |
| `Store.Import` | App.tsx:70-78 | the merge: the store followed by the payload records whose id is new to it; its contract is given by `Store.ImportSpec`, `Store.ImportIdempotent` and `Store.ImportKeepsPayloadDuplicates` |
| `Store.ImportSpec` | App.tsx:70-78 | the existing records stay first and unchanged; appended records come from the payload with ids new to the store; all of them are appended, each as often as it occurs in the payload, in payload order |
| `Store.ImportIdempotent` | App.tsx:70-78 | importing the same payload again adds nothing |
| `Store.ImportKeepsPayloadDuplicates` | App.tsx:75-76 | two payload records sharing an id new to the store are both appended |
| `Store.ImportCollisionExample` | App.tsx:75-77 | importing [a′, b] into [a] with a′ sharing a's id gives [a, b]: the existing a is kept |
| `History.SortedRecords` | components/History.tsx:17 | the displayed order is a permutation of the records, non-increasing by date |
| `History.Search` | components/History.tsx:19-23 | the filter keeps exactly the matching records (date contains the term, lower-cased notes contain the lower-cased term, or the odometer text contains it), each as often as it occurs in the sorted list, in order |
| `History.Displayed` | components/History.tsx:17-23 | `filteredRecords`; `History.DisplayedSpec` and `History.EmptyTermShowsAll` state what is shown and in which order |
| `History.DisplayedSpec` | components/History.tsx:17-23 | a record is displayed iff it matches, and the display is newest first |
| `History.EmptyTermShowsAll` | components/History.tsx:19-23 | an empty search term displays every record, newest first |
| `History.NotesMatchIgnoresTermCase` | components/History.tsx:21 | a notes match for a term is a match for the lower-cased term and for every term with the same lower-cased form |
| `History.DateMatchIsLiteral` | components/History.tsx:20 | the date match is literal: a term with an upper-case letter never matches a well-formed date |
| `EntryForm.NumberOrZero` | components/EntryForm.tsx:33 | `parseFloat(value) \|\| 0`: the parsed number, or 0 when parsing gives NaN |
| `Text.ParseFloatNatText` | components/EntryForm.tsx:33 | `parseFloat` of a decimal numeral gives its value |
| `Text.ParseFloatEmpty` | components/EntryForm.tsx:33 | `parseFloat("")` is NaN |
| `EntryForm.Edit` | components/EntryForm.tsx:27-35 | the state update of `handleChange`; `EntryForm.HandleChange` and `EntryForm.NumericInput` state the field it sets and the parsed value |
| `EntryForm.HandleChange` | components/EntryForm.tsx:27-35 | a change sets only the named field: parsed for numeric fields, verbatim for date and notes; id, total cost and all other fields are unchanged |
| `EntryForm.NumericInput` | components/EntryForm.tsx:33 | a numeral gives its value and an empty input gives 0 |
| `EntryForm.AutoCost` | components/EntryForm.tsx:18-25 | only the total cost may change: it becomes gallons × price when both are positive, else the form is unchanged |
| `EntryForm.AutoCostIdempotent` | components/EntryForm.tsx:18-25 | running the effect again changes nothing |
| `EntryForm.EditTotalCost` | components/EntryForm.tsx:18-35 | editing a field other than volume or price keeps the total cost; changing either recomputes it when both are positive; other fields are untouched |
| `EntryForm.CanSubmit` | components/EntryForm.tsx:39 | the submission guard; `EntryForm.Submit` states that submission happens iff it holds |
| `EntryForm.Submit` | components/EntryForm.tsx:37-44 | submission is refused iff the date is empty or odometer, volume or price is not positive; otherwise the form record is saved as it stands |
| `EntryForm.InitialForm` | components/EntryForm.tsx:15 | the initial state; `EntryForm.InitialFormSpec` states the new and the edit form |
| `EntryForm.InitialFormSpec` | components/EntryForm.tsx:15-25 | a new form is `INITIAL_RECORD` with the fresh id and fails validation; an edit form differs from the edited record at most in total cost |
| `Constants.LocalDateString` | constants.ts:124-129 | `getLocalDate`; `Constants.LocalDateStringParses`, `Constants.LocalDateStringOfParsed` and `Constants.LocalDateStringOrder` state its round trips and order |
| `Constants.InitialRecord` | constants.ts:145-153 | `INITIAL_RECORD`; `EntryForm.InitialFormSpec` states that a new form built from it fails validation |
| `Constants.PadTwoDigits` | constants.ts:126-127 | `padStart(2, '0')` of a number below 100 is two digits with that value |
| `Constants.LocalDateStringParses` | constants.ts:124-129 | for a four-digit year the string has length 10 and parses back to the same date |
| `Constants.LocalDateStringOfParsed` | constants.ts:124-129 | formatting a parsed date string gives back the string |
| `Constants.LocalDateStringOrder` | constants.ts:124-129 | for four-digit years the strings compare lexicographically in chronological order |

## Left out

- Rendering, charts, icons, view switching and the translation tables are
  presentation. localStorage persistence, the generative-text request,
  Settings' file export and import, and the service worker are I/O; the
  data an import produces enters through the modelled merge.
- Labels built with `toLocaleDateString` and `formatCurrency` use Intl
  locale data. Bars and trend points carry their bucket key or date instead
  of the label.
- `toFixed(2)` rounding is a presentation step. Dashboard bars and trend
  values, the Advice statistics strings and the form's total cost are
  modelled as exact reals. IEEE double behaviour is not modelled.
- EntryForm.AutoCost: the total cost is the exact product, not the product
  rounded to cents by `toFixed(2)`.
- Charts.BarsSpec: the bar value is the exact bucket sum, not its
  `toFixed(2)` rounding.
- Advice.StatsOf: the averages are reals, not the `toFixed(2)` strings the
  source returns.
- "Today" is a calendar-date parameter of the window. The day difference
  is the difference of day numbers, a whole number of calendar days:
  `Math.ceil` over the milliseconds between local midnights and DST drift
  are not modelled. The custom bounds lose nothing here: `new Date` parses
  a `YYYY-MM-DD` string as UTC midnight, so their difference in days is
  exactly the difference of day numbers.
- `crypto.randomUUID` is the fresh-id parameter of the initial form.
- History.Search: `Number.prototype.toString` of the odometer is a
  parameter (`numText`), because the shortest round-trip decimal of a
  double is not modelled.
- A date string that is not a real `YYYY-MM-DD` day is an invalid Date. It
  sorts with key 0, where the engine compares NaN with an
  implementation-defined result. Whatever lenient forms the engine's Date
  parser accepts (for example a day past the month's end) are not modelled.
- Charts.KeyOf: the month key is a datatype rather than the template
  string. All monthly keys of invalid dates share one bucket, as "NaN-NaN"
  does. The engine lists integer-like object keys first in
  `Object.values`; that ordering is not modelled (only a malformed date
  string could produce such a key, and the buckets are then sorted by time
  anyway).
- Upper/lower case is ASCII only. Strings are sequences of characters, not
  UTF-16 code units. `parseFloat` does not model "Infinity".
- React's effect and re-render scheduling is not modelled.
  `EntryForm.Edit` applies the auto-cost effect right after a change of
  volume or price.
