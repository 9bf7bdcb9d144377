/** The data model of types.ts, and the chronological order that
    Dashboard and AIAnalysis both sort records into. */
module Types {
  import opened Seqs
  import opened Calendar

  /** A refuelling event (FuelRecord in types.ts). notes is optional. */
  datatype FuelRecord = FuelRecord(
    id: string,
    date: string,
    odometer: real,
    gallons: real,
    pricePerGallon: real,
    totalCost: real,
    notes: Option<string>)

  /** The key of the comparator
      (a, b) => new Date(a.date).getTime() - new Date(b.date).getTime(). */
  function ByDate(r: FuelRecord): int
  {
    DateKey(r.date)
  }

  /** [...records].sort(by date ascending); Array.prototype.sort is stable. */
  function Chronological(records: seq<FuelRecord>): (sorted: seq<FuelRecord>)
    ensures multiset(sorted) == multiset(records)
    ensures SortedBy(sorted, ByDate)
  {
    SortBy(records, ByDate)
  }

  /** The sorted copy is a permutation of the records, is non-decreasing
      by date, and records sharing a date keep their input order. */
  lemma ChronologicalSpec(records: seq<FuelRecord>, day: int)
    ensures multiset(Chronological(records)) == multiset(records)
    ensures forall i, j :: 0 <= i < j < |records| ==>
      ByDate(Chronological(records)[i]) <= ByDate(Chronological(records)[j])
    ensures Filter(Chronological(records), KeyIs(ByDate, day)) == Filter(records, KeyIs(ByDate, day))
  {
    SortByStable(records, ByDate, day);
  }

  /** The first sorted record has the earliest date and the last one the
      latest, and both are records of the input. */
  lemma ChronologicalEnds(records: seq<FuelRecord>)
    requires |records| > 0
    ensures var s := Chronological(records);
      |s| == |records| && s[0] in records && s[|s| - 1] in records
      && forall x :: x in records ==> ByDate(s[0]) <= ByDate(x) <= ByDate(s[|s| - 1])
  {
    var s := Chronological(records);
    assert |s| == |records|;
    assert s[0] in multiset(records) && s[|s| - 1] in multiset(records);
    forall x | x in records
      ensures ByDate(s[0]) <= ByDate(x) <= ByDate(s[|s| - 1])
    {
      assert x in multiset(s);
      var k :| 0 <= k < |s| && s[k] == x;
    }
  }
}
