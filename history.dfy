/** components/History.tsx: the record list shown newest first, narrowed
    by the search box. */
module History {
  import opened Seqs
  import opened Text
  import opened Calendar
  import opened Types

  /** The key of the comparator (a, b) => time(b) - time(a): later dates first. */
  function NewestFirst(r: FuelRecord): int
  {
    -ByDate(r)
  }

  /** [...records].sort(newest first); the sort is stable. */
  function SortedRecords(records: seq<FuelRecord>): (sorted: seq<FuelRecord>)
    ensures multiset(sorted) == multiset(records)
    ensures forall i, j :: 0 <= i < j < |sorted| ==> ByDate(sorted[i]) >= ByDate(sorted[j])
  {
    SortBy(records, NewestFirst)
  }

  /** The search predicate. The date and the odometer's decimal text
      (numText, Number.prototype.toString) are matched literally; only the
      notes are matched after lower-casing both sides. A record without
      notes has no notes match (the optional chain yields undefined). */
  predicate Matches(r: FuelRecord, term: string, numText: real -> string)
  {
    Contains(r.date, term)
    || (r.notes.Some? && Contains(ToLower(r.notes.value), ToLower(term)))
    || Contains(numText(r.odometer), term)
  }

  function Matching(term: string, numText: real -> string): FuelRecord -> bool
  {
    (r: FuelRecord) => Matches(r, term, numText)
  }

  /** sortedRecords.filter(matches): every kept record matches, every
      matching record is kept, and the order is preserved. */
  function Search(sorted: seq<FuelRecord>, term: string, numText: real -> string): (shown: seq<FuelRecord>)
    ensures forall i :: 0 <= i < |shown| ==> shown[i] in sorted && Matches(shown[i], term, numText)
    ensures forall i :: 0 <= i < |sorted| && Matches(sorted[i], term, numText) ==> sorted[i] in shown
    ensures IsSubsequence(shown, sorted)
    ensures forall x :: multiset(shown)[x] == if Matches(x, term, numText) then multiset(sorted)[x] else 0
  {
    FilterIsSubsequence(sorted, Matching(term, numText));
    FilterCount(sorted, Matching(term, numText));
    FilterMembers(sorted, Matching(term, numText));
    Filter(sorted, Matching(term, numText))
  }

  /** filteredRecords: the records that match, newest first. */
  function Displayed(records: seq<FuelRecord>, term: string, numText: real -> string): seq<FuelRecord>
  {
    Search(SortedRecords(records), term, numText)
  }

  /** The displayed list holds exactly the matching records and is ordered
      newest first. */
  lemma DisplayedSpec(records: seq<FuelRecord>, term: string, numText: real -> string)
    ensures forall i :: 0 <= i < |Displayed(records, term, numText)| ==>
      Displayed(records, term, numText)[i] in records && Matches(Displayed(records, term, numText)[i], term, numText)
    ensures forall i :: 0 <= i < |records| && Matches(records[i], term, numText) ==>
      records[i] in Displayed(records, term, numText)
    ensures forall i, j :: 0 <= i < j < |Displayed(records, term, numText)| ==>
      ByDate(Displayed(records, term, numText)[i]) >= ByDate(Displayed(records, term, numText)[j])
  {
    var sorted := SortedRecords(records);
    forall i | 0 <= i < |records| && Matches(records[i], term, numText) ensures records[i] in sorted {
      assert records[i] in multiset(records);
    }
    forall x | x in sorted ensures x in records {
      assert x in multiset(sorted);
    }
    FilterSortedBy(sorted, Matching(term, numText), NewestFirst);
  }

  /** An empty search box shows every record, newest first. */
  lemma EmptyTermShowsAll(records: seq<FuelRecord>, numText: real -> string)
    ensures Displayed(records, "", numText) == SortedRecords(records)
  {
    var sorted := SortedRecords(records);
    forall i | 0 <= i < |sorted| ensures Matching("", numText)(sorted[i]) {
      ContainsEmpty(sorted[i].date);
    }
    FilterKeepsAll(sorted, Matching("", numText));
  }

  /** The notes match ignores the case of the search term: a notes match
      for one term is a match for every term with the same lower-cased
      form, the lower-cased term itself included. */
  lemma NotesMatchIgnoresTermCase(r: FuelRecord, term: string, numText: real -> string)
    requires r.notes.Some? && Contains(ToLower(r.notes.value), ToLower(term))
    ensures Matches(r, ToLower(term), numText)
    ensures forall t :: ToLower(t) == ToLower(term) ==> Matches(r, t, numText)
  {
    ToLowerIdempotent(term);
  }

  /** The date test is literal: a term holding an upper-case letter never
      matches a well-formed date, although lower-casing would not change
      the date. */
  lemma DateMatchIsLiteral(r: FuelRecord, term: string, k: int)
    requires IsDateShaped(r.date)
    requires 0 <= k < |term| && 'A' <= term[k] <= 'Z'
    ensures !Contains(r.date, term)
    ensures ToLower(r.date) == r.date
  {
    forall j | 0 <= j < |r.date|
      ensures IsDigit(r.date[j]) || r.date[j] == '-'
    {
      if j < 4 {
        assert r.date[..4][j] == r.date[j];
      } else if 4 < j < 7 {
        assert r.date[5..7][j - 5] == r.date[j];
      } else if 7 < j {
        assert r.date[8..][j - 8] == r.date[j];
      }
    }
    forall i | 0 <= i <= |r.date| - |term|
      ensures !OccursAt(r.date, term, i)
    {
      assert r.date[i..i + |term|][k] == r.date[i + k];
      assert r.date[i + k] != term[k];
    }
    forall j | 0 <= j < |r.date|
      ensures LowerChar(r.date[j]) == r.date[j]
    {
    }
  }
}
