/** The part of JavaScript's Date the components use on "YYYY-MM-DD"
    strings: parsing such a string into a calendar date, the calendar
    fields (getFullYear, getMonth + 1, getDate) and the time value,
    counted here in whole days (Dashboard's day differences divide the
    millisecond difference of two local midnights by 86400000). */
module Calendar {
  import opened Seqs
  import opened Text

  /** A proleptic Gregorian calendar date; month is 1..12. */
  datatype Date = Date(year: int, month: int, day: int)

  predicate IsLeapYear(y: int)
  {
    y % 4 == 0 && (y % 100 != 0 || y % 400 == 0)
  }

  function DaysInMonth(y: int, m: int): int
  {
    if m == 2 then (if IsLeapYear(y) then 29 else 28)
    else if m == 4 || m == 6 || m == 9 || m == 11 then 30
    else 31
  }

  predicate ValidDate(d: Date)
  {
    1 <= d.month <= 12 && 1 <= d.day <= DaysInMonth(d.year, d.month)
  }

  function YearLength(y: int): int
  {
    if IsLeapYear(y) then 366 else 365
  }

  /** Days in the years before year y (0001-01-01 is day 1). */
  function DaysBeforeYear(y: int): int
  {
    var x := y - 1;
    365 * x + x / 4 - x / 100 + x / 400
  }

  /** Days in the months of year y before month m. */
  function DaysBeforeMonth(y: int, m: int): int
    decreases m
  {
    if m <= 1 then 0 else DaysBeforeMonth(y, m - 1) + DaysInMonth(y, m - 1)
  }

  /** The day number of a date: consecutive dates have consecutive numbers. */
  function DayNumber(d: Date): int
  {
    DaysBeforeYear(d.year) + DaysBeforeMonth(d.year, d.month) + d.day
  }

  /** Lexicographic order on (year, month, day). */
  predicate DateBefore(a: Date, b: Date)
  {
    a.year < b.year || (a.year == b.year && (a.month < b.month || (a.month == b.month && a.day < b.day)))
  }

  lemma Step4(y: int)
    ensures y / 4 - (y - 1) / 4 == if y % 4 == 0 then 1 else 0
  {
  }

  lemma Step100(y: int)
    ensures y / 100 - (y - 1) / 100 == if y % 100 == 0 then 1 else 0
  {
  }

  lemma Step400(y: int)
    ensures y / 400 - (y - 1) / 400 == if y % 400 == 0 then 1 else 0
  {
  }

  lemma LeapDivisors(y: int)
    ensures y % 400 == 0 ==> y % 100 == 0
    ensures y % 100 == 0 ==> y % 4 == 0
  {
  }

  lemma NextYear(y: int)
    ensures DaysBeforeYear(y + 1) == DaysBeforeYear(y) + YearLength(y)
  {
    Step4(y);
    Step100(y);
    Step400(y);
    LeapDivisors(y);
  }

  lemma WholeYear(y: int)
    ensures DaysBeforeMonth(y, 13) == YearLength(y)
  {
    assert DaysBeforeMonth(y, 2) == 31;
    assert DaysBeforeMonth(y, 3) == 31 + DaysInMonth(y, 2);
    assert DaysBeforeMonth(y, 4) == 62 + DaysInMonth(y, 2);
    assert DaysBeforeMonth(y, 5) == 92 + DaysInMonth(y, 2);
    assert DaysBeforeMonth(y, 6) == 123 + DaysInMonth(y, 2);
    assert DaysBeforeMonth(y, 7) == 153 + DaysInMonth(y, 2);
    assert DaysBeforeMonth(y, 8) == 184 + DaysInMonth(y, 2);
    assert DaysBeforeMonth(y, 9) == 215 + DaysInMonth(y, 2);
    assert DaysBeforeMonth(y, 10) == 245 + DaysInMonth(y, 2);
    assert DaysBeforeMonth(y, 11) == 276 + DaysInMonth(y, 2);
    assert DaysBeforeMonth(y, 12) == 306 + DaysInMonth(y, 2);
  }

  lemma {:induction false} MonthsIncrease(y: int, m1: int, m2: int)
    requires m1 <= m2
    ensures DaysBeforeMonth(y, m1) <= DaysBeforeMonth(y, m2)
    decreases m2 - m1
  {
    if m1 < m2 {
      MonthsIncrease(y, m1, m2 - 1);
      if m2 > 1 {
        assert DaysBeforeMonth(y, m2) == DaysBeforeMonth(y, m2 - 1) + DaysInMonth(y, m2 - 1);
      }
    }
  }

  lemma {:induction false} YearsIncrease(y1: int, y2: int)
    requires y1 < y2
    ensures DaysBeforeYear(y1) + YearLength(y1) <= DaysBeforeYear(y2)
    decreases y2 - y1
  {
    NextYear(y1);
    if y1 + 1 < y2 {
      YearsIncrease(y1 + 1, y2);
    }
  }

  /** A valid date lies strictly inside its year's range of day numbers. */
  lemma WithinYear(d: Date)
    requires ValidDate(d)
    ensures DaysBeforeYear(d.year) < DayNumber(d) <= DaysBeforeYear(d.year) + YearLength(d.year)
  {
    MonthsIncrease(d.year, d.month + 1, 13);
    WholeYear(d.year);
    MonthsIncrease(d.year, 1, d.month);
  }

  lemma DayNumberStrict(a: Date, b: Date)
    requires ValidDate(a) && ValidDate(b) && DateBefore(a, b)
    ensures DayNumber(a) < DayNumber(b)
  {
    if a.year < b.year {
      WithinYear(a);
      WithinYear(b);
      YearsIncrease(a.year, b.year);
    } else if a.month < b.month {
      MonthsIncrease(a.year, a.month + 1, b.month);
    }
  }

  /** Day numbers order valid dates exactly as the calendar does. */
  lemma DayNumberOrder(a: Date, b: Date)
    requires ValidDate(a) && ValidDate(b)
    ensures DateBefore(a, b) <==> DayNumber(a) < DayNumber(b)
    ensures a == b <==> DayNumber(a) == DayNumber(b)
  {
    if DateBefore(a, b) {
      DayNumberStrict(a, b);
    } else if DateBefore(b, a) {
      DayNumberStrict(b, a);
    }
  }

  /** The calendar day after d. */
  function NextDay(d: Date): Date
  {
    if d.day < DaysInMonth(d.year, d.month) then Date(d.year, d.month, d.day + 1)
    else if d.month < 12 then Date(d.year, d.month + 1, 1)
    else Date(d.year + 1, 1, 1)
  }

  /** The date n calendar days after d. */
  function AddDays(d: Date, n: nat): Date
  {
    if n == 0 then d else NextDay(AddDays(d, n - 1))
  }

  /** Consecutive dates have consecutive day numbers. */
  lemma Successor(d: Date)
    requires ValidDate(d)
    ensures ValidDate(NextDay(d)) && DayNumber(NextDay(d)) == DayNumber(d) + 1
  {
    if d.day == DaysInMonth(d.year, d.month) && d.month == 12 {
      NextYear(d.year);
      WholeYear(d.year);
      assert DaysBeforeMonth(d.year, 13) == DaysBeforeMonth(d.year, 12) + DaysInMonth(d.year, 12);
    }
  }

  lemma {:induction false} AddDaysNumber(d: Date, n: nat)
    requires ValidDate(d)
    ensures ValidDate(AddDays(d, n)) && DayNumber(AddDays(d, n)) == DayNumber(d) + n
  {
    if n > 0 {
      AddDaysNumber(d, n - 1);
      Successor(AddDays(d, n - 1));
    }
  }

  /** The difference of two day numbers is the number of calendar days
      from the first date to the second: b is n days after a exactly when
      DayNumber(b) - DayNumber(a) == n. */
  lemma StepsBetween(a: Date, b: Date, n: nat)
    requires ValidDate(a) && ValidDate(b)
    ensures AddDays(a, n) == b <==> DayNumber(b) - DayNumber(a) == n
  {
    AddDaysNumber(a, n);
    DayNumberOrder(AddDays(a, n), b);
  }

  /** "YYYY-MM-DD": ten characters, dashes at 4 and 7, digits elsewhere. */
  predicate IsDateShaped(s: string)
  {
    |s| == 10 && s[4] == '-' && s[7] == '-'
    && AllDigits(s[..4]) && AllDigits(s[5..7]) && AllDigits(s[8..])
  }

  /** The date a "YYYY-MM-DD" string denotes; None for anything else,
      where JavaScript's Date holds NaN. */
  function ParseDate(s: string): (r: Option<Date>)
    ensures r.Some? ==> IsDateShaped(s) && ValidDate(r.value) && 0 <= r.value.year <= 9999
    ensures r.Some? ==> r.value == Date(DigitsValue(s[..4]), DigitsValue(s[5..7]), DigitsValue(s[8..]))
  {
    if IsDateShaped(s) then
      var d := Date(DigitsValue(s[..4]), DigitsValue(s[5..7]), DigitsValue(s[8..]));
      DigitsValueBound(s[..4]);
      if ValidDate(d) then Some(d) else None
    else None
  }

  /** The sort key of a date string: its day number (the source compares
      getTime(), which is day number times 86400000 plus a constant). */
  function DateKey(s: string): int
  {
    match ParseDate(s)
    case Some(d) => DayNumber(d)
    case None => 0
  }

  /** The Date object of a "YYYY-MM-DD" string: its calendar fields (None
      for an invalid Date) and its time value in days (0 for NaN). */
  datatype DateValue = DateValue(fields: Option<Date>, time: int)

  function DateOf(s: string): (v: DateValue)
    ensures v.fields == ParseDate(s) && v.time == DateKey(s)
  {
    DateValue(ParseDate(s), DateKey(s))
  }

  lemma DateShape(s: string)
    requires IsDateShaped(s)
    ensures s == s[..4] + ([s[4]] + (s[5..7] + ([s[7]] + s[8..])))
  {
  }

  /** Comparing two well-formed date strings as strings (what the custom
      range filter does) is comparing the dates. */
  lemma DateStringOrder(s1: string, s2: string)
    requires ParseDate(s1).Some? && ParseDate(s2).Some?
    ensures LexLess(s1, s2) <==> DateKey(s1) < DateKey(s2)
    ensures s1 == s2 <==> DateKey(s1) == DateKey(s2)
  {
    var d1, d2 := ParseDate(s1).value, ParseDate(s2).value;
    DateShape(s1);
    DateShape(s2);
    DigitsOrder(s1[..4], s2[..4]);
    DigitsOrder(s1[5..7], s2[5..7]);
    DigitsOrder(s1[8..], s2[8..]);
    LexLessAppend(s1[..4], [s1[4]] + (s1[5..7] + ([s1[7]] + s1[8..])), s2[..4], [s2[4]] + (s2[5..7] + ([s2[7]] + s2[8..])));
    LexLessAppend([s1[4]], s1[5..7] + ([s1[7]] + s1[8..]), [s2[4]], s2[5..7] + ([s2[7]] + s2[8..]));
    LexLessAppend(s1[5..7], [s1[7]] + s1[8..], s2[5..7], [s2[7]] + s2[8..]);
    LexLessAppend([s1[7]], s1[8..], [s2[7]], s2[8..]);
    DayNumberOrder(d1, d2);
  }
}
