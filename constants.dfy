/** constants.ts: the getLocalDate helper and INITIAL_RECORD. */
module Constants {
  import opened Seqs
  import opened Text
  import opened Calendar
  import opened Types

  /** getLocalDate: `${year}-${month}-${day}` with the month
      (getMonth() + 1) and the day left-padded with '0' to two characters. */
  function LocalDateString(d: Date): string
  {
    IntText(d.year) + "-" + PadStart(IntText(d.month), 2, '0') + "-" + PadStart(IntText(d.day), 2, '0')
  }

  /** INITIAL_RECORD. Its date is getLocalDate() evaluated once, when the
      module is loaded; loadDate is that day. */
  function InitialRecord(loadDate: Date): FuelRecord
  {
    FuelRecord("", LocalDateString(loadDate), 0.0, 0.0, 0.0, 0.0, Some(""))
  }

  /** A number below 100 padded to two characters keeps its value. */
  lemma PadTwoDigits(n: nat)
    requires n < 100
    ensures |PadStart(NatText(n), 2, '0')| == 2
    ensures AllDigits(PadStart(NatText(n), 2, '0'))
    ensures DigitsValue(PadStart(NatText(n), 2, '0')) == n
  {
    NatTextValue(n);
    NatTextLength(n, 1);
    NatTextLength(n, 2);
    var t := NatText(n);
    if |t| == 1 {
      assert PadStart(t, 2, '0') == "0" + t;
      DigitsValueAppend("0", t);
      assert DigitsValue("0") == 0 by { assert "0"[..0] == ""; }
    }
  }

  /** For a valid date with a four-digit year the string has length 10,
      is "YYYY-MM-DD"-shaped and parses back to the same date. */
  lemma LocalDateStringParses(d: Date)
    requires ValidDate(d) && 1000 <= d.year <= 9999
    ensures |LocalDateString(d)| == 10
    ensures ParseDate(LocalDateString(d)) == Some(d)
  {
    var y := NatText(d.year);
    var m := PadStart(NatText(d.month), 2, '0');
    var dd := PadStart(NatText(d.day), 2, '0');
    assert Pow10(3) == 1000 && Pow10(4) == 10000;
    NatTextLength(d.year, 4);
    NatTextValue(d.year);
    PadTwoDigits(d.month);
    PadTwoDigits(d.day);
    var s := LocalDateString(d);
    assert s == y + "-" + m + "-" + dd;
    assert |s| == 10;
    SplitDateString(s, y, m, dd);
    assert IsDateShaped(s);
  }

  lemma SplitDateString(s: string, y: string, m: string, dd: string)
    requires |y| == 4 && |m| == 2 && |dd| == 2 && s == y + "-" + m + "-" + dd
    ensures s[..4] == y && s[4] == '-' && s[5..7] == m && s[7] == '-' && s[8..] == dd
  {
  }

  /** Every well-formed date string with a four-digit year is what
      getLocalDate writes for its date. */
  lemma LocalDateStringOfParsed(s: string)
    requires ParseDate(s).Some? && ParseDate(s).value.year >= 1000
    ensures LocalDateString(ParseDate(s).value) == s
  {
    var d := ParseDate(s).value;
    LocalDateStringParses(d);
    var t := LocalDateString(d);
    DateShape(s);
    DateShape(t);
    DigitsOrder(s[..4], t[..4]);
    DigitsOrder(s[5..7], t[5..7]);
    DigitsOrder(s[8..], t[8..]);
  }

  /** The strings getLocalDate writes compare, as strings, in
      chronological order: the custom range filter relies on this. */
  lemma LocalDateStringOrder(a: Date, b: Date)
    requires ValidDate(a) && 1000 <= a.year <= 9999
    requires ValidDate(b) && 1000 <= b.year <= 9999
    ensures LexLess(LocalDateString(a), LocalDateString(b)) <==> DateBefore(a, b)
  {
    LocalDateStringParses(a);
    LocalDateStringParses(b);
    DateStringOrder(LocalDateString(a), LocalDateString(b));
    DayNumberOrder(a, b);
  }
}
