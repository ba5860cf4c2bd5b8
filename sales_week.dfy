/**
 * The Thursday-to-Wednesday sales week (sales_dashboard.py, get_sales_week).
 * A week is named by its start Thursday, the year of that Thursday and a week number.
 */
module SalesWeek {
  import opened Calendar

  /**
   * The earliest day the source's arithmetic can handle: 0002-01-03, a Thursday.
   * For any earlier day either the week's Thursday or the Thursday before 1 January
   * of its year precedes 0001-01-01, where Python's date arithmetic raises.
   */
  const FirstSupportedDate: int := 368

  type Date = d: int | FirstSupportedDate <= d witness FirstSupportedDate

  datatype Week = Week(year: int, number: int, start: int)

  /** `(date_obj.weekday() - 3) % 7`; Python's `%` and Dafny's agree for divisor 7. */
  function DaysSinceThursday(d: int): (k: int)
    ensures 0 <= k < 7
  {
    (Weekday(d) - 3) % 7
  }

  function ThursdayOnOrBefore(d: int): (t: int)
    ensures t <= d < t + 7
    ensures Weekday(t) == 3
  {
    d - DaysSinceThursday(d)
  }

  /** The week-numbering anchor the source computes: the Thursday on or before 1 January. */
  function AnchorAsWritten(y: int): int {
    ThursdayOnOrBefore(Jan1(y))
  }

  /** `get_sales_week` as written in sales_dashboard.py. */
  function SalesWeekAsWritten(d: Date): Week {
    var start := ThursdayOnOrBefore(d);
    var year := YearOf(start);
    var firstThursday := AnchorAsWritten(year);
    if start < firstThursday then Week(year - 1, 52, start)
    else Week(year, (start - firstThursday) / 7 + 1, start)
  }

  lemma ThursdayOnOrBeforeSupported(d: Date)
    ensures ThursdayOnOrBefore(d) >= FirstSupportedDate
  {
    assert Weekday(FirstSupportedDate) == 3;
  }

  /** Two Thursdays are a whole number of weeks apart. */
  lemma ThursdaysWeeksApart(a: int, b: int)
    requires Weekday(a) == 3 && Weekday(b) == 3
    ensures (b - a) % 7 == 0
  {
  }

  /** The Thursday within seven days from `j` is the first Thursday on or after `j`. */
  lemma ThursdayInWindow(t: int, j: int)
    requires Weekday(t) == 3 && j <= t < j + 7
    ensures FirstThursdayOnOrAfter(j) == t
  {
    ThursdaysWeeksApart(t, FirstThursdayOnOrAfter(j));
  }

  /** No Thursday on or after `j` precedes the first one. */
  lemma FirstThursdayIsFirst(t: int, j: int)
    requires Weekday(t) == 3 && j <= t
    ensures FirstThursdayOnOrAfter(j) <= t
  {
    if t < j + 7 { ThursdayInWindow(t, j); }
  }

  /** Unless `j` is a Thursday, the Thursdays around it are one week apart. */
  lemma AnchorsOneWeekApart(j: int)
    requires Weekday(j) != 3
    ensures FirstThursdayOnOrAfter(j) == ThursdayOnOrBefore(j) + 7
  {
    ThursdayInWindow(ThursdayOnOrBefore(j) + 7, j);
  }

  /** A Thursday is its own week start. */
  lemma ThursdayFixed(t: int)
    requires Weekday(t) == 3
    ensures ThursdayOnOrBefore(t) == t
  {
    assert DaysSinceThursday(t) == 0;
  }

  lemma ModAddSeven(x: int)
    ensures (x + 7) % 7 == x % 7
  {
    assert x + 7 == 7 * (x / 7 + 1) + x % 7;
  }

  lemma NextThursday(d: int)
    ensures ThursdayOnOrBefore(d + 7) == ThursdayOnOrBefore(d) + 7
  {
    ModAddSeven(d + 6);
    assert Weekday(d + 7) == Weekday(d);
  }

  lemma DivAddSeven(x: int)
    ensures (x + 7) / 7 == x / 7 + 1
  {
  }

  /** The week starts on a Thursday and holds the date: start <= d < start + 7. */
  lemma AsWrittenContainsDate(d: Date)
    ensures var w := SalesWeekAsWritten(d);
      Weekday(w.start) == 3 && w.start <= d < w.start + 7
  {
  }

  /**
   * The previous-year branch never fires: the week's Thursday lies in its own year,
   * so it is on or after 1 January, which is on or after the anchor.
   * The reported year is always the year of the week's Thursday.
   */
  lemma AsWrittenFallbackUnreachable(d: Date)
    ensures var start := ThursdayOnOrBefore(d);
      start >= AnchorAsWritten(YearOf(start))
    ensures SalesWeekAsWritten(d).year == YearOf(SalesWeekAsWritten(d).start)
  {
    ThursdayOnOrBeforeSupported(d);
  }

  /** The as-written week number is between 2 and 54, or 1 in a year whose 1 January is a Thursday. */
  lemma AsWrittenNumberRange(d: Date)
    ensures 1 <= SalesWeekAsWritten(d).number <= 54
    ensures SalesWeekAsWritten(d).number == 1 ==> Weekday(Jan1(SalesWeekAsWritten(d).year)) == 3
  {
    var start := ThursdayOnOrBefore(d);
    ThursdayOnOrBeforeSupported(d);
    var y := YearOf(start);
    Jan1Step(y);
    var a := AnchorAsWritten(y);
    ThursdaysWeeksApart(a, start);
    var k := (start - a) / 7;
    assert start - a == 7 * k;
    assert 0 <= k <= 53;
    assert SalesWeekAsWritten(d) == Week(y, k + 1, start);
    if k == 0 {
      assert Jan1(y) == a;
    }
  }

  /** Classifying a week's own Thursday gives back the same week. */
  lemma AsWrittenIdempotent(d: Date)
    ensures SalesWeekAsWritten(d).start >= FirstSupportedDate
    ensures SalesWeekAsWritten(SalesWeekAsWritten(d).start) == SalesWeekAsWritten(d)
  {
    ThursdayOnOrBeforeSupported(d);
    var s: Date := ThursdayOnOrBefore(d);
    ThursdayFixed(s);
    assert SalesWeekAsWritten(d).start == s;
  }

  /** 31 December 2020 (ordinal 737790) is a Thursday and is reported as week 54 of 2020. */
  lemma AsWrittenWeek54(d: Date)
    requires d == 737790
    ensures d == Jan1(2021) - 1 && Weekday(d) == 3
    ensures SalesWeekAsWritten(d) == Week(2020, 54, d)
  {
    assert Jan1(2020) == 737425 && Jan1(2021) == 737791;
    assert Weekday(d) == 3 && ThursdayOnOrBefore(d) == d;
    YearOfUnique(d, 2020);
    assert Weekday(737425) == 2;
    assert AnchorAsWritten(2020) == 737419;
  }

  /** 2 January 2025 (ordinal 739253), the first Thursday of 2025, is reported as week 2. */
  lemma AsWrittenSecondWeekFirst(d: Date)
    requires d == 739253
    ensures d == Jan1(2025) + 1 && Weekday(d) == 3
    ensures SalesWeekAsWritten(d) == Week(2025, 2, d)
  {
    assert Jan1(2025) == 739252 && Jan1(2026) == 739617;
    assert Weekday(d) == 3 && ThursdayOnOrBefore(d) == d;
    YearOfUnique(d, 2025);
    assert Weekday(739252) == 2;
    assert AnchorAsWritten(2025) == 739246;
  }

  /** No date at all is reported as week 1 of 2025, since 1 January 2025 is a Wednesday. */
  lemma AsWrittenNoWeekOne2025()
    ensures Weekday(Jan1(2025)) == 2
    ensures forall d: Date :: SalesWeekAsWritten(d).year == 2025 ==> SalesWeekAsWritten(d).number != 1
  {
    forall d: Date | SalesWeekAsWritten(d).year == 2025
      ensures SalesWeekAsWritten(d).number != 1
    {
      AsWrittenNumberRange(d);
    }
  }

  // ---------------------------------------------------------------------------
  // The intended numbering: week 1 is the week starting on the first Thursday
  // on or after 1 January, so every sales year runs from week 1 to week 52 or 53.

  function FirstThursdayOnOrAfter(d: int): (t: int)
    ensures d <= t < d + 7
    ensures Weekday(t) == 3
  {
    d + (3 - Weekday(d)) % 7
  }

  /** The Thursday-anchored sales week, numbered from the year's first Thursday. */
  function SalesWeekOf(d: Date): Week {
    var start := ThursdayOnOrBefore(d);
    var year := YearOf(start);
    Week(year, (start - FirstThursdayOnOrAfter(Jan1(year))) / 7 + 1, start)
  }

  /** The week starts on the Thursday on or before the date, and that Thursday's year is the week's year. */
  lemma SalesWeekContainsDate(d: Date)
    ensures var w := SalesWeekOf(d);
      && Weekday(w.start) == 3 && w.start <= d < w.start + 7
      && w.start >= FirstSupportedDate
      && Jan1(w.year) <= w.start < Jan1(w.year + 1)
  {
    ThursdayOnOrBeforeSupported(d);
  }

  /**
   * Week numbers run from 1 to 53, and week 1 is exactly the week whose Thursday
   * falls in the first seven days of its year.
   */
  lemma SalesWeekNumberRange(d: Date)
    ensures 1 <= SalesWeekOf(d).number <= 53
    ensures SalesWeekOf(d).number == 1 <==> SalesWeekOf(d).start < Jan1(SalesWeekOf(d).year) + 7
  {
    var start := ThursdayOnOrBefore(d);
    ThursdayOnOrBeforeSupported(d);
    var y := YearOf(start);
    Jan1Step(y);
    var f := FirstThursdayOnOrAfter(Jan1(y));
    FirstThursdayIsFirst(start, Jan1(y));
    ThursdaysWeeksApart(f, start);
    var k := (start - f) / 7;
    assert start - f == 7 * k;
    assert 0 <= k <= 52;
    assert SalesWeekOf(d).number == k + 1;
    if start < Jan1(y) + 7 {
      ThursdayInWindow(start, Jan1(y));
    }
  }

  /** Classifying a week's own Thursday gives back the same week. */
  lemma SalesWeekIdempotent(d: Date)
    ensures SalesWeekOf(d).start >= FirstSupportedDate
    ensures SalesWeekOf(SalesWeekOf(d).start) == SalesWeekOf(d)
  {
    ThursdayOnOrBeforeSupported(d);
    var s: Date := ThursdayOnOrBefore(d);
    ThursdayFixed(s);
    assert SalesWeekOf(d).start == s;
  }

  /** Two dates share a week exactly when they share a week start. */
  lemma SameWeekIffSameStart(d: Date, e: Date)
    ensures SalesWeekOf(d) == SalesWeekOf(e) <==> SalesWeekOf(d).start == SalesWeekOf(e).start
  {
  }

  /**
   * Seven days later is the next week: its start is seven days later, and its number is one
   * more unless the new Thursday opens a new year, where numbering restarts at 1.
   */
  lemma SalesWeekNext(d: Date)
    ensures SalesWeekOf(d + 7).start == SalesWeekOf(d).start + 7
    ensures var w, n := SalesWeekOf(d), SalesWeekOf(d + 7);
      if n.year == w.year then n.number == w.number + 1 else n.year == w.year + 1 && n.number == 1
  {
    var s := ThursdayOnOrBefore(d);
    ThursdayOnOrBeforeSupported(d);
    NextThursday(d);
    if s + 7 < Jan1(YearOf(s) + 1) {
      SalesWeekNextSameYear(d);
    } else {
      SalesWeekNextNewYear(d);
    }
  }

  /** The step within one year. */
  lemma SalesWeekNextSameYear(d: Date)
    requires ThursdayOnOrBefore(d) >= FirstSupportedDate
    requires ThursdayOnOrBefore(d) + 7 < Jan1(YearOf(ThursdayOnOrBefore(d)) + 1)
    ensures SalesWeekOf(d + 7).year == SalesWeekOf(d).year
    ensures SalesWeekOf(d + 7).number == SalesWeekOf(d).number + 1
  {
    var s := ThursdayOnOrBefore(d);
    NextThursday(d);
    var y := YearOf(s);
    Jan1Step(y);
    var f := FirstThursdayOnOrAfter(Jan1(y));
    FirstThursdayIsFirst(s, Jan1(y));
    YearOfUnique(s + 7, y);
    DivAddSeven(s - f);
  }

  /** The step into the next year, whose first week is number 1. */
  lemma SalesWeekNextNewYear(d: Date)
    requires ThursdayOnOrBefore(d) >= FirstSupportedDate
    requires ThursdayOnOrBefore(d) + 7 >= Jan1(YearOf(ThursdayOnOrBefore(d)) + 1)
    ensures SalesWeekOf(d + 7).year == SalesWeekOf(d).year + 1
    ensures SalesWeekOf(d + 7).number == 1
  {
    var s := ThursdayOnOrBefore(d);
    NextThursday(d);
    var y := YearOf(s);
    Jan1Step(y);
    FirstThursdayIsFirst(s, Jan1(y));
    Jan1Step(y + 1);
    YearOfUnique(s + 7, y + 1);
    ThursdayInWindow(s + 7, Jan1(y + 1));
  }

  /** Where 1 January is a Thursday the source's numbering agrees with the intended one. */
  lemma AsWrittenAgreesWhenYearStartsThursday(d: Date)
    requires Weekday(Jan1(YearOf(ThursdayOnOrBefore(d)))) == 3
    ensures SalesWeekAsWritten(d) == SalesWeekOf(d)
  {
    ThursdayOnOrBeforeSupported(d);
    var j := Jan1(YearOf(ThursdayOnOrBefore(d)));
    ThursdayFixed(j);
    ThursdayInWindow(j, j);
    assert AnchorAsWritten(YearOf(ThursdayOnOrBefore(d))) == FirstThursdayOnOrAfter(j);
  }

  /** Otherwise the source numbers every week of the year one higher than intended. */
  lemma AsWrittenOneAheadOtherwise(d: Date)
    requires Weekday(Jan1(YearOf(ThursdayOnOrBefore(d)))) != 3
    ensures SalesWeekAsWritten(d).number == SalesWeekOf(d).number + 1
    ensures SalesWeekAsWritten(d).year == SalesWeekOf(d).year
  {
    ThursdayOnOrBeforeSupported(d);
    var s := ThursdayOnOrBefore(d);
    var j := Jan1(YearOf(s));
    var a := ThursdayOnOrBefore(j);
    AnchorsOneWeekApart(j);
    DivAddSeven(s - (a + 7));
  }
}
