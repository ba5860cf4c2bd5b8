/**
 * The proleptic Gregorian calendar on day ordinals, as Python's `datetime.date`
 * numbers days: 1 January of year 1 is ordinal 1.
 */
module Calendar {

  predicate IsLeap(y: int) {
    y % 4 == 0 && (y % 100 != 0 || y % 400 == 0)
  }

  function YearLength(y: int): int {
    if IsLeap(y) then 366 else 365
  }

  /** Days in the years before year `y` (Python's `_days_before_year`). */
  function DaysBeforeYear(y: int): int {
    var p := y - 1;
    365 * p + p / 4 - p / 100 + p / 400
  }

  /** Ordinal of 1 January of year `y`. */
  function Jan1(y: int): int {
    DaysBeforeYear(y) + 1
  }

  /** Day of the week as Python's `weekday()`: Monday is 0, Thursday is 3, Sunday is 6. */
  function Weekday(d: int): (w: int)
    ensures 0 <= w < 7
  {
    (d + 6) % 7
  }

  lemma DivStep(y: int)
    ensures y / 4 - (y - 1) / 4 == (if y % 4 == 0 then 1 else 0)
    ensures y / 100 - (y - 1) / 100 == (if y % 100 == 0 then 1 else 0)
    ensures y / 400 - (y - 1) / 400 == (if y % 400 == 0 then 1 else 0)
  {
  }

  /** A multiple of 400 is a multiple of 100, and a multiple of 100 is a multiple of 4. */
  lemma DivisorChain(y: int)
    ensures y % 400 == 0 ==> y % 100 == 0
    ensures y % 100 == 0 ==> y % 4 == 0
  {
    if y % 400 == 0 {
      var k, q, r := y / 400, y / 100, y % 100;
      assert y == 400 * k && y == 100 * q + r && 0 <= r < 100;
      assert r == 100 * (4 * k - q);
    }
    if y % 100 == 0 {
      var k, q, r := y / 100, y / 4, y % 4;
      assert y == 100 * k && y == 4 * q + r && 0 <= r < 4;
      assert r == 4 * (25 * k - q);
    }
  }

  /** Consecutive years' first days are one year length apart. */
  lemma Jan1Step(y: int)
    ensures Jan1(y + 1) == Jan1(y) + YearLength(y)
  {
    DivStep(y);
    DivisorChain(y);
    var extra := y / 4 - (y - 1) / 4 - (y / 100 - (y - 1) / 100) + (y / 400 - (y - 1) / 400);
    assert Jan1(y + 1) - Jan1(y) == 365 + extra;
    assert extra == (if IsLeap(y) then 1 else 0);
  }

  lemma {:induction false} Jan1Increasing(a: int, b: int)
    requires a < b
    ensures Jan1(a) < Jan1(b)
    decreases b - a
  {
    Jan1Step(a);
    if a + 1 < b {
      Jan1Increasing(a + 1, b);
    }
  }

  function YearFrom(d: int, y: int): (r: int)
    requires Jan1(y) <= d
    ensures y <= r
    ensures Jan1(r) <= d < Jan1(r + 1)
    decreases d - Jan1(y)
  {
    Jan1Step(y);
    if d < Jan1(y + 1) then y else YearFrom(d, y + 1)
  }

  /** The year a day ordinal falls in. */
  function YearOf(d: int): (r: int)
    requires d >= 1
    ensures r >= 1
    ensures Jan1(r) <= d < Jan1(r + 1)
  {
    YearFrom(d, 1)
  }

  /** A day belongs to exactly one year. */
  lemma YearOfUnique(d: int, y: int)
    requires d >= 1
    requires Jan1(y) <= d < Jan1(y + 1)
    ensures YearOf(d) == y
  {
    var r := YearOf(d);
    if r < y {
      Jan1Increasing(r + 1, y + 1);
      if r + 1 < y { Jan1Increasing(r + 1, y); }
    } else if r > y {
      if y + 1 < r { Jan1Increasing(y + 1, r); }
    }
  }

  /** Cumulative days before month `m` (1-based) of a year. */
  function DaysBeforeMonth(m: int, leap: bool): int
    requires 1 <= m <= 12
  {
    var cum := [0, 31, 59, 90, 120, 151, 181, 212, 243, 273, 304, 334];
    cum[m - 1] + (if leap && m > 2 then 1 else 0)
  }

  function MonthLength(m: int, leap: bool): int
    requires 1 <= m <= 12
  {
    if m == 2 then (if leap then 29 else 28)
    else if m == 4 || m == 6 || m == 9 || m == 11 then 30
    else 31
  }

  /** A month ends where the next one starts, and December where the year ends. */
  lemma MonthEnds(m: int, leap: bool)
    requires 1 <= m <= 12
    ensures DaysBeforeMonth(m, leap) + MonthLength(m, leap)
      == if m < 12 then DaysBeforeMonth(m + 1, leap) else if leap then 366 else 365
  {
  }

  /** The month holding day `doy` (0-based) of a year, searching from month `m` on. */
  function MonthFrom(doy: int, leap: bool, m: int): (r: int)
    requires 1 <= m <= 12
    requires DaysBeforeMonth(m, leap) <= doy
    ensures m <= r <= 12
    ensures DaysBeforeMonth(r, leap) <= doy
    ensures r < 12 ==> doy < DaysBeforeMonth(r + 1, leap)
    decreases 12 - m
  {
    if m == 12 || doy < DaysBeforeMonth(m + 1, leap) then m else MonthFrom(doy, leap, m + 1)
  }

  /** Month (1..12) and day of month of an ordinal, as `date.month` and `date.day`. */
  function MonthDay(d: int): (md: (int, int))
    requires d >= 1
    ensures 1 <= md.0 <= 12
    ensures 1 <= md.1 <= MonthLength(md.0, IsLeap(YearOf(d)))
    ensures d == Jan1(YearOf(d)) + DaysBeforeMonth(md.0, IsLeap(YearOf(d))) + md.1 - 1
  {
    var y := YearOf(d);
    var leap := IsLeap(y);
    var doy := d - Jan1(y);
    Jan1Step(y);
    var m := MonthFrom(doy, leap, 1);
    MonthEnds(m, leap);
    (m, doy - DaysBeforeMonth(m, leap) + 1)
  }
}
