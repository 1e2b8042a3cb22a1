/** The Gregorian calendar at a fixed offset from UTC: what localtime_r answers, without DST. */
module Calendar {
  import opened Arithmetic

  /** Days from 1 January of year 1 to 1 January of year y + 1. */
  function YearStart(y: int): int { 365 * y + y / 4 - y / 100 + y / 400 }

  predicate Leap(y: int) { y % 4 == 0 && (y % 100 != 0 || y % 400 == 0) }

  function YearLength(leap: bool): int { if leap then 366 else 365 }

  lemma YearStartStep(y: int)
    ensures YearStart(y) == YearStart(y - 1) + YearLength(Leap(y))
  {
    DivStep(y, 4);
    DivStep(y, 100);
    DivStep(y, 400);
    Divides(y, 100, 4);
    Divides(y, 4, 25);
  }

  lemma Divides(y: int, a: int, b: int)
    requires a > 0 && b > 0
    ensures a * b > 0 && (y % (a * b) == 0 ==> y % a == 0)
  {
    if y % (a * b) == 0 {
      var q := y / (a * b);
      assert y == a * (b * q);
      DivUnique(y, a, b * q, 0);
    }
  }

  lemma DivStep(y: int, k: int)
    requires k > 1
    ensures y / k == (y - 1) / k + if y % k == 0 then 1 else 0
  {
    var q, r := (y - 1) / k, (y - 1) % k;
    assert y == k * q + r + 1;
    if r + 1 < k {
      DivUnique(y, k, q, r + 1);
    } else {
      assert y == k * (q + 1);
      DivUnique(y, k, q + 1, 0);
    }
  }

  type Month = m: int | 1 <= m <= 12 witness 1

  function MonthLength(leap: bool, m: Month): (n: int)
    ensures 28 <= n <= 31
  {
    if m == 2 then (if leap then 29 else 28)
    else if m == 4 || m == 6 || m == 9 || m == 11 then 30
    else 31
  }

  /** Days of the year before the first of the month; m == 13 is the whole year. */
  function MonthStart(leap: bool, m: int): int
    requires 1 <= m <= 13
  {
    if m == 1 then 0 else MonthStart(leap, m - 1) + MonthLength(leap, m - 1)
  }

  datatype Date = Date(year: int, month: Month, day: int)

  predicate Real(d: Date) { 1 <= d.day <= MonthLength(Leap(d.year), d.month) }

  function DayNumber(d: Date): int {
    YearStart(d.year - 1) + MonthStart(Leap(d.year), d.month) + d.day - 1
  }

  // ── From a day number back to its date ──

  function YearFrom(day: int, y: int): int
    requires YearStart(y - 1) <= day
    decreases day - YearStart(y - 1)
  {
    YearStartStep(y);
    if day < YearStart(y) then y else YearFrom(day, y + 1)
  }

  function YearOf(day: int): int {
    YearStartBound(if day >= 0 then day / 366 else day / 365);
    YearFrom(day, (if day >= 0 then day / 366 else day / 365) + 1)
  }

  function MonthFrom(leap: bool, dayOfYear: int, m: Month): Month
    requires MonthStart(leap, m) <= dayOfYear < MonthStart(leap, 13)
    decreases 13 - m
  {
    if m == 12 || dayOfYear < MonthStart(leap, m + 1) then m else MonthFrom(leap, dayOfYear, m + 1)
  }

  lemma MonthStarts(leap: bool)
    ensures MonthStart(leap, 13) == YearLength(leap)
    ensures MonthStart(leap, 1) == 0 && MonthStart(leap, 2) == 31
    ensures forall m :: 1 <= m <= 12 ==> MonthStart(leap, m + 1) == MonthStart(leap, m) + MonthLength(leap, m)
  {
    var f := if leap then 1 else 0;
    assert MonthStart(leap, 2) == 31;
    assert MonthStart(leap, 3) == 59 + f;
    assert MonthStart(leap, 4) == 90 + f;
    assert MonthStart(leap, 5) == 120 + f;
    assert MonthStart(leap, 6) == 151 + f;
    assert MonthStart(leap, 7) == 181 + f;
    assert MonthStart(leap, 8) == 212 + f;
    assert MonthStart(leap, 9) == 243 + f;
    assert MonthStart(leap, 10) == 273 + f;
    assert MonthStart(leap, 11) == 304 + f;
    assert MonthStart(leap, 12) == 334 + f;
  }

  lemma {:induction false} YearFromIsYear(day: int, y: int)
    requires YearStart(y - 1) <= day
    ensures YearStart(YearFrom(day, y) - 1) <= day < YearStart(YearFrom(day, y))
    decreases day - YearStart(y - 1)
  {
    hide YearStart, Leap;
    YearStartStep(y);
    if day >= YearStart(y) {
      YearFromIsYear(day, y + 1);
    }
  }

  lemma YearStartBound(y: int)
    ensures y >= 0 ==> YearStart(y) <= 366 * y
    ensures y < 0 ==> YearStart(y) <= 365 * y
  {
    var a, b, c := y / 4, y / 100, y / 400;
    assert 4 * a <= y && 100 * b <= y < 100 * b + 100 && 400 * c <= y;
  }

  lemma YearOfIsYear(day: int)
    ensures YearStart(YearOf(day) - 1) <= day < YearStart(YearOf(day))
  {
    hide YearStart;
    YearStartBound(if day >= 0 then day / 366 else day / 365);
    YearFromIsYear(day, (if day >= 0 then day / 366 else day / 365) + 1);
  }

  lemma {:induction false} MonthFromIsMonth(leap: bool, dayOfYear: int, m: Month)
    requires MonthStart(leap, m) <= dayOfYear < MonthStart(leap, 13)
    ensures var n := MonthFrom(leap, dayOfYear, m);
            MonthStart(leap, n) <= dayOfYear < MonthStart(leap, n + 1)
    decreases 13 - m
  {
    hide MonthStart, MonthLength;
    if m < 12 && dayOfYear >= MonthStart(leap, m + 1) {
      MonthFromIsMonth(leap, dayOfYear, m + 1);
    }
  }

  function DateOf(day: int): Date {
    YearOfIsYear(day);
    var y := YearOf(day);
    YearStartStep(y);
    MonthStarts(Leap(y));
    var dayOfYear := day - YearStart(y - 1);
    var m := MonthFrom(Leap(y), dayOfYear, 1);
    Date(y, m, dayOfYear - MonthStart(Leap(y), m) + 1)
  }

  /** Every day has a real date, whose number it is. */
  lemma DateOfDay(day: int)
    ensures Real(DateOf(day)) && DayNumber(DateOf(day)) == day
  {
    hide YearStart, Leap, MonthStart, MonthLength, MonthFrom, YearOf;
    YearOfIsYear(day);
    var y := YearOf(day);
    YearStartStep(y);
    MonthStarts(Leap(y));
    MonthFromIsMonth(Leap(y), day - YearStart(y - 1), 1);
  }

  lemma {:induction false} YearStartMonotone(a: int, b: int)
    requires a <= b
    ensures YearStart(a) + 365 * (b - a) <= YearStart(b)
    decreases b - a
  {
    if a < b {
      YearStartMonotone(a, b - 1);
      YearStartStep(b);
    }
  }

  lemma {:induction false} MonthStartMonotone(leap: bool, a: Month, b: int)
    requires a < b <= 13
    ensures MonthStart(leap, a) + MonthLength(leap, a) <= MonthStart(leap, b)
    decreases b
  {
    if a + 1 < b {
      MonthStartMonotone(leap, a, b - 1);
    }
  }

  /** A real date lies in its year. */
  lemma DayInYear(d: Date)
    requires Real(d)
    ensures YearStart(d.year - 1) <= DayNumber(d) < YearStart(d.year)
  {
    YearStartStep(d.year);
    MonthStarts(Leap(d.year));
    MonthStartMonotone(Leap(d.year), d.month, 13);
    if d.month > 1 { MonthStartMonotone(Leap(d.year), 1, d.month); }
  }

  /** Two real dates with one number are one date. */
  lemma DayNumberInjective(a: Date, b: Date)
    requires Real(a) && Real(b) && DayNumber(a) == DayNumber(b)
    ensures a == b
  {
    DayInYear(a);
    DayInYear(b);
    if a.year < b.year { YearStartMonotone(a.year, b.year - 1); }
    if b.year < a.year { YearStartMonotone(b.year, a.year - 1); }
    assert a.year == b.year;
    if a.month < b.month { MonthStartMonotone(Leap(a.year), a.month, b.month); }
    if b.month < a.month { MonthStartMonotone(Leap(a.year), b.month, a.month); }
  }

  lemma DateOfNumber(d: Date)
    requires Real(d)
    ensures DateOf(DayNumber(d)) == d
  {
    hide YearStart, Leap, MonthStart, DayNumber, DateOf;
    DateOfDay(DayNumber(d));
    DayNumberInjective(DateOf(DayNumber(d)), d);
  }

  /** Monday, 1 January of year 1; Sunday is 0. */
  function Weekday(day: int): (w: int)
    ensures 0 <= w <= 6
  {
    (day + 1) % 7
  }

  /** Among seven days in a row every weekday occurs. */
  lemma WeekdayWithin(first: int, w: int) returns (day: int)
    requires 0 <= w <= 6
    ensures first <= day < first + 7 && Weekday(day) == w
  {
    day := first + (w - Weekday(first)) % 7;
  }

  // ── What occurs in any 366 days in a row ──

  predicate InCommonYears(m: Month, d: int) { 1 <= d <= MonthLength(false, m) }

  lemma CommonIsReal(y: int, m: Month, d: int)
    requires InCommonYears(m, d)
    ensures Real(Date(y, m, d))
  {
  }

  lemma MonthStartsDiffer(m: Month)
    ensures MonthStart(true, m) == MonthStart(false, m) + if m <= 2 then 0 else 1
  {
    MonthStarts(true);
    MonthStarts(false);
    if m > 3 { MonthStartsDiffer(m - 1); }
  }

  /** The same date a year later is 365 or 366 days later. */
  lemma YearApart(y: int, m: Month, d: int)
    ensures 365 <= DayNumber(Date(y + 1, m, d)) - DayNumber(Date(y, m, d)) <= 366
  {
    hide YearStart;
    YearStartStep(y);
    YearStartStep(y + 1);
    MonthStartsDiffer(m);
  }

  /** A date that common years have recurs within 366 days, whatever day one counts from. */
  lemma DateWithinYear(start: int, m: Month, d: int) returns (day: int)
    requires InCommonYears(m, d)
    ensures start <= day <= start + 365
    ensures DateOf(day).month == m && DateOf(day).day == d
  {
    hide YearStart, Leap, MonthStart, DayNumber, DateOf, Real;
    DateOfDay(start);
    var y := DateOf(start).year;
    DayInYear(DateOf(start));
    YearStartStep(y);
    var here, next := Date(y, m, d), Date(y + 1, m, d);
    CommonIsReal(y, m, d);
    CommonIsReal(y + 1, m, d);
    DayInYear(here);
    DayInYear(next);
    YearApart(y, m, d);
    DateOfNumber(here);
    DateOfNumber(next);
    day := if DayNumber(here) >= start then DayNumber(here) else DayNumber(next);
  }

  /** A few days further on in the same month. */
  lemma SameMonth(d: Date, k: int)
    requires Real(d) && 0 <= k <= 6 && d.day <= 7
    ensures DateOf(DayNumber(d) + k) == Date(d.year, d.month, d.day + k)
  {
    hide YearStart, Leap, MonthStart, DateOf;
    DateOfNumber(Date(d.year, d.month, d.day + k));
  }

  /** Almost a year before the first of a month, that month has just begun. */
  lemma EarlyInMonth(start: int, first: int)
    requires DateOf(first).day == 1 && start + 360 <= first <= start + 365
    ensures DateOf(start).month == DateOf(first).month && DateOf(start).day <= 7
  {
    hide YearStart, Leap, MonthStart, DateOf, DayNumber;
    DateOfDay(first);
    var f := DateOf(first);
    var was := Date(f.year - 1, f.month, 1);
    YearApart(was.year, was.month, 1);
    SameMonth(was, start - DayNumber(was));
  }

  /** Any month has any weekday within 366 days. */
  lemma WeekdayWithinYear(start: int, m: Month, w: int) returns (day: int)
    requires 0 <= w <= 6
    ensures start <= day <= start + 365
    ensures DateOf(day).month == m && Weekday(day) == w
  {
    hide YearStart, Leap, MonthStart, DateOf, DayNumber, Weekday;
    var first := DateWithinYear(start, m, 1);
    var from := if first < start + 360 then first else start;
    if first >= start + 360 { EarlyInMonth(start, first); }
    day := WeekdayWithin(from, w);
    DateOfDay(from);
    SameMonth(DateOf(from), day - from);
  }
}
