/**
 The next time a cron expression fires: a walk forward, minute by minute, over
 at most a year of minutes.
 */
module CronSchedule {
  import opened Wrappers
  import opened Arithmetic
  import opened Calendar

  datatype CronExpr = CronExpr(
    minutes: set<int>,
    hours: set<int>,
    daysOfMonth: set<int>,
    months: set<int>,
    daysOfWeek: set<int>,     // 0 is Sunday
    anyDayOfMonth: bool,      // the field was written "*"
    anyDayOfWeek: bool)

  ghost predicate Spans(s: set<int>, lo: int, hi: int) {
    (exists v :: v in s) && forall v :: v in s ==> lo <= v <= hi
  }

  lemma AnyOf(s: set<int>, lo: int, hi: int) returns (v: int)
    requires Spans(s, lo, hi)
    ensures v in s && lo <= v <= hi
  {
    v :| v in s;
  }

  ghost predicate Full(s: set<int>, lo: int, hi: int) {
    forall v :: lo <= v <= hi ==> v in s
  }

  /** What every parsed expression is. */
  ghost predicate Parsed(e: CronExpr) {
    && Spans(e.minutes, 0, 59) && Spans(e.hours, 0, 23)
    && Spans(e.daysOfMonth, 1, 31) && Spans(e.months, 1, 12) && Spans(e.daysOfWeek, 0, 6)
    && (e.anyDayOfMonth ==> Full(e.daysOfMonth, 1, 31))
    && (e.anyDayOfWeek ==> Full(e.daysOfWeek, 0, 6))
  }

  // ── The clock ──

  const EPOCH_DAY: int := 719162        // 1 January 1970
  const DAY_MINUTES: int := 1440
  const MAX_MINUTES: int := 366 * 24 * 60

  /** Minutes on the local clock since midnight of day 0; `zone` is the offset from UTC in seconds. */
  function LocalMinute(t: int, zone: int): int { (t + zone) / 60 + EPOCH_DAY * DAY_MINUTES }

  /** Either restricted field selects the day; when one is "*", both must, which is the other alone. */
  predicate DayMatches(e: CronExpr, day: int) {
    var dom, dow := DateOf(day).day in e.daysOfMonth, Weekday(day) in e.daysOfWeek;
    && DateOf(day).month in e.months
    && if e.anyDayOfMonth || e.anyDayOfWeek then dom && dow else dom || dow
  }

  predicate MinuteMatches(e: CronExpr, n: int) {
    && DayMatches(e, n / DAY_MINUTES)
    && n % DAY_MINUTES / 60 in e.hours && n % 60 in e.minutes
  }

  predicate Matches(e: CronExpr, zone: int, t: int) { MinuteMatches(e, LocalMinute(t, zone)) }

  /** Midnight of 1 January 1970, a Thursday, is the zero of the clock. */
  lemma EpochIsThursday()
    ensures LocalMinute(0, 0) % DAY_MINUTES == 0
    ensures var day := LocalMinute(0, 0) / DAY_MINUTES; DateOf(day) == Date(1970, 1, 1) && Weekday(day) == 4
  {
    hide DateOf;
    assert DayNumber(Date(1970, 1, 1)) == 719162;
    DateOfNumber(Date(1970, 1, 1));
  }

  /** An hour later on the clock is an hour later; an offset moves the clock and nothing else. */
  lemma ClockRuns(t: int, zone: int, minutes: int)
    ensures LocalMinute(t + 60 * minutes, zone) == LocalMinute(t, zone) + minutes
    ensures LocalMinute(t, zone) == LocalMinute(t + zone, 0)
  {
    assert (t + 60 * minutes + zone) / 60 == (t + zone) / 60 + minutes;
  }

  /** A minute of a day matches exactly when its day does and its hour and minute are selected. */
  lemma MinuteDecides(e: CronExpr, day: int, hour: int, minute: int)
    requires 0 <= hour < 24 && 0 <= minute < 60
    ensures MinuteMatches(e, day * 1440 + hour * 60 + minute) <==>
      DayMatches(e, day) && hour in e.hours && minute in e.minutes
  {
    hide DayMatches;
    var n, m := day * 1440 + hour * 60 + minute, hour * 60 + minute;
    DivUnique(n, 1440, day, m);
    DivUnique(n, 60, day * 24 + hour, minute);
    DivUnique(m, 60, hour, minute);
  }

  /** With both day fields restricted either selects the day; with one a star, the other decides alone. */
  lemma DayFieldsDecide(e: CronExpr, day: int)
    requires Parsed(e)
    ensures var d := DateOf(day);
      var selected :=
        if e.anyDayOfMonth && e.anyDayOfWeek then true
        else if e.anyDayOfMonth then Weekday(day) in e.daysOfWeek
        else if e.anyDayOfWeek then d.day in e.daysOfMonth
        else d.day in e.daysOfMonth || Weekday(day) in e.daysOfWeek;
      DayMatches(e, day) <==> d.month in e.months && selected
  {
    hide DateOf;
    DateOfDay(day);
  }

  lemma January2024()
    ensures DayNumber(Date(2024, 1, 12)) == 738896 && Weekday(738896) == 5
  {
  }

  /** "0 0 13 * 5": Friday the 12th of January 2024 is selected and so is Saturday the 13th, but not Sunday the 14th. */
  lemma ThirteenthOrFriday(e: CronExpr, friday: Date, saturday: Date, sunday: Date)
    requires e.daysOfMonth == {13} && e.daysOfWeek == {5} && 1 in e.months && !e.anyDayOfMonth && !e.anyDayOfWeek
    requires friday == Date(2024, 1, 12) && saturday == Date(2024, 1, 13) && sunday == Date(2024, 1, 14)
    ensures DayMatches(e, DayNumber(friday)) && DayMatches(e, DayNumber(saturday)) && !DayMatches(e, DayNumber(sunday))
  {
    hide DateOf;
    January2024();
    assert DayNumber(saturday) == DayNumber(friday) + 1 && DayNumber(sunday) == DayNumber(friday) + 2;
    DateOfNumber(friday);
    DateOfNumber(saturday);
    DateOfNumber(sunday);
  }

  // ── The walk ──

  /** C's remainder, which has the sign of the dividend. */
  function Remainder(a: int, b: int): int
    requires b > 0
  {
    if a >= 0 then a % b else -((-a) % b)
  }

  /** The first candidate. */
  function FirstMinute(from: int): int { from - Remainder(from, 60) + 60 }

  function Candidate(from: int, i: int): int { FirstMinute(from) + 60 * i }

  /** t is the first candidate of a year of minutes that matches. */
  ghost predicate Fires(e: CronExpr, zone: int, from: int, t: int) {
    exists i :: 0 <= i < MAX_MINUTES && t == Candidate(from, i) && Matches(e, zone, t)
      && forall j :: 0 <= j < i ==> !Matches(e, zone, Candidate(from, j))
  }

  ghost predicate FiresFrom(e: CronExpr, zone: int, from: int) {
    exists t :: Fires(e, zone, from, t)
  }

  /** None is the exception the search ends with. */
  method NextRunAfter(e: CronExpr, zone: int, from: int) returns (r: Option<int>)
    ensures r.Some? ==> Fires(e, zone, from, r.value)
    ensures r.None? ==> !FiresFrom(e, zone, from)
  {
    hide Matches;
    var t := FirstMinute(from);
    for i := 0 to MAX_MINUTES
      invariant t == Candidate(from, i)
      invariant forall j :: 0 <= j < i ==> !Matches(e, zone, Candidate(from, j))
    {
      if Matches(e, zone, t) { return Some(t); }
      t := t + 60;
    }
    return None;
  }

  // ── What the walk finds ──

  predicate Aligned(t: int) { t % 60 == 0 }

  predicate Due(e: CronExpr, zone: int, from: int, t: int) { Aligned(t) && t > from && Matches(e, zone, t) }

  /** t is the least minute-aligned match strictly after `from`. */
  ghost predicate IsNext(e: CronExpr, zone: int, from: int, t: int) {
    Due(e, zone, from, t) && forall u :: Due(e, zone, from, u) ==> t <= u
  }

  predicate CleanStart(from: int) { from >= 0 || Aligned(from) }

  lemma FirstMinuteIs(from: int)
    requires CleanStart(from)
    ensures Aligned(FirstMinute(from)) && from < FirstMinute(from) <= from + 60
  {
    var q := from / 60;
    assert from == 60 * q + from % 60;
    assert (-from) % 60 == 0 ==> from % 60 == 0;
    assert from % 60 == 0 ==> (-from) % 60 == 0;
    assert FirstMinute(from) == 60 * (q + 1);
  }

  /** From a clean start, candidates are exactly the aligned times after `from`. */
  lemma CandidatesAreAligned(from: int, t: int)
    requires CleanStart(from)
    ensures Aligned(t) && t > from <==> exists i :: 0 <= i && t == Candidate(from, i)
  {
    hide FirstMinute;
    FirstMinuteIs(from);
    var first := FirstMinute(from);
    if Aligned(t) && t > from {
      assert t == 60 * (t / 60) && first == 60 * (first / 60);
      assert t == Candidate(from, t / 60 - first / 60);
    }
  }

  /** Whatever the expression: from a clean start the walk can only answer the next match. */
  lemma FiresIsNext(e: CronExpr, zone: int, from: int, t: int)
    requires CleanStart(from) && Fires(e, zone, from, t)
    ensures IsNext(e, zone, from, t)
  {
    hide Matches;
    var i :| 0 <= i < MAX_MINUTES && t == Candidate(from, i) && Matches(e, zone, t)
      && forall j :: 0 <= j < i ==> !Matches(e, zone, Candidate(from, j));
    CandidatesAreAligned(from, t);
    forall u | Due(e, zone, from, u) ensures t <= u {
      CandidatesAreAligned(from, u);
      var j :| 0 <= j && u == Candidate(from, j);
    }
  }

  /** "* * * * *" */
  const ALWAYS := CronExpr(set m | 0 <= m <= 59, set h | 0 <= h <= 23, set d | 1 <= d <= 31,
                           set m | 1 <= m <= 12, set w | 0 <= w <= 6, true, true)

  lemma AlwaysMatches(zone: int, t: int)
    ensures Parsed(ALWAYS) && Matches(ALWAYS, zone, t)
  {
    DateOfDay(LocalMinute(t, zone) / DAY_MINUTES);
    assert 0 in ALWAYS.minutes && 0 in ALWAYS.hours && 1 in ALWAYS.daysOfMonth && 1 in ALWAYS.months
           && 0 in ALWAYS.daysOfWeek;
  }

  /** Before 1970 and off the minute, the walk starts one minute late. */
  lemma UncleanStartSkips(from: int)
    requires !CleanStart(from)
    ensures Aligned(Candidate(from, 0) - 60) && from < Candidate(from, 0) - 60
  {
    assert (from + (-from) % 60) % 60 == 0;
  }

  /**
   The walk answers the next match for every expression exactly from a clean
   start: before 1970 and off the minute, C's remainder makes it skip one.
   */
  lemma NextExactlyFromCleanStart(from: int)
    ensures CleanStart(from) <==>
            forall e: CronExpr, zone, t :: Parsed(e) && Fires(e, zone, from, t) ==> IsNext(e, zone, from, t)
  {
    hide Matches, Parsed, CleanStart, Candidate, Aligned;
    if CleanStart(from) {
      forall e: CronExpr, zone, t | Parsed(e) && Fires(e, zone, from, t) ensures IsNext(e, zone, from, t) {
        FiresIsNext(e, zone, from, t);
      }
    } else {
      var t := Candidate(from, 0);
      UncleanStartSkips(from);
      AlwaysMatches(0, t);
      AlwaysMatches(0, t - 60);
      assert Fires(ALWAYS, 0, from, t);
      assert Due(ALWAYS, 0, from, t - 60);
      assert !IsNext(ALWAYS, 0, from, t);
    }
  }

  // ── When it finds anything ──

  /** Some selected day exists in some selected month of a common year. */
  ghost predicate SomeCommonDay(e: CronExpr) {
    exists m: Month, d :: m in e.months && d in e.daysOfMonth && InCommonYears(m, d)
  }

  ghost predicate CanAlwaysFire(e: CronExpr) { !e.anyDayOfWeek || SomeCommonDay(e) }

  /** Some day of any 366 in a row is selected. */
  lemma DayWithinYear(e: CronExpr, start: int) returns (day: int)
    requires Parsed(e) && CanAlwaysFire(e)
    ensures start <= day <= start + 365 && DayMatches(e, day)
  {
    if e.anyDayOfWeek {
      var m: Month, d :| m in e.months && d in e.daysOfMonth && InCommonYears(m, d);
      day := DateWithinYear(start, m, d);
      assert Weekday(day) in e.daysOfWeek;
    } else {
      var m := AnyOf(e.months, 1, 12);
      var w := AnyOf(e.daysOfWeek, 0, 6);
      day := WeekdayWithinYear(start, m, w);
      DateOfDay(day);
      assert e.anyDayOfMonth ==> DateOf(day).day in e.daysOfMonth;
    }
  }

  /** Some minute among the 366 days of minutes from any minute on is selected. */
  lemma MinuteWithinYear(e: CronExpr, first: int) returns (n: int)
    requires Parsed(e) && CanAlwaysFire(e)
    ensures first <= n < first + MAX_MINUTES && MinuteMatches(e, n)
  {
    hide DayMatches;
    var h := AnyOf(e.hours, 0, 23);
    var m := AnyOf(e.minutes, 0, 59);
    var slot, start := h * 60 + m, first / DAY_MINUTES;
    var day := DayWithinYear(e, if slot >= first % DAY_MINUTES then start else start + 1);
    n := day * DAY_MINUTES + slot;
    assert n / DAY_MINUTES == day && n % DAY_MINUTES == slot;
    assert n % 60 == m;
  }

  lemma CandidateMinute(zone: int, from: int, i: int)
    ensures LocalMinute(Candidate(from, i), zone) == LocalMinute(FirstMinute(from), zone) + i
  {
    assert (FirstMinute(from) + 60 * i + zone) / 60 == (FirstMinute(from) + zone) / 60 + i;
  }

  /** An expression that can always fire does, wherever one starts. */
  lemma FiresWithinYear(e: CronExpr, zone: int, from: int)
    requires Parsed(e) && CanAlwaysFire(e)
    ensures FiresFrom(e, zone, from)
  {
    hide MinuteMatches, CanAlwaysFire;
    var first := LocalMinute(FirstMinute(from), zone);
    var n := MinuteWithinYear(e, first);
    CandidateMinute(zone, from, n - first);
    FirstMatch(e, zone, from, n - first);
  }

  /** Some candidate matches, so the walk stops at the first. */
  lemma {:induction false} FirstMatch(e: CronExpr, zone: int, from: int, i: int)
    requires 0 <= i < MAX_MINUTES && Matches(e, zone, Candidate(from, i))
    ensures FiresFrom(e, zone, from)
    decreases i
  {
    hide Matches;
    if j :| 0 <= j < i && Matches(e, zone, Candidate(from, j)) {
      FirstMatch(e, zone, from, j);
    } else {
      assert Fires(e, zone, from, Candidate(from, i));
    }
  }

  /** The last second before 1 January of the year, local. */
  function BeforeYear(y: int, zone: int): int {
    (YearStart(y - 1) - EPOCH_DAY) * 86400 - zone - 1
  }

  /** In two common years every date is one that common years have. */
  lemma NoLeapDay(y: int, day: int)
    requires !Leap(y) && !Leap(y + 1) && YearStart(y - 1) <= day <= YearStart(y - 1) + 366
    ensures InCommonYears(DateOf(day).month, DateOf(day).day)
  {
    hide YearStart, Leap, MonthStart, DateOf, DayNumber;
    DateOfDay(day);
    var d := DateOf(day);
    DayInYear(d);
    YearStartStep(y);
    YearStartStep(y + 1);
    if d.year < y { YearStartMonotone(d.year, y - 1); }
    if d.year > y + 1 { YearStartMonotone(y + 1, d.year - 1); }
    assert d.year == y || d.year == y + 1;
  }

  /** Before two common years, an expression that needs a leap day finds nothing. */
  lemma SilentInCommonYears(e: CronExpr, zone: int, y: int)
    requires Parsed(e) && !CanAlwaysFire(e) && !Leap(y) && !Leap(y + 1)
    ensures !FiresFrom(e, zone, BeforeYear(y, zone))
  {
    hide YearStart, Leap, DateOf;
    var from := BeforeYear(y, zone);
    forall i | 0 <= i < MAX_MINUTES ensures !Matches(e, zone, Candidate(from, i)) {
      CandidateMinute(zone, from, i);
      NoLeapDay(y, LocalMinute(Candidate(from, i), zone) / DAY_MINUTES);
    }
  }

  /** A parsed expression fires wherever one starts, exactly when it can. */
  lemma NeverThrowsExactly(e: CronExpr, zone: int)
    requires Parsed(e)
    ensures CanAlwaysFire(e) <==> forall from :: FiresFrom(e, zone, from)
  {
    if CanAlwaysFire(e) {
      forall from ensures FiresFrom(e, zone, from) {
        FiresWithinYear(e, zone, from);
      }
    } else {
      SilentInCommonYears(e, zone, 2025);
    }
  }

  /** "0 0 29 2 *" */
  const LEAP_DAYS := CronExpr({0}, {0}, {29}, {2}, set w | 0 <= w <= 6, false, true)

  /** It is one that cannot always fire: from the end of 2024 on the search finds nothing. */
  lemma LeapDaysThrow(zone: int)
    ensures Parsed(LEAP_DAYS) && !CanAlwaysFire(LEAP_DAYS)
    ensures !FiresFrom(LEAP_DAYS, zone, BeforeYear(2025, zone))
  {
    assert 0 in LEAP_DAYS.minutes && 0 in LEAP_DAYS.hours && 29 in LEAP_DAYS.daysOfMonth && 2 in LEAP_DAYS.months
           && 0 in LEAP_DAYS.daysOfWeek;
    SilentInCommonYears(LEAP_DAYS, zone, 2025);
  }
}
