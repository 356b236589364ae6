/**
 * The proleptic Gregorian calendar as Python's `datetime.date` computes it:
 * day ordinals (0001-01-01 is day 1), the next and previous day, weekdays
 * with Monday = 0, and the ISO 8601 week calendar of `date.isocalendar()`.
 */
module Calendar {

  datatype Date = Date(year: int, month: int, day: int)

  /** `datetime.MINYEAR` and `datetime.MAXYEAR`. */
  const MinYear := 1
  const MaxYear := 9999

  predicate IsLeapYear(y: int) {
    y % 4 == 0 && (y % 100 != 0 || y % 400 == 0)
  }

  function DaysInYear(y: int): int {
    if IsLeapYear(y) then 366 else 365
  }

  function DaysInMonth(y: int, m: int): (r: int)
    requires 1 <= m <= 12
    ensures 28 <= r <= 31
  {
    if m == 2 then (if IsLeapYear(y) then 29 else 28)
    else if m == 4 || m == 6 || m == 9 || m == 11 then 30
    else 31
  }

  predicate Valid(d: Date) {
    && MinYear <= d.year <= MaxYear
    && 1 <= d.month <= 12
    && 1 <= d.day <= DaysInMonth(d.year, d.month)
  }

  /** Number of days in the years before `y`. */
  function DaysBeforeYear(y: int): int {
    var p := y - 1;
    p * 365 + p / 4 - p / 100 + p / 400
  }

  /** Number of days in year `y` before the first day of month `m`. */
  function DaysBeforeMonth(y: int, m: int): int
    requires 1 <= m <= 12
  {
    var common :=
      if m <= 6 then
        (if m <= 3 then (if m == 1 then 0 else if m == 2 then 31 else 59)
         else (if m == 4 then 90 else if m == 5 then 120 else 151))
      else
        (if m <= 9 then (if m == 7 then 181 else if m == 8 then 212 else 243)
         else (if m == 10 then 273 else if m == 11 then 304 else 334));
    if m > 2 && IsLeapYear(y) then common + 1 else common
  }

  /** `date.toordinal()`. */
  function Ordinal(d: Date): int
    requires 1 <= d.month <= 12
  {
    DaysBeforeYear(d.year) + DaysBeforeMonth(d.year, d.month) + d.day
  }

  const FirstDate := Date(MinYear, 1, 1)
  const LastDate := Date(MaxYear, 12, 31)

  /** The day after `d`. */
  function NextDay(d: Date): Date
    requires Valid(d)
  {
    if d.day < DaysInMonth(d.year, d.month) then Date(d.year, d.month, d.day + 1)
    else if d.month < 12 then Date(d.year, d.month + 1, 1)
    else Date(d.year + 1, 1, 1)
  }

  /** The day before `d`. */
  function PrevDay(d: Date): Date
    requires Valid(d)
  {
    if d.day > 1 then Date(d.year, d.month, d.day - 1)
    else if d.month > 1 then Date(d.year, d.month - 1, DaysInMonth(d.year, d.month - 1))
    else Date(d.year - 1, 12, 31)
  }

  /** A year has 365 days, 366 in a leap year. */
  lemma YearLength(y: int)
    ensures DaysBeforeYear(y + 1) == DaysBeforeYear(y) + DaysInYear(y)
  {
    DivStep4(y);
    DivStep100(y);
    DivStep400(y);
    if y % 400 == 0 {
      Multiple400(y);
    } else if y % 100 == 0 {
      Multiple100(y);
    }
  }

  // Going from `y - 1` to `y`, the quotient grows by one exactly when the divisor divides `y`.

  lemma DivStep4(y: int)
    ensures y / 4 == (y - 1) / 4 + (if y % 4 == 0 then 1 else 0)
  {
  }

  lemma DivStep100(y: int)
    ensures y / 100 == (y - 1) / 100 + (if y % 100 == 0 then 1 else 0)
  {
  }

  lemma DivStep400(y: int)
    ensures y / 400 == (y - 1) / 400 + (if y % 400 == 0 then 1 else 0)
  {
  }

  lemma Multiple400(y: int)
    requires y % 400 == 0
    ensures y % 100 == 0 && y % 4 == 0
  {
    var k := y / 400;
    DivMod100(y, 4 * k);
    DivMod4(y, 100 * k);
  }

  lemma Multiple100(y: int)
    requires y % 100 == 0
    ensures y % 4 == 0
  {
    DivMod4(y, 25 * (y / 100));
  }

  lemma DivMod4(x: int, q: int)
    requires x == 4 * q
    ensures x % 4 == 0
  {
  }

  lemma DivMod100(x: int, q: int)
    requires x == 100 * q
    ensures x % 100 == 0
  {
  }

  /** The last day of a month is followed by the first day of the next month. */
  lemma MonthLength(y: int, m: int)
    requires 1 <= m <= 12
    ensures m < 12 ==> DaysBeforeMonth(y, m + 1) == DaysBeforeMonth(y, m) + DaysInMonth(y, m)
    ensures m == 12 ==> DaysBeforeMonth(y, m) + DaysInMonth(y, m) == DaysInYear(y)
  {
  }

  /** The day after a valid date is a valid date with the next ordinal. */
  lemma NextDayOrdinal(d: Date)
    requires Valid(d) && d != LastDate
    ensures Valid(NextDay(d))
    ensures Ordinal(NextDay(d)) == Ordinal(d) + 1
  {
    MonthLength(d.year, d.month);
    if d.day == DaysInMonth(d.year, d.month) && d.month == 12 {
      YearLength(d.year);
    }
  }

  /** The day before a valid date is a valid date with the previous ordinal. */
  lemma PrevDayOrdinal(d: Date)
    requires Valid(d) && d != FirstDate
    ensures Valid(PrevDay(d))
    ensures Ordinal(PrevDay(d)) == Ordinal(d) - 1
  {
    if d.day == 1 {
      if d.month > 1 {
        MonthLength(d.year, d.month - 1);
      } else {
        YearLength(d.year - 1);
        MonthLength(d.year - 1, 12);
      }
    }
  }

  /** `d + timedelta(days=k)`. */
  function AddDays(d: Date, k: nat): (r: Date)
    requires Valid(d) && Ordinal(d) + k <= Ordinal(LastDate)
    ensures Valid(r) && Ordinal(r) == Ordinal(d) + k
    decreases k
  {
    if k == 0 then d
    else
      NextDayOrdinal(d);
      AddDays(NextDay(d), k - 1)
  }

  /** `d - timedelta(days=k)`. */
  function SubDays(d: Date, k: nat): (r: Date)
    requires Valid(d) && Ordinal(d) - k >= Ordinal(FirstDate)
    ensures Valid(r) && Ordinal(r) == Ordinal(d) - k
    decreases k
  {
    if k == 0 then d
    else
      PrevDayOrdinal(d);
      SubDays(PrevDay(d), k - 1)
  }

  /** Adding one more day is taking the next day. */
  lemma {:induction false} AddDaysSucc(d: Date, k: nat)
    requires Valid(d) && Ordinal(d) + k + 1 <= Ordinal(LastDate)
    ensures AddDays(d, k) != LastDate
    ensures AddDays(d, k + 1) == NextDay(AddDays(d, k))
    decreases k
  {
    if k > 0 {
      NextDayOrdinal(d);
      AddDaysSucc(NextDay(d), k - 1);
    }
  }

  /** Every valid date lies inside its own year's run of ordinals. */
  lemma OrdinalInYear(d: Date)
    requires Valid(d)
    ensures DaysBeforeYear(d.year) + 1 <= Ordinal(d) <= DaysBeforeYear(d.year + 1)
  {
    YearLength(d.year);
    MonthLength(d.year, d.month);
    if d.month < 12 {
      MonthBeforeEnd(d.year, d.month + 1);
    }
  }

  lemma MonthBeforeEnd(y: int, m: int)
    requires 1 <= m <= 12
    ensures DaysBeforeMonth(y, m) + DaysInMonth(y, m) <= DaysInYear(y)
  {
  }

  lemma {:induction false} DaysBeforeYearMonotone(y1: int, y2: int)
    requires y1 <= y2
    ensures DaysBeforeYear(y1) + 365 * (y2 - y1) <= DaysBeforeYear(y2)
    decreases y2 - y1
  {
    if y1 < y2 {
      YearLength(y1);
      DaysBeforeYearMonotone(y1 + 1, y2);
    }
  }

  /** Every valid date lies between the first and the last representable day. */
  lemma OrdinalBounds(d: Date)
    requires Valid(d)
    ensures Ordinal(FirstDate) <= Ordinal(d) <= Ordinal(LastDate)
  {
    OrdinalInYear(d);
    YearLength(MaxYear);
    DaysBeforeYearMonotone(MinYear, d.year);
    DaysBeforeYearMonotone(d.year + 1, MaxYear + 1);
  }

  /** Two valid dates with the same ordinal are the same date. */
  lemma OrdinalInjective(a: Date, b: Date)
    requires Valid(a) && Valid(b) && Ordinal(a) == Ordinal(b)
    ensures a == b
  {
    OrdinalInYear(a);
    OrdinalInYear(b);
    if a.year < b.year {
      DaysBeforeYearMonotone(a.year + 1, b.year);
    } else if b.year < a.year {
      DaysBeforeYearMonotone(b.year + 1, a.year);
    } else if a.month < b.month {
      MonthsApart(a.year, a.month, b.month);
    } else if b.month < a.month {
      MonthsApart(a.year, b.month, a.month);
    }
  }

  lemma MonthsApart(y: int, m1: int, m2: int)
    requires 1 <= m1 < m2 <= 12
    ensures DaysBeforeMonth(y, m1) + DaysInMonth(y, m1) <= DaysBeforeMonth(y, m2)
  {
  }

  /** `date.weekday()`: Monday is 0 and Sunday is 6. */
  function Weekday(d: Date): (r: int)
    requires 1 <= d.month <= 12
    ensures 0 <= r < 7
  {
    WeekdayOf(Ordinal(d))
  }

  /** The weekday of the day with ordinal `n`: day 1, 0001-01-01, was a Monday. */
  function WeekdayOf(n: int): (r: int)
    ensures 0 <= r < 7
  {
    (n + 6) % 7
  }


  /** Ordinal of the Monday that starts ISO week 1 of year `y`. */
  function Week1Monday(y: int): int {
    WeekOneMonday(DaysBeforeYear(y) + 1)
  }

  /**
   * `_isoweek1monday` for a year whose first day has ordinal `first`: the
   * Monday on or before it, or the next Monday when the year starts after a
   * Thursday.
   */
  function WeekOneMonday(first: int): int {
    var wd := (first + 6) % 7;
    if wd > 3 then first - wd + 7 else first - wd
  }

  /** The Monday found is a Monday, and its week holds the fourth day of the year. */
  lemma WeekOneMondaySpec(first: int)
    ensures (WeekOneMonday(first) + 6) % 7 == 0
    ensures WeekOneMonday(first) <= first + 3 < WeekOneMonday(first) + 7
  {
    var wd := (first + 6) % 7;
    var q := (first + 6) / 7;
    if wd > 3 {
      DivMod7(first - wd + 13, q + 1, 0);
    } else {
      DivMod7(first - wd + 6, q, 0);
    }
  }

  /**
   * Week 1 of an ISO year starts on a Monday and holds the 4th of January,
   * as section 3.2.2 of ISO 8601:2004 defines the week calendar.
   */
  lemma Week1MondayIsWeekOne(y: int)
    ensures (Week1Monday(y) + 6) % 7 == 0
    ensures Week1Monday(y) <= DaysBeforeYear(y) + 4 < Week1Monday(y) + 7
  {
    WeekOneMondaySpec(DaysBeforeYear(y) + 1);
  }

  /** Consecutive ISO years are 52 or 53 weeks long. */
  lemma Week1MondayStep(y: int)
    ensures Week1Monday(y + 1) - Week1Monday(y) == 364 || Week1Monday(y + 1) - Week1Monday(y) == 371
  {
    YearLength(y);
    Week1MondayIsWeekOne(y);
    Week1MondayIsWeekOne(y + 1);
    var a, b := Week1Monday(y), Week1Monday(y + 1);
    var qa, qb := (a + 6) / 7, (b + 6) / 7;
    assert a == 7 * qa - 6;
    assert b == 7 * qb - 6;
    assert 359 <= 7 * (qb - qa) <= 372;
    assert qb - qa == 52 || qb - qa == 53;
  }

  /** The result of `date.isocalendar()`: ISO year, week 1..53 and weekday 1..7. */
  datatype IsoDate = IsoDate(year: int, week: int, weekday: int)

  /** `date.isocalendar()`, following the algorithm of Python's datetime module. */
  function IsoCalendar(d: Date): IsoDate
    requires Valid(d)
  {
    IsoCalendarOf(d.year, Ordinal(d))
  }

  /** `date.isocalendar()` for the day with ordinal `n` in year `y`. */
  function IsoCalendarOf(y: int, n: int): IsoDate {
    IsoWeekFromMondays(y, n, Week1Monday(y - 1), Week1Monday(y), Week1Monday(y + 1))
  }

  /**
   * The body of `date.isocalendar()` for day `n` of year `y`, given the
   * week-1 Mondays `w0`, `w1`, `w2` of years `y - 1`, `y` and `y + 1`: count
   * weeks from `w1`; a day before it belongs to the last week of `y - 1`, a day
   * of week 53 or later on or after `w2` to week 1 of `y + 1`.
   */
  function IsoWeekFromMondays(y: int, n: int, w0: int, w1: int, w2: int): IsoDate {
    var week := (n - w1) / 7;
    var day := (n - w1) % 7;
    if week < 0 then
      IsoDate(y - 1, (n - w0) / 7 + 1, (n - w0) % 7 + 1)
    else if week >= 52 && n >= w2 then
      IsoDate(y + 1, 1, day + 1)
    else
      IsoDate(y, week + 1, day + 1)
  }

  /**
   * The week calendar of section 3.2.2 of ISO 8601:2004: the date falls in
   * ISO year `iso.year` (between its week-1 Monday and the next year's), in
   * week `iso.week` counted from that Monday, on weekday Monday = 1 .. Sunday = 7.
   */
  predicate IsIsoWeekDate(d: Date, iso: IsoDate)
    requires 1 <= d.month <= 12
  {
    IsIsoWeekDay(d.year, Ordinal(d), iso)
  }

  /** The same for the day with ordinal `n` in year `y`. */
  predicate IsIsoWeekDay(y: int, n: int, iso: IsoDate) {
    && 1 <= iso.week <= 53
    && iso.weekday == WeekdayOf(n) + 1
    && y - 1 <= iso.year <= y + 1
    && InIsoWeek(n, iso)
  }

  /** Day `n` is day `iso.weekday` of week `iso.week` of ISO year `iso.year`. */
  predicate InIsoWeek(n: int, iso: IsoDate) {
    InWeekFrom(n, iso, Week1Monday(iso.year), Week1Monday(iso.year + 1))
  }

  /** `date.isocalendar()` computes the ISO 8601 week date. */
  lemma IsoCalendarIsIsoWeek(d: Date)
    requires Valid(d)
    ensures IsIsoWeekDate(d, IsoCalendar(d))
  {
    OrdinalInYear(d);
    IsoCalendarOfIsIsoWeek(d.year, Ordinal(d), IsoCalendar(d));
  }

  /** The same for every day of year `y`, given by its ordinal. */
  lemma IsoCalendarOfIsIsoWeek(y: int, n: int, r: IsoDate)
    requires DaysBeforeYear(y) + 1 <= n <= DaysBeforeYear(y + 1) && r == IsoCalendarOf(y, n)
    ensures IsIsoWeekDay(y, n, r)
  {
    NearWeekOne(y, n);
    IsoWeekOfYear(y, n, r);
    if r.year == y - 1 {
      assert Week1Monday(r.year) == Week1Monday(y - 1) && Week1Monday(r.year + 1) == Week1Monday(y);
    } else if r.year == y {
      assert Week1Monday(r.year) == Week1Monday(y) && Week1Monday(r.year + 1) == Week1Monday(y + 1);
    } else {
      assert Week1Monday(r.year) == Week1Monday(y + 1) && Week1Monday(r.year + 1) == Week1Monday(y + 2);
    }
  }

  /** A day of year `y` lies at most three days before its week-1 Monday and at most two days after the next year's. */
  lemma NearWeekOne(y: int, n: int)
    requires DaysBeforeYear(y) + 1 <= n <= DaysBeforeYear(y + 1)
    ensures Week1Monday(y) - 3 <= n <= Week1Monday(y + 1) + 2
  {
    Week1MondayIsWeekOne(y);
    Week1MondayIsWeekOne(y + 1);
  }


  /** Day `n` is day `iso.weekday` of week `iso.week` counted from the Monday `start`, before `next`. */
  predicate InWeekFrom(n: int, iso: IsoDate, start: int, next: int) {
    start <= n < next && n == start + 7 * (iso.week - 1) + (iso.weekday - 1)
  }

  /** `date.isocalendar()` for day `n` near the start of year `y`, in terms of the week-1 Mondays alone. */
  lemma IsoWeekOfYear(y: int, n: int, r: IsoDate)
    requires Week1Monday(y) - 3 <= n <= Week1Monday(y + 1) + 2
    requires r == IsoCalendarOf(y, n)
    ensures 1 <= r.week <= 53
    ensures r.weekday == (n + 6) % 7 + 1
    ensures r.year == y - 1 ==> InWeekFrom(n, r, Week1Monday(y - 1), Week1Monday(y))
    ensures r.year == y ==> InWeekFrom(n, r, Week1Monday(y), Week1Monday(y + 1))
    ensures r.year == y + 1 ==> InWeekFrom(n, r, Week1Monday(y + 1), Week1Monday(y + 2))
    ensures y - 1 <= r.year <= y + 1
  {
    MondaysApart(y);
    IsoWeekArithmetic(y, n, Week1Monday(y - 1), Week1Monday(y), Week1Monday(y + 1), Week1Monday(y + 2), r);
  }

  /** The week-1 Mondays of consecutive years are Mondays 52 or 53 weeks apart. */
  lemma MondaysApart(y: int)
    ensures (Week1Monday(y - 1) + 6) % 7 == 0
    ensures (Week1Monday(y) + 6) % 7 == 0
    ensures (Week1Monday(y + 1) + 6) % 7 == 0
    ensures 364 <= Week1Monday(y) - Week1Monday(y - 1) <= 371
    ensures 364 <= Week1Monday(y + 1) - Week1Monday(y) <= 371
    ensures 364 <= Week1Monday(y + 2) - Week1Monday(y + 1)
  {
    Week1MondayIsWeekOne(y - 1);
    Week1MondayIsWeekOne(y);
    Week1MondayIsWeekOne(y + 1);
    Week1MondayStep(y - 1);
    Week1MondayStep(y);
    Week1MondayStep(y + 1);
  }

  /** The arithmetic behind `IsoCalendarIsIsoWeek`, over four consecutive week-1 Mondays. */
  lemma IsoWeekArithmetic(y: int, n: int, w0: int, w1: int, w2: int, w3: int, r: IsoDate)
    requires (w0 + 6) % 7 == 0 && (w1 + 6) % 7 == 0 && (w2 + 6) % 7 == 0
    requires 364 <= w1 - w0 <= 371 && 364 <= w2 - w1 <= 371 && 364 <= w3 - w2
    requires w1 - 3 <= n <= w2 + 2
    requires r == IsoWeekFromMondays(y, n, w0, w1, w2)
    ensures 1 <= r.week <= 53
    ensures r.weekday == (n + 6) % 7 + 1
    ensures r.year == y - 1 ==> InWeekFrom(n, r, w0, w1)
    ensures r.year == y ==> InWeekFrom(n, r, w1, w2)
    ensures r.year == y + 1 ==> InWeekFrom(n, r, w2, w3)
    ensures y - 1 <= r.year <= y + 1
  {
    if n < w1 {
      DivMod7(n - w1, -1, n - w1 + 7);
      WeekOfMonday(n, w0, w1);
    } else if (n - w1) / 7 >= 52 && n >= w2 {
      WeekOfMonday(n, w1, w2 + 7);
      WeekOfMonday(n, w2, w2 + 7);
      DivMod7(n - w2, 0, n - w2);
    } else {
      if (n - w1) / 7 < 52 {
        WeekOfMonday(n, w1, w1 + 371);
      }
      WeekOfMonday(n, w1, w2);
    }
  }

  /** Week and weekday of day `n` counted from the Monday `w`, when `n` falls before `next`. */
  lemma WeekOfMonday(n: int, w: int, next: int)
    requires (w + 6) % 7 == 0 && w <= n < next && next - w <= 742
    ensures 0 <= (n - w) / 7 && (n - w) / 7 * 7 < next - w
    ensures (n - w) % 7 == (n + 6) % 7
    ensures n == w + 7 * ((n - w) / 7) + (n - w) % 7
  {
    var q := (w + 6) / 7;
    assert n - w == n + 6 - 7 * q;
    ModShift7(n + 6, q);
  }

  lemma ModShift7(x: int, q: int)
    ensures (x - 7 * q) % 7 == x % 7
  {
  }

  lemma DivMod7(x: int, q: int, r: int)
    requires x == 7 * q + r && 0 <= r < 7
    ensures x / 7 == q && x % 7 == r
  {
  }

  const DayNames := ["Monday", "Tuesday", "Wednesday", "Thursday", "Friday", "Saturday", "Sunday"]

  const MonthNames := ["January", "February", "March", "April", "May", "June", "July",
                       "August", "September", "October", "November", "December"]

  /** `strftime('%A')` in the English locale. */
  function DayName(d: Date): string
    requires 1 <= d.month <= 12
  {
    DayNames[Weekday(d)]
  }

  /** `strftime('%B')` in the English locale. */
  function MonthName(d: Date): string
    requires 1 <= d.month <= 12
  {
    MonthNames[d.month - 1]
  }
}
