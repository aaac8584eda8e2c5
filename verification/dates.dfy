/** Calendar dates as the application uses them: a JavaScript `Date` reduced
    to its local (year, month, day). Months are numbered 1..12 here, where
    JavaScript's `getMonth()` numbers them 0..11; the functions below that
    mirror a JavaScript idiom say which one. Time of day is not modelled. */
module Dates {

  datatype Date = Date(year: int, month: int, day: int)

  /** Gregorian leap years, as JavaScript's proleptic Gregorian calendar has them. */
  predicate IsLeapYear(y: int) {
    (y % 4 == 0 && y % 100 != 0) || y % 400 == 0
  }

  function DaysInMonth(y: int, m: int): (n: int)
    requires 1 <= m <= 12
    ensures 28 <= n <= 31
    ensures n == 29 <==> m == 2 && IsLeapYear(y)
  {
    if m == 2 then (if IsLeapYear(y) then 29 else 28)
    else if m == 4 || m == 6 || m == 9 || m == 11 then 30
    else 31
  }

  /** A date that names an actual calendar day. */
  predicate Valid(d: Date) {
    1 <= d.month <= 12 && 1 <= d.day <= DaysInMonth(d.year, d.month)
  }

  /** `a` is strictly earlier than `b` (chronological order is lexicographic). */
  predicate Before(a: Date, b: Date) {
    a.year < b.year
    || (a.year == b.year && (a.month < b.month || (a.month == b.month && a.day < b.day)))
  }

  /** `a <= b`, the comparison behind the ORM's `gte` / `lte` date filters. */
  predicate NotAfter(a: Date, b: Date) {
    !Before(b, a)
  }

  /** The date as the number yyyymmdd. */
  function DayKey(d: Date): int {
    d.year * 10000 + d.month * 100 + d.day
  }

  /** On calendar days, chronological order is the numeric order of day keys. */
  lemma BeforeIsDayKeyOrder(a: Date, b: Date)
    requires Valid(a) && Valid(b)
    ensures Before(a, b) <==> DayKey(a) < DayKey(b)
  {
  }

  predicate SameMonth(a: Date, b: Date) {
    a.year == b.year && a.month == b.month
  }

  /** `isNewMonth(lastAlertDate, currentDate)`: the two dates fall in different
      calendar months, compared by month and by year (lib/inngest/function.js:89-94). */
  function IsNewMonth(lastAlert: Date, current: Date): (r: bool)
    ensures r <==> !SameMonth(lastAlert, current)
    ensures lastAlert == current ==> !r
  {
    lastAlert.month != current.month || lastAlert.year != current.year
  }

  /** JavaScript's `new Date(year, monthIndex, 0)` and `d.setDate(0)`, with
      `month` 1-based: day 0 of a month is the last day of the month before. */
  function DayZero(year: int, month: int): (d: Date)
    requires 1 <= month <= 12
    ensures Valid(d)
    ensures DayKey(d) < DayKey(Date(year, month, 1))
  {
    if month == 1 then Date(year - 1, 12, 31)
    else Date(year, month - 1, DaysInMonth(year, month - 1))
  }

  /** No calendar day lies strictly between day 0 of a month and its 1st. */
  lemma DayZeroPrecedesFirst(year: int, month: int, e: Date)
    requires 1 <= month <= 12 && Valid(e)
    ensures Before(DayZero(year, month), e) <==> NotAfter(Date(year, month, 1), e)
  {
  }

  /** `new Date(d.getFullYear(), d.getMonth(), 1)`. */
  function MonthStart(d: Date): Date {
    Date(d.year, d.month, 1)
  }

  /** `new Date(d.getFullYear(), d.getMonth() + 1, 0)`: day 0 of the following
      month, with December rolling over into January of the next year. */
  function MonthEnd(d: Date): (r: Date)
    requires 1 <= d.month <= 12
    ensures Valid(r) && SameMonth(r, d)
    ensures r.day == DaysInMonth(d.year, d.month)
  {
    if d.month == 12 then DayZero(d.year + 1, 1) else DayZero(d.year, d.month + 1)
  }

  /** The inclusive window [MonthStart(now), MonthEnd(now)] holds exactly the
      calendar days of `now`'s month. */
  lemma MonthWindowIsCalendarMonth(now: Date, e: Date)
    requires Valid(now) && Valid(e)
    ensures NotAfter(MonthStart(now), e) && NotAfter(e, MonthEnd(now)) <==> SameMonth(e, now)
  {
  }

  /** Two valid dates are not in a new month relative to each other exactly
      when one lies inside the other's month window. */
  lemma IsNewMonthIffOutsideWindow(lastAlert: Date, now: Date)
    requires Valid(lastAlert) && Valid(now)
    ensures !IsNewMonth(lastAlert, now)
            <==> NotAfter(MonthStart(now), lastAlert) && NotAfter(lastAlert, MonthEnd(now))
    ensures !IsNewMonth(now, now)
  {
    MonthWindowIsCalendarMonth(now, lastAlert);
  }

  /** The day before a valid date (`subDays(d, 1)`). */
  function PrevDay(d: Date): (r: Date)
    requires Valid(d)
    ensures Valid(r) && DayKey(r) < DayKey(d)
  {
    if d.day > 1 then Date(d.year, d.month, d.day - 1) else DayZero(d.year, d.month)
  }

  /** The day before `d` is its immediate predecessor: no calendar day lies
      strictly between them. */
  lemma PrevDayPrecedes(d: Date, e: Date)
    requires Valid(d) && Valid(e)
    ensures Before(PrevDay(d), e) <==> NotAfter(d, e)
  {
    if d.day == 1 {
      DayZeroPrecedesFirst(d.year, d.month, e);
    }
  }

  /** `subDays(d, n)` from date-fns, on calendar days. */
  function SubDays(d: Date, n: nat): (r: Date)
    requires Valid(d)
    ensures Valid(r) && DayKey(r) <= DayKey(d)
    ensures n > 0 ==> DayKey(r) < DayKey(d)
    ensures n == 0 ==> r == d
    decreases n
  {
    if n == 0 then d else PrevDay(SubDays(d, n - 1))
  }

  /** Counting back one more day gives a strictly earlier day, so the dates
      `SubDays(today, 10), ..., SubDays(today, 0)` strictly increase. */
  lemma {:induction false} SubDaysStrictlyDecreasing(d: Date, m: nat, n: nat)
    requires Valid(d) && m < n
    ensures Before(SubDays(d, n), SubDays(d, m))
    decreases n
  {
    if n == m + 1 {
      // PrevDay's contract speaks of day keys
      BeforeIsDayKeyOrder(SubDays(d, n), SubDays(d, m));
    } else {
      SubDaysStrictlyDecreasing(d, m, n - 1);
    }
  }
}
