/**
 * Calendar arithmetic the queries rely on: DATE_TRUNC('month', d),
 * DATE_DIFF('month', a, b), d - INTERVAL 'n days' and d - INTERVAL 'n months'
 * on proleptic Gregorian dates. A month is the integer year * 12 + (month - 1).
 */
module Calendar {

  datatype CivilDate = CivilDate(year: int, month: int, day: int)

  predicate IsLeapYear(y: int)
  {
    y % 4 == 0 && (y % 100 != 0 || y % 400 == 0)
  }

  function DaysInMonth(y: int, m: int): (n: int)
    requires 1 <= m <= 12
    ensures 28 <= n <= 31
  {
    if m == 2 then (if IsLeapYear(y) then 29 else 28)
    else if m == 4 || m == 6 || m == 9 || m == 11 then 30
    else 31
  }

  predicate IsCalendarDate(d: CivilDate)
  {
    1 <= d.month <= 12 && 1 <= d.day <= DaysInMonth(d.year, d.month)
  }

  /** A DATE value. */
  type Date = d: CivilDate | IsCalendarDate(d) witness CivilDate(1970, 1, 1)

  /** DATE_TRUNC('month', d), as a month number. */
  function MonthIndex(d: Date): int
  {
    d.year * 12 + (d.month - 1)
  }

  /** The date DATE_TRUNC('month', ..) produces for month number `m`: its first day. */
  function MonthStart(m: int): (d: Date)
    ensures MonthIndex(d) == m && d.day == 1
  {
    CivilDate(m / 12, m % 12 + 1, 1)
  }

  /** DATE_DIFF('month', a, b): the number of month boundaries from a to b. */
  function MonthsBetween(a: Date, b: Date): int
  {
    MonthIndex(b) - MonthIndex(a)
  }

  /** a <= b on dates. */
  predicate OnOrBefore(a: Date, b: Date)
  {
    a.year < b.year
    || (a.year == b.year && a.month < b.month)
    || (a.year == b.year && a.month == b.month && a.day <= b.day)
  }

  /**
   * d - INTERVAL 'n months': the same day n months earlier, clamped to the
   * last day of that month when it has fewer days.
   */
  function MinusMonths(d: Date, n: int): (r: Date)
    ensures MonthIndex(r) == MonthIndex(d) - n
    ensures r.day <= d.day
    ensures r.day < d.day ==> r.day == DaysInMonth(r.year, r.month)
  {
    var m := MonthIndex(d) - n;
    var y := m / 12;
    var mo := m % 12 + 1;
    var dim := DaysInMonth(y, mo);
    CivilDate(y, mo, if d.day <= dim then d.day else dim)
  }

  /** Days since 1970-01-01 (the days-from-civil algorithm on the proleptic calendar). */
  function DayNumber(d: Date): int
  {
    var y := if d.month <= 2 then d.year - 1 else d.year;
    var era := y / 400;
    var yoe := y - era * 400;
    var mp := if d.month > 2 then d.month - 3 else d.month + 9;
    var doy := (153 * mp + 2) / 5 + d.day - 1;
    var doe := yoe * 365 + yoe / 4 - yoe / 100 + doy;
    era * 146097 + doe - 719468
  }

  /** d >= today - INTERVAL 'n days'. */
  predicate WithinDays(d: Date, today: Date, n: int)
  {
    DayNumber(d) >= DayNumber(today) - n
  }

  /** d >= today - INTERVAL 'n months'. */
  predicate WithinMonths(d: Date, today: Date, n: int)
  {
    OnOrBefore(MinusMonths(today, n), d)
  }

  /** Date order refines month order. */
  lemma OnOrBeforeMonths(a: Date, b: Date)
    ensures OnOrBefore(a, b) ==> MonthIndex(a) <= MonthIndex(b)
    ensures MonthIndex(a) < MonthIndex(b) ==> OnOrBefore(a, b)
  {
  }

  /**
   * The trailing n-month window, read in months: it keeps every date of the
   * last n - 1 months and the current one, drops every date before month
   * MonthIndex(today) - n, and in month MonthIndex(today) - n keeps the dates
   * from the (clamped) day of month of today on. In particular it keeps the
   * whole boundary month exactly when today is the first of its month.
   */
  lemma WithinMonthsByMonth(d: Date, today: Date, n: int)
    ensures WithinMonths(d, today, n) ==> MonthIndex(d) >= MonthIndex(today) - n
    ensures MonthIndex(d) > MonthIndex(today) - n ==> WithinMonths(d, today, n)
    ensures MonthIndex(d) == MonthIndex(today) - n && today.day == 1 ==> WithinMonths(d, today, n)
  {
    var r := MinusMonths(today, n);
    OnOrBeforeMonths(r, d);
    OnOrBeforeMonths(d, r);
    if MonthIndex(d) == MonthIndex(r) {
      MonthIndexInjective(d, r);
    }
  }

  /** Two dates in the same month share year and month. */
  lemma MonthIndexInjective(a: Date, b: Date)
    requires MonthIndex(a) == MonthIndex(b)
    ensures a.year == b.year && a.month == b.month
  {
  }

  /** DATE_TRUNC('month', ..) of a month's first day is that month. */
  lemma MonthStartOf(d: Date)
    ensures MonthStart(MonthIndex(d)).year == d.year
    ensures MonthStart(MonthIndex(d)).month == d.month
  {
    MonthIndexInjective(MonthStart(MonthIndex(d)), d);
  }
}
