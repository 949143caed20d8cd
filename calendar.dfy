/**
 * Calendar-month arithmetic of the transaction form: dates are the numbers
 * of a "YYYY-MM-DD" string, months are 1-based in a date and 0-based
 * (`m0`, 0..11) in the helpers, and no time zone is involved anywhere.
 */
module Calendar {
  import opened JsMath

  /** A calendar date as the three numbers of its ISO string. */
  datatype Date = Date(year: int, month: int, day: int)

  predicate IsLeapYear(y: int) {
    y % 4 == 0 && (y % 100 != 0 || y % 400 == 0)
  }

  /** Length of 0-based month m0 in the proleptic Gregorian calendar. */
  function MonthLength(y: int, m0: int): int
    requires 0 <= m0 < 12
  {
    if m0 == 1 then (if IsLeapYear(y) then 29 else 28)
    else if m0 == 3 || m0 == 5 || m0 == 8 || m0 == 10 then 30
    else 31
  }

  /**
   * The year a JavaScript `new Date(y, m, d)` stands for: a year in 0..99 is
   * read as 1900 + y (the legacy two-digit rule of the Date constructor).
   */
  function JsFullYear(y: int): int {
    if 0 <= y <= 99 then 1900 + y else y
  }

  /**
   * `daysInMonth(y, m0)`: the day of month of "day 0 of month m0 + 1", that is
   * the last day of month m0 of the year the Date constructor reads y as.
   */
  function DaysInMonth(y: int, m0: int): (dim: int)
    requires 0 <= m0 < 12
    ensures 28 <= dim <= 31
    ensures dim <= MonthLength(y, m0)
  {
    MonthLength(JsFullYear(y), m0)
  }

  /** A real calendar date (what an `<input type="date">` yields). */
  predicate ValidDate(d: Date) {
    1 <= d.month <= 12 && 1 <= d.day <= MonthLength(d.year, d.month - 1)
  }

  /**
   * `addMonths(isoDate, n)`: flatten the month to an index, carry the year
   * with a floor division by 12, normalise the month with a positive modulo,
   * and clamp the day to the length of the target month.
   */
  function AddMonths(d: Date, n: int): Date {
    var targetM0 := (d.month - 1) + n;
    var targetY := d.year + FloorDiv(targetM0, 12);
    var targetM0Norm := JsRem(JsRem(targetM0, 12) + 12, 12);
    var dim := DaysInMonth(targetY, targetM0Norm);
    Date(targetY, targetM0Norm + 1, Min(d.day, dim))
  }

  /** Month index counted from year 0: 12 * year + (month - 1). */
  function MonthIndex(d: Date): int {
    12 * d.year + (d.month - 1)
  }

  /** Strict lexicographic order on (year, month, day). */
  predicate Before(a: Date, b: Date) {
    a.year < b.year
    || (a.year == b.year && (a.month < b.month || (a.month == b.month && a.day < b.day)))
  }

  /** The first day of a date's month (`tx_date.slice(0, 7) + "-01"`). */
  function MonthStart(d: Date): Date {
    Date(d.year, d.month, 1)
  }

  /** A half-open date interval [start, end). */
  datatype Range = Range(start: Date, end: Date)

  /** `tx_date >= start` and `tx_date < end`, the store's range query. */
  predicate InRange(d: Date, r: Range) {
    !Before(d, r.start) && Before(d, r.end)
  }

  /** The year and 0-based month an `addMonths` result lands on. */
  lemma AddMonthsTarget(d: Date, n: int)
    ensures 1 <= AddMonths(d, n).month <= 12
    ensures AddMonths(d, n).year == d.year + (d.month - 1 + n) / 12
    ensures AddMonths(d, n).month == (d.month - 1 + n) % 12 + 1
    ensures MonthIndex(AddMonths(d, n)) == MonthIndex(d) + n
  {
    PositiveModulo12(d.month - 1 + n);
  }

  /**
   * The day is the original day clamped to the target month, so it never
   * spills into the following month, and a real date stays a real date.
   */
  lemma AddMonthsDay(d: Date, n: int)
    ensures var r := AddMonths(d, n);
      1 <= r.month <= 12 && r.day == Min(d.day, DaysInMonth(r.year, r.month - 1))
    ensures d.day >= 1 ==> ValidDate(AddMonths(d, n))
  {
    AddMonthsTarget(d, n);
  }

  /** Years other than 0 are leap years exactly when the Date constructor's year is. */
  lemma JsLeapYearAgrees(y: int)
    requires y != 0
    ensures IsLeapYear(JsFullYear(y)) == IsLeapYear(y)
    ensures forall m0 :: 0 <= m0 < 12 ==> DaysInMonth(y, m0) == MonthLength(y, m0)
  {
    if 0 < y <= 99 {
      assert (1900 + y) % 4 == y % 4;
      assert (1900 + y) % 100 == y;
    }
  }

  /** Adding zero months gives back any real date outside year 0. */
  lemma AddMonthsZero(d: Date)
    requires ValidDate(d) && d.year != 0
    ensures AddMonths(d, 0) == d
  {
    AddMonthsTarget(d, 0);
    JsLeapYearAgrees(d.year);
  }

  /**
   * Year 0 is the one year where the Date constructor's two-digit rule
   * changes a month length: 0000-02-29 is clamped to 0000-02-28.
   */
  lemma AddMonthsZeroYearZero()
    ensures ValidDate(Date(0, 2, 29))
    ensures AddMonths(Date(0, 2, 29), 0) == Date(0, 2, 28)
  {
    assert IsLeapYear(0) && !IsLeapYear(1900) by {
      assert 1900 % 4 == 0 && 1900 % 100 == 0 && 1900 % 400 == 300;
    }
    AddMonthsTarget(Date(0, 2, 29), 0);
  }

  /** Two steps of months add up when the day fits in every month. */
  lemma {:induction false} AddMonthsCompose(d: Date, a: int, b: int)
    requires 1 <= d.month <= 12 && d.day <= 28
    ensures AddMonths(AddMonths(d, a), b) == AddMonths(d, a + b)
  {
    var r := AddMonths(d, a);
    AddMonthsTarget(d, a);
    AddMonthsDay(d, a);
    AddMonthsTarget(r, b);
    AddMonthsDay(r, b);
    AddMonthsTarget(d, a + b);
    AddMonthsDay(d, a + b);
    var s, t := AddMonths(r, b), AddMonths(d, a + b);
    assert MonthIndex(s) == MonthIndex(t);
    MonthIndexInjective(s, t);
  }

  /** Going n months forward and n months back returns to a date whose day fits in every month. */
  lemma AddMonthsInverse(d: Date, n: int)
    requires ValidDate(d) && d.day <= 28
    ensures AddMonths(AddMonths(d, n), -n) == d
  {
    AddMonthsCompose(d, n, -n);
    AddMonthsTarget(d, 0);
  }

  /** Dates with a month in 1..12 are determined by month index and day. */
  lemma MonthIndexInjective(s: Date, t: Date)
    requires 1 <= s.month <= 12 && 1 <= t.month <= 12
    requires MonthIndex(s) == MonthIndex(t) && s.day == t.day
    ensures s == t
  {
  }

  /** The worked examples: month-end clamping in leap and common years, and a year carry. */
  lemma AddMonthsExamples()
    ensures AddMonths(Date(2024, 1, 31), 1) == Date(2024, 2, 29)
    ensures AddMonths(Date(2023, 1, 31), 1) == Date(2023, 2, 28)
    ensures AddMonths(Date(2024, 11, 15), 2) == Date(2025, 1, 15)
  {
    PositiveModulo12(1);
    PositiveModulo12(12);
  }

  /**
   * A real date is on or after the first of a month exactly when its
   * (year, month) is not earlier than that month's.
   */
  lemma MonthStartOrder(d: Date, t: Date)
    requires ValidDate(d)
    ensures !Before(d, MonthStart(t)) <==> (d.year > t.year || (d.year == t.year && d.month >= t.month))
  {
  }
}
