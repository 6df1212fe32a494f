/**
 * Calendar dates as (year, month, day) triples in the proleptic Gregorian
 * calendar that JavaScript's `Date` uses, with the two pieces of `Date`
 * normalisation the usage code relies on: month overflow into the next year
 * and day 0 meaning the last day of the previous month.
 */
module Dates {

  datatype Date = Date(year: int, month: int, day: int)

  predicate IsLeapYear(y: int)
  {
    y % 4 == 0 && (y % 100 != 0 || y % 400 == 0)
  }

  function DaysInMonth(y: int, m: int): (n: int)
    requires 1 <= m <= 12
    ensures 28 <= n <= 31
    ensures m == 2 ==> (n == 29 <==> IsLeapYear(y))
  {
    if m == 2 then (if IsLeapYear(y) then 29 else 28)
    else if m == 4 || m == 6 || m == 9 || m == 11 then 30
    else 31
  }

  predicate IsCalendarDate(d: Date)
  {
    1 <= d.month <= 12 && 1 <= d.day <= DaysInMonth(d.year, d.month)
  }

  /** A date that exists: month 1 to 12, day within that month. */
  type CalendarDate = d: Date | IsCalendarDate(d) witness Date(1970, 1, 1)

  /**
   * Position of a date on the time line, in the order `getTime()` gives
   * midnights: comparing ordinals compares dates.
   */
  function Ordinal(d: Date): int
  {
    d.year * 372 + (d.month - 1) * 31 + (d.day - 1)
  }

  /** Ordinals order calendar dates lexicographically by (year, month, day). */
  lemma OrdinalOrder(a: CalendarDate, b: CalendarDate)
    ensures Ordinal(a) < Ordinal(b) <==>
      a.year < b.year || (a.year == b.year && (a.month < b.month || (a.month == b.month && a.day < b.day)))
    ensures Ordinal(a) == Ordinal(b) <==> a == b
  {
    var ra := (a.month - 1) * 31 + (a.day - 1);
    var rb := (b.month - 1) * 31 + (b.day - 1);
    assert 0 <= ra < 372 && 0 <= rb < 372;
    if a.year < b.year {
      assert a.year * 372 + 372 <= b.year * 372;
    } else if a.year > b.year {
      assert b.year * 372 + 372 <= a.year * 372;
    }
  }

  /** `new Date(y, m - 1, 1)`: the first day of month `m` of year `y`. */
  function MonthStart(y: int, m: int): (d: CalendarDate)
    requires 1 <= m <= 12
    ensures d.year == y && d.month == m && d.day == 1
  {
    Date(y, m, 1)
  }

  /** `new Date(y, m, 1)`: month index `m` past December rolls into January of the next year. */
  function NextMonthStart(y: int, m: int): (d: CalendarDate)
    requires 1 <= m <= 12
    ensures d.day == 1
    ensures m < 12 ==> d.year == y && d.month == m + 1
    ensures m == 12 ==> d.year == y + 1 && d.month == 1
  {
    if m == 12 then Date(y + 1, 1, 1) else Date(y, m + 1, 1)
  }

  /** Day 0 of a month in the `Date` constructor: the calendar day just before `d`. */
  function PreviousDay(d: CalendarDate): (r: CalendarDate)
    ensures Ordinal(r) < Ordinal(d)
  {
    if d.day > 1 then Date(d.year, d.month, d.day - 1)
    else if d.month > 1 then Date(d.year, d.month - 1, DaysInMonth(d.year, d.month - 1))
    else Date(d.year - 1, 12, 31)
  }

  /** No calendar date lies strictly between `PreviousDay(d)` and `d`. */
  lemma PreviousDayIsAdjacent(d: CalendarDate, e: CalendarDate)
    ensures Ordinal(PreviousDay(d)) < Ordinal(e) ==> Ordinal(d) <= Ordinal(e)
  {
    OrdinalOrder(PreviousDay(d), e);
    OrdinalOrder(d, e);
  }

  /**
   * `new Date(y, m, 0)` with `m` the month index after month `m`: the last day
   * of month `m`, which is the 29th of a leap February.
   */
  function MonthEnd(y: int, m: int): (d: CalendarDate)
    requires 1 <= m <= 12
    ensures d.year == y && d.month == m && d.day == DaysInMonth(y, m)
  {
    PreviousDay(NextMonthStart(y, m))
  }

  /** Every date of month `m` of year `y` lies between its first and its last day. */
  lemma MonthEndIsLast(y: int, m: int, e: CalendarDate)
    requires 1 <= m <= 12
    requires e.year == y && e.month == m
    ensures Ordinal(MonthStart(y, m)) <= Ordinal(e) <= Ordinal(MonthEnd(y, m))
  {
  }
}
