/**
 * Calendar dates as (year, month, day) triples, standing in for the
 * `Date` values that `date-fns` compares. `isSameDay` is equality of the
 * triple; `isSameMonth` is equality of the (year, month) pair; `subMonths(now, 1)`
 * followed by `startOfMonth` only matters through the month it lands in,
 * which `PrevMonth` computes.
 */
module Dates {

  type MonthNumber = m: int | 1 <= m <= 12 witness 1
  type DayNumber = d: int | 1 <= d <= 31 witness 1

  datatype Date = Date(year: int, month: MonthNumber, day: DayNumber)

  datatype YearMonth = YearMonth(year: int, month: MonthNumber)

  function MonthOf(d: Date): YearMonth
  {
    YearMonth(d.year, d.month)
  }

  /** Months counted from January of year 0: consecutive months have consecutive indices. */
  function MonthIndex(ym: YearMonth): int
  {
    ym.year * 12 + (ym.month - 1)
  }

  /** The month immediately before `ym`; January wraps to December of the previous year. */
  function PrevMonth(ym: YearMonth): (r: YearMonth)
    ensures MonthIndex(r) == MonthIndex(ym) - 1
  {
    if ym.month == 1 then YearMonth(ym.year - 1, 12) else YearMonth(ym.year, ym.month - 1)
  }

  /** The month immediately after `ym`; December wraps to January of the next year. */
  function NextMonth(ym: YearMonth): (r: YearMonth)
    ensures MonthIndex(r) == MonthIndex(ym) + 1
  {
    if ym.month == 12 then YearMonth(ym.year + 1, 1) else YearMonth(ym.year, ym.month + 1)
  }

  /** Distinct months have distinct indices, so `MonthIndex` pins a month down. */
  lemma MonthIndexInjective(a: YearMonth, b: YearMonth)
    requires MonthIndex(a) == MonthIndex(b)
    ensures a == b
  {
  }

  /** `PrevMonth` and `NextMonth` undo each other. */
  lemma PrevNextInverse(ym: YearMonth)
    ensures NextMonth(PrevMonth(ym)) == ym && PrevMonth(NextMonth(ym)) == ym
  {
    MonthIndexInjective(NextMonth(PrevMonth(ym)), ym);
    MonthIndexInjective(PrevMonth(NextMonth(ym)), ym);
  }

  /** In January the previous month is December of the year before. */
  lemma PrevMonthOfJanuary(year: int)
    ensures PrevMonth(YearMonth(year, 1)) == YearMonth(year - 1, 12)
  {
  }

  /** The previous month is never the current one. */
  lemma PrevMonthDiffers(ym: YearMonth)
    ensures PrevMonth(ym) != ym
  {
  }
}
