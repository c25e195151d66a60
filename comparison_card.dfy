/**
 * The monthly report card: the `useMemo` body computes this month's and
 * last month's totals, their absolute difference and whether spending went
 * up; the component renders nothing for an empty expense list. `now` is
 * the local calendar date at the time of rendering.
 */
module ComparisonCard {
  import opened Wrappers
  import opened Dates
  import opened Expenses

  /** `e => isSameMonth(parseISO(e.date), anchor)` for an anchor in month `ym`. */
  function InMonth(ym: YearMonth): Expense -> bool
  {
    (e: Expense) => MonthOf(e.date) == ym
  }

  /** The sum of the amounts of the expenses dated in month `ym`. */
  function MonthTotal(es: seq<Expense>, ym: YearMonth): (total: int)
    ensures total == SumWhere(es, InMonth(ym))
  {
    FilterReduce(0, es, InMonth(ym));
    Reduce(0, Filter(es, InMonth(ym)))
  }

  datatype Report = Report(currentMonthTotal: int, lastMonthTotal: int, difference: int, isIncrease: bool)

  /** The `useMemo` computation. */
  function Compute(es: seq<Expense>, now: Date): (r: Report)
    ensures r.currentMonthTotal == SumWhere(es, InMonth(MonthOf(now)))
    ensures r.lastMonthTotal == SumWhere(es, InMonth(PrevMonth(MonthOf(now))))
    ensures r.difference >= 0
    ensures r.difference == r.currentMonthTotal - r.lastMonthTotal
         || r.difference == r.lastMonthTotal - r.currentMonthTotal
    ensures r.isIncrease <==> r.currentMonthTotal > r.lastMonthTotal
  {
    var current := MonthOf(now);
    var lastMonthStart := PrevMonth(current);
    var currentTotal := MonthTotal(es, current);
    var lastTotal := MonthTotal(es, lastMonthStart);
    var delta := currentTotal - lastTotal;
    Report(currentTotal, lastTotal, if delta < 0 then -delta else delta, currentTotal > lastTotal)
  }

  /** The rendered card: `null` for an empty expense list, otherwise the report. */
  function Card(es: seq<Expense>, now: Date): (card: Option<Report>)
    ensures card.None? <==> es == []
    ensures card.Some? ==> card.value == Compute(es, now)
  {
    if |es| == 0 then None else Some(Compute(es, now))
  }

  /** Over an empty list both totals are 0, so there is no increase and no difference. */
  lemma EmptyTotals(now: Date)
    ensures Compute([], now) == Report(0, 0, 0, false)
  {
  }

  /** An expense in neither this month nor the previous one changes nothing in the report. */
  lemma OtherMonthIgnored(es: seq<Expense>, e: Expense, now: Date)
    requires MonthOf(e.date) != MonthOf(now) && MonthOf(e.date) != PrevMonth(MonthOf(now))
    ensures Compute(es + [e], now) == Compute(es, now)
  {
    SumWhereConcat(es, [e], InMonth(MonthOf(now)));
    SumWhereConcat(es, [e], InMonth(PrevMonth(MonthOf(now))));
  }

  /** Only this month's expenses make up the current total. */
  lemma CurrentTotalOnlyCurrent(es: seq<Expense>, now: Date)
    ensures Compute(es, now).currentMonthTotal == Compute(Filter(es, InMonth(MonthOf(now))), now).currentMonthTotal
    ensures Compute(Filter(es, InMonth(MonthOf(now))), now).lastMonthTotal == 0
  {
    var p := InMonth(MonthOf(now));
    FilterReduce(0, es, p);
    FilterReduce(0, Filter(es, p), p);
    SumWhereNoMatch(Filter(es, p), InMonth(PrevMonth(MonthOf(now))));
    assert Reduce(0, Filter(Filter(es, p), p)) == Reduce(0, Filter(es, p)) by {
      FilterIdempotent(es, p);
    }
  }

  lemma {:induction false} FilterIdempotent(es: seq<Expense>, p: Expense -> bool)
    ensures Filter(Filter(es, p), p) == Filter(es, p)
  {
    if es != [] {
      FilterIdempotent(es[1..], p);
      if p(es[0]) {
        assert ([es[0]] + Filter(es[1..], p))[1..] == Filter(es[1..], p);
      }
    }
  }

  /** The report does not depend on the order of the list. */
  lemma ComputePermutation(a: seq<Expense>, b: seq<Expense>, now: Date)
    requires multiset(a) == multiset(b)
    ensures Compute(a, now) == Compute(b, now)
  {
    SumWherePermutation(a, b, InMonth(MonthOf(now)));
    SumWherePermutation(a, b, InMonth(PrevMonth(MonthOf(now))));
  }

  /** In January the previous total is December's of the previous year. */
  lemma JanuaryComparesWithDecember(es: seq<Expense>, now: Date)
    requires now.month == 1
    ensures Compute(es, now).lastMonthTotal == SumWhere(es, InMonth(YearMonth(now.year - 1, 12)))
  {
  }

  /** 1000 yen this month against 1500 last month is a 500 yen decrease. */
  lemma DecreaseExample()
    ensures var r := Compute([Expense(Date(2024, 5, 3), 1000), Expense(Date(2024, 4, 20), 1500)], Date(2024, 5, 15));
      !r.isIncrease && r.difference == 500
  {
    var es := [Expense(Date(2024, 5, 3), 1000), Expense(Date(2024, 4, 20), 1500)];
    assert es[1..][1..] == [];
  }
}
