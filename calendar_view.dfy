/**
 * The calendar tile logic: `getDailyTotal(date)` filters the expenses to
 * those on the same calendar day and sums their amounts; `tileContent`
 * shows that total as a label only in the month view and only when it is
 * above zero. The label's yen formatting is not modelled: `Some(total)`
 * stands for the rendered label, `None` for `null`.
 */
module CalendarView {
  import opened Wrappers
  import opened Dates
  import opened Expenses

  /** `e => isSameDay(parseISO(e.date), date)`. */
  function OnDay(d: Date): Expense -> bool
  {
    (e: Expense) => e.date == d
  }

  /** `getDailyTotal(d)`: the sum of the amounts of the expenses dated `d`. */
  function DailyTotal(es: seq<Expense>, d: Date): (total: int)
    ensures total == SumWhere(es, OnDay(d))
  {
    FilterReduce(0, es, OnDay(d));
    Reduce(0, Filter(es, OnDay(d)))
  }

  /** `tileContent({date, view})`. */
  function TileContent(es: seq<Expense>, d: Date, view: string): (tile: Option<int>)
    ensures tile.Some? <==> view == "month" && DailyTotal(es, d) > 0
    ensures tile.Some? ==> tile.value == DailyTotal(es, d)
  {
    if view == "month" then
      var total := DailyTotal(es, d);
      if total > 0 then Some(total) else None
    else None
  }

  lemma DailyTotalEmpty(d: Date)
    ensures DailyTotal([], d) == 0
  {
  }

  /** The daily total over two lists is the sum of their daily totals. */
  lemma DailyTotalConcat(a: seq<Expense>, b: seq<Expense>, d: Date)
    ensures DailyTotal(a + b, d) == DailyTotal(a, d) + DailyTotal(b, d)
  {
    SumWhereConcat(a, b, OnDay(d));
  }

  /** Adding an expense dated another day leaves the daily total unchanged. */
  lemma DailyTotalOtherDay(es: seq<Expense>, e: Expense, d: Date)
    requires e.date != d
    ensures DailyTotal(es + [e], d) == DailyTotal(es, d)
  {
    SumWhereConcat(es, [e], OnDay(d));
  }

  /** With non-negative amounts the daily total is non-negative and at least each expense of that day. */
  lemma DailyTotalBounds(es: seq<Expense>, d: Date)
    requires forall e :: e in es ==> e.amount >= 0
    ensures DailyTotal(es, d) >= 0
    ensures forall e :: e in es && e.date == d ==> DailyTotal(es, d) >= e.amount
  {
    SumWhereBounds(es, OnDay(d));
  }

  /** The daily total does not depend on the order of the list. */
  lemma DailyTotalPermutation(a: seq<Expense>, b: seq<Expense>, d: Date)
    requires multiset(a) == multiset(b)
    ensures DailyTotal(a, d) == DailyTotal(b, d)
  {
    SumWherePermutation(a, b, OnDay(d));
  }

  /**
   * With non-negative amounts a day's tile is labelled exactly when the view
   * is the month view and some expense of that day has a positive amount.
   */
  lemma TileShownIffPositiveExpense(es: seq<Expense>, d: Date, view: string)
    requires forall e :: e in es ==> e.amount >= 0
    ensures TileContent(es, d, view).Some?
      <==> view == "month" && exists e :: e in es && e.date == d && e.amount > 0
  {
    SumWherePositive(es, OnDay(d));
    assert (exists e :: e in es && OnDay(d)(e) && e.amount > 0)
      <==> (exists e :: e in es && e.date == d && e.amount > 0);
  }

  /** Two expenses of 500 and 300 yen on 2024-05-01 and one of 100 yen on 2024-05-02 give 800 for 2024-05-01. */
  lemma DailyTotalExample()
    ensures DailyTotal([Expense(Date(2024, 5, 1), 500), Expense(Date(2024, 5, 1), 300),
                        Expense(Date(2024, 5, 2), 100)], Date(2024, 5, 1)) == 800
  {
    var es := [Expense(Date(2024, 5, 1), 500), Expense(Date(2024, 5, 1), 300),
               Expense(Date(2024, 5, 2), 100)];
    assert es[1..][1..][1..] == [];
  }
}
