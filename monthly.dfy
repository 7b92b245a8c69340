/** Month-over-month comparison of `ExpenseAI` (ai_features.py,
    `analyze_monthly_spending`). */
module MonthlySpending {
  import opened Wrappers
  import opened Calendar
  import opened Ledger

  datatype MonthlyAnalysis = MonthlyAnalysis(currentMonth: real, previousMonth: real, percentageChange: real)

  /** The saturating change rule of `analyze_monthly_spending`: the relative
      change in percent when the previous total is positive, otherwise 0 for
      no spending now and 100 for any other current total. */
  function PercentageChange(current: real, previous: real): (r: real)
    ensures previous <= 0.0 ==> r == 0.0 || r == 100.0
  {
    if previous > 0.0 then (current - previous) / previous * 100.0
    else if current == 0.0 then 0.0
    else 100.0
  }

  /** With a positive baseline the change has the sign of the difference,
      and applying it to the baseline gives the current total back. */
  lemma PercentageChangeMeaning(current: real, previous: real)
    requires previous > 0.0
    ensures PercentageChange(current, previous) > 0.0 <==> current > previous
    ensures PercentageChange(current, previous) == 0.0 <==> current == previous
    ensures previous + previous * PercentageChange(current, previous) / 100.0 == current
  {
    var r := PercentageChange(current, previous);
    assert r * previous == (current - previous) * 100.0;
  }

  /** Non-negative spending never falls by more than 100 percent. */
  lemma PercentageChangeAtLeastMinus100(current: real, previous: real)
    requires current >= 0.0
    ensures PercentageChange(current, previous) >= -100.0
  {
    if previous > 0.0 {
      var r := PercentageChange(current, previous);
      assert r * previous == (current - previous) * 100.0;
      assert (current - previous) * 100.0 >= -previous * 100.0;
    }
  }

  /** `ExpenseAI.analyze_monthly_spending` on the frame `expenses` at clock
      reading `now`. `None` for an empty frame, and for a clock in January
      of year 1, where `current_month_start - timedelta(days=1)` leaves
      Python's date range and the `except` clause returns `None`. */
  function AnalyzeMonthlySpending(expenses: seq<Expense>, now: Moment): (r: Option<MonthlyAnalysis>)
    requires ValidMoment(now)
    ensures r.None? <==> expenses == [] || !HasPreviousMonth(now)
  {
    if expenses == [] || !HasPreviousMonth(now) then None
    else
      var current := SumAmounts(Select(expenses, CurrentMonthWindow(now)));
      var previous := SumAmounts(Select(expenses, PreviousMonthWindow(now)));
      Some(MonthlyAnalysis(current, previous, PercentageChange(current, previous)))
  }

  /** The days a current-month total covers: now's calendar month up to and
      including today, the 1st only when `now` is exactly midnight. */
  ghost predicate MonthToDate(d: Date, now: Moment) {
    MonthIndex(d) == MonthIndex(now.date) && d.day <= now.date.day && (d.day > 1 || now.tick == 0)
  }

  /** The days a previous-month total covers: the calendar month before
      now's, its 1st only when `now` is exactly midnight. */
  ghost predicate InPreviousMonth(d: Date, now: Moment) {
    MonthIndex(d) == MonthIndex(now.date) - 1 && (d.day > 1 || now.tick == 0)
  }

  /** What the two totals add up, stated on the calendar: the current total
      sums the records from the start of now's month up to today, the
      previous total those of the month before, and the change is the
      saturating rule applied to the two. */
  lemma AnalyzeMonthlySpendingTotals(expenses: seq<Expense>, now: Moment)
    requires ValidMoment(now)
    requires forall i :: 0 <= i < |expenses| ==> WellFormed(expenses[i].date)
    requires expenses != [] && HasPreviousMonth(now)
    ensures AnalyzeMonthlySpending(expenses, now) == Some(MonthlyAnalysis(
      SumAmounts(Where(expenses, d => MonthToDate(d, now))),
      SumAmounts(Where(expenses, d => InPreviousMonth(d, now))),
      PercentageChange(SumAmounts(Where(expenses, d => MonthToDate(d, now))),
                       SumAmounts(Where(expenses, d => InPreviousMonth(d, now))))))
  {
    forall i | 0 <= i < |expenses| ensures
      InWindow(expenses[i].date, CurrentMonthWindow(now)) <==> MonthToDate(expenses[i].date, now)
    {
      CurrentMonthWindowIff(expenses[i].date, now);
    }
    SelectIsWhere(expenses, CurrentMonthWindow(now), d => MonthToDate(d, now));
    forall i | 0 <= i < |expenses| ensures
      InWindow(expenses[i].date, PreviousMonthWindow(now)) <==> InPreviousMonth(expenses[i].date, now)
    {
      PreviousMonthWindowIff(expenses[i].date, now);
    }
    SelectIsWhere(expenses, PreviousMonthWindow(now), d => InPreviousMonth(d, now));
  }

  /** With no spending in either window the change is 0; with spending now
      and none before it is exactly 100. */
  lemma AnalyzeMonthlySpendingSaturates(expenses: seq<Expense>, now: Moment)
    requires ValidMoment(now)
    requires AnalyzeMonthlySpending(expenses, now).Some?
    ensures var a := AnalyzeMonthlySpending(expenses, now).value;
      && (a.currentMonth == 0.0 && a.previousMonth == 0.0 ==> a.percentageChange == 0.0)
      && (a.currentMonth > 0.0 && a.previousMonth == 0.0 ==> a.percentageChange == 100.0)
  {
  }
}
