/** Category insights of `ExpenseAI` (ai_features.py, `get_category_insights`):
    categories spending well above the month's mean, and categories growing
    fast against the previous month. */
module Insights {
  import opened Wrappers
  import opened Calendar
  import opened Ledger
  import opened Strings
  import Sorting

  datatype Insight =
    | HighSpending(category: string, amount: real)
    | IncreasingTrend(category: string, currentAmount: real, lastAmount: real)
  {
    /** The entry's `message`. */
    function Message(): (m: string)
      ensures m == (if HighSpending? then "High spending detected in " + category
                    else "Spending in " + category + " is increasing")
    {
      match this
      case HighSpending(c, _) => "High spending detected in " + c
      case IncreasingTrend(c, _, _) => "Spending in " + c + " is increasing"
    }
  }

  /** A message names one entry kind and one category: entries with the same
      message are of the same kind and about the same category. */
  lemma MessageIdentifiesEntry(a: Insight, b: Insight)
    requires a.Message() == b.Message()
    ensures a.HighSpending? <==> b.HighSpending?
    ensures a.category == b.category
  {
    var high := "High spending detected in ";
    var spending := "Spending in ";
    var rising := " is increasing";
    var m := a.Message();
    if a.HighSpending? && b.HighSpending? {
      assert a.category == m[|high|..];
      assert b.category == m[|high|..];
    } else if a.IncreasingTrend? && b.IncreasingTrend? {
      assert a.category == m[|spending|..|m| - |rising|];
      assert b.category == m[|spending|..|m| - |rising|];
    } else if a.HighSpending? {
      KindsDiffer(a.category, b.category);
    } else {
      KindsDiffer(b.category, a.category);
    }
  }

  /** The two wordings start with different letters. */
  lemma KindsDiffer(c: string, d: string)
    ensures HighSpending(c, 0.0).Message() != IncreasingTrend(d, 0.0, 0.0).Message()
  {
    assert HighSpending(c, 0.0).Message()[0] == 'H';
  }

  /** A category is high spending above 1.5 times the mean category total. */
  const HIGH_FACTOR: real := 1.5
  /** A category is increasing above 1.3 times its previous-month total. */
  const TREND_FACTOR: real := 1.3
  /** The trend rule needs more rows than this in the whole frame. */
  const TREND_MIN_ROWS := 30

  /** `current_month_data`: the rows dated from the current month's start on. */
  function CurrentMonthRows(xs: seq<Expense>, now: Moment): seq<Expense> {
    Select(xs, FromMonthStart(now))
  }

  /** `last_month_data`. */
  function LastMonthRows(xs: seq<Expense>, now: Moment): seq<Expense>
    requires 1 <= now.date.month <= 12
  {
    Select(xs, PreviousMonthWindow(now))
  }

  /** The index of `rows.groupby('category')`: its categories in code-point order. */
  function Categories(rows: seq<Expense>): seq<string> {
    GroupKeys(rows, CategoryKey, StrLess)
  }

  /** `rows.groupby('category')['amount'].sum()[c]`. */
  function CategoryTotal(rows: seq<Expense>, c: string): real {
    GroupTotal(rows, CategoryKey, c)
  }

  /** `category_spending.mean()`. */
  function MeanCategoryTotal(rows: seq<Expense>): real
    requires Categories(rows) != []
  {
    Sum(GroupTotals(Categories(rows), rows, CategoryKey)) / (|Categories(rows)| as real)
  }

  /** The high-spending entries for `cats`, in their order. */
  function HighSpendingFor(rows: seq<Expense>, threshold: real, cats: seq<string>): seq<Insight> {
    if cats == [] then []
    else
      var c := cats[|cats| - 1];
      HighSpendingFor(rows, threshold, cats[..|cats| - 1])
        + (if CategoryTotal(rows, c) > threshold then [HighSpending(c, CategoryTotal(rows, c))] else [])
  }

  /** The increasing-trend entries for `cats`, in their order. */
  function TrendsFor(cur: seq<Expense>, last: seq<Expense>, lastCats: seq<string>, cats: seq<string>): seq<Insight> {
    if cats == [] then []
    else
      var c := cats[|cats| - 1];
      TrendsFor(cur, last, lastCats, cats[..|cats| - 1])
        + (if c in lastCats && CategoryTotal(cur, c) > CategoryTotal(last, c) * TREND_FACTOR
           then [IncreasingTrend(c, CategoryTotal(cur, c), CategoryTotal(last, c))]
           else [])
  }

  /** The high-spending entries of the current-month rows `cur`: none when
      there are no categories. */
  function HighSpendingInsights(cur: seq<Expense>): seq<Insight> {
    var cats := Categories(cur);
    if cats == [] then [] else HighSpendingFor(cur, MeanCategoryTotal(cur) * HIGH_FACTOR, cats)
  }

  /** What `get_category_insights` returns at clock reading `now`. In January
      of year 1 the previous month's start is out of Python's range: the
      error is caught after the high-spending entries were appended, and
      those are returned. */
  function CategoryInsights(xs: seq<Expense>, now: Moment): (r: seq<Insight>)
    requires ValidMoment(now)
    ensures xs == [] ==> r == []
  {
    if xs == [] then []
    else
      var cur := CurrentMonthRows(xs, now);
      var high := HighSpendingInsights(cur);
      if |xs| <= TREND_MIN_ROWS || !HasPreviousMonth(now) then high
      else
        var last := LastMonthRows(xs, now);
        high + TrendsFor(cur, last, Categories(last), Categories(cur))
  }

  /** The first loop of `get_category_insights`: one entry, in the order of
      `cats`, per category whose total in `cur` is above `threshold`. */
  method FlagHighSpending(cur: seq<Expense>, cats: seq<string>, threshold: real) returns (insights: seq<Insight>)
    ensures insights == HighSpendingFor(cur, threshold, cats)
  {
    insights := [];
    for i := 0 to |cats|
      invariant insights == HighSpendingFor(cur, threshold, cats[..i])
    {
      assert cats[..i + 1][..i] == cats[..i];
      var amount := CategoryTotal(cur, cats[i]);
      if amount > threshold {
        insights := insights + [HighSpending(cats[i], amount)];
      }
    }
    assert cats[..|cats|] == cats;
  }

  /** The second loop of `get_category_insights`: appends to `insights0`, in
      the order of `cats`, one entry per category that is also in `lastCats`
      and whose total in `cur` is above 1.3 times its total in `last`. */
  method FlagTrends(insights0: seq<Insight>, cur: seq<Expense>, last: seq<Expense>, lastCats: seq<string>, cats: seq<string>)
    returns (insights: seq<Insight>)
    ensures insights == insights0 + TrendsFor(cur, last, lastCats, cats)
  {
    insights := insights0;
    for i := 0 to |cats|
      invariant insights == insights0 + TrendsFor(cur, last, lastCats, cats[..i])
    {
      assert cats[..i + 1][..i] == cats[..i];
      var c := cats[i];
      if c in lastCats {
        var currentAmount := CategoryTotal(cur, c);
        var lastAmount := CategoryTotal(last, c);
        if currentAmount > lastAmount * TREND_FACTOR {
          insights := insights + [IncreasingTrend(c, currentAmount, lastAmount)];
        }
      }
    }
    assert cats[..|cats|] == cats;
  }

  /** The high-spending part of `get_category_insights` on the current-month
      rows `cur`: the threshold is 1.5 times the mean category total, and
      there is nothing to flag without a category. */
  method HighSpendingEntries(cur: seq<Expense>) returns (insights: seq<Insight>)
    ensures insights == HighSpendingInsights(cur)
  {
    insights := [];
    var cats := Categories(cur);
    if |cats| > 0 {
      insights := FlagHighSpending(cur, cats, MeanCategoryTotal(cur) * HIGH_FACTOR);
    }
  }

  /** `ExpenseAI.get_category_insights`: the high-spending loop over the
      current month, then, on a frame of more than 30 rows, the trend loop
      against the previous month. */
  method GetCategoryInsights(xs: seq<Expense>, now: Moment) returns (insights: seq<Insight>)
    requires ValidMoment(now)
    ensures insights == CategoryInsights(xs, now)
  {
    insights := [];
    if xs == [] {
      return;
    }
    var cur := CurrentMonthRows(xs, now);
    insights := HighSpendingEntries(cur);
    if |xs| > TREND_MIN_ROWS {
      if !HasPreviousMonth(now) {
        return;
      }
      var last := LastMonthRows(xs, now);
      insights := FlagTrends(insights, cur, last, Categories(last), Categories(cur));
    }
  }

  /** Entries of one kind are listed with strictly increasing categories. */
  ghost predicate CategoriesIncrease(s: seq<Insight>) {
    forall i, j :: 0 <= i < j < |s| ==> StrLess(s[i].category, s[j].category)
  }

  /** All high-spending entries come before all increasing-trend entries,
      and within each kind the categories are in code-point order. */
  ghost predicate WellOrdered(r: seq<Insight>) {
    && (forall i, j :: 0 <= i < j < |r| ==> (r[i].IncreasingTrend? ==> r[j].IncreasingTrend?))
    && (forall i, j :: 0 <= i < j < |r| && r[i].HighSpending? == r[j].HighSpending?
          ==> StrLess(r[i].category, r[j].category))
  }

  lemma {:induction false} HighSpendingForMembers(rows: seq<Expense>, threshold: real, cats: seq<string>)
    ensures forall x :: x in HighSpendingFor(rows, threshold, cats) <==>
      x.HighSpending? && x.category in cats
      && x.amount == CategoryTotal(rows, x.category) && x.amount > threshold
  {
    if cats != [] {
      assert cats == cats[..|cats| - 1] + [cats[|cats| - 1]];
      HighSpendingForMembers(rows, threshold, cats[..|cats| - 1]);
    }
  }

  lemma {:induction false} HighSpendingForIncrease(rows: seq<Expense>, threshold: real, cats: seq<string>)
    requires Sorting.StrictlySorted(cats, StrLess)
    ensures CategoriesIncrease(HighSpendingFor(rows, threshold, cats))
  {
    if cats != [] {
      var init, c := cats[..|cats| - 1], cats[|cats| - 1];
      HighSpendingForIncrease(rows, threshold, init);
      HighSpendingForMembers(rows, threshold, init);
      var s := HighSpendingFor(rows, threshold, init);
      forall x | x in s ensures StrLess(x.category, c) {
        var k :| 0 <= k < |init| && init[k] == x.category;
        assert cats[k] == x.category;
      }
    }
  }

  lemma {:induction false} TrendsForMembers(cur: seq<Expense>, last: seq<Expense>, lastCats: seq<string>, cats: seq<string>)
    ensures forall x :: x in TrendsFor(cur, last, lastCats, cats) <==>
      x.IncreasingTrend? && x.category in cats && x.category in lastCats
      && x.currentAmount == CategoryTotal(cur, x.category)
      && x.lastAmount == CategoryTotal(last, x.category)
      && x.currentAmount > x.lastAmount * TREND_FACTOR
  {
    if cats != [] {
      assert cats == cats[..|cats| - 1] + [cats[|cats| - 1]];
      TrendsForMembers(cur, last, lastCats, cats[..|cats| - 1]);
    }
  }

  lemma {:induction false} TrendsForIncrease(cur: seq<Expense>, last: seq<Expense>, lastCats: seq<string>, cats: seq<string>)
    requires Sorting.StrictlySorted(cats, StrLess)
    ensures CategoriesIncrease(TrendsFor(cur, last, lastCats, cats))
  {
    if cats != [] {
      var init, c := cats[..|cats| - 1], cats[|cats| - 1];
      TrendsForIncrease(cur, last, lastCats, init);
      TrendsForMembers(cur, last, lastCats, init);
      var s := TrendsFor(cur, last, lastCats, init);
      forall x | x in s ensures StrLess(x.category, c) {
        var k :| 0 <= k < |init| && init[k] == x.category;
        assert cats[k] == x.category;
      }
    }
  }

  /** A category of the frame `rows` is a category of one of its rows. */
  lemma CategoriesSpec(rows: seq<Expense>)
    ensures Sorting.StrictlySorted(Categories(rows), StrLess)
    ensures forall c :: c in Categories(rows) <==> exists i :: 0 <= i < |rows| && rows[i].category == c
  {
    StrLessIsStrictTotalOrder();
    GroupKeysSpec(rows, CategoryKey, StrLess);
  }

  /** The mean of the category totals is the month's total over the number
      of categories: grouping neither loses nor duplicates an amount. */
  lemma MeanCategoryTotalIsShare(rows: seq<Expense>)
    requires Categories(rows) != []
    ensures MeanCategoryTotal(rows) == SumAmounts(rows) / (|Categories(rows)| as real)
  {
    StrLessIsStrictTotalOrder();
    GroupByConservesTotal(rows, CategoryKey, StrLess);
  }

  /** The high-spending entries of `cur` are exactly its categories whose
      total is above 1.5 times the mean, in code-point order. */
  lemma HighSpendingInsightsSpec(cur: seq<Expense>)
    ensures forall x :: x in HighSpendingInsights(cur) <==>
      x.HighSpending? && x.category in Categories(cur)
      && x.amount == CategoryTotal(cur, x.category) && x.amount > MeanCategoryTotal(cur) * HIGH_FACTOR
    ensures CategoriesIncrease(HighSpendingInsights(cur))
  {
    var cats := Categories(cur);
    if cats != [] {
      CategoriesSpec(cur);
      HighSpendingForMembers(cur, MeanCategoryTotal(cur) * HIGH_FACTOR, cats);
      HighSpendingForIncrease(cur, MeanCategoryTotal(cur) * HIGH_FACTOR, cats);
    }
  }

  /** No high-spending entry comes out of the trend loop. */
  lemma TrendsAreTrends(cur: seq<Expense>, last: seq<Expense>, lastCats: seq<string>, cats: seq<string>)
    ensures forall x :: x in TrendsFor(cur, last, lastCats, cats) ==> x.IncreasingTrend?
  {
    TrendsForMembers(cur, last, lastCats, cats);
  }

  /** A high-spending entry is emitted exactly for each category with a row
      dated from the current month's start on whose total exceeds 1.5 times
      the mean category total, with that total as amount. */
  lemma HighSpendingIff(xs: seq<Expense>, now: Moment, c: string, amount: real)
    requires ValidMoment(now)
    ensures HighSpending(c, amount) in CategoryInsights(xs, now) <==>
      var cur := CurrentMonthRows(xs, now);
      && (exists i :: 0 <= i < |cur| && cur[i].category == c)
      && amount == CategoryTotal(cur, c)
      && amount > SumAmounts(cur) / (|Categories(cur)| as real) * HIGH_FACTOR
  {
    var cur := CurrentMonthRows(xs, now);
    assert HighSpending(c, amount) in CategoryInsights(xs, now) <==> HighSpending(c, amount) in HighSpendingInsights(cur) by {
      if xs != [] && |xs| > TREND_MIN_ROWS && HasPreviousMonth(now) {
        var last := LastMonthRows(xs, now);
        TrendsAreTrends(cur, last, Categories(last), Categories(cur));
      }
    }
    HighSpendingInsightsSpec(cur);
    CategoriesSpec(cur);
    if c in Categories(cur) {
      MeanCategoryTotalIsShare(cur);
    }
  }

  /** An increasing-trend entry is emitted exactly when the frame has more
      than 30 rows and, for a category present in both the current-month
      rows and the previous month's, the current total exceeds 1.3 times
      the previous one. */
  lemma IncreasingTrendIff(xs: seq<Expense>, now: Moment, c: string, current: real, previous: real)
    requires ValidMoment(now)
    ensures IncreasingTrend(c, current, previous) in CategoryInsights(xs, now) <==>
      && |xs| > TREND_MIN_ROWS && HasPreviousMonth(now)
      && var cur := CurrentMonthRows(xs, now);
         var last := LastMonthRows(xs, now);
         && (exists i :: 0 <= i < |cur| && cur[i].category == c)
         && (exists i :: 0 <= i < |last| && last[i].category == c)
         && current == CategoryTotal(cur, c) && previous == CategoryTotal(last, c)
         && current > previous * TREND_FACTOR
  {
    var cur := CurrentMonthRows(xs, now);
    var x := IncreasingTrend(c, current, previous);
    assert x !in HighSpendingInsights(cur) by {
      HighSpendingInsightsSpec(cur);
    }
    if xs != [] && |xs| > TREND_MIN_ROWS && HasPreviousMonth(now) {
      var last := LastMonthRows(xs, now);
      assert c in Categories(cur) <==> exists i :: 0 <= i < |cur| && cur[i].category == c by {
        CategoriesSpec(cur);
      }
      assert c in Categories(last) <==> exists i :: 0 <= i < |last| && last[i].category == c by {
        CategoriesSpec(last);
      }
      TrendsForMembers(cur, last, Categories(last), Categories(cur));
    }
  }

  /** With 30 rows or fewer no increasing-trend entry is emitted, however
      fast a category grows. */
  lemma FewRowsNoTrend(xs: seq<Expense>, now: Moment)
    requires ValidMoment(now) && |xs| <= TREND_MIN_ROWS
    ensures forall x :: x in CategoryInsights(xs, now) ==> x.HighSpending?
  {
    forall x | x in CategoryInsights(xs, now) ensures x.HighSpending? {
      if x.IncreasingTrend? {
        IncreasingTrendIff(xs, now, x.category, x.currentAmount, x.lastAmount);
      }
    }
  }

  /** High-spending entries in order, then trend entries in order, make a
      well-ordered list. */
  lemma ConcatWellOrdered(high: seq<Insight>, trends: seq<Insight>)
    requires forall x :: x in high ==> x.HighSpending?
    requires forall x :: x in trends ==> x.IncreasingTrend?
    requires CategoriesIncrease(high) && CategoriesIncrease(trends)
    ensures WellOrdered(high + trends)
  {
    var r := high + trends;
    forall i, j | 0 <= i < j < |r|
      ensures (r[i].IncreasingTrend? ==> r[j].IncreasingTrend?)
      ensures r[i].HighSpending? == r[j].HighSpending? ==> StrLess(r[i].category, r[j].category)
    {
      if j < |high| {
        assert r[i] == high[i] && r[j] == high[j];
        assert r[i] in high;
      } else if i >= |high| {
        assert r[i] == trends[i - |high|] && r[j] == trends[j - |high|];
        assert r[j] in trends;
      } else {
        assert r[i] == high[i] && r[j] == trends[j - |high|];
        assert r[i] in high && r[j] in trends;
      }
    }
  }

  /** The insights are well ordered: the high-spending loop runs first and
      both loops walk the sorted category index. */
  lemma InsightsOrdered(xs: seq<Expense>, now: Moment)
    requires ValidMoment(now)
    ensures WellOrdered(CategoryInsights(xs, now))
  {
    if xs != [] {
      var cur := CurrentMonthRows(xs, now);
      var high := HighSpendingInsights(cur);
      HighSpendingInsightsSpec(cur);
      if |xs| > TREND_MIN_ROWS && HasPreviousMonth(now) {
        var last := LastMonthRows(xs, now);
        var cats := Categories(cur);
        CategoriesSpec(cur);
        TrendsForMembers(cur, last, Categories(last), cats);
        TrendsForIncrease(cur, last, Categories(last), cats);
        ConcatWellOrdered(high, TrendsFor(cur, last, Categories(last), cats));
      } else {
        assert high == high + [];
        ConcatWellOrdered(high, []);
      }
    }
  }

  /** The total of the only category is the month's total. */
  lemma OnlyCategoryTotal(cur: seq<Expense>)
    requires |Categories(cur)| == 1
    ensures CategoryTotal(cur, Categories(cur)[0]) == SumAmounts(cur)
  {
    StrLessIsStrictTotalOrder();
    GroupByConservesTotal(cur, CategoryKey, StrLess);
    assert GroupTotals(Categories(cur), cur, CategoryKey) == [CategoryTotal(cur, Categories(cur)[0])];
  }

  /** With a single category and a non-negative month total, that category
      is its own mean and is never flagged as high spending. */
  lemma SingleCategoryNeverHigh(xs: seq<Expense>, now: Moment)
    requires ValidMoment(now)
    requires |Categories(CurrentMonthRows(xs, now))| == 1
    requires SumAmounts(CurrentMonthRows(xs, now)) >= 0.0
    ensures forall x :: x in CategoryInsights(xs, now) ==> !x.HighSpending?
  {
    var cur := CurrentMonthRows(xs, now);
    OnlyCategoryTotal(cur);
    MeanCategoryTotalIsShare(cur);
    HighSpendingInsightsSpec(cur);
    if |xs| > TREND_MIN_ROWS && HasPreviousMonth(now) {
      var last := LastMonthRows(xs, now);
      TrendsAreTrends(cur, last, Categories(last), Categories(cur));
    }
  }
}
