/** Rule-based query interpreter of `ExpenseAI`
    (ai_features.py, `process_natural_language_query`): a time phrase, then a
    category name, then an intent keyword group, each the first match in
    table order, decide which rows are summed, averaged or ranked. */
module QueryInterpreter {
  import opened Wrappers
  import opened Strings
  import opened Calendar
  import opened Ledger
  import Categorizer
  import MonthlySpending

  /** The periods of `time_filters`. */
  datatype Period = LastWeek | LastMonth | ThisMonth | ThisYear | LastYear

  /** `time_filters`' phrases and periods, in dict order. */
  const PERIODS: seq<(string, Period)> := [
    ("last week", LastWeek), ("last month", LastMonth), ("this month", ThisMonth),
    ("this year", ThisYear), ("last year", LastYear)
  ]

  /** The answer kinds, in the order the `if`/`elif` chain tests them. */
  datatype Intent = Total | Average | Highest | Lowest | Summary

  const TOTAL_WORDS: seq<string> := ["how much", "total", "spent", "spending"]
  const AVERAGE_WORDS: seq<string> := ["average", "avg"]
  const HIGHEST_WORDS: seq<string> := ["highest", "maximum", "max", "most expensive"]
  const LOWEST_WORDS: seq<string> := ["lowest", "minimum", "min", "cheapest"]

  /** `head(10)` for sums, means and summaries. */
  const PREVIEW_ROWS := 10
  /** `nlargest(5)` / `nsmallest(5)` for the highest and lowest expense. */
  const RANKED_ROWS := 5

  /** What the interpreter returns. `NoData`, `NotUnderstood` and `Failed`
      stand for the three fixed strings ("No expense data available to
      query.", "I couldn't understand your query. ...", and the "Error
      processing query: ..." text of a caught exception). An `Answer` is the
      result dict: `amount` (`None` for the NaN mean of no rows), the chosen
      row of a highest/lowest query, the period and category the query was
      read as (which its `details` text mentions), and the `data` preview. */
  datatype Reply =
    | NoData
    | NotUnderstood
    | Failed
    | Answer(intent: Intent, amount: Option<real>, row: Option<Expense>,
             period: Option<Period>, category: Option<string>, data: seq<Expense>)

  /** The first column of a table of pairs. */
  function Keys<T>(table: seq<(string, T)>): (r: seq<string>)
    ensures |r| == |table|
    ensures forall i :: 0 <= i < |table| ==> r[i] == table[i].0
  {
    if table == [] then [] else [table[0].0] + Keys(table[1..])
  }

  /** Every string of `s` lower-cased. */
  function LowerAll(s: seq<string>): (r: seq<string>)
    ensures |r| == |s|
    ensures forall i :: 0 <= i < |s| ==> r[i] == Lower(s[i])
  {
    if s == [] then [] else [Lower(s[0])] + LowerAll(s[1..])
  }

  /** The first index of `pats` whose pattern is a substring of `text`:
      the loop over a table that stops at its first hit. */
  function FirstOccurring(pats: seq<string>, text: string): (r: Option<nat>)
    ensures r.Some? ==> r.value < |pats| && Contains(text, pats[r.value])
    ensures r.Some? ==> forall j :: 0 <= j < r.value ==> !Contains(text, pats[j])
    ensures r.None? <==> forall j :: 0 <= j < |pats| ==> !Contains(text, pats[j])
  {
    if pats == [] then None
    else if Contains(text, pats[0]) then Some(0)
    else
      match FirstOccurring(pats[1..], text)
      case None => None
      case Some(i) => Some(i + 1)
  }

  /** Python's `any(word in text for word in words)`. */
  predicate Mentions(text: string, words: seq<string>) {
    exists i :: 0 <= i < |words| && Contains(text, words[i])
  }

  /** A group is mentioned exactly when one of its words occurs in the text
      at some index. */
  lemma MentionsIff(text: string, words: seq<string>)
    ensures Mentions(text, words) <==> exists i, k :: 0 <= i < |words| && OccursAt(text, words[i], k)
  {
    forall i | 0 <= i < |words| ensures Contains(text, words[i]) <==> exists k :: OccursAt(text, words[i], k) {
      ContainsIff(text, words[i]);
    }
  }

  /** The period of the first phrase of `table` that occurs in `q`. */
  function FirstPeriodIn(table: seq<(string, Period)>, q: string): Option<Period> {
    match FirstOccurring(Keys(table), q)
    case None => None
    case Some(i) => Some(table[i].1)
  }

  /** The first of `names` whose lower-cased form occurs in `q`. */
  function FirstNameIn(names: seq<string>, q: string): Option<string> {
    match FirstOccurring(LowerAll(names), q)
    case None => None
    case Some(i) => Some(names[i])
  }

  /** The period the lower-cased query `q` is read as. */
  function FindPeriod(q: string): Option<Period> {
    FirstPeriodIn(PERIODS, q)
  }

  /** The keys of the keyword table lower-cased, in table order: what the
      query is searched for. */
  const CATEGORY_PATTERNS: seq<string> :=
    ["food", "transportation", "shopping", "entertainment", "bills", "healthcare", "education", "travel"]

  /** The category the lower-cased query `q` is read as: the key of the
      keyword table whose pattern is found first. */
  function FindCategory(q: string): Option<string> {
    match FirstOccurring(CATEGORY_PATTERNS, q)
    case None => None
    case Some(i) => Some(Categorizer.CATEGORY_NAMES[i])
  }

  /** The patterns are the table's keys lower-cased, so searching for them
      is the scan over the keys. */
  lemma FindCategoryScansKeys(q: string)
    ensures FindCategory(q) == FirstNameIn(Categorizer.CATEGORY_NAMES, q)
  {
    CategoryPatternsAreLowerNames();
  }

  lemma CategoryPatternsAreLowerNames()
    ensures LowerAll(Categorizer.CATEGORY_NAMES) == CATEGORY_PATTERNS
  {
    LowerFirstNames();
    LowerLastNames();
  }

  lemma LowerFirstNames()
    ensures Lower("Food") == "food" && Lower("Transportation") == "transportation"
    ensures Lower("Shopping") == "shopping" && Lower("Entertainment") == "entertainment"
  {
    assert Lower("Food") == "food";
    assert Lower("Transportation") == "transportation";
    assert Lower("Shopping") == "shopping";
  }

  lemma LowerLastNames()
    ensures Lower("Bills") == "bills" && Lower("Healthcare") == "healthcare"
    ensures Lower("Education") == "education" && Lower("Travel") == "travel"
  {
    assert Lower("Bills") == "bills";
    assert Lower("Healthcare") == "healthcare";
    assert Lower("Education") == "education";
  }

  /** The intent of the lower-cased query `q`: the first keyword group that
      has a word in `q`, a summary when none has. */
  function IntentOf(q: string): Intent {
    if Mentions(q, TOTAL_WORDS) then Total
    else if Mentions(q, AVERAGE_WORDS) then Average
    else if Mentions(q, HIGHEST_WORDS) then Highest
    else if Mentions(q, LOWEST_WORDS) then Lowest
    else Summary
  }

  /** The row filter of a period. "last week" and "this month"/"this year"
      have no upper bound; "last month" is the calendar month before now's
      (the `now - 30 days` entry of the dict is never used); "last year"
      applies no filter at all. Needs a year after 1, without which the dict
      itself cannot be built. */
  function PeriodWindow(p: Period, now: Moment): Window
    requires ValidMoment(now) && now.date.year > MIN_YEAR
  {
    match p
    case LastWeek => Window(Some(MinusDays(now, 7)), None)
    case LastMonth => PreviousMonthWindow(now)
    case ThisMonth => FromMonthStart(now)
    case ThisYear => Window(Some(FirstOfYear(now)), None)
    case LastYear => UNBOUNDED
  }

  /** `a` may be listed before `b` when ranking for the largest (`largest`)
      or for the smallest amounts. */
  predicate Precedes(a: Expense, b: Expense, largest: bool) {
    if largest then a.amount >= b.amount else a.amount <= b.amount
  }

  /** `idxmax()` / `idxmin()`: the first position of a largest (smallest) amount. */
  function BestIndex(xs: seq<Expense>, largest: bool): (k: nat)
    requires xs != []
    ensures k < |xs|
    ensures forall i :: 0 <= i < |xs| ==> Precedes(xs[k], xs[i], largest)
    ensures forall i :: 0 <= i < k ==> !Precedes(xs[i], xs[k], largest)
  {
    if |xs| == 1 then 0
    else
      var k := 1 + BestIndex(xs[1..], largest);
      if Precedes(xs[0], xs[k], largest) then 0 else k
  }

  /** Places `x` before the first row of `s` it may precede. */
  function InsertRanked(x: Expense, s: seq<Expense>, largest: bool): seq<Expense> {
    if s == [] || Precedes(x, s[0], largest) then [x] + s
    else [s[0]] + InsertRanked(x, s[1..], largest)
  }

  /** The frame ordered by amount, largest (smallest) first, equal amounts in
      frame order: the order `nlargest` (`nsmallest`) lists rows in. */
  function Ranked(xs: seq<Expense>, largest: bool): seq<Expense> {
    if xs == [] then [] else InsertRanked(xs[0], Ranked(xs[1..], largest), largest)
  }

  /** `head(n)`. */
  function Take(xs: seq<Expense>, n: nat): (r: seq<Expense>)
    ensures |r| == if |xs| < n then |xs| else n
    ensures r <= xs
  {
    if |xs| <= n then xs else xs[..n]
  }

  /** The `if`/`elif` chain on the filtered rows. */
  function Respond(intent: Intent, rows: seq<Expense>, period: Option<Period>, category: Option<string>): (r: Reply)
    ensures r.Answer? || r == NotUnderstood
    ensures r == NotUnderstood <==> intent in {Highest, Lowest, Summary} && rows == []
    ensures r.Answer? ==> r.intent == intent && r.period == period && r.category == category
  {
    match intent
    case Total => Answer(Total, Some(SumAmounts(rows)), None, period, category, Take(rows, PREVIEW_ROWS))
    case Average => Answer(Average, Mean(rows), None, period, category, Take(rows, PREVIEW_ROWS))
    case Highest =>
      if rows == [] then NotUnderstood
      else
        var best := rows[BestIndex(rows, true)];
        Answer(Highest, Some(best.amount), Some(best), period, category, Take(Ranked(rows, true), RANKED_ROWS))
    case Lowest =>
      if rows == [] then NotUnderstood
      else
        var best := rows[BestIndex(rows, false)];
        Answer(Lowest, Some(best.amount), Some(best), period, category, Take(Ranked(rows, false), RANKED_ROWS))
    case Summary =>
      if rows == [] then NotUnderstood
      else Answer(Summary, Some(SumAmounts(rows)), None, period, category, Take(rows, PREVIEW_ROWS))
  }

  /** The rows the query keeps: the period filter, then the category filter. */
  function QueryRows(xs: seq<Expense>, now: Moment, period: Option<Period>, category: Option<string>): seq<Expense>
    requires ValidMoment(now) && now.date.year > MIN_YEAR
  {
    var timed := if period.Some? then Select(xs, PeriodWindow(period.value, now)) else xs;
    if category.Some? then OfCategory(timed, category.value) else timed
  }

  /** What `process_natural_language_query` returns for `query` on the frame
      `xs` at clock reading `now`. In year 1 building the "last year" entry
      (`replace(year=0)`) raises, and the error text is returned. */
  function AnswerQuery(query: string, xs: seq<Expense>, now: Moment): Reply
    requires ValidMoment(now)
  {
    if xs == [] then NoData
    else if now.date.year == MIN_YEAR then Failed
    else
      var q := Lower(query);
      var period := FindPeriod(q);
      var category := FindCategory(q);
      Respond(IntentOf(q), QueryRows(xs, now, period, category), period, category)
  }

  /** The scan of `time_filters`: the first phrase of `table` in `q` picks
      the period and narrows the rows to its window; without one the rows
      stay as they are. */
  method ScanPeriods(q: string, table: seq<(string, Period)>, xs: seq<Expense>, now: Moment)
    returns (period: Option<Period>, filtered: seq<Expense>)
    requires ValidMoment(now) && now.date.year > MIN_YEAR
    ensures period == FirstPeriodIn(table, q)
    ensures filtered == if period.Some? then Select(xs, PeriodWindow(period.value, now)) else xs
  {
    filtered := xs;
    period := None;
    for i := 0 to |table|
      invariant forall j :: 0 <= j < i ==> !Contains(q, table[j].0)
    {
      if Contains(q, table[i].0) {
        period := Some(table[i].1);
        filtered := Select(xs, PeriodWindow(table[i].1, now));
        assert FirstOccurring(Keys(table), q) == Some(i);
        return;
      }
    }
  }

  /** The scan of the category names: the first of `names` whose lower-cased
      form is in `q` picks the category and narrows the rows to it. */
  method ScanCategories(q: string, names: seq<string>, rows: seq<Expense>)
    returns (category: Option<string>, filtered: seq<Expense>)
    ensures category == FirstNameIn(names, q)
    ensures filtered == if category.Some? then OfCategory(rows, category.value) else rows
  {
    filtered := rows;
    category := None;
    for i := 0 to |names|
      invariant forall j :: 0 <= j < i ==> !Contains(q, Lower(names[j]))
    {
      if Contains(q, Lower(names[i])) {
        category := Some(names[i]);
        filtered := OfCategory(rows, names[i]);
        assert FirstOccurring(LowerAll(names), q) == Some(i);
        return;
      }
    }
  }

  /** `ExpenseAI.process_natural_language_query`: the scan of the time
      phrases and the scan of the category names, each stopping at its
      first hit and narrowing the rows, then the intent chain. */
  method ProcessNaturalLanguageQuery(query: string, xs: seq<Expense>, now: Moment) returns (reply: Reply)
    requires ValidMoment(now)
    ensures reply == AnswerQuery(query, xs, now)
  {
    if xs == [] {
      return NoData;
    }
    if now.date.year == MIN_YEAR {
      return Failed;
    }
    var q := Lower(query);
    var period, timed := ScanPeriods(q, PERIODS, xs, now);
    var category, filtered := ScanCategories(q, Categorizer.CATEGORY_NAMES, timed);
    FindCategoryScansKeys(q);
    reply := Respond(IntentOf(q), filtered, period, category);
    AnswerQueryRespond(query, xs, now);
  }

  /** The phrase found is the first one in table order that occurs in the
      query, wherever in the query the phrases stand; none is found only
      when no phrase occurs. */
  lemma FirstPeriodInSpec(table: seq<(string, Period)>, q: string)
    ensures FirstPeriodIn(table, q).None? <==> forall j :: 0 <= j < |table| ==> !Contains(q, table[j].0)
    ensures FirstPeriodIn(table, q).Some? ==> exists i :: (0 <= i < |table| && table[i].1 == FirstPeriodIn(table, q).value
      && Contains(q, table[i].0) && forall j :: 0 <= j < i ==> !Contains(q, table[j].0))
  {
    var k := FirstOccurring(Keys(table), q);
    if k.Some? {
      assert table[k.value].1 == FirstPeriodIn(table, q).value;
    }
  }

  /** A query naming both this month and last month is read as last month,
      since "last month" comes earlier in the table. */
  lemma LastMonthBeforeThisMonth(q: string)
    requires Contains(q, "last month") && !Contains(q, "last week")
    ensures FindPeriod(q) == Some(LastMonth)
  {
    assert Keys(PERIODS)[0] == "last week" && Keys(PERIODS)[1] == "last month";
  }

  /** "last month" keeps exactly the rows of the calendar month before
      now's (its 1st only at midnight), not the last 30 days. */
  lemma LastMonthIsCalendarMonth(xs: seq<Expense>, now: Moment)
    requires ValidMoment(now) && now.date.year > MIN_YEAR
    requires forall i :: 0 <= i < |xs| ==> WellFormed(xs[i].date)
    ensures QueryRows(xs, now, Some(LastMonth), None) == Where(xs, d => MonthlySpending.InPreviousMonth(d, now))
  {
    forall i | 0 <= i < |xs| ensures
      InWindow(xs[i].date, PreviousMonthWindow(now)) <==> MonthlySpending.InPreviousMonth(xs[i].date, now)
    {
      PreviousMonthWindowIff(xs[i].date, now);
    }
    SelectIsWhere(xs, PreviousMonthWindow(now), d => MonthlySpending.InPreviousMonth(d, now));
  }

  /** "last year" labels the answer but filters nothing. */
  lemma LastYearKeepsEveryRow(xs: seq<Expense>, now: Moment)
    requires ValidMoment(now) && now.date.year > MIN_YEAR
    ensures QueryRows(xs, now, Some(LastYear), None) == xs
  {
    SelectUnbounded(xs);
  }

  /** On a non-empty frame after year 1 the reply is the intent chain on
      the rows kept by the period and category the query is read as. */
  lemma AnswerQueryRespond(query: string, xs: seq<Expense>, now: Moment)
    requires ValidMoment(now) && now.date.year > MIN_YEAR && xs != []
    ensures var q := Lower(query);
      AnswerQuery(query, xs, now)
        == Respond(IntentOf(q), QueryRows(xs, now, FindPeriod(q), FindCategory(q)), FindPeriod(q), FindCategory(q))
  {
  }

  /** The intent chain for a total over the "last month" rows without a
      category sums what the monthly analysis calls the previous month. */
  lemma LastMonthTotal(xs: seq<Expense>, now: Moment, p: Option<Period>, c: Option<string>)
    requires ValidMoment(now) && now.date.year > MIN_YEAR && xs != []
    requires p == Some(LastMonth) && c.None?
    ensures Respond(Total, QueryRows(xs, now, p, c), p, c).amount
         == Some(MonthlySpending.AnalyzeMonthlySpending(xs, now).value.previousMonth)
  {
  }

  /** A "how much ... last month" query without a category name sums the
      same rows as the previous-month total of the monthly analysis. */
  lemma LastMonthTotalIsPreviousMonth(query: string, xs: seq<Expense>, now: Moment)
    requires ValidMoment(now) && now.date.year > MIN_YEAR && xs != []
    requires FindPeriod(Lower(query)) == Some(LastMonth)
    requires FindCategory(Lower(query)).None?
    requires IntentOf(Lower(query)) == Total
    ensures AnswerQuery(query, xs, now).Answer?
    ensures AnswerQuery(query, xs, now).amount
         == Some(MonthlySpending.AnalyzeMonthlySpending(xs, now).value.previousMonth)
  {
    AnswerQueryRespond(query, xs, now);
    LastMonthTotal(xs, now, FindPeriod(Lower(query)), FindCategory(Lower(query)));
  }

  /** With no row dated after today, the "this month" rows are those the
      monthly analysis sums as the current month: the open-ended filter and
      the filter that stops at now agree on every row. */
  lemma ThisMonthTotal(xs: seq<Expense>, now: Moment, p: Option<Period>, c: Option<string>)
    requires ValidMoment(now) && now.date.year > MIN_YEAR && xs != []
    requires forall i :: 0 <= i < |xs| ==> WellFormed(xs[i].date) && NotAfter(xs[i].date, now.date)
    requires p == Some(ThisMonth) && c.None?
    ensures Respond(Total, QueryRows(xs, now, p, c), p, c).amount
         == Some(MonthlySpending.AnalyzeMonthlySpending(xs, now).value.currentMonth)
  {
    forall i | 0 <= i < |xs| ensures
      InWindow(xs[i].date, FromMonthStart(now)) <==> InWindow(xs[i].date, CurrentMonthWindow(now))
    {
      FromMonthStartIff(xs[i].date, now);
      CurrentMonthWindowIff(xs[i].date, now);
      MonthIndexChronological(xs[i].date, now.date);
    }
    SelectSameVerdict(xs, FromMonthStart(now), CurrentMonthWindow(now));
  }

  /** A "how much ... this month" query without a category name, on a frame
      with no row dated after today, answers the monthly analysis' current
      total. */
  lemma ThisMonthTotalIsCurrentMonth(query: string, xs: seq<Expense>, now: Moment)
    requires ValidMoment(now) && now.date.year > MIN_YEAR && xs != []
    requires forall i :: 0 <= i < |xs| ==> WellFormed(xs[i].date) && NotAfter(xs[i].date, now.date)
    requires FindPeriod(Lower(query)) == Some(ThisMonth)
    requires FindCategory(Lower(query)).None?
    requires IntentOf(Lower(query)) == Total
    ensures AnswerQuery(query, xs, now).Answer?
    ensures AnswerQuery(query, xs, now).amount
         == Some(MonthlySpending.AnalyzeMonthlySpending(xs, now).value.currentMonth)
  {
    AnswerQueryRespond(query, xs, now);
    ThisMonthTotal(xs, now, FindPeriod(Lower(query)), FindCategory(Lower(query)));
  }

  /** As written, "this month" has no upper bound: a row dated later this
      month is summed by the query but not by the monthly analysis. */
  lemma ThisMonthCountsFutureRows()
    ensures var now := Moment(Date(2024, 3, 15), 0);
      var xs := [Expense(0, "lunch", 5.0, "Food", Date(2024, 3, 20))];
      && QueryRows(xs, now, Some(ThisMonth), None) == xs
      && Respond(Total, QueryRows(xs, now, Some(ThisMonth), None), Some(ThisMonth), None).amount == Some(5.0)
      && MonthlySpending.AnalyzeMonthlySpending(xs, now).value.currentMonth == 0.0
  {
    var now := Moment(Date(2024, 3, 15), 0);
    var xs := [Expense(0, "lunch", 5.0, "Food", Date(2024, 3, 20))];
    assert InWindow(xs[0].date, FromMonthStart(now));
    assert !InWindow(xs[0].date, CurrentMonthWindow(now));
    assert xs[1..] == [];
  }

  /** The period filter with "this month" stopping at now, as the monthly
      analysis' current-month window does. */
  function PeriodWindowToDate(p: Period, now: Moment): Window
    requires ValidMoment(now) && now.date.year > MIN_YEAR
  {
    if p == ThisMonth then CurrentMonthWindow(now) else PeriodWindow(p, now)
  }

  /** `QueryRows` with "this month" stopping at now. */
  function QueryRowsToDate(xs: seq<Expense>, now: Moment, period: Option<Period>, category: Option<string>): seq<Expense>
    requires ValidMoment(now) && now.date.year > MIN_YEAR
  {
    var timed := if period.Some? then Select(xs, PeriodWindowToDate(period.value, now)) else xs;
    if category.Some? then OfCategory(timed, category.value) else timed
  }

  /** `AnswerQuery` with "this month" stopping at now. */
  function AnswerQueryToDate(query: string, xs: seq<Expense>, now: Moment): Reply
    requires ValidMoment(now)
  {
    if xs == [] then NoData
    else if now.date.year == MIN_YEAR then Failed
    else
      var q := Lower(query);
      var period := FindPeriod(q);
      var category := FindCategory(q);
      Respond(IntentOf(q), QueryRowsToDate(xs, now, period, category), period, category)
  }

  /** With "this month" stopping at now, a "how much ... this month" query
      without a category answers the monthly analysis' current total on
      every frame, future-dated rows included. */
  lemma ThisMonthToDateIsCurrentMonth(query: string, xs: seq<Expense>, now: Moment)
    requires ValidMoment(now) && now.date.year > MIN_YEAR && xs != []
    requires FindPeriod(Lower(query)) == Some(ThisMonth)
    requires FindCategory(Lower(query)).None?
    requires IntentOf(Lower(query)) == Total
    ensures AnswerQueryToDate(query, xs, now).Answer?
    ensures AnswerQueryToDate(query, xs, now).amount
         == Some(MonthlySpending.AnalyzeMonthlySpending(xs, now).value.currentMonth)
  {
    var q := Lower(query);
    assert AnswerQueryToDate(query, xs, now)
        == Respond(Total, Select(xs, CurrentMonthWindow(now)), FindPeriod(q), FindCategory(q));
  }

  /** The corrected filter changes no reply on a frame with no row dated
      after today. */
  lemma ToDateAgreesWithoutFutureRows(query: string, xs: seq<Expense>, now: Moment)
    requires ValidMoment(now)
    requires forall i :: 0 <= i < |xs| ==> WellFormed(xs[i].date) && NotAfter(xs[i].date, now.date)
    ensures AnswerQueryToDate(query, xs, now) == AnswerQuery(query, xs, now)
  {
    if xs != [] && now.date.year > MIN_YEAR {
      forall i | 0 <= i < |xs| ensures
        InWindow(xs[i].date, FromMonthStart(now)) <==> InWindow(xs[i].date, CurrentMonthWindow(now))
      {
        FromMonthStartIff(xs[i].date, now);
        CurrentMonthWindowIff(xs[i].date, now);
        MonthIndexChronological(xs[i].date, now.date);
      }
      SelectSameVerdict(xs, FromMonthStart(now), CurrentMonthWindow(now));
      var q := Lower(query);
      assert QueryRowsToDate(xs, now, FindPeriod(q), FindCategory(q)) == QueryRows(xs, now, FindPeriod(q), FindCategory(q));
    }
  }

  /** The name found is the first of `names`, in their order, whose
      lower-cased form occurs in the query. */
  lemma FirstNameInSpec(names: seq<string>, q: string)
    ensures FirstNameIn(names, q).None? <==> forall j :: 0 <= j < |names| ==> !Contains(q, Lower(names[j]))
    ensures FirstNameIn(names, q).Some? ==> exists i :: (0 <= i < |names| && names[i] == FirstNameIn(names, q).value
      && Contains(q, Lower(names[i])) && forall j :: 0 <= j < i ==> !Contains(q, Lower(names[j])))
  {
    var k := FirstOccurring(LowerAll(names), q);
    if k.Some? {
      assert names[k.value] == FirstNameIn(names, q).value;
    }
  }

  /** The category found is one of the table's eight names, the first in
      table order whose lower-cased form occurs in the query; `Other`, not
      being a key of the table, is never found. */
  lemma FindCategorySpec(q: string)
    ensures FindCategory(q) == FirstNameIn(Categorizer.Names(Categorizer.KEYWORD_TABLE), q)
    ensures FindCategory(q).Some? ==> FindCategory(q).value in Categorizer.CATEGORY_NAMES
    ensures FindCategory(q) != Some(Categorizer.OTHER)
  {
    Categorizer.KeywordTableNames();
    FindCategoryScansKeys(q);
    FirstNameInSpec(Categorizer.CATEGORY_NAMES, q);
  }

  /** A pattern found in `text` has each of its tails found there too. */
  lemma ContainsTail(text: string, head: string, tail: string)
    requires Contains(text, head + tail)
    ensures Contains(text, tail)
  {
    ContainsIff(text, head + tail);
    var i :| OccursAt(text, head + tail, i);
    assert text[i + |head|..i + |head| + |tail|] == (head + tail)[|head|..];
    assert OccursAt(text, tail, i + |head|);
    ContainsIff(text, tail);
  }

  /** The sum group wins over the average group: "average spending" holds
      "spending", so such a query gets the total, not the mean. */
  lemma AverageSpendingIsTotal(q: string)
    requires Contains(q, "average spending")
    ensures IntentOf(q) == Total
  {
    assert "average " + "spending" == "average spending";
    ContainsTail(q, "average ", "spending");
    assert TOTAL_WORDS[3] == "spending";
  }

  /** The empty frame, and only it, gets the no-data reply; the error reply
      comes exactly for a non-empty frame in year 1. */
  lemma FixedReplies(query: string, xs: seq<Expense>, now: Moment)
    requires ValidMoment(now)
    ensures AnswerQuery(query, xs, now) == NoData <==> xs == []
    ensures AnswerQuery(query, xs, now) == Failed <==> xs != [] && now.date.year == MIN_YEAR
  {
    if xs != [] && now.date.year > MIN_YEAR {
      AnswerQueryRespond(query, xs, now);
    }
  }

  /** The "couldn't understand" reply comes exactly when a highest, lowest
      or summary query keeps no row; sums and means always answer. */
  lemma NotUnderstoodIff(query: string, xs: seq<Expense>, now: Moment)
    requires ValidMoment(now)
    ensures AnswerQuery(query, xs, now) == NotUnderstood <==>
      && xs != [] && now.date.year > MIN_YEAR
      && var q := Lower(query);
         && IntentOf(q) in {Highest, Lowest, Summary}
         && QueryRows(xs, now, FindPeriod(q), FindCategory(q)) == []
  {
    if xs != [] && now.date.year > MIN_YEAR {
      AnswerQueryRespond(query, xs, now);
    }
  }

  /** Rows in ranking order. */
  ghost predicate RankedOrder(s: seq<Expense>, largest: bool) {
    forall i, j :: 0 <= i < j < |s| ==> Precedes(s[i], s[j], largest)
  }

  lemma {:induction false} InsertRankedElements(x: Expense, s: seq<Expense>, largest: bool)
    ensures multiset(InsertRanked(x, s, largest)) == multiset(s) + multiset{x}
  {
    if s != [] && !Precedes(x, s[0], largest) {
      InsertRankedElements(x, s[1..], largest);
      assert s == [s[0]] + s[1..];
    }
  }

  lemma {:induction false} InsertRankedOrder(x: Expense, s: seq<Expense>, largest: bool)
    requires RankedOrder(s, largest)
    ensures RankedOrder(InsertRanked(x, s, largest), largest)
  {
    if s != [] && !Precedes(x, s[0], largest) {
      var t := InsertRanked(x, s[1..], largest);
      InsertRankedOrder(x, s[1..], largest);
      InsertRankedAfterHead(x, s, largest);
      var r := InsertRanked(x, s, largest);
      assert r == [s[0]] + t;
      forall i, j | 0 <= i < j < |r| ensures Precedes(r[i], r[j], largest) {
        assert r[j] == t[j - 1];
        if i == 0 {
          assert t[j - 1] in t;
        } else {
          assert r[i] == t[i - 1];
        }
      }
    }
  }

  /** When `x` goes behind the head of `s`, the head precedes every row of
      the rest with `x` inserted. */
  lemma InsertRankedAfterHead(x: Expense, s: seq<Expense>, largest: bool)
    requires RankedOrder(s, largest)
    requires s != [] && !Precedes(x, s[0], largest)
    ensures forall e :: e in InsertRanked(x, s[1..], largest) ==> Precedes(s[0], e, largest)
  {
    var t := InsertRanked(x, s[1..], largest);
    InsertRankedElements(x, s[1..], largest);
    forall e | e in t ensures Precedes(s[0], e, largest) {
      assert e in multiset(t);
      if e != x {
        assert e in multiset(s[1..]);
        var k :| 0 <= k < |s[1..]| && s[1..][k] == e;
        assert s[k + 1] == e;
      }
    }
  }

  /** The ranking lists every row once, largest (smallest) amounts first. */
  lemma {:induction false} RankedSpec(xs: seq<Expense>, largest: bool)
    ensures RankedOrder(Ranked(xs, largest), largest)
    ensures multiset(Ranked(xs, largest)) == multiset(xs)
  {
    if xs != [] {
      RankedSpec(xs[1..], largest);
      InsertRankedOrder(xs[0], Ranked(xs[1..], largest), largest);
      InsertRankedElements(xs[0], Ranked(xs[1..], largest), largest);
      assert xs == [xs[0]] + xs[1..];
    }
  }

  /** The first ranked row is the `idxmax()` (`idxmin()`) row: equal amounts
      keep frame order, so the row `loc` picks heads `nlargest`'s list. */
  lemma {:induction false} RankedHeadIsBest(xs: seq<Expense>, largest: bool)
    requires xs != []
    ensures Ranked(xs, largest) != []
    ensures Ranked(xs, largest)[0] == xs[BestIndex(xs, largest)]
  {
    if |xs| > 1 {
      RankedHeadIsBest(xs[1..], largest);
    }
  }

  /** A reply previews at most 10 rows, the first rows kept; a highest or
      lowest reply previews at most 5, ranked, headed by its chosen row,
      each a kept row. */
  lemma RespondPreview(intent: Intent, rows: seq<Expense>, period: Option<Period>, category: Option<string>)
    requires Respond(intent, rows, period, category).Answer?
    ensures var a := Respond(intent, rows, period, category);
      && |a.data| <= PREVIEW_ROWS
      && (intent in {Total, Average, Summary} ==>
            a.data <= rows && |a.data| == (if |rows| < PREVIEW_ROWS then |rows| else PREVIEW_ROWS))
      && (intent in {Highest, Lowest} ==>
            && |a.data| == (if |rows| < RANKED_ROWS then |rows| else RANKED_ROWS)
            && a.row.Some? && a.data != [] && a.data[0] == a.row.value && a.row.value.amount == a.amount.value
            && RankedOrder(a.data, intent == Highest)
            && multiset(a.data) <= multiset(rows))
  {
    if intent == Highest || intent == Lowest {
      TakeRanked(rows, intent == Highest);
    }
  }

  /** The first five of the ranking: in ranking order, rows of the frame,
      headed by the `idxmax()` (`idxmin()`) row. */
  lemma TakeRanked(rows: seq<Expense>, largest: bool)
    requires rows != []
    ensures var t := Take(Ranked(rows, largest), RANKED_ROWS);
      && |t| == (if |rows| < RANKED_ROWS then |rows| else RANKED_ROWS)
      && t != [] && t[0] == rows[BestIndex(rows, largest)]
      && RankedOrder(t, largest)
      && multiset(t) <= multiset(rows)
  {
    RankedSpec(rows, largest);
    RankedHeadIsBest(rows, largest);
    var r := Ranked(rows, largest);
    var t := Take(r, RANKED_ROWS);
    assert |r| == |rows| by {
      assert |multiset(r)| == |multiset(rows)|;
    }
    PrefixKeepsRanking(r, t, largest);
  }

  /** A prefix of a ranking is in ranking order and holds no row more often
      than the ranking does. */
  lemma PrefixKeepsRanking(r: seq<Expense>, t: seq<Expense>, largest: bool)
    requires t <= r && RankedOrder(r, largest)
    ensures RankedOrder(t, largest)
    ensures multiset(t) <= multiset(r)
  {
    assert r == t + r[|t|..];
    assert multiset(r) == multiset(t) + multiset(r[|t|..]);
  }

  /** `RespondPreview` for the rows a query keeps. */
  lemma PreviewBounds(query: string, xs: seq<Expense>, now: Moment)
    requires ValidMoment(now)
    requires AnswerQuery(query, xs, now).Answer?
    ensures var a := AnswerQuery(query, xs, now);
      var q := Lower(query);
      var rows := QueryRows(xs, now, FindPeriod(q), FindCategory(q));
      && |a.data| <= PREVIEW_ROWS
      && (a.intent in {Total, Average, Summary} ==> a.data <= rows)
      && (a.intent in {Highest, Lowest} ==>
            |a.data| <= RANKED_ROWS && a.row.Some? && a.data != [] && a.data[0] == a.row.value
            && multiset(a.data) <= multiset(rows))
  {
    var q := Lower(query);
    AnswerQueryRespond(query, xs, now);
    RespondPreview(IntentOf(q), QueryRows(xs, now, FindPeriod(q), FindCategory(q)), FindPeriod(q), FindCategory(q));
  }
}
