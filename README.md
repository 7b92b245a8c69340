# Expense tracker analytical engine, in Dafny

This project models the analytical core of a personal expense tracker and
proves properties of the model. The core is the `ExpenseAI` object of
`ai_features.py` and the input helpers of `utils.py`. `ExpenseAI`:

- suggests a category for a description by keyword scoring;
- compares this month's spending with last month's;
- forecasts next month's total with a least-squares line through the monthly totals;
- flags high-spending and fast-growing categories;
- answers simple English questions about the ledger ("how much did I
  spend on food last month?").

The helpers validate and clean typed input, bucket amounts, name months,
compute a percentage change, shorten text for display and check a category
against the whitelist.

Modules, one per concern:

- `Wrappers` holds `Option`, for the places the source returns `None`.
- `Strings` holds `str.lower()` on ASCII, the substring test `in`, and the
  code-point order Python compares strings by.
- `Sorting` holds the sorted insert that models the sorted keys of `groupby`.
- `Calendar` holds `datetime` dates and clock readings, `replace(day=1)`,
  whole-day subtraction and the date windows the pandas filters select.
- `Ledger` holds the expense row, and the filters, sums, means and group totals
  of the frame.
- `Categorizer` models `categorize_expense` and its keyword table.
- `MonthlySpending` models `analyze_monthly_spending`.
- `Forecaster` models `predict_next_month_spending`.
- `Insights` models `get_category_insights`.
- `QueryInterpreter` models `process_natural_language_query`.
- `Utils` models the `utils.py` helpers.

The code that works step by step becomes methods with loops. Each method is
proved equal to a specification function, and the lemmas are about those
functions. The three methods are `Categorizer.CategorizeExpense` with its scoring loops,
`Insights.GetCategoryInsights` with its helper loops, and
`QueryInterpreter.ProcessNaturalLanguageQuery` with its scans. The rest of
the code computes values, and is modelled as functions.

Modelling decisions:

- **The clock.** A `now` parameter replaces `datetime.now()`. It carries a
  date and the microseconds since midnight. `replace(day=1)` keeps the time
  of day, as Python's does. A record's date converts to midnight, so a record
  dated the 1st falls in the "from the month start" windows only when `now`
  is exactly midnight.
- **Date-range errors.** A moment in January of year 1 has no previous
  month, because subtracting a day leaves Python's date range. For such a
  moment:
  - `analyze_monthly_spending` returns `None`;
  - `get_category_insights` keeps the entries it appended before the
    exception, provided the mask at ai_features.py:181 compares the date
    column with a clock in year 1 without raising (see "## Left out");
  - the query returns its error text, because building the "last year"
    filter calls `replace(year=0)`, which fails for every moment of year 1.
- **Floating point.** Amounts are exact reals. The constants 1.5 and 1.3 are
  exact. The NaN mean of no rows is `None`.
- **The exception boundary in `get_category_insights`.** The handler at
  ai_features.py:226-229 catches the exception and then returns whatever
  `insights` holds at that point. The model does the same: for a moment in
  January of year 1 it returns the high-spending entries appended before
  the failing subtraction. This assumes the comparison at
  ai_features.py:181 succeeds for such a clock.
- **Query rows.** A query's `data` preview keeps whole rows. The 'last
  month' branch filters by the calendar month before `now`'s, leaving out
  that month's 1st unless `now` is exactly midnight. The dictionary's
  `now - 30 days` for that key is never used. The 'last year' key only sets
  the period and keeps every row.

## Model

| member | source | states |
|---|---|---|
| Strings.Lower | ai_features.py:47 | `lower()` folds each character on its own; LowerIsIdempotent proves that no upper-case letter is left |
| Strings.LowerIsIdempotent | ai_features.py:47 | no `A`..`Z` is left after `lower()`, so a second `lower()` changes nothing |
| Strings.IsSpace | utils.py:112 | the characters `str.isspace()` accepts, which `strip()` removes and `\s` matches |
| Strings.Contains | ai_features.py:54 | `pattern in text`: the pattern is a prefix of the text or of one of its tails; ContainsIff states it by index |
| Strings.StartsWithIsPrefix | ai_features.py:54 | the character-wise `startswith` is the prefix relation |
| Strings.ContainsIff | ai_features.py:54 | `keyword in text` holds exactly when the keyword occurs at some index of the text |
| Strings.StrLessIsStrictTotalOrder | ai_features.py:184 | Python's string order is a strict total order, so the sorted category keys of `groupby` are well defined |
| Strings.StrLess | ai_features.py:184 | Python's `<` on `str`: the code-point order of the first differing character, a proper prefix ranking first |
| Sorting.InsertElements | ai_features.py:184 | inserting a key into the sorted key list adds exactly that key |
| Sorting.InsertSorted | ai_features.py:184 | inserting a key keeps the key list strictly sorted |
| Sorting.SortedHasNoDuplicates | ai_features.py:184 | a strictly sorted key list has no repeated key |
| Sorting.IntLessIsStrictTotalOrder | ai_features.py:132-135 | month periods are ordered by a strict total order |
| Calendar.DaysInMonth | ai_features.py:86-87 | every month has between 28 and 31 days |
| Calendar.PrevDay | ai_features.py:86-87 | `date - timedelta(days=1)` gives a well-formed date |
| Calendar.PrevDayIsPredecessor | ai_features.py:86-87 | the day before a date precedes it, and no date lies strictly between the two |
| Calendar.MinusDays | ai_features.py:255 | subtracting whole days keeps the date well formed and keeps the time of day |
| Calendar.FirstOfMonth | ai_features.py:85 | `replace(day=1)`: the 1st of the same month and year, at the same time of day |
| Calendar.FirstOfYear | ai_features.py:258 | `replace(month=1, day=1)`: January 1st of the same year, at the same time of day |
| Calendar.HasPreviousMonth | ai_features.py:86-87 | subtracting a day from the month start stays in Python's date range, which fails only in January of year 1 |
| Calendar.PreviousMonthEnd | ai_features.py:87 | the day before the month start: the last day of the previous month, at now's time of day |
| Calendar.PreviousMonthStart | ai_features.py:86 | the 1st of the previous month, at now's time of day |
| Calendar.CurrentMonthWindow | ai_features.py:90-93 | the bounds `current_month_start <= date <= current_date`; CurrentMonthWindowIff states which dates pass |
| Calendar.FromMonthStart | ai_features.py:180-181 | the single bound `date >= current_month_start`; FromMonthStartIff states which dates pass |
| Calendar.PreviousMonthWindow | ai_features.py:95-98 | the bounds `previous_month_start <= date <= previous_month_end`; PreviousMonthWindowIff states which dates pass |
| Calendar.InWindow | ai_features.py:90-98 | the `>=`/`<=` date masks, here and at lines 181, 205-206 and 269-280, on a record's date at midnight; a missing bound tests nothing; CurrentMonthWindowIff, FromMonthStartIff and PreviousMonthWindowIff state which dates pass each window |
| Calendar.MonthIndex | ai_features.py:132 | `to_period('M')`: one number per calendar month; MonthIndexChronological proves it orders and identifies months as their dates do |
| Calendar.MonthIndexChronological | ai_features.py:132-135 | the month periods compare as their dates do, and two dates share a period exactly when they share year and month |
| Calendar.CurrentMonthWindowIff | ai_features.py:90-93 | a date is in `[month start, now]` exactly when it is in now's month, not after today, and not the 1st unless `now` is midnight |
| Calendar.FromMonthStartIff | ai_features.py:180-181 | a date is on or after `now.replace(day=1)` exactly when it is in a later month, or in now's month and not the 1st unless `now` is midnight |
| Calendar.PreviousMonthWindowIff | ai_features.py:95-98 | a date lies between the previous month's start and end exactly when it is in the calendar month before now's and is not its 1st unless `now` is midnight |
| Ledger.SumAmountsConcat | ai_features.py:93 | the column sum of two row lists together is the sum of their sums |
| Ledger.SumAmountsNonNegative | ai_features.py:93 | rows with non-negative amounts have a non-negative sum |
| Ledger.SumAmounts | ai_features.py:93 | `['amount'].sum()`: 0 for no rows, else the first amount plus the sum of the rest; SumAmountsConcat and SumAmountsNonNegative state its laws |
| Ledger.Mean | ai_features.py:305 | the mean is undefined (NaN) exactly for no rows; otherwise it times the row count is the sum |
| Ledger.Select | ai_features.py:90-93 | a date mask keeps exactly the frame's rows whose date is in the window, and never more rows than the frame has |
| Ledger.SelectIsWhere | ai_features.py:204-207 | a window filter equals the filter by any date predicate that agrees with it on the frame |
| Ledger.SelectUnbounded | ai_features.py:263 | the unbounded window keeps the frame as it is |
| Ledger.SelectSameVerdict | ai_features.py:269-280 | two windows with the same verdict on every row select the same rows |
| Ledger.WithKey | ai_features.py:289 | an equality mask keeps exactly the rows with that key |
| Ledger.GroupTotal | ai_features.py:184 | `groupby(key)['amount'].sum()[k]`, also at lines 209-210: the sum of the rows with key `k`; GroupTotals and GroupTotalsCons state its laws |
| Ledger.OfCategory | ai_features.py:289 | `df[df['category'] == c]`: the rows of category `c`, in frame order |
| Ledger.GroupKeys | ai_features.py:184 | the index of `groupby(key)`: every key once, in sorted order; GroupKeysSpec proves both |
| Ledger.GroupKeysSpec | ai_features.py:184 | the group keys are strictly sorted and are exactly the keys that occur in the frame |
| Ledger.GroupTotals | ai_features.py:184 | there is one total per key, and each is the sum of that key's rows |
| Ledger.SumSnoc | ai_features.py:184 | a sum of totals splits off its last total |
| Ledger.GroupTotalsCons | ai_features.py:184 | adding a row adds its amount to exactly one group total |
| Ledger.GroupTotalsPartition | ai_features.py:184 | group totals over keys covering the frame add up to the frame's total |
| Ledger.ZeroTotals | ai_features.py:184 | an empty frame has zero totals |
| Ledger.GroupByConservesTotal | ai_features.py:135 | `groupby(key)['amount'].sum()` loses and duplicates nothing: its totals add up to the frame's total |
| Categorizer.Names | ai_features.py:51 | the table's categories in dict order; KeywordTableNames proves they are the eight category names, none of them `Other` |
| Categorizer.Scores | ai_features.py:50-57 | `category_scores`, one score per category in table order; ScoreZeroIff states when a score is zero and CategorizeWinner how the winner is picked from them |
| Categorizer.FirstMaxIndex | ai_features.py:61 | `max(..., key=...)` picks the first position holding the largest score |
| Categorizer.Score | ai_features.py:52-56 | a category's score: the lengths of its listed keywords that occur in the lowered text, each listed keyword counted once; ScoreZeroIff states when it is zero |
| Categorizer.Categorize | ai_features.py:44-64 | the category `categorize_expense` returns is always `Other` or one of the table's categories |
| Categorizer.CategorizeExpense | ai_features.py:34-64 | the scoring loops compute `Categorize` of the description |
| Categorizer.ScoreCategories | ai_features.py:50-57 | the outer loop builds every category's score, in table order |
| Categorizer.ScoreCategory | ai_features.py:52-56 | the inner loop adds up the lengths of the keywords that occur in the lowered text |
| Categorizer.BestCategory | ai_features.py:61 | the scan finds the first position of the largest score |
| Categorizer.KeywordTableFacts | ai_features.py:14-32 | the table's names are the eight categories, none is `Other`, and every keyword starts with a lower-case letter |
| Categorizer.KeywordTableNames | ai_features.py:14 | the table's keys are, in order, the eight category names, and none is `Other` |
| Categorizer.KeywordTableLetterLed | ai_features.py:14-32 | every listed keyword is non-empty and starts with a lower-case ASCII letter |
| Categorizer.FirstKeywordsLetterLed | ai_features.py:15-23 | the same for the Food, Transportation, Shopping and Entertainment lists |
| Categorizer.LastKeywordsLetterLed | ai_features.py:24-31 | the same for the Bills, Healthcare, Education and Travel lists |
| Categorizer.ScoreZeroIff | ai_features.py:52-56 | a score is zero exactly when none of the category's keywords occurs |
| Categorizer.CategorizeWinner | ai_features.py:60-64 | the result is a category, not `Other`, exactly when some score is positive, and then it is the first highest-scoring one; this covers "subscription", a 12-12 tie between Entertainment and Bills that Entertainment wins as the earlier key |
| Categorizer.CategorizeOtherIff | ai_features.py:44-64 | `Other` exactly for a missing or empty description or one with no keyword in it, and otherwise one of the eight categories |
| Categorizer.OnlyOneCategoryMatches | ai_features.py:50-62 | a description with keywords of one category only gets that category |
| Categorizer.ContainsFirstChar | ai_features.py:54 | an occurring keyword's first character occurs in the text |
| Categorizer.BlankDescriptionIsOther | ai_features.py:44-57 | a description of whitespace only is `Other` |
| MonthlySpending.PercentageChange | ai_features.py:101-104 | without a positive previous total the change is 0 or 100 |
| MonthlySpending.PercentageChangeMeaning | ai_features.py:101-102 | with a positive baseline the change has the sign of the difference, and applying it to the baseline gives the current total |
| MonthlySpending.PercentageChangeAtLeastMinus100 | ai_features.py:101-104 | non-negative spending never falls by more than 100 percent |
| MonthlySpending.AnalyzeMonthlySpending | ai_features.py:76-114 | `None` exactly for an empty frame or a clock with no previous month in Python's date range |
| MonthlySpending.AnalyzeMonthlySpendingTotals | ai_features.py:84-110 | the current total sums the month-to-date rows, the previous total sums the rows of the calendar month before (its 1st only when `now` is midnight), and the change is computed from the two |
| MonthlySpending.AnalyzeMonthlySpendingSaturates | ai_features.py:103-104 | no spending in either month gives 0; spending now and none before gives exactly 100 |
| Forecaster.PositionSumsStep | ai_features.py:141 | the position sums grow by the next position and its square |
| Forecaster.PositionSumClosedForm | ai_features.py:141 | the positions 0..N-1 sum to N(N-1)/2 |
| Forecaster.PositionSquareSumClosedForm | ai_features.py:141 | the squares of the positions 0..N-1 sum to N(N-1)(2N-1)/6 |
| Forecaster.PositionSumsClosedForm | ai_features.py:141 | both closed forms together |
| Forecaster.SumClosedStep | ai_features.py:141 | the closed form of the position sum carries from N to N+1 |
| Forecaster.SquareClosedStep | ai_features.py:141 | the closed form of the squared-position sum carries from N to N+1 |
| Forecaster.DeterminantClosedForm | ai_features.py:146-147 | the normal equations' determinant is N²(N²-1)/12 |
| Forecaster.DeterminantPositive | ai_features.py:137-147 | with two or more months the determinant is positive, so the fit is unique |
| Forecaster.DeterminantAlgebra | ai_features.py:146-147 | the determinant identity and its sign, from the closed forms |
| Forecaster.Fit | ai_features.py:141-147 | `LinearRegression().fit` on positions 0..N-1: the least-squares line, which LeastSquares and LeastSquaresUnique characterise |
| Forecaster.Fitted | ai_features.py:151 | `model.predict([[x]])[0]`: the fitted line's value at `x`; FitRecoversLine and ForecastContinuesLine state what it gives |
| Forecaster.LeastSquares | ai_features.py:146-147 | the fitted slope and intercept solve the normal equations of the least-squares fit |
| Forecaster.SolveNormal | ai_features.py:146-147 | Cramer's solution satisfies both normal equations |
| Forecaster.LeastSquaresUnique | ai_features.py:146-147 | any line satisfying the normal equations is the fitted line |
| Forecaster.OnLineFromEndHolds | ai_features.py:141-143 | totals on a line are on it when read from the front |
| Forecaster.SumStep | ai_features.py:141-143 | one more value on the line keeps the total equal to what the line gives |
| Forecaster.WeightedStep | ai_features.py:141-143 | one more value on the line keeps the position-weighted total equal to what the line gives |
| Forecaster.SumOnLine | ai_features.py:141-143 | values on the line a i + b add up to a Sx + b N |
| Forecaster.WeightedSumOnLine | ai_features.py:141-143 | values on the line a i + b, weighted by position, add up to a Sxx + b Sx |
| Forecaster.LineSums | ai_features.py:141-143 | totals on a line have both sums that line gives |
| Forecaster.FitFromSums | ai_features.py:146-147 | totals whose sums are those of a line are fitted by that line |
| Forecaster.FitRecoversLine | ai_features.py:141-151 | totals that lie on a line are fitted by exactly that line |
| Forecaster.FitTwoMonths | ai_features.py:146-151 | two monthly totals t0 and t1 extrapolate to 2 t1 - t0 |
| Forecaster.PredictNextMonthSpending | ai_features.py:126-158 | every forecast is at least 0 |
| Forecaster.Forecast | ai_features.py:150-154 | the clamped fitted value at the next position is never negative |
| Forecaster.Clamp | ai_features.py:154 | `max(0, x)` is never negative and is `x` or 0 |
| Forecaster.ForecastContinuesLine | ai_features.py:141-154 | totals on the line a i + b forecast max(0, a N + b), the line's next value clamped at 0 |
| Forecaster.SteadyInit | ai_features.py:141-143 | dropping the last total keeps a constant month-on-month change |
| Forecaster.OnLineSnoc | ai_features.py:141-143 | a line through all totals but the last, and through the last, passes through all of them |
| Forecaster.SteadyOnLine | ai_features.py:141-143 | totals changing by a constant d each month lie on the line d i + t0 |
| Forecaster.SteadyNext | ai_features.py:150-151 | that line's value at the next position is the last total plus d |
| Forecaster.ForecastContinuesTrend | ai_features.py:141-154 | totals changing by a constant d each month forecast max(0, last + d) |
| Forecaster.MonthlyTotals | ai_features.py:132-135 | `groupby('month_year')['amount'].sum()`: per month present, in month order, that month's total; MonthlyTotalsSpec proves it |
| Forecaster.MonthlyTotalsSpec | ai_features.py:132-135 | one total per month present, in chronological order, the totals adding up to the frame's total |
| Forecaster.TwoTotalsIff | ai_features.py:137-138 | there are two or more monthly totals exactly when the records span two months |
| Forecaster.PredictDefinedIff | ai_features.py:126-138 | there is a forecast exactly when there are at least three records spread over at least two months |
| Forecaster.PredictContinuesLinearTrend | ai_features.py:126-154 | when monthly totals change by a constant d, the prediction is max(0, last month's total + d) |
| Forecaster.PredictTwoMonths | ai_features.py:141-154 | with two monthly totals the prediction is max(0, 2 t1 - t0) |
| Insights.Insight.Message | ai_features.py:196 | the entry's `message` text; MessageIdentifiesEntry proves that the text determines the entry's kind and category |
| Insights.MessageIdentifiesEntry | ai_features.py:192-224 | two entries with the same message are of the same kind and about the same category |
| Insights.CurrentMonthRows | ai_features.py:180-181 | `current_month_data`: the rows dated from now's month start on, with no upper bound |
| Insights.LastMonthRows | ai_features.py:201-207 | `last_month_data`: the rows between the previous month's start and end |
| Insights.Categories | ai_features.py:184 | the index of `groupby('category')`, in code-point order; CategoriesSpec proves it |
| Insights.CategoryTotal | ai_features.py:184 | `category_spending[c]`: the sum of category `c`'s rows |
| Insights.MeanCategoryTotal | ai_features.py:188 | `category_spending.mean()`; MeanCategoryTotalIsShare states it as the month's total over its category count |
| Insights.HighSpendingFor | ai_features.py:189-197 | the high-spending entries of the listed categories, in their order; HighSpendingForMembers states which |
| Insights.TrendsFor | ai_features.py:212-224 | the trend entries of the listed categories, in their order; TrendsForMembers states which |
| Insights.HighSpendingInsights | ai_features.py:187-197 | no entries without categories, else the entries above 1.5 times the mean; HighSpendingInsightsSpec states them |
| Insights.CategoryInsights | ai_features.py:170-173 | an empty frame gives no insights |
| Insights.FlagHighSpending | ai_features.py:189-197 | the loop appends exactly the high-spending entries of the categories, in order |
| Insights.FlagTrends | ai_features.py:212-224 | the loop appends exactly the trend entries of the current categories, in order |
| Insights.HighSpendingEntries | ai_features.py:184-197 | the high-spending step gives `HighSpendingInsights` |
| Insights.GetCategoryInsights | ai_features.py:160-229 | the method computes `CategoryInsights` |
| Insights.HighSpendingForMembers | ai_features.py:189-197 | an entry is listed exactly for a listed category whose total exceeds the threshold |
| Insights.HighSpendingForIncrease | ai_features.py:191 | entries follow the sorted category order |
| Insights.TrendsForMembers | ai_features.py:212-224 | a trend is listed exactly for a current category also present last month whose total exceeds 1.3 times last month's |
| Insights.TrendsForIncrease | ai_features.py:212 | trends follow the sorted category order |
| Insights.CategoriesSpec | ai_features.py:184 | the current categories are sorted and are exactly the categories of the rows |
| Insights.MeanCategoryTotalIsShare | ai_features.py:188 | the mean category total is the month's total divided by its number of categories |
| Insights.HighSpendingInsightsSpec | ai_features.py:184-197 | an entry exists exactly for a category whose total exceeds 1.5 times the mean category total, in category order |
| Insights.TrendsAreTrends | ai_features.py:218-219 | the trend step only adds trend entries |
| Insights.HighSpendingIff | ai_features.py:180-197 | a high-spending entry (c, x) is returned exactly when c occurs in this month's rows, x is its total, and x exceeds 1.5 times the month's total divided by its category count |
| Insights.IncreasingTrendIff | ai_features.py:200-224 | a trend (c, cur, last) is returned exactly when there are over 30 rows, c occurs in both months with those totals, and cur exceeds 1.3 times last |
| Insights.FewRowsNoTrend | ai_features.py:200 | up to 30 rows give high-spending entries only |
| Insights.ConcatWellOrdered | ai_features.py:187-224 | high-spending entries followed by trends, each in category order, are well ordered |
| Insights.InsightsOrdered | ai_features.py:187-224 | every high-spending entry precedes every trend, and each kind is in category order |
| Insights.OnlyCategoryTotal | ai_features.py:184 | a month with one category has that category's total as its total |
| Insights.SingleCategoryNeverHigh | ai_features.py:187-189 | with one category and non-negative spending nothing is high spending, since the total never exceeds 1.5 times itself |
| QueryInterpreter.Keys | ai_features.py:266 | the phrases of `time_filters` in dict order; FirstPeriodInSpec proves that FindPeriod takes the first of them occurring in the query |
| QueryInterpreter.LowerAll | ai_features.py:287 | each category name lower-cased; CategoryPatternsAreLowerNames proves the search patterns are the table's names lower-cased |
| QueryInterpreter.FirstOccurring | ai_features.py:266-267 | the first pattern occurring in the query, and `None` exactly when none occurs |
| QueryInterpreter.FindPeriod | ai_features.py:266-267 | the period of the first `time_filters` phrase in the lowered query; FirstPeriodInSpec states it |
| QueryInterpreter.FindCategory | ai_features.py:286-288 | the first table category whose lowered name is in the query; FindCategorySpec states it |
| QueryInterpreter.IntentOf | ai_features.py:293-342 | the first keyword group of the `if`/`elif` chain with a word in the query, else the summary branch; AverageSpendingIsTotal shows the order matters |
| QueryInterpreter.Mentions | ai_features.py:293 | `any(word in query_lower for word in words)`, also at lines 304, 315 and 324; MentionsIff states it by index |
| QueryInterpreter.MentionsIff | ai_features.py:293 | a keyword group is mentioned exactly when one of its words occurs in the query at some index |
| QueryInterpreter.PeriodWindow | ai_features.py:254-282 | each period's row filter: the week and the month and year starts open-ended, the calendar month before for "last month", none for "last year" |
| QueryInterpreter.FindCategoryScansKeys | ai_features.py:286-290 | matching the precomputed lower-case names is the scan of `cat.lower() in query_lower` |
| QueryInterpreter.CategoryPatternsAreLowerNames | ai_features.py:287 | the patterns are the lower-cased category names |
| QueryInterpreter.LowerFirstNames | ai_features.py:287 | the first four names lower-case as expected |
| QueryInterpreter.LowerLastNames | ai_features.py:287 | the last four names lower-case as expected |
| QueryInterpreter.BestIndex | ai_features.py:317-326 | `idxmax`/`idxmin` picks the first row with the largest (smallest) amount |
| QueryInterpreter.Take | ai_features.py:301 | `head(n)` is the first min(n, rows) rows |
| QueryInterpreter.Ranked | ai_features.py:321-330 | the order `nlargest`/`nsmallest` list rows in; RankedSpec proves it ordered and a permutation |
| QueryInterpreter.QueryRows | ai_features.py:263-290 | the rows kept: the period filter, then the category filter |
| QueryInterpreter.AnswerQuery | ai_features.py:242-345 | the reply of `process_natural_language_query`; FixedReplies, NotUnderstoodIff and PreviewBounds state its cases |
| QueryInterpreter.Respond | ai_features.py:293-342 | the intent chain answers sums and means always, and highest, lowest and summary only when rows remain, echoing intent, period and category |
| QueryInterpreter.ScanPeriods | ai_features.py:266-282 | the loop stops at the first phrase in the query and applies exactly that period's filter |
| QueryInterpreter.ScanCategories | ai_features.py:285-290 | the loop stops at the first category named in the query and keeps only its rows |
| QueryInterpreter.ProcessNaturalLanguageQuery | ai_features.py:231-345 | the method computes `AnswerQuery` |
| QueryInterpreter.FirstPeriodInSpec | ai_features.py:266-282 | no period exactly when no phrase occurs; otherwise the period of the first phrase that occurs |
| QueryInterpreter.LastMonthBeforeThisMonth | ai_features.py:254-282 | a query naming "last month" and not "last week" is read as last month, whatever else it names |
| QueryInterpreter.LastMonthIsCalendarMonth | ai_features.py:270-276 | the "last month" rows are exactly the rows of the calendar month before now's, its 1st only when `now` is midnight |
| QueryInterpreter.LastYearKeepsEveryRow | ai_features.py:259-282 | "last year" filters nothing |
| QueryInterpreter.LastMonthTotal | ai_features.py:270-294 | a total over the "last month" rows is the previous-month total of the monthly analysis |
| QueryInterpreter.LastMonthTotalIsPreviousMonth | ai_features.py:270-298 | a "how much ... last month" query without a category answers the monthly analysis' previous-month total |
| QueryInterpreter.ThisMonthTotal | ai_features.py:90-93 | with no row dated after today, a total over the "this month" rows is the current-month total of the monthly analysis |
| QueryInterpreter.ThisMonthTotalIsCurrentMonth | ai_features.py:277-298 | with no row dated after today, a "how much ... this month" query without a category answers the monthly analysis' current-month total |
| QueryInterpreter.ThisMonthCountsFutureRows | ai_features.py:277-278 | a row dated later this month is summed by "this month" (5.0) but not by the monthly analysis (0.0) |
| QueryInterpreter.ThisMonthToDateIsCurrentMonth | ai_features.py:90-93 | with "this month" ending at now, the query's total is the current-month total on every frame |
| QueryInterpreter.ToDateAgreesWithoutFutureRows | ai_features.py:277-278 | ending "this month" at now changes no reply on a frame without rows dated after today |
| QueryInterpreter.FirstNameInSpec | ai_features.py:286-290 | no category exactly when no lower-cased name occurs; otherwise the first name that occurs |
| QueryInterpreter.FindCategorySpec | ai_features.py:286-290 | the category found is the first of the table's names in the query, one of the eight, never `Other` |
| QueryInterpreter.ContainsTail | ai_features.py:293 | a text containing a phrase contains its tail |
| QueryInterpreter.AverageSpendingIsTotal | ai_features.py:293-313 | "average spending" is answered as a total, since the total words are checked first |
| QueryInterpreter.FixedReplies | ai_features.py:242-345 | "no data" exactly for an empty frame, and the error text exactly for data in year 1 |
| QueryInterpreter.NotUnderstoodIff | ai_features.py:315-342 | "couldn't understand" exactly when a highest, lowest or summary query keeps no row |
| QueryInterpreter.InsertRankedElements | ai_features.py:321 | ranked insertion adds exactly one row |
| QueryInterpreter.InsertRankedOrder | ai_features.py:321 | ranked insertion keeps the amount order |
| QueryInterpreter.InsertRankedAfterHead | ai_features.py:321 | a row inserted behind the head leaves the head ahead of every row after it |
| QueryInterpreter.RankedSpec | ai_features.py:321-330 | the ranking is ordered by amount and a permutation of the rows |
| QueryInterpreter.RankedHeadIsBest | ai_features.py:317-321 | the ranking starts with the `idxmax` (`idxmin`) row |
| QueryInterpreter.RespondPreview | ai_features.py:298-340 | the preview is the first ten rows, or for highest and lowest the best five in ranking order, headed by the chosen row and drawn from the rows |
| QueryInterpreter.TakeRanked | ai_features.py:317-331 | the first five of the ranking are ordered rows of the frame headed by the chosen row |
| QueryInterpreter.PrefixKeepsRanking | ai_features.py:321 | `head(5)` of a ranking is in ranking order and holds only rows of the ranking |
| QueryInterpreter.PreviewBounds | ai_features.py:298-340 | every answer's preview is bounded and drawn from the rows the query keeps |
| Utils.FormatCurrency | utils.py:14-17 | a missing amount reads "$0.00"; every result starts with "$" |
| Utils.LeadingSpacesSpec | utils.py:31 | the leading run is whitespace and is followed by non-whitespace |
| Utils.TrailingSpacesSpec | utils.py:31 | the trailing run is whitespace and is preceded by non-whitespace |
| Utils.StripSpec | utils.py:31 | `strip()` is empty exactly for all-whitespace text, otherwise begins and ends with non-whitespace, and adds no NUL |
| Utils.Strip | utils.py:112 | `strip()` never lengthens the text; StripSpec states what it removes |
| Utils.StripPadding | utils.py:31-39 | whitespace added at either end does not change the stripped text |
| Utils.LeadingSpacesOfPrefix | utils.py:31 | appending a character extends the leading whitespace run only when the text is all whitespace |
| Utils.ValidateExpenseInput | utils.py:30-42 | accepted exactly when the description has a non-whitespace character and at most 200 characters once stripped, and the amount is present and positive |
| Utils.ValidationIgnoresPadding | utils.py:31-39 | padding a description with whitespace does not change the verdict |
| Utils.BlankDescriptionRejected | utils.py:31-32 | a blank description is rejected, and it is one the categorizer files under `Other` |
| Utils.CollapseSingleSpaced | utils.py:112 | after `re.sub(r'\s+', ' ', ...)` whitespace occurs only as single spaces |
| Utils.CollapseFirst | utils.py:112 | a non-whitespace first character stays first |
| Utils.CollapseLast | utils.py:112 | a non-whitespace last character stays last |
| Utils.CollapseSpaces | utils.py:112 | `re.sub(r'\s+', ' ', ...)` never lengthens the text; CollapseSingleSpaced states its result |
| Utils.CollapseNoNul | utils.py:112 | collapsing adds no NUL |
| Utils.RemoveNulSpec | utils.py:115 | `replace('\x00', '')` leaves no NUL |
| Utils.RemoveNul | utils.py:115 | `replace('\x00', '')` never lengthens the text; RemoveNulSpec states that no NUL is left |
| Utils.SanitizeInput | utils.py:103-117 | a non-string gives ""; no result contains a NUL |
| Utils.SanitizeKeepsContent | utils.py:103-117 | sanitising keeps every character other than whitespace and NUL, in order |
| Utils.SanitizeWithoutNul | utils.py:111-117 | text without NUL is sanitised into the stored form: no whitespace at the ends, single spaces only |
| Utils.SanitizeNulFirstIsTidy | utils.py:111-115 | with NULs removed first the result is always in the stored form |
| Utils.SanitizeInputNulFirst | utils.py:103-115 | `sanitize_input` with NULs removed before the whitespace clean-up |
| Utils.SanitizeInputKeepsSpacesBesideNul | utils.py:111-115 | "\0 a" gives " a" and "a \0 b" gives "a  b", so the result is not in the stored form |
| Utils.LeadingNulKeepsSpace | utils.py:111-115 | "\0 a" gives " a", which is not in the stored form, where removing NULs first gives "a" |
| Utils.InnerNulKeepsDoubleSpace | utils.py:111-115 | "a \0 b" gives "a  b" |
| Utils.CategorizeAmount | utils.py:129-136 | each amount gets the one bucket whose range holds it, with inclusive upper bounds 10, 50 and 200 |
| Utils.CategorizeAmountMonotone | utils.py:129-136 | a larger amount never gets a cheaper bucket |
| Utils.AmountLabelsDistinct | utils.py:130-136 | different buckets print different labels |
| Utils.GetMonthName | utils.py:148-156 | "Unknown" exactly outside 1 to 12, and otherwise one of the twelve names |
| Utils.MonthNamesDistinct | utils.py:148-151 | the twelve months have twelve different names |
| Utils.ValidDateHasMonthName | utils.py:153-154 | every valid date's month has a name |
| Utils.CalculatePercentageChange | utils.py:169-172 | with a nonzero baseline the result times the baseline is 100 times the difference; with a zero baseline it is 100 exactly for a positive current value and 0 otherwise |
| Utils.AgreesWithMonthlyChange | utils.py:169-172 | for a positive baseline, or a zero one and a non-negative current value, it agrees with the monthly analysis' change |
| Utils.DisagreesOnNegativeCurrent | utils.py:169-170 | for a zero baseline and current value -5 this helper gives 0 where the monthly analysis gives 100 |
| Utils.PrefixSlice | utils.py:200 | `text[:stop]` is a prefix, of length min(stop, len) and, for negative stop, max(0, len + stop) |
| Utils.TruncateText | utils.py:197-200 | text that fits is unchanged; otherwise the result is a prefix plus "...", exactly `max_length` long when the limit is at least 3 |
| Utils.TruncateTextDefault | utils.py:186-200 | with the default limit 50 the result has at most 50 characters: the text when it fits, else its first 47 and "..." |
| Utils.TruncateTextIdempotent | utils.py:197-200 | with a limit of at least 3 the result fits and truncating it again changes nothing |
| Utils.TruncateTextShortLimit | utils.py:200 | a limit of 2 turns "abcdef" into "abcde...", longer than the limit |
| Utils.ValidCategoriesAreCategorizerOutputs | utils.py:212-217 | the whitelist is exactly the categorizer's eight categories and `Other` |
| Utils.IsValidCategory | utils.py:212-217 | membership in the nine-name whitelist |
| Utils.SuggestedCategoryIsValid | utils.py:212-217 | every category the categorizer suggests passes the whitelist |

## Left out

- Storage, the user interface and the date-string helpers (`parse_date_input`, `validate_date_format`) are out of scope. The model reads an already loaded, already parsed frame.
- pandas' `Timestamp` range is not modelled. `pd.to_datetime` raises `OutOfBoundsDatetime` for a record dated before 1677-09-21 or after 2262-04-11, which sends each operation to its `except` branch: the monthly analysis and the forecast return `None`, the insights `[]` and the query its error text. The model takes every record date in years 1 to 9999 as the date itself, so for such frames it returns what the operation would compute on the dates. The same holds for the clock: the model compares `now` with the record dates in every year 1 to 9999. A pandas version that raises when a `datetime64[ns]` column is compared with a `datetime` outside that range (ai_features.py:90-98, 181, 205-206, 269-280) would return `None` from the monthly analysis, `[]` from the insights (so no high-spending entries for a clock in January of year 1) and the error text from the query.
- The clock is the `now` parameter, and `datetime.now()` is not modelled.
- The `print` calls and the exception message texts are left out. A caught exception in the query is the `Failed` reply.
- The `details` strings of the query answers and the `"$...:.2f"` formatting inside them are left out. Each answer carries the values those strings are built from.
- The column projection of the `data` preview is left out: whole rows are kept.
- `LinearRegression` is replaced by the closed-form least-squares solution its `fit` computes for one feature. The model does not follow floating-point rounding.
- All amounts are exact reals. Binary floating-point rounding, NaN and infinities are not modelled, except the NaN mean of no rows, which is `None`.
- `str.lower()` folds ASCII letters only; Unicode case mappings are not modelled.
- The in-place writes of `expenses_df['date']` and `expenses_df['month_year']` are left out: they only convert the columns the model already holds as dates and months.
- QueryInterpreter.RankedSpec: proves that the ranking is ordered by amount and is a permutation. It does not prove how `nlargest`/`nsmallest` order equal amounts; the model keeps frame order for ties.
- Utils.FormatCurrency: models only the `None` case exactly. The other case is a dollar sign followed by the `grouped` parameter, which stands for Python's `format(amount, ",.2f")`; thousands grouping and decimal rounding are not modelled.
- Utils.SanitizeInput: a non-string argument is `None`. The model does not tell different non-string values apart, since all of them give "".

## Findings

| source | as written | input that shows it | evidently intended | confidence | as-written member | corrected member |
|---|---|---|---|---|---|---|
| utils.py:111-115 | whitespace is stripped and collapsed before NULs are removed, so whitespace that a NUL kept apart survives | `"\0 a"` gives `" a"`; `"a \0 b"` gives `"a  b"` | no whitespace at either end and single spaces only, which the comment "Remove excessive whitespace" asks for | medium, not executed | Utils.SanitizeInputKeepsSpacesBesideNul | Utils.SanitizeNulFirstIsTidy |
| ai_features.py:277-278 | "this month" keeps every row dated from the month start on, with no upper bound, while the monthly analysis (ai_features.py:90-93) stops at now | now 2024-03-15 00:00 and one row of 5.0 dated 2024-03-20: the "this month" rows are that row and a total over them is 5.0, while the monthly analysis' current month is 0.0 | "this month" means the month to date, as the monthly analysis reads it | low, not executed | QueryInterpreter.ThisMonthCountsFutureRows | QueryInterpreter.ThisMonthToDateIsCurrentMonth |
