/** Next-month forecast of `ExpenseAI` (ai_features.py,
    `predict_next_month_spending`): a least-squares line through the monthly
    totals against their positions 0, 1, ..., N - 1, evaluated at N and
    clamped at 0. The fit is written in closed form. */
module Forecaster {
  import opened Wrappers
  import opened Ledger
  import Sorting

  /** `groupby('month_year')['amount'].sum()`: one total per calendar month
      present, in chronological order. */
  function MonthlyTotals(xs: seq<Expense>): seq<real> {
    GroupTotals(GroupKeys(xs, MonthKey, Sorting.IntLess), xs, MonthKey)
  }

  /** 0 + 1 + ... + (n - 1). */
  function PositionSum(n: nat): real {
    if n == 0 then 0.0 else PositionSum(n - 1) + (n - 1) as real
  }

  /** 0^2 + 1^2 + ... + (n - 1)^2. */
  function PositionSquareSum(n: nat): real {
    if n == 0 then 0.0 else PositionSquareSum(n - 1) + ((n - 1) as real) * ((n - 1) as real)
  }

  /** The sum of i * ys[i]. */
  function WeightedSum(ys: seq<real>): real {
    if ys == [] then 0.0 else WeightedSum(ys[..|ys| - 1]) + (|ys[..|ys| - 1]| as real) * ys[|ys| - 1]
  }

  lemma {:induction false} PositionSumsStep(k: nat, n: nat)
    requires n == k + 1
    ensures PositionSum(n) == PositionSum(k) + k as real
    ensures PositionSquareSum(n) == PositionSquareSum(k) + (k as real) * (k as real)
  {
  }

  /** 2 (0 + 1 + ... + (n - 1)) = n (n - 1). */
  lemma {:induction false} PositionSumClosedForm(n: nat)
    ensures 2.0 * PositionSum(n) == (n as real) * (n as real - 1.0)
  {
    if n > 0 {
      PositionSumClosedForm(n - 1);
      SumClosedStep((n - 1) as real, n as real, PositionSum(n - 1), PositionSum(n));
    }
  }

  /** 6 (0^2 + 1^2 + ... + (n - 1)^2) = n (n - 1) (2n - 1). */
  lemma {:induction false} PositionSquareSumClosedForm(n: nat)
    ensures 6.0 * PositionSquareSum(n) == (n as real) * (n as real - 1.0) * (2.0 * (n as real) - 1.0)
  {
    if n > 0 {
      PositionSquareSumClosedForm(n - 1);
      SquareClosedStep((n - 1) as real, n as real, PositionSquareSum(n - 1), PositionSquareSum(n));
    }
  }

  /** The closed forms 2 Sx = n (n - 1) and 6 Sxx = n (n - 1) (2n - 1). */
  lemma {:induction false} PositionSumsClosedForm(n: nat)
    ensures 2.0 * PositionSum(n) == (n as real) * (n as real - 1.0)
    ensures 6.0 * PositionSquareSum(n) == (n as real) * (n as real - 1.0) * (2.0 * (n as real) - 1.0)
  {
    PositionSumClosedForm(n);
    PositionSquareSumClosedForm(n);
  }

  /** One induction step of the closed form of Sx, on plain reals. */
  lemma SumClosedStep(k: real, n: real, sx: real, sx': real)
    requires n == k + 1.0
    requires 2.0 * sx == k * (k - 1.0) && sx' == sx + k
    ensures 2.0 * sx' == n * (n - 1.0)
  {
  }

  /** One induction step of the closed form of Sxx, on plain reals. */
  lemma SquareClosedStep(k: real, n: real, sxx: real, sxx': real)
    requires n == k + 1.0
    requires 6.0 * sxx == k * (k - 1.0) * (2.0 * k - 1.0) && sxx' == sxx + k * k
    ensures 6.0 * sxx' == n * (n - 1.0) * (2.0 * n - 1.0)
  {
    assert 6.0 * sxx' == k * (k - 1.0) * (2.0 * k - 1.0) + 6.0 * k * k;
  }

  /** The determinant n Sxx - Sx^2 of the normal equations for n positions. */
  function Determinant(n: nat): real {
    (n as real) * PositionSquareSum(n) - PositionSum(n) * PositionSum(n)
  }

  /** 12 times the determinant is n^2 (n^2 - 1). */
  lemma {:induction false} DeterminantClosedForm(n: nat)
    requires n >= 2
    ensures 12.0 * Determinant(n) == (n as real) * (n as real) * ((n as real) * (n as real) - 1.0)
  {
    PositionSumsClosedForm(n);
    DeterminantAlgebra(n as real, PositionSum(n), PositionSquareSum(n), Determinant(n));
  }

  /** Two or more positions determine a unique line. */
  lemma {:induction false} DeterminantPositive(n: nat)
    requires n >= 2
    ensures Determinant(n) > 0.0
  {
    PositionSumsClosedForm(n);
    DeterminantAlgebra(n as real, PositionSum(n), PositionSquareSum(n), Determinant(n));
  }

  lemma DeterminantAlgebra(n: real, sx: real, sxx: real, d: real)
    requires n >= 2.0
    requires 2.0 * sx == n * (n - 1.0) && 6.0 * sxx == n * (n - 1.0) * (2.0 * n - 1.0)
    requires d == n * sxx - sx * sx
    ensures 12.0 * d == n * n * (n * n - 1.0)
    ensures d > 0.0
  {
    assert 144.0 * d == 12.0 * n * (12.0 * sxx) - (12.0 * sx) * (12.0 * sx);
    assert 144.0 * d == 12.0 * n * n * (n * n - 1.0);
    assert n * n >= 4.0;
    assert n * n * (n * n - 1.0) > 0.0;
  }

  /** A fitted line `slope * x + intercept`. */
  datatype Line = Line(slope: real, intercept: real) {
    function At(x: real): real { slope * x + intercept }
  }

  /** The least-squares line for n points from their sums: positions `sx`,
      squared positions `sxx`, values `sy`, position-weighted values `sxy`. */
  function LeastSquares(n: real, sx: real, sxx: real, sy: real, sxy: real): (l: Line)
    requires n > 0.0 && n * sxx - sx * sx > 0.0
    ensures sy == l.slope * sx + l.intercept * n
    ensures sxy == l.slope * sxx + l.intercept * sx
  {
    var m := (n * sxy - sx * sy) / (n * sxx - sx * sx);
    var c := (sy - m * sx) / n;
    DivisionCancels(n * sxy - sx * sy, n * sxx - sx * sx);
    DivisionCancels(sy - m * sx, n);
    SolveNormal(n, sx, sxx, sy, sxy, m, c);
    Line(m, c)
  }

  lemma DivisionCancels(x: real, d: real)
    requires d != 0.0
    ensures (x / d) * d == x
  {
  }

  /** The normal equations for the line m * i + c, from the closed-form
      relations between m, c and the sums. */
  lemma SolveNormal(n: real, sx: real, sxx: real, sy: real, sxy: real, m: real, c: real)
    requires n > 0.0
    requires m * (n * sxx - sx * sx) == n * sxy - sx * sy
    requires c * n == sy - m * sx
    ensures sy == m * sx + c * n
    ensures sxy == m * sxx + c * sx
  {
    var e := sxy - m * sxx - c * sx;
    assert n * e == n * sxy - m * (n * sxx) - (c * n) * sx;
    assert n * e == n * sxy - m * (n * sxx) - (sy - m * sx) * sx;
    assert n * e == (n * sxy - sx * sy) - m * (n * sxx - sx * sx);
  }

  /** The normal equations have one solution: a line satisfying them is
      the least-squares line. */
  lemma LeastSquaresUnique(n: real, sx: real, sxx: real, sy: real, sxy: real, a: real, b: real)
    requires n > 0.0 && n * sxx - sx * sx > 0.0
    requires sy == a * sx + b * n
    requires sxy == a * sxx + b * sx
    ensures LeastSquares(n, sx, sxx, sy, sxy) == Line(a, b)
  {
    var l := LeastSquares(n, sx, sxx, sy, sxy);
    var dm, dc := l.slope - a, l.intercept - b;
    assert dm * sx + dc * n == 0.0;
    assert dm * sxx + dc * sx == 0.0;
    assert dm * (n * sxx - sx * sx) == n * (dm * sxx + dc * sx) - sx * (dm * sx + dc * n);
    assert dm * (n * sxx - sx * sx) == 0.0;
  }

  /** `LinearRegression().fit(X, y)` with X = 0 .. |ys| - 1 and y = ys: the
      line minimising the squared residuals, which by `LeastSquares` solves
      the normal equations (residuals summing to zero and uncorrelated with
      the positions). */
  function Fit(ys: seq<real>): Line
    requires |ys| >= 2
  {
    DeterminantPositive(|ys|);
    LeastSquares(|ys| as real, PositionSum(|ys|), PositionSquareSum(|ys|), Sum(ys), WeightedSum(ys))
  }

  /** The fitted line's value at position `x` (`model.predict([[x]])[0]`). */
  function Fitted(ys: seq<real>, x: real): real
    requires |ys| >= 2
  {
    Fit(ys).At(x)
  }

  /** Every value lies exactly on the line a * i + b. */
  ghost predicate OnLine(ys: seq<real>, a: real, b: real) {
    forall i :: 0 <= i < |ys| ==> ys[i] == a * (i as real) + b
  }

  /** `OnLine`, checked from the last value backwards. */
  ghost predicate OnLineFromEnd(ys: seq<real>, a: real, b: real) {
    ys == [] || (OnLineFromEnd(ys[..|ys| - 1], a, b) && ys[|ys| - 1] == a * (|ys[..|ys| - 1]| as real) + b)
  }

  lemma {:induction false} OnLineFromEndHolds(ys: seq<real>, a: real, b: real)
    requires OnLine(ys, a, b)
    ensures OnLineFromEnd(ys, a, b)
  {
    if ys != [] {
      var init := ys[..|ys| - 1];
      forall i | 0 <= i < |init| ensures init[i] == a * (i as real) + b {
        assert init[i] == ys[i];
      }
      OnLineFromEndHolds(init, a, b);
    }
  }

  /** Appending the point (k, a * k + b) to a sum over k points on the
      line keeps the sum equal to what the line gives for n = k + 1 points. */
  lemma SumStep(a: real, b: real, k: real, n: real, y: real, s: real, sx: real, s': real, sx': real)
    requires n == k + 1.0 && y == a * k + b
    requires s == a * sx + b * k
    requires s' == s + y && sx' == sx + k
    ensures s' == a * sx' + b * n
  {
  }

  /** The same for the weighted sum of i * y_i. */
  lemma WeightedStep(a: real, b: real, k: real, y: real,
                     w: real, sx: real, sxx: real, w': real, sx': real, sxx': real)
    requires y == a * k + b
    requires w == a * sxx + b * sx
    requires w' == w + k * y && sx' == sx + k && sxx' == sxx + k * k
    ensures w' == a * sxx' + b * sx'
  {
  }

  /** The sum of values lying exactly on the line a * i + b. */
  lemma {:induction false} SumOnLine(ys: seq<real>, a: real, b: real)
    requires OnLineFromEnd(ys, a, b)
    ensures Sum(ys) == a * PositionSum(|ys|) + b * (|ys| as real)
  {
    if ys == [] {
      assert Sum(ys) == 0.0 && PositionSum(|ys|) == 0.0;
    } else {
      var init := ys[..|ys| - 1];
      SumOnLine(init, a, b);
      SumSnoc(ys);
      PositionSumsStep(|init|, |ys|);
      SumStep(a, b, |init| as real, |ys| as real, ys[|ys| - 1],
        Sum(init), PositionSum(|init|), Sum(ys), PositionSum(|ys|));
    }
  }

  /** The weighted sum of values lying exactly on the line a * i + b. */
  lemma {:induction false} WeightedSumOnLine(ys: seq<real>, a: real, b: real)
    requires OnLineFromEnd(ys, a, b)
    ensures WeightedSum(ys) == a * PositionSquareSum(|ys|) + b * PositionSum(|ys|)
  {
    if ys == [] {
      assert WeightedSum(ys) == 0.0 && PositionSum(|ys|) == 0.0 && PositionSquareSum(|ys|) == 0.0;
    } else {
      var init := ys[..|ys| - 1];
      WeightedSumOnLine(init, a, b);
      PositionSumsStep(|init|, |ys|);
      WeightedStep(a, b, |init| as real, ys[|ys| - 1],
        WeightedSum(init), PositionSum(|init|), PositionSquareSum(|init|),
        WeightedSum(ys), PositionSum(|ys|), PositionSquareSum(|ys|));
    }
  }

  /** Both sums of values lying exactly on the line a * i + b. */
  lemma {:induction false} LineSums(ys: seq<real>, a: real, b: real)
    requires OnLine(ys, a, b)
    ensures Sum(ys) == a * PositionSum(|ys|) + b * (|ys| as real)
    ensures WeightedSum(ys) == a * PositionSquareSum(|ys|) + b * PositionSum(|ys|)
  {
    OnLineFromEndHolds(ys, a, b);
    SumOnLine(ys, a, b);
    WeightedSumOnLine(ys, a, b);
  }

  /** The sums of the values determine the fit: values whose sums are
      those of the line a * i + b are fitted by that line. */
  lemma {:induction false} FitFromSums(ys: seq<real>, a: real, b: real)
    requires |ys| >= 2
    requires Sum(ys) == a * PositionSum(|ys|) + b * (|ys| as real)
    requires WeightedSum(ys) == a * PositionSquareSum(|ys|) + b * PositionSum(|ys|)
    ensures Fit(ys) == Line(a, b)
  {
    DeterminantPositive(|ys|);
    LeastSquaresUnique(|ys| as real, PositionSum(|ys|), PositionSquareSum(|ys|), Sum(ys), WeightedSum(ys), a, b);
  }

  /** Values on an exact line are fitted exactly. */
  lemma {:induction false} FitRecoversLine(ys: seq<real>, a: real, b: real)
    requires |ys| >= 2
    requires OnLine(ys, a, b)
    ensures Fit(ys) == Line(a, b)
  {
    LineSums(ys, a, b);
    FitFromSums(ys, a, b);
  }

  /** Two points: the line through both, continued one step. */
  lemma FitTwoMonths(t0: real, t1: real)
    ensures Fitted([t0, t1], 2.0) == 2.0 * t1 - t0
  {
    assert OnLine([t0, t1], t1 - t0, t0);
    FitRecoversLine([t0, t1], t1 - t0, t0);
  }

  /** `ExpenseAI.predict_next_month_spending`: `None` for fewer than three
      records or fewer than two distinct months, otherwise the fitted value
      at the next position, never negative. */
  function PredictNextMonthSpending(xs: seq<Expense>): (r: Option<real>)
    ensures r.Some? ==> r.value >= 0.0
  {
    if |xs| < 3 then None
    else
      var totals := MonthlyTotals(xs);
      if |totals| < 2 then None
      else Some(Forecast(totals))
  }

  /** `max(0, x)`. */
  function Clamp(x: real): (r: real)
    ensures r >= 0.0 && (r == x || r == 0.0)
  {
    if x > 0.0 then x else 0.0
  }

  /** `max(0, prediction)` of the line fitted to `totals`, at the position
      after the last one. */
  function Forecast(totals: seq<real>): (r: real)
    requires |totals| >= 2
    ensures r >= 0.0
  {
    Clamp(Fitted(totals, |totals| as real))
  }

  /** Totals on a straight line are continued along it, clamped at 0. */
  lemma {:induction false} ForecastContinuesLine(totals: seq<real>, a: real, b: real)
    requires |totals| >= 2
    requires OnLine(totals, a, b)
    ensures Forecast(totals) == Clamp(a * (|totals| as real) + b)
  {
    FitRecoversLine(totals, a, b);
  }

  /** How much the value at position `i` exceeds the one before it. */
  function Increase(ys: seq<real>, i: nat): real
    requires 0 < i < |ys|
  {
    ys[i] - ys[i - 1]
  }

  /** Every value exceeds the one before it by the same amount `d`. */
  ghost predicate Steady(ys: seq<real>, d: real) {
    forall i :: 0 < i < |ys| ==> Increase(ys, i) == d
  }

  /** One step along the line a * x + b. */
  lemma LineNext(a: real, b: real, x: real, x': real, y: real)
    requires y == a * x + b && x' == x + 1.0
    ensures a * x' + b == y + a
  {
  }

  /** Dropping the last value keeps the values steady. */
  lemma SteadyInit(ys: seq<real>, d: real)
    requires ys != [] && Steady(ys, d)
    ensures Steady(ys[..|ys| - 1], d)
  {
    var init := ys[..|ys| - 1];
    forall i | 0 < i < |init| ensures Increase(init, i) == d {
      assert Increase(init, i) == Increase(ys, i);
    }
  }

  /** A line through all but the last value that the last value is also on
      passes through every value. */
  lemma OnLineSnoc(ys: seq<real>, a: real, b: real)
    requires ys != [] && OnLine(ys[..|ys| - 1], a, b)
    requires ys[|ys| - 1] == a * ((|ys| - 1) as real) + b
    ensures OnLine(ys, a, b)
  {
    forall i | 0 <= i < |ys| - 1 ensures ys[i] == a * (i as real) + b {
      assert ys[i] == ys[..|ys| - 1][i];
    }
  }

  /** Values changing by `d` at every step lie on the line d * i + ys[0]. */
  lemma {:induction false} SteadyOnLine(ys: seq<real>, d: real)
    requires ys != [] && Steady(ys, d)
    ensures OnLine(ys, d, ys[0])
  {
    if |ys| > 1 {
      var k := |ys| - 1;
      var init := ys[..k];
      SteadyInit(ys, d);
      SteadyOnLine(init, d);
      assert init[0] == ys[0] && init[k - 1] == ys[k - 1];
      assert ys[k] == ys[k - 1] + d by { assert Increase(ys, k) == d; }
      LineNext(d, ys[0], (k - 1) as real, k as real, ys[k - 1]);
      OnLineSnoc(ys, d, ys[0]);
    }
  }

  /** The line through steady values, one step past the last of them, is
      the last value plus `d`. */
  lemma SteadyNext(ys: seq<real>, d: real)
    requires ys != [] && Steady(ys, d)
    ensures d * (|ys| as real) + ys[0] == ys[|ys| - 1] + d
  {
    SteadyOnLine(ys, d);
    var k := |ys| - 1;
    assert ys[k] == d * (k as real) + ys[0];
    LineNext(d, ys[0], k as real, |ys| as real, ys[k]);
  }

  /** Totals that change by the same amount `d` every month keep changing by
      it: the forecast is the last total plus `d`, clamped at 0. */
  lemma {:induction false} ForecastContinuesTrend(totals: seq<real>, d: real)
    requires |totals| >= 2 && Steady(totals, d)
    ensures Forecast(totals) == Clamp(totals[|totals| - 1] + d)
  {
    SteadyOnLine(totals, d);
    SteadyNext(totals, d);
    ForecastContinuesLine(totals, d, totals[0]);
  }

  /** The records span at least two calendar months. */
  ghost predicate SpansTwoMonths(xs: seq<Expense>) {
    exists i, j :: 0 <= i < |xs| && 0 <= j < |xs| && MonthKey(xs[i]) != MonthKey(xs[j])
  }

  /** The monthly totals: one per month present, chronological, adding up
      to the frame's total. */
  lemma {:induction false} MonthlyTotalsSpec(xs: seq<Expense>)
    ensures Sorting.StrictlySorted(GroupKeys(xs, MonthKey, Sorting.IntLess), Sorting.IntLess)
    ensures forall k :: k in GroupKeys(xs, MonthKey, Sorting.IntLess) <==>
      exists i :: 0 <= i < |xs| && MonthKey(xs[i]) == k
    ensures Sum(MonthlyTotals(xs)) == SumAmounts(xs)
  {
    Sorting.IntLessIsStrictTotalOrder();
    GroupKeysSpec(xs, MonthKey, Sorting.IntLess);
    GroupByConservesTotal(xs, MonthKey, Sorting.IntLess);
  }

  /** Two or more monthly totals exactly when the records span two months. */
  lemma {:induction false} TwoTotalsIff(xs: seq<Expense>)
    ensures |MonthlyTotals(xs)| >= 2 <==> SpansTwoMonths(xs)
  {
    Sorting.IntLessIsStrictTotalOrder();
    GroupKeysSpec(xs, MonthKey, Sorting.IntLess);
    var keys := GroupKeys(xs, MonthKey, Sorting.IntLess);
    if |keys| >= 2 {
      assert keys[0] in keys && keys[1] in keys;
      assert keys[0] < keys[1];
      var i :| 0 <= i < |xs| && MonthKey(xs[i]) == keys[0];
      var j :| 0 <= j < |xs| && MonthKey(xs[j]) == keys[1];
      assert MonthKey(xs[i]) != MonthKey(xs[j]);
    }
    if SpansTwoMonths(xs) {
      var i, j :| 0 <= i < |xs| && 0 <= j < |xs| && MonthKey(xs[i]) != MonthKey(xs[j]);
      assert MonthKey(xs[i]) in keys && MonthKey(xs[j]) in keys;
    }
  }

  /** There is a forecast exactly when there are at least three records
      spread over at least two months. */
  lemma {:induction false} PredictDefinedIff(xs: seq<Expense>)
    ensures PredictNextMonthSpending(xs).Some? <==> |xs| >= 3 && SpansTwoMonths(xs)
  {
    TwoTotalsIff(xs);
  }

  /** Monthly totals that change by the same amount `d` every month are
      continued by it: the prediction is the last month's total plus `d`,
      clamped at 0. */
  lemma {:induction false} PredictContinuesLinearTrend(xs: seq<Expense>, d: real)
    requires |xs| >= 3 && |MonthlyTotals(xs)| >= 2
    requires Steady(MonthlyTotals(xs), d)
    ensures PredictNextMonthSpending(xs) == Some(Clamp(MonthlyTotals(xs)[|MonthlyTotals(xs)| - 1] + d))
  {
    var t := MonthlyTotals(xs);
    PredictIsForecast(xs);
    ForecastContinuesTrend(t, d);
  }

  lemma {:induction false} PredictIsForecast(xs: seq<Expense>)
    requires |xs| >= 3 && |MonthlyTotals(xs)| >= 2
    ensures PredictNextMonthSpending(xs) == Some(Forecast(MonthlyTotals(xs)))
  {
  }

  /** With two months of totals t0 and t1 the forecast is max(0, 2 t1 - t0):
      100 then 200 forecasts 300. */
  lemma {:induction false} PredictTwoMonths(xs: seq<Expense>)
    requires |xs| >= 3 && |MonthlyTotals(xs)| == 2
    ensures var t := MonthlyTotals(xs);
      PredictNextMonthSpending(xs) == Some(Clamp(2.0 * t[1] - t[0]))
  {
    var t := MonthlyTotals(xs);
    assert Steady(t, t[1] - t[0]);
    PredictContinuesLinearTrend(xs, t[1] - t[0]);
    assert t[1] + (t[1] - t[0]) == 2.0 * t[1] - t[0];
  }
}
