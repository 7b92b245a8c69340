/** The expense records the engine reads and the pandas operations it applies
    to them: boolean-mask filters (which keep row order), column sums and
    means, and `groupby(key)['amount'].sum()` with its sorted keys. */
module Ledger {
  import opened Wrappers
  import opened Calendar
  import Sorting

  /** One row of the expense frame. The amount is exact (`real`); the store's
      `created_at` column only orders the rows and is not part of the model. */
  datatype Expense = Expense(id: int, description: string, amount: real, category: string, date: Date)

  /** A frame's `['amount'].sum()`: 0 for no rows. */
  function SumAmounts(xs: seq<Expense>): real {
    if xs == [] then 0.0 else xs[0].amount + SumAmounts(xs[1..])
  }

  lemma {:induction false} SumAmountsConcat(xs: seq<Expense>, ys: seq<Expense>)
    ensures SumAmounts(xs + ys) == SumAmounts(xs) + SumAmounts(ys)
  {
    if xs != [] {
      assert (xs + ys)[1..] == xs[1..] + ys;
      SumAmountsConcat(xs[1..], ys);
    } else {
      assert xs + ys == ys;
    }
  }

  lemma {:induction false} SumAmountsNonNegative(xs: seq<Expense>)
    requires forall i :: 0 <= i < |xs| ==> xs[i].amount >= 0.0
    ensures SumAmounts(xs) >= 0.0
  {
    if xs != [] { SumAmountsNonNegative(xs[1..]); }
  }

  /** A frame's `['amount'].mean()`; `None` stands for the NaN of no rows. */
  function Mean(xs: seq<Expense>): (r: Option<real>)
    ensures r.None? <==> xs == []
    ensures r.Some? ==> r.value * (|xs| as real) == SumAmounts(xs)
  {
    if xs == [] then None else Some(SumAmounts(xs) / (|xs| as real))
  }

  /** `df[(df['date'] >= start) & (df['date'] <= end)]`. */
  function Select(xs: seq<Expense>, w: Window): (r: seq<Expense>)
    ensures |r| <= |xs|
    ensures forall e :: e in r <==> e in xs && InWindow(e.date, w)
  {
    if xs == [] then []
    else (if InWindow(xs[0].date, w) then [xs[0]] else []) + Select(xs[1..], w)
  }

  /** The rows whose date satisfies `p`, in frame order: a reference
      definition the window filters are compared with. */
  ghost function Where(xs: seq<Expense>, p: Date -> bool): seq<Expense> {
    if xs == [] then [] else (if p(xs[0].date) then [xs[0]] else []) + Where(xs[1..], p)
  }

  /** A window filter selects exactly the rows whose date satisfies any
      predicate that agrees with the window on the frame's dates. */
  lemma {:induction false} SelectIsWhere(xs: seq<Expense>, w: Window, p: Date -> bool)
    requires forall i :: 0 <= i < |xs| ==> (InWindow(xs[i].date, w) <==> p(xs[i].date))
    ensures Select(xs, w) == Where(xs, p)
  {
    if xs != [] { SelectIsWhere(xs[1..], w, p); }
  }

  /** A filter without bounds keeps the frame as it is. */
  lemma {:induction false} SelectUnbounded(xs: seq<Expense>)
    ensures Select(xs, UNBOUNDED) == xs
  {
    if xs != [] {
      SelectUnbounded(xs[1..]);
      assert xs == [xs[0]] + xs[1..];
    }
  }

  /** Two filters with the same verdict on every row select the same rows. */
  lemma {:induction false} SelectSameVerdict(xs: seq<Expense>, v: Window, w: Window)
    requires forall i :: 0 <= i < |xs| ==> (InWindow(xs[i].date, v) <==> InWindow(xs[i].date, w))
    ensures Select(xs, v) == Select(xs, w)
  {
    if xs != [] { SelectSameVerdict(xs[1..], v, w); }
  }

  /** Group keys used by the engine. */
  function CategoryKey(e: Expense): string { e.category }
  function MonthKey(e: Expense): int { MonthIndex(e.date) }

  /** `df[key(df) == k]`: the rows in group `k`, in frame order. */
  function WithKey<K(==)>(xs: seq<Expense>, key: Expense -> K, k: K): (r: seq<Expense>)
    ensures |r| <= |xs|
    ensures forall e :: e in r <==> e in xs && key(e) == k
  {
    if xs == [] then []
    else (if key(xs[0]) == k then [xs[0]] else []) + WithKey(xs[1..], key, k)
  }

  /** The frame restricted to category `c` (`df[df['category'] == c]`). */
  function OfCategory(xs: seq<Expense>, c: string): seq<Expense> {
    WithKey(xs, CategoryKey, c)
  }

  /** `df.groupby(key)['amount'].sum()[k]`. */
  function GroupTotal<K(==)>(xs: seq<Expense>, key: Expense -> K, k: K): real {
    SumAmounts(WithKey(xs, key, k))
  }

  /** The keys of `df.groupby(key)`: each key of a row once, sorted by `less`. */
  function GroupKeys<K(==)>(xs: seq<Expense>, key: Expense -> K, less: (K, K) -> bool): seq<K> {
    if xs == [] then [] else Sorting.Insert(GroupKeys(xs[1..], key, less), key(xs[0]), less)
  }

  /** The group keys are exactly the keys of the rows, strictly sorted. */
  lemma {:induction false} GroupKeysSpec<K(!new)>(xs: seq<Expense>, key: Expense -> K, less: (K, K) -> bool)
    requires Sorting.StrictTotalOrder(less)
    ensures Sorting.StrictlySorted(GroupKeys(xs, key, less), less)
    ensures forall k :: k in GroupKeys(xs, key, less) <==> exists i :: 0 <= i < |xs| && key(xs[i]) == k
  {
    if xs != [] {
      GroupKeysSpec(xs[1..], key, less);
      Sorting.InsertSorted(GroupKeys(xs[1..], key, less), key(xs[0]), less);
      Sorting.InsertElements(GroupKeys(xs[1..], key, less), key(xs[0]), less);
      forall k ensures k in GroupKeys(xs, key, less) <==> exists i :: 0 <= i < |xs| && key(xs[i]) == k {
        if k in GroupKeys(xs[1..], key, less) {
          var i :| 0 <= i < |xs[1..]| && key(xs[1..][i]) == k;
          assert key(xs[i + 1]) == k;
        }
        if exists i :: 0 <= i < |xs| && key(xs[i]) == k {
          var i :| 0 <= i < |xs| && key(xs[i]) == k;
          if i > 0 { assert key(xs[1..][i - 1]) == k; }
        }
      }
    }
  }

  /** The group totals listed in key order. */
  function GroupTotals<K(==)>(keys: seq<K>, xs: seq<Expense>, key: Expense -> K): (r: seq<real>)
    ensures |r| == |keys|
    ensures forall i :: 0 <= i < |keys| ==> r[i] == GroupTotal(xs, key, keys[i])
  {
    if keys == [] then [] else [GroupTotal(xs, key, keys[0])] + GroupTotals(keys[1..], xs, key)
  }

  function Sum(s: seq<real>): real {
    if s == [] then 0.0 else s[0] + Sum(s[1..])
  }

  /** `Sum` peels off the last element as well as the first. */
  lemma {:induction false} SumSnoc(s: seq<real>)
    requires s != []
    ensures Sum(s) == Sum(s[..|s| - 1]) + s[|s| - 1]
  {
    if |s| > 1 {
      SumSnoc(s[1..]);
      assert s[1..][..|s[1..]| - 1] == s[..|s| - 1][1..];
    }
  }

  /** Moving one row to the front adds its amount to the total of its own
      group and to no other. */
  lemma {:induction false} GroupTotalsCons<K>(keys: seq<K>, x: Expense, xs: seq<Expense>, key: Expense -> K)
    requires Sorting.NoDuplicates(keys)
    ensures Sum(GroupTotals(keys, [x] + xs, key))
      == (if key(x) in keys then x.amount else 0.0) + Sum(GroupTotals(keys, xs, key))
  {
    if keys != [] {
      assert ([x] + xs)[1..] == xs;
      assert WithKey([x] + xs, key, keys[0])
        == (if key(x) == keys[0] then [x] else []) + WithKey(xs, key, keys[0]);
      SumAmountsConcat(if key(x) == keys[0] then [x] else [], WithKey(xs, key, keys[0]));
      assert Sorting.NoDuplicates(keys[1..]);
      GroupTotalsCons(keys[1..], x, xs, key);
      assert key(x) in keys <==> key(x) == keys[0] || key(x) in keys[1..];
      if key(x) == keys[0] {
        assert key(x) !in keys[1..];
      }
    }
  }

  /** Grouping loses and duplicates nothing: the group totals add up to the
      frame's total, for any duplicate-free key list covering every row. */
  lemma {:induction false} GroupTotalsPartition<K>(keys: seq<K>, xs: seq<Expense>, key: Expense -> K)
    requires Sorting.NoDuplicates(keys)
    requires forall i :: 0 <= i < |xs| ==> key(xs[i]) in keys
    ensures Sum(GroupTotals(keys, xs, key)) == SumAmounts(xs)
  {
    if xs == [] {
      ZeroTotals(keys, key);
    } else {
      assert xs == [xs[0]] + xs[1..];
      GroupTotalsCons(keys, xs[0], xs[1..], key);
      GroupTotalsPartition(keys, xs[1..], key);
    }
  }

  lemma {:induction false} ZeroTotals<K>(keys: seq<K>, key: Expense -> K)
    ensures Sum(GroupTotals(keys, [], key)) == 0.0
  {
    if keys != [] { ZeroTotals(keys[1..], key); }
  }

  /** The totals of `df.groupby(key)['amount'].sum()` add up to the frame's total. */
  lemma GroupByConservesTotal<K(!new)>(xs: seq<Expense>, key: Expense -> K, less: (K, K) -> bool)
    requires Sorting.StrictTotalOrder(less)
    ensures Sum(GroupTotals(GroupKeys(xs, key, less), xs, key)) == SumAmounts(xs)
  {
    var keys := GroupKeys(xs, key, less);
    GroupKeysSpec(xs, key, less);
    Sorting.SortedHasNoDuplicates(keys, less);
    GroupTotalsPartition(keys, xs, key);
  }
}
