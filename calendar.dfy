/** Python `datetime` arithmetic as the analytical engine uses it: dates in
    the proleptic Gregorian calendar, a clock reading `now` that also carries
    a time of day, `replace(day=1)` and subtraction of whole days, and the
    closed date windows that the pandas filters select. */
module Calendar {
  import opened Wrappers

  const MIN_YEAR := 1
  const MAX_YEAR := 9999
  /** Microseconds in a day: the resolution of a `datetime` time of day. */
  const TICKS_PER_DAY := 86_400_000_000

  datatype Date = Date(year: int, month: int, day: int)

  /** A `datetime`: a date and the microseconds elapsed since its midnight.
      A record's date converted by `pd.to_datetime` is at midnight (tick 0). */
  datatype Moment = Moment(date: Date, tick: int)

  predicate IsLeapYear(y: int) {
    y % 4 == 0 && (y % 100 != 0 || y % 400 == 0)
  }

  function DaysInMonth(y: int, m: int): (n: int)
    requires 1 <= m <= 12
    ensures 28 <= n <= 31
  {
    if m == 2 then (if IsLeapYear(y) then 29 else 28)
    else if m == 4 || m == 6 || m == 9 || m == 11 then 30
    else 31
  }

  /** A calendar date, ignoring the year range. */
  predicate WellFormed(d: Date) {
    1 <= d.month <= 12 && 1 <= d.day <= DaysInMonth(d.year, d.month)
  }

  /** A date Python's `date` type can represent. */
  predicate ValidDate(d: Date) {
    WellFormed(d) && MIN_YEAR <= d.year <= MAX_YEAR
  }

  predicate ValidMoment(t: Moment) {
    ValidDate(t.date) && 0 <= t.tick < TICKS_PER_DAY
  }

  /** Chronological order of dates. */
  predicate DateLess(a: Date, b: Date) {
    a.year < b.year
    || (a.year == b.year && a.month < b.month)
    || (a.year == b.year && a.month == b.month && a.day < b.day)
  }

  /** Chronological order of moments. */
  predicate Before(a: Moment, b: Moment) {
    DateLess(a.date, b.date) || (a.date == b.date && a.tick < b.tick)
  }

  function Midnight(d: Date): Moment {
    Moment(d, 0)
  }

  /** `d` is `today` or an earlier date. */
  predicate NotAfter(d: Date, today: Date) {
    !DateLess(today, d)
  }

  /** `d - timedelta(days=1)` on dates; past year 1 it keeps counting
      backwards, where Python would have raised instead. */
  function PrevDay(d: Date): (r: Date)
    requires WellFormed(d)
    ensures WellFormed(r)
  {
    if d.day > 1 then Date(d.year, d.month, d.day - 1)
    else if d.month > 1 then Date(d.year, d.month - 1, DaysInMonth(d.year, d.month - 1))
    else Date(d.year - 1, 12, 31)
  }

  /** `PrevDay` is the immediate predecessor: earlier, with no well-formed
      date strictly between it and `d`. */
  lemma PrevDayIsPredecessor(d: Date, e: Date)
    requires WellFormed(d) && WellFormed(e)
    ensures DateLess(PrevDay(d), d)
    ensures DateLess(PrevDay(d), e) ==> !DateLess(e, d)
  {
  }

  /** `t - timedelta(days=n)`: the time of day is kept. */
  function MinusDays(t: Moment, n: nat): (r: Moment)
    requires WellFormed(t.date)
    ensures WellFormed(r.date) && r.tick == t.tick
    decreases n
  {
    if n == 0 then t else MinusDays(Moment(PrevDay(t.date), t.tick), n - 1)
  }

  /** `t.replace(day=1)`: the 1st of the same month, same time of day. */
  function FirstOfMonth(t: Moment): Moment {
    Moment(Date(t.date.year, t.date.month, 1), t.tick)
  }

  /** `t.replace(month=1, day=1)`. */
  function FirstOfYear(t: Moment): Moment {
    Moment(Date(t.date.year, 1, 1), t.tick)
  }

  /** `current_month_start - timedelta(days=1)` stays inside Python's date
      range exactly when `now` is not in January of year 1. */
  predicate HasPreviousMonth(now: Moment) {
    !(now.date.year == MIN_YEAR && now.date.month == 1)
  }

  /** `current_month_start - timedelta(days=1)`: the last day of the previous
      month, at now's time of day. */
  function PreviousMonthEnd(now: Moment): Moment
    requires 1 <= now.date.month <= 12
  {
    MinusDays(FirstOfMonth(now), 1)
  }

  /** `(current_month_start - timedelta(days=1)).replace(day=1)`. */
  function PreviousMonthStart(now: Moment): Moment
    requires 1 <= now.date.month <= 12
  {
    FirstOfMonth(PreviousMonthEnd(now))
  }

  /** A pandas filter `start <= date <= end`; a missing bound is no test. */
  datatype Window = Window(start: Option<Moment>, end: Option<Moment>)

  const UNBOUNDED := Window(None, None)

  /** A record dated `d` (at midnight) passes the filter of `w`. */
  predicate InWindow(d: Date, w: Window) {
    && (w.start.None? || !Before(Midnight(d), w.start.value))
    && (w.end.None? || !Before(w.end.value, Midnight(d)))
  }

  /** `date >= current_month_start` and `date <= now`. */
  function CurrentMonthWindow(now: Moment): Window {
    Window(Some(FirstOfMonth(now)), Some(now))
  }

  /** `date >= current_month_start` alone, with no upper bound. */
  function FromMonthStart(now: Moment): Window {
    Window(Some(FirstOfMonth(now)), None)
  }

  /** `date >= previous_month_start` and `date <= previous_month_end`. */
  function PreviousMonthWindow(now: Moment): Window
    requires 1 <= now.date.month <= 12
  {
    Window(Some(PreviousMonthStart(now)), Some(PreviousMonthEnd(now)))
  }

  /** Months counted from year 0: consecutive calendar months differ by 1. */
  function MonthIndex(d: Date): int {
    d.year * 12 + d.month - 1
  }

  lemma MonthIndexChronological(a: Date, b: Date)
    requires WellFormed(a) && WellFormed(b)
    ensures MonthIndex(a) < MonthIndex(b)
      <==> a.year < b.year || (a.year == b.year && a.month < b.month)
    ensures MonthIndex(a) == MonthIndex(b) <==> a.year == b.year && a.month == b.month
  {
  }

  /** The current-month window holds the days of now's calendar month up to
      and including today; the 1st only when now is exactly midnight, since
      `replace(day=1)` keeps the time of day. */
  lemma CurrentMonthWindowIff(d: Date, now: Moment)
    requires WellFormed(d) && ValidMoment(now)
    ensures InWindow(d, CurrentMonthWindow(now))
      <==> MonthIndex(d) == MonthIndex(now.date) && d.day <= now.date.day
           && (d.day > 1 || now.tick == 0)
  {
  }

  /** The open-ended window from the current month's start holds every day
      of now's month and every later month; the 1st of now's month only when
      now is exactly midnight. */
  lemma FromMonthStartIff(d: Date, now: Moment)
    requires WellFormed(d) && ValidMoment(now)
    ensures InWindow(d, FromMonthStart(now))
      <==> MonthIndex(d) > MonthIndex(now.date)
           || (MonthIndex(d) == MonthIndex(now.date) && (d.day > 1 || now.tick == 0))
  {
  }

  /** The previous-month window is the whole previous calendar month, except
      its 1st when now is not exactly midnight. */
  lemma PreviousMonthWindowIff(d: Date, now: Moment)
    requires WellFormed(d) && ValidMoment(now)
    ensures InWindow(d, PreviousMonthWindow(now))
      <==> MonthIndex(d) == MonthIndex(now.date) - 1 && (d.day > 1 || now.tick == 0)
  {
    var end := PreviousMonthEnd(now);
    assert end.date.day == DaysInMonth(end.date.year, end.date.month);
  }
}
