/**
  Calendar dates of the proleptic Gregorian calendar, as Python's `datetime.date`
  represents them, with the two pieces of date arithmetic the expense tracker
  uses: stepping by whole days (`date - timedelta(days=n)`, `date + timedelta(days=n)`)
  and `date.replace(day=1)`.
*/
module Dates {

  datatype Date = Date(year: int, month: int, day: int)

  predicate IsLeapYear(y: int) {
    (y % 4 == 0 && y % 100 != 0) || y % 400 == 0
  }

  function DaysInMonth(y: int, m: int): (n: int)
    ensures 28 <= n <= 31
    ensures n == 28 <==> m == 2 && !IsLeapYear(y)
  {
    if m == 2 then (if IsLeapYear(y) then 29 else 28)
    else if m == 4 || m == 6 || m == 9 || m == 11 then 30
    else 31
  }

  /** A date that `datetime.date` can hold (the year range 1..9999 is not modelled). */
  predicate Valid(d: Date) {
    1 <= d.month <= 12 && 1 <= d.day <= DaysInMonth(d.year, d.month)
  }

  /** Chronological order: `a <= b` on `datetime.date`. */
  predicate LessEq(a: Date, b: Date) {
    a.year < b.year ||
    (a.year == b.year && (a.month < b.month || (a.month == b.month && a.day <= b.day)))
  }

  predicate Before(a: Date, b: Date) {
    LessEq(a, b) && a != b
  }

  lemma LessEqTransitive(a: Date, b: Date, c: Date)
    requires LessEq(a, b) && LessEq(b, c)
    ensures LessEq(a, c)
  {
  }

  /** The day before `d`. */
  function PrevDay(d: Date): (p: Date)
    requires Valid(d)
    ensures Valid(p) && Before(p, d)
  {
    if d.day > 1 then Date(d.year, d.month, d.day - 1)
    else if d.month > 1 then Date(d.year, d.month - 1, DaysInMonth(d.year, d.month - 1))
    else Date(d.year - 1, 12, 31)
  }

  /** The day after `d`; `PrevDay` undoes it. */
  function NextDay(d: Date): (n: Date)
    requires Valid(d)
    ensures Valid(n) && Before(d, n)
    ensures PrevDay(n) == d
  {
    if d.day < DaysInMonth(d.year, d.month) then Date(d.year, d.month, d.day + 1)
    else if d.month < 12 then Date(d.year, d.month + 1, 1)
    else Date(d.year + 1, 1, 1)
  }

  /** `d - timedelta(days=n)`. */
  function SubtractDays(d: Date, n: nat): (r: Date)
    requires Valid(d)
    ensures Valid(r) && LessEq(r, d)
    ensures n > 0 ==> Before(r, d)
    decreases n
  {
    if n == 0 then d
    else
      var p := SubtractDays(PrevDay(d), n - 1);
      LessEqTransitive(p, PrevDay(d), d);
      p
  }

  /** `d + timedelta(days=n)`. */
  function AddDays(d: Date, n: nat): (r: Date)
    requires Valid(d)
    ensures Valid(r) && LessEq(d, r)
    ensures n > 0 ==> Before(d, r)
    decreases n
  {
    if n == 0 then d
    else
      var q := AddDays(NextDay(d), n - 1);
      LessEqTransitive(d, NextDay(d), q);
      q
  }

  /** Going forward `n` days and back `n` days returns to the same date. */
  lemma {:induction false} SubtractUndoesAdd(d: Date, n: nat)
    requires Valid(d)
    ensures SubtractDays(AddDays(d, n), n) == d
    decreases n
  {
    if n > 0 {
      SubtractUndoesAdd(NextDay(d), n - 1);
      SubtractDaysSplit(AddDays(d, n), n - 1, 1);
    }
  }

  /** Subtracting `a + b` days is subtracting `a` days, then `b` more. */
  lemma {:induction false} SubtractDaysSplit(d: Date, a: nat, b: nat)
    requires Valid(d)
    ensures SubtractDays(d, a + b) == SubtractDays(SubtractDays(d, a), b)
    decreases a
  {
    if a > 0 {
      SubtractDaysSplit(PrevDay(d), a - 1, b);
    }
  }

  /** Inside one month, subtracting `k` days just lowers the day number. */
  lemma {:induction false} SubtractWithinMonth(d: Date, k: nat)
    requires Valid(d) && k < d.day
    ensures SubtractDays(d, k) == Date(d.year, d.month, d.day - k)
    decreases k
  {
    if k > 0 {
      SubtractWithinMonth(PrevDay(d), k - 1);
    }
  }

  /** `d.replace(day=1)`. */
  function MonthStart(d: Date): (r: Date)
    requires Valid(d)
    ensures Valid(r) && LessEq(r, d)
    ensures r.day == 1 && r.month == d.month && r.year == d.year
  {
    Date(d.year, d.month, 1)
  }

  /** The year and month of the calendar month before `d`'s month. */
  function PreviousMonth(d: Date): (ym: (int, int))
    requires Valid(d)
    ensures 1 <= ym.1 <= 12
  {
    if d.month > 1 then (d.year, d.month - 1) else (d.year - 1, 12)
  }

  /** The last day of the previous month: `month_start - timedelta(days=1)`. */
  function PriorMonthEnd(today: Date): (r: Date)
    requires Valid(today)
    ensures Valid(r) && Before(r, MonthStart(today))
  {
    PrevDay(MonthStart(today))
  }

  /** `(month_start - timedelta(days=30)).replace(day=1)`. */
  function PriorMonthStart(today: Date): (r: Date)
    requires Valid(today)
    ensures Valid(r) && r.day == 1 && LessEq(r, PriorMonthEnd(today))
  {
    var back := SubtractDays(MonthStart(today), 30);
    SubtractDaysSplit(MonthStart(today), 1, 29);
    MonthStart(back)
  }

  /**
    The prior-month window of the dashboard summary: it ends on the last day
    of the previous calendar month, and starts on the first of the previous
    month, except in March, where 30 days back from March 1 lands in January,
    so the window starts on January 1 and spans January and February.
  */
  lemma PriorMonthWindow(today: Date)
    requires Valid(today)
    ensures var (py, pm) := PreviousMonth(today);
      PriorMonthEnd(today) == Date(py, pm, DaysInMonth(py, pm))
    ensures var (py, pm) := PreviousMonth(today);
      PriorMonthStart(today) == if today.month == 3 then Date(today.year, 1, 1) else Date(py, pm, 1)
  {
    var ms := MonthStart(today);
    var (py, pm) := PreviousMonth(today);
    var last := PrevDay(ms);
    assert last == Date(py, pm, DaysInMonth(py, pm));
    var n := DaysInMonth(py, pm);
    SubtractDaysSplit(ms, 1, 29);
    assert SubtractDays(ms, 30) == SubtractDays(last, 29);
    if n >= 30 {
      SubtractWithinMonth(last, 29);
    } else {
      // the previous month is February, with 28 or 29 days
      assert pm == 2 && today.month == 3;
      var feb1 := Date(py, 2, 1);
      SubtractWithinMonth(last, n - 1);
      SubtractDaysSplit(last, n - 1, 30 - n);
      assert SubtractDays(last, 29) == SubtractDays(feb1, 30 - n);
      SubtractDaysSplit(feb1, 1, 29 - n);
      SubtractWithinMonth(Date(py, 1, 31), 29 - n);
    }
  }
}
