/**
 * Calendar dates as the committee code uses them: Python `datetime.date` values,
 * `relativedelta(months=n)` month arithmetic with end-of-month clamping,
 * `timedelta(days=n)` day arithmetic and `calendar.monthrange`.
 */
module Dates {
  import opened Common

  /** A calendar date (year, month 1..12, day 1..days in that month when valid). */
  datatype Date = Date(year: int, month: int, day: int)

  /** Gregorian leap years. */
  predicate IsLeapYear(y: int)
  {
    (y % 4 == 0 && y % 100 != 0) || y % 400 == 0
  }

  /** `calendar.monthrange(y, m)[1]`: the number of days of month `m` of year `y`. */
  function DaysInMonth(y: int, m: int): (n: int)
    requires 1 <= m <= 12
    ensures 28 <= n <= 31
    ensures m == 2 ==> (n == 29 <==> IsLeapYear(y)) && n <= 29
    ensures m != 2 ==> 30 <= n
    ensures m == 1 || m == 3 || m == 5 || m == 7 || m == 8 || m == 10 || m == 12 ==> n == 31
  {
    if m == 2 then (if IsLeapYear(y) then 29 else 28)
    else if m == 4 || m == 6 || m == 9 || m == 11 then 30
    else 31
  }

  /** The dates Python can represent (the year range is not bounded here). */
  predicate ValidDate(d: Date)
  {
    1 <= d.month <= 12 && 1 <= d.day <= DaysInMonth(d.year, d.month)
  }

  /** `a < b` on dates: chronological order. */
  predicate Before(a: Date, b: Date)
  {
    a.year < b.year || (a.year == b.year && (a.month < b.month || (a.month == b.month && a.day < b.day)))
  }

  /** The number of months from January of year 0 to the month of `d`: the identity of a calendar month. */
  function MonthIndex(d: Date): int
  {
    d.year * 12 + (d.month - 1)
  }

  /** Two dates in the same calendar year and month (`for_month__year`, `for_month__month`). */
  predicate SameMonth(a: Date, b: Date)
  {
    a.year == b.year && a.month == b.month
  }

  /** The first day of the month whose index is `index`. */
  function MonthStart(index: int): (d: Date)
    ensures ValidDate(d) && d.day == 1
    ensures MonthIndex(d) == index
  {
    Date(index / 12, index % 12 + 1, 1)
  }

  /** A month index determines the year and the month. */
  lemma {:induction false} MonthIndexInjective(a: Date, b: Date)
    requires 1 <= a.month <= 12 && 1 <= b.month <= 12
    ensures MonthIndex(a) == MonthIndex(b) <==> SameMonth(a, b)
  {
    if a.year < b.year {
      assert MonthIndex(a) <= a.year * 12 + 11 < (a.year + 1) * 12 <= MonthIndex(b);
    } else if b.year < a.year {
      assert MonthIndex(b) <= b.year * 12 + 11 < (b.year + 1) * 12 <= MonthIndex(a);
    }
  }

  /** Chronological order on months follows the month index. */
  lemma {:induction false} MonthIndexOrder(a: Date, b: Date)
    requires 1 <= a.month <= 12 && 1 <= b.month <= 12
    requires MonthIndex(a) < MonthIndex(b)
    ensures Before(a, b)
  {
  }

  /** The first day of the month after the month of `d`, spelled out. */
  lemma {:induction false} FollowingMonth(d: Date)
    requires 1 <= d.month <= 12
    ensures d.month < 12 ==> MonthStart(MonthIndex(d) + 1) == Date(d.year, d.month + 1, 1)
    ensures d.month == 12 ==> MonthStart(MonthIndex(d) + 1) == Date(d.year + 1, 1, 1)
  {
    var n := MonthStart(MonthIndex(d) + 1);
    var e := if d.month < 12 then Date(d.year, d.month + 1, 1) else Date(d.year + 1, 1, 1);
    assert MonthIndex(e) == MonthIndex(d) + 1;
    MonthIndexInjective(n, e);
  }

  /**
   * `d + relativedelta(months=n)`: the same day of the month `n` months later,
   * clamped to the last day of that month.
   */
  function AddMonths(d: Date, n: int): (r: Date)
    requires ValidDate(d)
    ensures ValidDate(r)
    ensures MonthIndex(r) == MonthIndex(d) + n
    ensures r.day <= d.day
    ensures r.day == d.day || r.day == DaysInMonth(r.year, r.month)
  {
    var m := MonthStart(MonthIndex(d) + n);
    Date(m.year, m.month, Min(d.day, DaysInMonth(m.year, m.month)))
  }

  /** Adding no months gives the date back. */
  lemma {:induction false} AddMonthsZero(d: Date)
    requires ValidDate(d)
    ensures AddMonths(d, 0) == d
  {
    var r := AddMonths(d, 0);
    MonthIndexInjective(r, d);
  }

  /** Adding at least one month gives a strictly later date. */
  lemma {:induction false} AddMonthsAdvances(d: Date, n: int)
    requires ValidDate(d) && n >= 1
    ensures Before(d, AddMonths(d, n))
  {
    MonthIndexOrder(d, AddMonths(d, n));
  }

  /** The date of the first day of the month after the month of `d`. */
  function FollowingMonthStart(d: Date): (r: Date)
    requires ValidDate(d)
    ensures ValidDate(r) && r.day == 1
    ensures MonthIndex(r) == MonthIndex(d) + 1
    ensures Before(d, r)
  {
    var r := MonthStart(MonthIndex(d) + 1);
    MonthIndexOrder(d, r);
    r
  }

  /** `d + timedelta(days=n)`. */
  function AddDays(d: Date, n: nat): (r: Date)
    requires ValidDate(d)
    ensures ValidDate(r)
    ensures MonthIndex(d) <= MonthIndex(r)
    ensures n == 0 ==> r == d
    ensures MonthIndex(r) == MonthIndex(d) ==> r.day == d.day + n
    decreases n
  {
    var last := DaysInMonth(d.year, d.month);
    if d.day + n <= last then Date(d.year, d.month, d.day + n)
    else AddDays(FollowingMonthStart(d), n - (last - d.day + 1))
  }

  /**
   * `(d + timedelta(days=31)).replace(day=1)`: the committee code's step to
   * "the next month".
   */
  function NextMonthStart(d: Date): (r: Date)
    requires ValidDate(d)
    ensures ValidDate(r) && r.day == 1
  {
    var later := AddDays(d, 31);
    Date(later.year, later.month, 1)
  }

  /**
   * The 31-day step lands in the following month exactly when the days left of
   * `d`'s month plus the days of the following month reach 31 days past `d`;
   * otherwise it lands two months later.
   */
  lemma {:induction false} NextMonthStartIndex(d: Date)
    requires ValidDate(d)
    ensures var following := FollowingMonthStart(d);
            MonthIndex(NextMonthStart(d)) ==
              MonthIndex(d) + (if d.day + 31 - DaysInMonth(d.year, d.month) <= DaysInMonth(following.year, following.month) then 1 else 2)
  {
    var last := DaysInMonth(d.year, d.month);
    var n1 := FollowingMonthStart(d);
    var k := 31 - (last - d.day + 1);
    assert AddDays(d, 31) == AddDays(n1, k);
    var last1 := DaysInMonth(n1.year, n1.month);
    if 1 + k <= last1 {
      assert AddDays(n1, k) == Date(n1.year, n1.month, 1 + k);
    } else {
      var n2 := FollowingMonthStart(n1);
      assert AddDays(n1, k) == AddDays(n2, k - last1);
      assert AddDays(n2, k - last1) == Date(n2.year, n2.month, 1 + k - last1);
    }
  }

  /** From any day up to the 28th the 31-day step reaches the following month. */
  lemma {:induction false} NextMonthStartFromEarlyDay(d: Date)
    requires ValidDate(d) && d.day <= 28
    ensures NextMonthStart(d) == FollowingMonthStart(d)
  {
    NextMonthStartIndex(d);
    FollowingMonth(d);
    MonthIndexInjective(NextMonthStart(d), FollowingMonthStart(d));
  }
}
