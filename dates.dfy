/**
 * Calendar dates as Python's `datetime.date` handles them: proleptic
 * Gregorian (year, month, day) triples, the ordinal day number that
 * `date.toordinal()` returns (1 January of year 1 is day 1), date
 * subtraction in whole days, `weekday()` and the month arithmetic the
 * services use.
 */
module Dates {

  datatype Date = Date(year: int, month: int, day: int)

  predicate IsLeap(y: int) {
    y % 4 == 0 && (y % 100 != 0 || y % 400 == 0)
  }

  function DaysInMonth(y: int, m: int): (n: int)
    requires 1 <= m <= 12
    ensures 28 <= n <= 31
    ensures m == 2 ==> (n == 29 <==> IsLeap(y))
  {
    if m == 2 then (if IsLeap(y) then 29 else 28)
    else if m == 4 || m == 6 || m == 9 || m == 11 then 30
    else 31
  }

  /** A date `datetime.date` can represent (the upper bound of year 9999 is not modelled). */
  predicate Valid(d: Date) {
    1 <= d.year && 1 <= d.month <= 12 && 1 <= d.day <= DaysInMonth(d.year, d.month)
  }

  /** Number of days in the years before year `y`. */
  function DaysBeforeYear(y: int): int
    requires 1 <= y
  {
    var p := y - 1;
    p * 365 + p / 4 - p / 100 + p / 400
  }

  /** Number of days in year `y` before the first day of month `m`. */
  function DaysBeforeMonth(y: int, m: int): int
    requires 1 <= m <= 12
  {
    var leap := if IsLeap(y) && m > 2 then 1 else 0;
    leap + (
      if m == 1 then 0 else if m == 2 then 31 else if m == 3 then 59
      else if m == 4 then 90 else if m == 5 then 120 else if m == 6 then 151
      else if m == 7 then 181 else if m == 8 then 212 else if m == 9 then 243
      else if m == 10 then 273 else if m == 11 then 304 else 334)
  }

  /** `date.toordinal()`. */
  function ToOrdinal(d: Date): int
    requires Valid(d)
  {
    DaysBeforeYear(d.year) + DaysBeforeMonth(d.year, d.month) + d.day
  }

  /** `(b - a).days`: the signed number of days from `a` to `b`. */
  function DaysBetween(a: Date, b: Date): int
    requires Valid(a) && Valid(b)
  {
    ToOrdinal(b) - ToOrdinal(a)
  }

  /** `d + timedelta(days=1)`. */
  function NextDay(d: Date): (r: Date)
    requires Valid(d)
    ensures Valid(r)
  {
    if d.day < DaysInMonth(d.year, d.month) then Date(d.year, d.month, d.day + 1)
    else if d.month < 12 then Date(d.year, d.month + 1, 1)
    else Date(d.year + 1, 1, 1)
  }

  /** `d + timedelta(days=n)` for a non-negative `n`. */
  function AddDays(d: Date, n: nat): (r: Date)
    requires Valid(d)
    ensures Valid(r)
    decreases n
  {
    if n == 0 then d else AddDays(NextDay(d), n - 1)
  }

  /** `d - timedelta(days=1)`; 1 January of year 1 has no predecessor. */
  function PrevDay(d: Date): (r: Date)
    requires Valid(d) && d != Date(1, 1, 1)
    ensures Valid(r) && NextDay(r) == d
  {
    if d.day > 1 then Date(d.year, d.month, d.day - 1)
    else if d.month > 1 then Date(d.year, d.month - 1, DaysInMonth(d.year, d.month - 1))
    else Date(d.year - 1, 12, 31)
  }

  /** `d - timedelta(days=n)`, defined when the result is still a representable date. */
  function SubDays(d: Date, n: nat): (r: Date)
    requires Valid(d) && n < ToOrdinal(d)
    ensures Valid(r) && ToOrdinal(r) == ToOrdinal(d) - n
    decreases n
  {
    if n == 0 then d
    else
      assert d != Date(1, 1, 1);
      NextDayOrdinal(PrevDay(d));
      SubDays(PrevDay(d), n - 1)
  }

  /** `today - timedelta(days=today.weekday())`: the Monday of the week of `today`. */
  function WeekStart(today: Date): (r: Date)
    requires Valid(today)
    ensures Valid(r) && DaysBetween(r, today) == Weekday(today)
  {
    var w := Weekday(today);
    assert w < ToOrdinal(today) by {
      var o := ToOrdinal(today);
      if o < 7 {
        DivModUnique(o + 6, 7, 1, o - 1);
      }
    }
    SubDays(today, w)
  }

  /** Lexicographic order on (year, month, day): the order of `date` objects. */
  predicate Before(a: Date, b: Date) {
    a.year < b.year
    || (a.year == b.year && a.month < b.month)
    || (a.year == b.year && a.month == b.month && a.day < b.day)
  }

  predicate OnOrBefore(a: Date, b: Date) {
    a == b || Before(a, b)
  }

  /** `d.replace(day=1)`, the first day of the month of `d`. */
  function MonthStart(d: Date): (r: Date)
    requires Valid(d)
    ensures Valid(r) && r.day == 1 && r.year == d.year && r.month == d.month
  {
    Date(d.year, d.month, 1)
  }

  /** The first day of the month after the month of `d`. */
  function NextMonthStart(d: Date): (r: Date)
    requires Valid(d)
    ensures Valid(r) && r.day == 1 && Before(d, r)
    ensures r.month == (if d.month == 12 then 1 else d.month + 1)
  {
    if d.month == 12 then Date(d.year + 1, 1, 1) else Date(d.year, d.month + 1, 1)
  }

  /** `d.replace(day=k)`; Python raises when `k` is not a day of that month. */
  function ReplaceDay(d: Date, k: int): (r: Date)
    requires Valid(d) && 1 <= k <= DaysInMonth(d.year, d.month)
    ensures Valid(r) && r.day == k
  {
    Date(d.year, d.month, k)
  }

  /** `date.weekday()`: Monday is 0 and Sunday is 6. */
  function Weekday(d: Date): (w: int)
    requires Valid(d)
    ensures 0 <= w <= 6
  {
    (ToOrdinal(d) + 6) % 7
  }

  // ---------------------------------------------------------------- lemmas

  lemma DivStep(p: int, k: int)
    requires 0 <= p && 0 < k
    ensures (p + 1) / k - p / k == (if (p + 1) % k == 0 then 1 else 0)
  {
    var q, r := p / k, p % k;
    assert p == q * k + r && 0 <= r < k;
    if r + 1 < k {
      DivModUnique(p + 1, k, q, r + 1);
    } else {
      DivModUnique(p + 1, k, q + 1, 0);
    }
  }

  lemma DivModUnique(x: int, k: int, q: int, r: int)
    requires 0 < k && x == q * k + r && 0 <= r < k
    ensures x / k == q && x % k == r
  {
    var q', r' := x / k, x % k;
    assert x == q' * k + r' && 0 <= r' < k;
    assert (q - q') * k == q * k - q' * k;
    if q > q' {
      MulAtLeast(q - q', k);
    } else if q < q' {
      MulAtLeast(q' - q, k);
    }
  }

  lemma {:induction false} MulAtLeast(a: int, k: int)
    requires 1 <= a && 0 < k
    ensures a * k >= k
    decreases a
  {
    if a > 1 {
      MulAtLeast(a - 1, k);
      assert a * k == (a - 1) * k + k;
    }
  }

  /** Year `y` holds 365 days, or 366 in a leap year. */
  lemma {:induction false} DaysBeforeNextYear(y: int)
    requires 1 <= y
    ensures DaysBeforeYear(y + 1) == DaysBeforeYear(y) + (if IsLeap(y) then 366 else 365)
  {
    var p := y - 1;
    DivStep(p, 4);
    DivStep(p, 100);
    DivStep(p, 400);
    var a := (p + 1) / 4 - p / 4;
    var b := (p + 1) / 100 - p / 100;
    var c := (p + 1) / 400 - p / 400;
    assert DaysBeforeYear(y + 1) == DaysBeforeYear(y) + 365 + a - b + c;
    if y % 100 == 0 {
      DivModUnique(y, 4, (y / 100) * 25, 0);
    }
    if y % 400 == 0 {
      DivModUnique(y, 100, (y / 400) * 4, 0);
    }
    assert a - b + c == (if IsLeap(y) then 1 else 0);
  }

  /** Adding one day adds one to the ordinal, across month and year ends. */
  lemma {:induction false} NextDayOrdinal(d: Date)
    requires Valid(d)
    ensures ToOrdinal(NextDay(d)) == ToOrdinal(d) + 1
  {
    if d.day == DaysInMonth(d.year, d.month) && d.month == 12 {
      DaysBeforeNextYear(d.year);
    }
  }

  lemma {:induction false} AddDaysOrdinal(d: Date, n: nat)
    requires Valid(d)
    ensures ToOrdinal(AddDays(d, n)) == ToOrdinal(d) + n
    decreases n
  {
    if n > 0 {
      NextDayOrdinal(d);
      AddDaysOrdinal(NextDay(d), n - 1);
    }
  }

  lemma {:induction false} DaysBeforeYearMonotone(a: int, b: int)
    requires 1 <= a <= b
    ensures DaysBeforeYear(b) - DaysBeforeYear(a) >= 365 * (b - a)
    decreases b - a
  {
    if a < b {
      DaysBeforeNextYear(a);
      DaysBeforeYearMonotone(a + 1, b);
    }
  }

  /** The ordinal is strictly increasing in the order of dates. */
  lemma {:induction false} OrdinalMonotone(a: Date, b: Date)
    requires Valid(a) && Valid(b) && Before(a, b)
    ensures ToOrdinal(a) < ToOrdinal(b)
  {
    if a.year < b.year {
      DaysBeforeNextYear(a.year);
      DaysBeforeYearMonotone(a.year + 1, b.year);
      assert DaysBeforeMonth(a.year, a.month) + a.day <= (if IsLeap(a.year) then 366 else 365);
    } else if a.month < b.month {
      assert DaysBeforeMonth(a.year, a.month) + DaysInMonth(a.year, a.month) <= DaysBeforeMonth(b.year, b.month);
    }
  }

  /** Distinct valid dates have distinct ordinals. */
  lemma OrdinalInjective(a: Date, b: Date)
    requires Valid(a) && Valid(b)
    ensures ToOrdinal(a) == ToOrdinal(b) <==> a == b
  {
    if Before(a, b) { OrdinalMonotone(a, b); }
    else if Before(b, a) { OrdinalMonotone(b, a); }
  }

  /** `(b - a).days == 0` exactly when the two dates are equal. */
  lemma SameDayIffNoGap(a: Date, b: Date)
    requires Valid(a) && Valid(b)
    ensures DaysBetween(a, b) == 0 <==> a == b
  {
    OrdinalInjective(a, b);
  }

  /** `(b - a).days == 1` exactly when `b` is the day after `a`. */
  lemma OneDayGapIffNextDay(a: Date, b: Date)
    requires Valid(a) && Valid(b)
    ensures DaysBetween(a, b) == 1 <==> b == NextDay(a)
  {
    NextDayOrdinal(a);
    OrdinalInjective(NextDay(a), b);
  }

  /** The date order agrees with the order of ordinals. */
  lemma BeforeIffOrdinal(a: Date, b: Date)
    requires Valid(a) && Valid(b)
    ensures Before(a, b) <==> ToOrdinal(a) < ToOrdinal(b)
  {
    if Before(a, b) { OrdinalMonotone(a, b); }
    else if Before(b, a) { OrdinalMonotone(b, a); }
  }

  /**
   * `(month_start.replace(day=28) + timedelta(days=4)).replace(day=1)` is the
   * first day of the next month, whatever the length of the month.
   */
  lemma {:induction false} NextMonthTrick(d: Date)
    requires Valid(d)
    ensures var late := AddDays(ReplaceDay(d, 28), 4);
            late.year == NextMonthStart(d).year && late.month == NextMonthStart(d).month
            && ReplaceDay(late, 1) == NextMonthStart(d)
  {
    var d28 := ReplaceDay(d, 28);
    var d29 := NextDay(d28);
    var d30 := NextDay(d29);
    var d31 := NextDay(d30);
    var d32 := NextDay(d31);
    assert AddDays(d28, 4) == d32 by {
      assert AddDays(d28, 4) == AddDays(d29, 3) == AddDays(d30, 2) == AddDays(d31, 1) == AddDays(d32, 0);
    }
  }

  /** A date lies between the start of its month (inclusive) and the start of the next month (exclusive). */
  lemma InMonthIffSameMonth(t: Date, d: Date)
    requires Valid(t) && Valid(d)
    ensures (OnOrBefore(MonthStart(t), d) && Before(d, NextMonthStart(t)))
            <==> (d.year == t.year && d.month == t.month)
  {
  }

  /**
   * Every day from the Monday of the current week (`today - timedelta(days=today.weekday())`)
   * up to `today` has a weekday that many days before today's: the window holds no day of an
   * earlier week and begins on a Monday.
   */
  lemma {:induction false} WeekWindow(today: Date, d: Date)
    requires Valid(today) && Valid(d)
    requires 0 <= DaysBetween(d, today) <= Weekday(today)
    ensures Weekday(d) == Weekday(today) - DaysBetween(d, today)
  {
    var g := DaysBetween(d, today);
    var x := ToOrdinal(today) + 6;
    var q := x / 7;
    assert x == q * 7 + Weekday(today);
    DivModUnique(ToOrdinal(d) + 6, 7, q, Weekday(today) - g);
  }

  /**
   * The week window `monday <= d <= today` holds exactly the days at most
   * `today.weekday()` days before today, and it starts on a Monday.
   */
  lemma InWeekIffGap(today: Date, d: Date)
    requires Valid(today) && Valid(d)
    ensures Weekday(WeekStart(today)) == 0
    ensures OnOrBefore(WeekStart(today), d) && OnOrBefore(d, today)
            <==> 0 <= DaysBetween(d, today) <= Weekday(today)
  {
    var m := WeekStart(today);
    WeekWindow(today, m);
    BeforeIffOrdinal(m, d);
    BeforeIffOrdinal(d, today);
    OrdinalInjective(m, d);
    OrdinalInjective(d, today);
  }
}
