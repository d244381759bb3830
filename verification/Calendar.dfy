// Proleptic Gregorian months over Python date ordinals.

module Calendar {
  import opened Common

  // Month index: 12 * year + (month - 1). January of year 1 is 12.
  type Month = nat

  const FIRST_MONTH: nat := 12
  const LAST_MONTH: nat := 12 * 9999 + 11

  function YearOf(m: Month): nat { m / 12 }

  predicate Leap(year: nat) {
    year % 4 == 0 && (year % 100 != 0 || year % 400 == 0)
  }

  function DaysIn(m: Month): (d: nat)
    ensures 28 <= d <= 31
  {
    var k := m % 12;
    if k == 1 then (if Leap(m / 12) then 29 else 28)
    else if k == 3 || k == 5 || k == 8 || k == 10 then 30
    else 31
  }

  // Ordinal of the first of the month; date(1, 1, 1) has ordinal 1.
  function MonthStart(m: Month): (d: nat)
    requires m >= FIRST_MONTH
    ensures d >= 1
  {
    if m == FIRST_MONTH then 1 else MonthStart(m - 1) + DaysIn(m - 1)
  }

  // A date is an ordinal between 0001-01-01 and 9999-12-31.
  ghost predicate IsDate(d: int) {
    1 <= d < MonthStart(LAST_MONTH + 1)
  }

  function SearchMonth(d: nat, m: Month): Month
    requires m >= FIRST_MONTH && MonthStart(m) <= d
    decreases d - MonthStart(m)
  {
    if d < MonthStart(m + 1) then m else SearchMonth(d, m + 1)
  }

  // The month of a date. Ordinals below 1 are no dates; they map to no month.
  function MonthOf(d: int): Month {
    if d < 1 then 0 else SearchMonth(d, FIRST_MONTH)
  }

  lemma {:induction false} SearchMonthFinds(d: nat, m: Month)
    requires m >= FIRST_MONTH && MonthStart(m) <= d
    ensures var r := SearchMonth(d, m); r >= m && MonthStart(r) <= d < MonthStart(r + 1)
    decreases d - MonthStart(m)
  {
    if d >= MonthStart(m + 1) {
      SearchMonthFinds(d, m + 1);
    }
  }

  // A date lies in its month.
  lemma MonthOfHolds(d: int)
    requires d >= 1
    ensures MonthOf(d) >= FIRST_MONTH && MonthStart(MonthOf(d)) <= d < MonthStart(MonthOf(d) + 1)
  {
    SearchMonthFinds(d, FIRST_MONTH);
  }

  lemma {:induction false} MonthStartMonotone(a: Month, b: Month)
    requires FIRST_MONTH <= a < b
    ensures MonthStart(a) < MonthStart(b)
    ensures MonthStart(a + 1) <= MonthStart(b)
  {
    if a + 1 < b {
      MonthStartMonotone(a, b - 1);
    }
  }

  lemma MonthOfUnique(d: int, m: Month)
    requires d >= 1 && m >= FIRST_MONTH && MonthStart(m) <= d < MonthStart(m + 1)
    ensures MonthOf(d) == m
  {
    MonthOfHolds(d);
    var r := MonthOf(d);
    if r < m {
      MonthStartMonotone(r, m);
    } else if m < r {
      MonthStartMonotone(m, r);
    }
  }

  lemma MonthOfMonotone(d: int, e: int)
    requires 1 <= d <= e
    ensures MonthOf(d) <= MonthOf(e)
  {
    MonthOfHolds(d);
    MonthOfHolds(e);
    if MonthOf(e) < MonthOf(d) {
      MonthStartMonotone(MonthOf(e), MonthOf(d));
    }
  }

  lemma DateMonths(d: int)
    requires IsDate(d)
    ensures FIRST_MONTH <= MonthOf(d) <= LAST_MONTH
  {
    MonthOfHolds(d);
    if MonthOf(d) > LAST_MONTH {
      if MonthOf(d) > LAST_MONTH + 1 {
        MonthStartMonotone(LAST_MONTH + 1, MonthOf(d));
      }
    }
  }

  function Span(a: Month, n: nat): (r: seq<Month>)
    ensures |r| == n
    ensures forall k :: 0 <= k < n ==> r[k] == a + k
  {
    seq(n, k requires 0 <= k < n => a + k)
  }

  // Specification: the months from that of `start` to that of `end`; None when the
  // period reaches December 9999.
  function MonthCover(start: int, end: int): Option<seq<Month>>
    requires start >= 1
  {
    if start > end then Some([])
    else
      MonthOfMonotone(start, end);
      if MonthOf(end) >= LAST_MONTH then None else Some(Span(MonthOf(start), MonthOf(end) - MonthOf(start) + 1))
  }

  lemma NextMonth(m: Month, end: int)
    requires m >= FIRST_MONTH && end >= 1
    ensures MonthOf(MonthStart(m + 1)) == m + 1
    ensures MonthStart(m + 1) <= end <==> m + 1 <= MonthOf(end)
  {
    MonthOfUnique(MonthStart(m + 1), m + 1);
    MonthOfHolds(end);
    if MonthStart(m + 1) <= end {
      MonthOfMonotone(MonthStart(m + 1), end);
    } else if m + 1 <= MonthOf(end) {
      MonthOfMonotone(end, MonthStart(m + 1));
    }
  }

  // The loop that lists the months of a period. Stepping past December 9999
  // raises, which is None.
  method MonthsBetween(start: int, end: int) returns (r: Option<seq<Month>>)
    requires IsDate(start) && IsDate(end)
    ensures r == MonthCover(start, end)
  {
    var months: seq<Month> := [];
    var current := start;
    if start > end {
      return Some([]);
    }
    DateMonths(end);
    MonthOfMonotone(start, end);
    while current <= end
      invariant current >= 1 && MonthOf(start) <= MonthOf(current) <= MonthOf(end) + 1
      invariant MonthOf(end) < LAST_MONTH || MonthOf(current) <= LAST_MONTH
      invariant current <= end <==> MonthOf(current) <= MonthOf(end)
      invariant months == Span(MonthOf(start), MonthOf(current) - MonthOf(start))
      decreases MonthOf(end) + 1 - MonthOf(current)
    {
      var pair := MonthOf(current);
      MonthOfHolds(current);
      if pair !in months {
        months := months + [pair];
      }
      if pair == LAST_MONTH {
        return None;
      }
      NextMonth(pair, end);
      current := MonthStart(pair + 1);
      assert months == Span(MonthOf(start), pair + 1 - MonthOf(start));
    }
    r := Some(months);
  }

  // In order, without repeats, exactly the months that have a day in the period.
  lemma CoverExact(start: int, end: int)
    requires 1 <= start <= end && MonthOf(end) < LAST_MONTH
    ensures MonthCover(start, end).Some?
    ensures var ms := MonthCover(start, end).value;
            && (forall i, j :: 0 <= i < j < |ms| ==> ms[i] < ms[j])
            && (forall m :: m in ms <==> exists d :: start <= d <= end && MonthOf(d) == m)
  {
    var ms := MonthCover(start, end).value;
    MonthOfHolds(start);
    MonthOfHolds(end);
    forall m | m in ms
      ensures exists d :: start <= d <= end && MonthOf(d) == m
    {
      if m == MonthOf(start) {
        assert start <= start <= end && MonthOf(start) == m;
      } else {
        MonthStartMonotone(MonthOf(start), m);
        if m < MonthOf(end) {
          MonthStartMonotone(m, MonthOf(end));
        }
        MonthStartMonotone(m, m + 1);
        MonthOfUnique(MonthStart(m), m);
        assert start <= MonthStart(m) <= end && MonthOf(MonthStart(m)) == m;
      }
    }
    forall m | exists d :: start <= d <= end && MonthOf(d) == m
      ensures m in ms
    {
      var d :| start <= d <= end && MonthOf(d) == m;
      MonthOfMonotone(start, d);
      MonthOfMonotone(d, end);
      assert ms[m - MonthOf(start)] == m;
    }
  }

  // --- The calendar from outside ---

  // Days before January of a year, counted from 0001-01-01.
  function DaysBefore(year: nat): int
    requires year >= 1
  {
    365 * (year - 1) + (year - 1) / 4 - (year - 1) / 100 + (year - 1) / 400
  }

  // Days of a common year before its months.
  const BEFORE_MONTH: seq<nat> := [0, 31, 59, 90, 120, 151, 181, 212, 243, 273, 304, 334]

  lemma YearLength(year: nat)
    requires year >= 1
    ensures DaysBefore(year + 1) - DaysBefore(year) == if year % 4 == 0 && (year % 100 != 0 || year % 400 == 0) then 366 else 365
  {
    Quotient(year, 4);
    Quotient(year, 100);
    Quotient(year, 400);
    assert year % 400 == 0 ==> year % 100 == 0;
    assert year % 100 == 0 ==> year % 4 == 0;
  }

  lemma Quotient(year: nat, d: nat)
    requires year >= 1 && (d == 4 || d == 100 || d == 400)
    ensures year / d == (year - 1) / d + (if year % d == 0 then 1 else 0)
  {
  }

  lemma MonthStep(year: nat, k: nat)
    requires year >= 1 && 0 < k < 12
    ensures MonthStart(12 * year + k) - MonthStart(12 * year + k - 1)
         == BEFORE_MONTH[k] - BEFORE_MONTH[k - 1] + (if k == 2 && year % 4 == 0 && (year % 100 != 0 || year % 400 == 0) then 1 else 0)
  {
    assert (12 * year + k - 1) % 12 == k - 1 && (12 * year + k - 1) / 12 == year;
  }

  lemma DecemberStep(year: nat)
    requires year >= 1
    ensures MonthStart(12 * (year + 1)) - MonthStart(12 * year + 11) == 31
  {
    assert (12 * year + 11) % 12 == 11;
  }

  lemma FirstDay()
    ensures MonthStart(12) == 1 && DaysBefore(1) == 0
  {
  }

  // The first day of any month in closed form.
  lemma {:induction false} MonthStartClosed(year: nat, k: nat)
    requires year >= 1 && k < 12
    ensures MonthStart(12 * year + k) == 1 + DaysBefore(year) + BEFORE_MONTH[k]
                                        + (if k >= 2 && year % 4 == 0 && (year % 100 != 0 || year % 400 == 0) then 1 else 0)
    decreases year, k
  {
    hide MonthStart, DaysBefore;
    FirstDay();
    if k > 0 {
      MonthStartClosed(year, k - 1);
      MonthStep(year, k);
    } else if year > 1 {
      MonthStartClosed(year - 1, 11);
      DecemberStep(year - 1);
      YearLength(year - 1);
    }
  }

  lemma CenturiesBefore(year: nat)
    requires year >= 1
    ensures DaysBefore(year + 400) == DaysBefore(year) + 146097
    ensures (year + 400) % 4 == year % 4 && (year + 400) % 100 == year % 100 && (year + 400) % 400 == year % 400
  {
    assert (year + 399) / 4 == (year - 1) / 4 + 100;
    assert (year + 399) / 100 == (year - 1) / 100 + 4;
    assert (year + 399) / 400 == (year - 1) / 400 + 1;
  }

  // Four centuries have 146097 days, and January 2000 starts at ordinal 730120.
  lemma FourCenturies(year: nat, k: nat)
    requires year >= 1 && k < 12
    ensures MonthStart(12 * (year + 400) + k) == MonthStart(12 * year + k) + 146097
    ensures MonthStart(12 * 2000) == 730120
  {
    hide MonthStart, DaysBefore;
    MonthStartClosed(year + 400, k);
    MonthStartClosed(year, k);
    CenturiesBefore(year);
    MonthStartClosed(2000, 0);
    Millennia();
  }

  lemma Millennia()
    ensures DaysBefore(2000) == 730119
  {
  }

  // The day of the month decides in which month a date lies: the day after the last
  // day of a month is the first of the next.
  lemma DateInMonth(year: nat, k: nat, day: nat)
    requires year >= 1 && k < 12
    requires 1 <= day <= (if k == 11 then 31 else BEFORE_MONTH[k + 1] - BEFORE_MONTH[k])
                       + (if k == 1 && year % 4 == 0 && (year % 100 != 0 || year % 400 == 0) then 1 else 0)
    ensures MonthOf(MonthStart(12 * year + k) + day - 1) == 12 * year + k
  {
    hide MonthOf, MonthStart;
    var m := 12 * year + k;
    if k < 11 {
      MonthStep(year, k + 1);
      assert 12 * year + (k + 1) - 1 == m;
    } else {
      DecemberStep(year);
      assert 12 * (year + 1) == m + 1;
    }
    MonthOfUnique(MonthStart(m) + day - 1, m);
  }
}
