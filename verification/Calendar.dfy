/**
 The proleptic Gregorian calendar as Go's time package computes it. Days are
 counted from 0000-01-01; a month is the integer 12 * year + (month - 1), so
 that "the following month" is m + 1 across year ends too.
 */
module Calendar {

  predicate Leap(year: int) {
    year % 4 == 0 && (year % 100 != 0 || year % 400 == 0)
  }

  function DaysBeforeYear(year: int): int {
    365 * year + (year + 3) / 4 - (year + 99) / 100 + (year + 399) / 400
  }

  /** Days before month i (0 = January) within its year. */
  function DaysBeforeMonth(i: int, leap: bool): int
    requires 0 <= i < 12
  {
    [0, 31, 59, 90, 120, 151, 181, 212, 243, 273, 304, 334][i] + (if leap && i >= 2 then 1 else 0)
  }

  function MonthStart(m: int): int {
    DaysBeforeYear(m / 12) + DaysBeforeMonth(m % 12, Leap(m / 12))
  }

  function MonthLength(m: int): (n: int)
    ensures 28 <= n <= 31
  {
    if m % 12 == 1 then (if Leap(m / 12) then 29 else 28)
    else if m % 12 in {3, 5, 8, 10} then 30
    else 31
  }

  lemma Every4(y: int)
    ensures (y + 4) / 4 - (y + 3) / 4 == if y % 4 == 0 then 1 else 0
  {}

  lemma Every100(y: int)
    ensures (y + 100) / 100 - (y + 99) / 100 == if y % 100 == 0 then 1 else 0
    ensures y % 100 == 0 ==> y % 4 == 0
  {}

  lemma Every400(y: int)
    ensures (y + 400) / 400 - (y + 399) / 400 == if y % 400 == 0 then 1 else 0
    ensures y % 400 == 0 ==> y % 100 == 0
  {}

  lemma YearLength(y: int)
    ensures DaysBeforeYear(y + 1) == DaysBeforeYear(y) + (if Leap(y) then 366 else 365)
  {
    Every4(y);
    Every100(y);
    Every400(y);
  }

  lemma NextMonthStart(m: int)
    ensures MonthStart(m + 1) == MonthStart(m) + MonthLength(m)
  {
    YearLength(m / 12);
    if m % 12 == 11 {
      assert (m + 1) / 12 == m / 12 + 1 && (m + 1) % 12 == 0;
    } else {
      assert (m + 1) / 12 == m / 12 && (m + 1) % 12 == m % 12 + 1;
    }
  }

  lemma {:induction false} MonthStartsFarApart(m: int, n: int)
    requires m <= n
    ensures MonthStart(m) + 28 * (n - m) <= MonthStart(n) <= MonthStart(m) + 31 * (n - m)
    decreases n - m
  {
    if m < n {
      MonthStartsFarApart(m, n - 1);
      NextMonthStart(n - 1);
    }
  }

  /** The month a day falls in, found by walking from a guess. */
  function MonthFrom(day: int, guess: int): (m: int)
    ensures MonthStart(m) <= day < MonthStart(m) + MonthLength(m)
    decreases if day < MonthStart(guess) then MonthStart(guess) - day
              else if day >= MonthStart(guess) + MonthLength(guess) then day - MonthStart(guess)
              else 0
  {
    if day < MonthStart(guess) then
      NextMonthStart(guess - 1);
      MonthFrom(day, guess - 1)
    else if day >= MonthStart(guess) + MonthLength(guess) then
      NextMonthStart(guess);
      MonthFrom(day, guess + 1)
    else guess
  }

  function MonthOf(day: int): (m: int)
    ensures MonthStart(m) <= day < MonthStart(m) + MonthLength(m)
  {
    MonthFrom(day, day / 31)
  }

  function DayOfMonth(day: int): (d: int)
    ensures 1 <= d <= MonthLength(MonthOf(day))
  {
    day - MonthStart(MonthOf(day)) + 1
  }

  /** time.Date on a month and an unnormalised day of month: overflow carries over. */
  function DateDay(m: int, d: int): int {
    MonthStart(m) + d - 1
  }

  lemma MonthEndsBefore(m: int, n: int)
    requires m < n
    ensures MonthStart(m) + MonthLength(m) <= MonthStart(n)
  {
    NextMonthStart(m);
    MonthStartsFarApart(m + 1, n);
  }

  lemma MonthOfUnique(day: int, m: int)
    requires MonthStart(m) <= day < MonthStart(m) + MonthLength(m)
    ensures MonthOf(day) == m
  {
    var k := MonthOf(day);
    if k < m {
      MonthEndsBefore(k, m);
    } else if m < k {
      MonthEndsBefore(m, k);
    }
  }

  /** Reading back a valid date gives the month and day that were put in. */
  lemma DateRoundTrip(m: int, d: int)
    requires 1 <= d <= MonthLength(m)
    ensures MonthOf(DateDay(m, d)) == m && DayOfMonth(DateDay(m, d)) == d
  {
    MonthOfUnique(DateDay(m, d), m);
  }

  /** Days compare as (month, day of month) pairs do. */
  lemma DayOrder(a: int, b: int)
    ensures a < b <==> MonthOf(a) < MonthOf(b) || (MonthOf(a) == MonthOf(b) && DayOfMonth(a) < DayOfMonth(b))
  {
    var m, n := MonthOf(a), MonthOf(b);
    if m < n {
      MonthEndsBefore(m, n);
    } else if n < m {
      MonthEndsBefore(n, m);
    }
  }

  lemma FourHundredYears(y: int)
    ensures DaysBeforeYear(y + 400) == DaysBeforeYear(y) + 146_097
  {
    assert (y + 403) / 4 == (y + 3) / 4 + 100;
    assert (y + 499) / 100 == (y + 99) / 100 + 4;
    assert (y + 799) / 400 == (y + 399) / 400 + 1;
  }

  /** The Gregorian calendar: 146097 days in 400 years, and a 366th day exactly in leap years. */
  lemma Gregorian(y: int)
    ensures DaysBeforeYear(y + 400) == DaysBeforeYear(y) + 146_097
    ensures DaysBeforeYear(y + 1) == DaysBeforeYear(y) + if (y % 4 == 0 && y % 100 != 0) || y % 400 == 0 then 366 else 365
  {
    hide DaysBeforeYear;
    YearLength(y);
    FourHundredYears(y);
  }

  /** February 29 is in leap years, and 1 January 1970 is day 719528. */
  lemma LeapDay(y: int)
    ensures MonthLength(12 * y + 1) == if (y % 4 == 0 && y % 100 != 0) || y % 400 == 0 then 29 else 28
    ensures DaysBeforeYear(1970) == 719_528
  {
    assert (12 * y + 1) / 12 == y && (12 * y + 1) % 12 == 1;
  }

  /** The months have their usual lengths, whatever the year. */
  lemma MonthLengths(y: int, i: int)
    requires 0 <= i < 12 && i != 1
    ensures MonthLength(12 * y + i) == [31, 0, 31, 30, 31, 30, 31, 31, 30, 31, 30, 31][i]
  {
    assert (12 * y + i) % 12 == i;
  }
}
