/** `LocalDate` and the whole-years part of `Period.between(start, end)`,
    which the Paraná age rule uses. */
module Calendar {

  /** A `LocalDate`: proleptic Gregorian year, month 1..12, day of month. */
  datatype Date = Date(year: int, month: int, day: int)

  predicate IsLeapYear(y: int) {
    y % 4 == 0 && (y % 100 != 0 || y % 400 == 0)
  }

  function DaysInMonth(y: int, m: int): int
    requires 1 <= m <= 12
  {
    if m == 2 then (if IsLeapYear(y) then 29 else 28)
    else if m == 4 || m == 6 || m == 9 || m == 11 then 30
    else 31
  }

  /** A date `LocalDate` can represent. */
  predicate ValidDate(d: Date) {
    1 <= d.month <= 12 && 1 <= d.day <= DaysInMonth(d.year, d.month)
  }

  /** `getProlepticMonth()`: months since January of year 0. */
  function ProlepticMonth(d: Date): int {
    d.year * 12 + d.month - 1
  }

  /** Java's `long` division, which truncates toward zero: the remainder
      takes the sign of the dividend. */
  function JavaDiv(a: int, b: int): (q: int)
    requires b > 0
    ensures a >= 0 ==> 0 <= a - q * b < b
    ensures a < 0 ==> -b < a - q * b <= 0
  {
    if a >= 0 then a / b else -((-a) / b)
  }

  /** `Period.between(start, end).getYears()`: the month difference, one
      month less when it is positive and the end's day of month is before
      the start's (one more when negative and after), then truncated to
      whole years. */
  function PeriodYears(start: Date, end: Date): (years: int)
    ensures var total := ProlepticMonth(end) - ProlepticMonth(start);
            && (total >= 0 ==> 0 <= years && 12 * years <= total)
            && (total <= 0 ==> years <= 0 && 12 * years >= total)
  {
    var totalMonths := ProlepticMonth(end) - ProlepticMonth(start);
    var days := end.day - start.day;
    var months :=
      if totalMonths > 0 && days < 0 then totalMonths - 1
      else if totalMonths < 0 && days > 0 then totalMonths + 1
      else totalMonths;
    JavaDiv(months, 12)
  }

  /** `a` is strictly before `b` in calendar order. */
  predicate Before(a: Date, b: Date) {
    a.year < b.year || (a.year == b.year && (a.month < b.month || (a.month == b.month && a.day < b.day)))
  }

  /** Someone born on `birth` is at least `n` years old on `today` (for
      n >= 1) exactly when today is not before the same month and day `n`
      years after the birth date. A birthday not yet reached this year does
      not count; reaching it does. */
  lemma {:induction false} YearsAtLeast(birth: Date, today: Date, n: nat)
    requires 1 <= birth.month <= 12 && 1 <= today.month <= 12 && n >= 1
    ensures PeriodYears(birth, today) >= n <==> !Before(today, Date(birth.year + n, birth.month, birth.day))
  {
    var total := ProlepticMonth(today) - ProlepticMonth(birth);
    assert total == 12 * (today.year - birth.year) + (today.month - birth.month);
    var target := Date(birth.year + n, birth.month, birth.day);
    if Before(today, target) {
      // at most 12n months, and exactly 12n only with the day not yet reached
      assert total < 12 * n || (total == 12 * n && today.day < birth.day) by {
        if today.year < birth.year + n {
          assert today.year - birth.year <= n - 1;
          assert 12 * (today.year - birth.year) <= 12 * (n - 1);
        }
      }
    } else {
      assert total > 12 * n || (total == 12 * n && today.day >= birth.day) by {
        if today.year > birth.year + n {
          assert today.year - birth.year >= n + 1;
          assert 12 * (today.year - birth.year) >= 12 * (n + 1);
        }
      }
    }
  }

  /** On the `n`-th anniversary itself the period is exactly `n` years. */
  lemma {:induction false} PeriodOnAnniversary(birth: Date, n: nat)
    requires 1 <= birth.month <= 12
    ensures PeriodYears(birth, Date(birth.year + n, birth.month, birth.day)) == n
  {
    var total := ProlepticMonth(Date(birth.year + n, birth.month, birth.day)) - ProlepticMonth(birth);
    assert total == 12 * n;
  }

  /** A date not after the birth date gives no positive number of years. */
  lemma NoYearsBeforeBirth(birth: Date, today: Date)
    requires 1 <= birth.month <= 12 && 1 <= today.month <= 12
    requires !Before(birth, today)
    ensures PeriodYears(birth, today) <= 0
  {
    YearsAtLeast(birth, today, 1);
  }

  /** Swapping the two dates negates the years, as `Period.between` does. */
  lemma PeriodAntisymmetric(start: Date, end: Date)
    ensures PeriodYears(end, start) == -PeriodYears(start, end)
  {
  }
}
