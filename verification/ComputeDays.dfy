module ComputeDays {
  import opened CInt
  import opened Date

  /** Days before a date, as `compute_days` counts them: months from March, years from March of year 0. */
  function DaysBefore(y: int, m: int, d: int): int {
    var fromMarch := Rem(m + 9, 12);
    var year := y - Div(fromMarch, 10);
    365 * year + Div(year, 4) - Div(year, 100) + Div(year, 400) + Div(fromMarch * 306 + 5, 10) + (d - 1)
  }

  function ComputeDays(from: YearMonthDay, to: YearMonthDay): int {
    DaysBefore(to.year, to.month, to.day) - DaysBefore(from.year, from.month, from.day)
  }

  /** Years start in March; before March of year 0 truncation counts one leap day less, leap years excepted. */
  predicate Skewed(d: YearMonthDay) {
    var year := MarchYear(d) - 4800;
    year < 0 && !IsLeap(year)
  }

  lemma MonthTermsAgree(m: nat)
    requires m <= 11
    ensures Div(m * 306 + 5, 10) == (153 * m + 2) / 5
  {
  }

  /** C's leap-day count is the rounding-down one, but for one day in the skewed years. */
  lemma LeapDaysTruncated(y: int)
    requires y >= -4800
    ensures 365 * y + Div(y, 4) - Div(y, 100) + Div(y, 400)
         == YearDays(y + 4800) - 1753164 + (if y < 0 && !IsLeap(y) then 1 else 0)
  {
    assert (y + 4800) / 4 == y / 4 + 1200;
    assert (y + 4800) / 100 == y / 100 + 48;
    assert (y + 4800) / 400 == y / 400 + 12;
    if y < 0 {
      DivDown(y, 4);
      DivDown(y, 100);
      DivDown(y, 400);
      assert y % 400 == 0 ==> y % 100 == 0;
      assert y % 100 == 0 ==> y % 4 == 0;
    }
  }

  lemma DivDown(y: int, k: int)
    requires y < 0 && k > 0
    ensures Div(y, k) == y / k + (if y % k == 0 then 0 else 1)
  {
    var q := y / k;
    assert y == q * k + y % k;
    assert -y == (-q) * k - y % k;
    if y % k != 0 {
      assert -y == (-q - 1) * k + (k - y % k);
      Remainder(-y, k, -q - 1, k - y % k);
    } else {
      Remainder(-y, k, -q, 0);
    }
  }

  lemma MarchOf(d: YearMonthDay)
    requires IsDate(d) && FromFirst(d)
    ensures var m := MarchMonth(d);
      0 <= m <= 11 && Rem(d.month + 9, 12) == m && d.year - Div(m, 10) == MarchYear(d) - 4800 >= -4800
  {
  }

  /** The second formula differs from the day number by a constant, and by one day more in the skewed years. */
  lemma DaysBeforeIsJdn(d: YearMonthDay)
    requires IsDate(d) && FromFirst(d)
    ensures DaysBefore(d.year, d.month, d.day) == Jdn(d) - 1721120 + (if Skewed(d) then 1 else 0)
  {
    hide Jdn, YearDays, IsLeap, Div, Rem, FromFirst, MarchYear;
    JdnFromMarch(d);
    MarchOf(d);
    MonthTermsAgree(MarchMonth(d));
    LeapDaysTruncated(MarchYear(d) - 4800);
  }

  /** `compute_days` is the difference of the day numbers exactly when both years or neither are skewed. */
  lemma ComputeDaysIsDifference(from: YearMonthDay, to: YearMonthDay)
    requires IsDate(from) && FromFirst(from) && IsDate(to) && FromFirst(to)
    ensures ComputeDays(from, to) == Jdn(to) - Jdn(from) <==> Skewed(from) == Skewed(to)
  {
    DaysBeforeIsJdn(from);
    DaysBeforeIsJdn(to);
    hide Jdn, DaysBefore;
  }

  /** From year 1 on it counts calendar days, one at a time. */
  lemma {:induction false} ComputeDaysCounts(from: YearMonthDay, n: nat)
    requires IsDate(from) && from.year >= 1
    ensures IsDate(DaysAfter(from, n)) && DaysAfter(from, n).year >= 1
    ensures ComputeDays(from, DaysAfter(from, n)) == n
  {
    hide ComputeDays, Jdn;
    if n == 0 {
      ComputeDaysIsDifference(from, from);
    } else {
      var d := DaysAfter(from, n - 1);
      ComputeDaysCounts(from, n - 1);
      NextDayIsDate(d);
      NextDayCounts(d);
      ComputeDaysIsDifference(from, d);
      ComputeDaysIsDifference(from, NextDay(d));
    }
  }

  /** Before March of year 0 a day can go missing. */
  lemma ComputeDaysMissesADay()
    ensures NextDay(YearMonthDay(0, 2, 29)) == YearMonthDay(0, 3, 1)
    ensures ComputeDays(YearMonthDay(0, 2, 29), YearMonthDay(0, 3, 1)) == 0
  {
    hide Jdn, DaysBefore;
    NextDayCounts(YearMonthDay(0, 2, 29));
    DaysBeforeIsJdn(YearMonthDay(0, 2, 29));
    DaysBeforeIsJdn(YearMonthDay(0, 3, 1));
  }
}
