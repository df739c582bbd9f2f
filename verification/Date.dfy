module Date {
  import opened CInt

  datatype YearMonthDay = YearMonthDay(year: int, month: int, day: int)

  // ---- The calendar itself: section 3.2.1 of ISO 8601:2004 (proleptic Gregorian) ----

  predicate IsLeap(year: int) {
    year % 4 == 0 && (year % 100 == 0 ==> year % 400 == 0)
  }

  function DaysOfMonth(year: int, month: int): int {
    if month == 2 then (if IsLeap(year) then 29 else 28)
    else if month == 4 || month == 6 || month == 9 || month == 11 then 30
    else 31
  }

  predicate IsDate(d: YearMonthDay) {
    1 <= d.month <= 12 && 1 <= d.day <= DaysOfMonth(d.year, d.month)
  }

  function NextDay(d: YearMonthDay): YearMonthDay {
    if d.day < DaysOfMonth(d.year, d.month) then d.(day := d.day + 1)
    else if d.month < 12 then YearMonthDay(d.year, d.month + 1, 1)
    else YearMonthDay(d.year + 1, 1, 1)
  }

  /** The calendar counted one day at a time. */
  function DaysAfter(d: YearMonthDay, n: nat): YearMonthDay {
    if n == 0 then d else NextDay(DaysAfter(d, n - 1))
  }

  /** The first date the closed form is right for. */
  const FIRST := YearMonthDay(-4800, 3, 1)
  const FIRST_NUMBER := -32044

  predicate FromFirst(d: YearMonthDay) {
    d.year > -4800 || (d.year == -4800 && d.month >= 3)
  }

  // ---- The closed forms ----

  function GetJulianDayNumber(year: int, month: int, day: int): int {
    var a := Div(14 - month, 12);
    var y := year + 4800 - a;
    var m := month + 12 * a - 3;
    day + Div(153 * m + 2, 5) + y * 365 + Div(y, 4) - Div(y, 100) + Div(y, 400) - 32045
  }

  function GetYearMonthDay(julianDayNumber: int): YearMonthDay {
    var a := julianDayNumber + 32044;
    var b := Div(4 * a + 3, 146097);
    YearAndMonth(b, a - Div(b * 146097, 4))
  }

  /** The rest of `getYearMonthDay`, for day c of century b. */
  function YearAndMonth(b: int, c: int): YearMonthDay {
    var d := Div(4 * c + 3, 1461);
    MonthAndDay(b * 100 + d, c - Div(1461 * d, 4))
  }

  /** The rest of `getYearMonthDay`, for day e of the March-based year y. */
  function MonthAndDay(y: int, e: int): YearMonthDay {
    var m := Div(5 * e + 2, 153);
    YearMonthDay(y - 4800 + Div(m, 10), m + 3 - 12 * Div(m, 10), e - Div(153 * m + 2, 5) + 1)
  }

  function Jdn(d: YearMonthDay): int {
    GetJulianDayNumber(d.year, d.month, d.day)
  }

  function WeekDay(julianDayNumber: int): int {
    Rem(julianDayNumber + 1, 7)
  }

  // ---- Closed form against counting ----

  lemma NextDayIsDate(d: YearMonthDay)
    requires IsDate(d)
    ensures IsDate(NextDay(d))
    ensures FromFirst(d) ==> FromFirst(NextDay(d))
  {
  }

  /** The number of days before year y of the March-based year count. */
  function YearDays(y: nat): int {
    365 * y + y / 4 - y / 100 + y / 400
  }

  lemma YearDaysStep(y: nat)
    ensures YearDays(y + 1) == YearDays(y) + (if IsLeap(y + 1) then 366 else 365)
  {
    Successor(y, 4);
    Successor(y, 100);
    Successor(y, 400);
    if (y + 1) % 400 == 0 {
      Divides(y + 1, 100, 4);
    }
    if (y + 1) % 100 == 0 {
      Divides(y + 1, 4, 25);
    }
  }

  lemma LeapShift(y: int)
    ensures IsLeap(y + 4800) == IsLeap(y)
  {
    Remainder(y + 4800, 4, y / 4 + 1200, y % 4);
    Remainder(y + 4800, 100, y / 100 + 48, y % 100);
    Remainder(y + 4800, 400, y / 400 + 12, y % 400);
  }

  /** Years and months of the closed form, counted from March. */
  function MarchYear(d: YearMonthDay): int {
    d.year + 4800 - (if d.month <= 2 then 1 else 0)
  }

  function MarchMonth(d: YearMonthDay): int {
    if d.month <= 2 then d.month + 9 else d.month - 3
  }

  lemma JdnFromMarch(d: YearMonthDay)
    requires 1 <= d.month <= 12 && FromFirst(d)
    ensures MarchYear(d) >= 0
    ensures Jdn(d) == d.day + (153 * MarchMonth(d) + 2) / 5 + YearDays(MarchYear(d)) - 32045
  {
    assert Div(14 - d.month, 12) == if d.month <= 2 then 1 else 0;
  }

  /** The month term gives every month its length, February excepted. */
  lemma MonthTermStep(d: YearMonthDay)
    requires 1 <= d.month <= 12 && d.month != 2
    ensures (153 * (MarchMonth(d) + 1) + 2) / 5 == (153 * MarchMonth(d) + 2) / 5 + DaysOfMonth(d.year, d.month)
  {
  }

  /** Within the March-based year, and across its end, one calendar day adds one to month and year terms. */
  lemma MarchTermsStep(d: YearMonthDay)
    requires IsDate(d) && FromFirst(d) && d.day == DaysOfMonth(d.year, d.month)
    ensures MarchYear(d) >= 0
    ensures var n := NextDay(d);
            (153 * MarchMonth(n) + 2) / 5 + YearDays(MarchYear(n))
            == (153 * MarchMonth(d) + 2) / 5 + YearDays(MarchYear(d)) + d.day
  {
    if d.month == 2 {
      LeapShift(d.year);
      YearDaysStep(MarchYear(d));
      assert MarchYear(NextDay(d)) == MarchYear(d) + 1;
    } else {
      MonthTermStep(d);
      assert MarchYear(NextDay(d)) == MarchYear(d);
    }
  }

  /** One calendar day is one day number. */
  lemma NextDayCounts(d: YearMonthDay)
    requires IsDate(d) && FromFirst(d)
    ensures Jdn(NextDay(d)) == Jdn(d) + 1
  {
    NextDayIsDate(d);
    JdnFromMarch(d);
    JdnFromMarch(NextDay(d));
    if d.day == DaysOfMonth(d.year, d.month) {
      MarchTermsStep(d);
    }
  }

  /** The closed form is day-by-day counting from its first date. */
  lemma {:induction false} JdnCountsDays(n: nat)
    ensures IsDate(DaysAfter(FIRST, n)) && FromFirst(DaysAfter(FIRST, n))
    ensures Jdn(DaysAfter(FIRST, n)) == FIRST_NUMBER + n
  {
    if n > 0 {
      JdnCountsDays(n - 1);
      NextDayIsDate(DaysAfter(FIRST, n - 1));
      NextDayCounts(DaysAfter(FIRST, n - 1));
    }
  }

  // ---- Order ----

  predicate Earlier(d: YearMonthDay, e: YearMonthDay) {
    d.year < e.year
    || (d.year == e.year && (d.month < e.month || (d.month == e.month && d.day < e.day)))
  }

  lemma {:induction false} YearDaysMonotone(y: nat, z: nat)
    requires y <= z
    ensures YearDays(z) - YearDays(y) >= 365 * (z - y)
    decreases z - y
  {
    if y < z {
      YearDaysMonotone(y, z - 1);
      YearDaysStep(z - 1);
    }
  }

  /** A date's place in its March-based year stays within that year. */
  lemma DayInYearFits(d: YearMonthDay)
    requires IsDate(d) && FromFirst(d)
    ensures MarchYear(d) >= 0
    ensures 1 <= d.day + (153 * MarchMonth(d) + 2) / 5 <= YearDays(MarchYear(d) + 1) - YearDays(MarchYear(d))
  {
    YearDaysStep(MarchYear(d));
    if d.month == 2 {
      LeapShift(d.year);
    }
  }

  /** Within one March-based year the month term dominates the day of the month. */
  lemma MonthTermGap(d: YearMonthDay, n: int)
    requires IsDate(d) && MarchMonth(d) < n <= 11
    ensures d.day + (153 * MarchMonth(d) + 2) / 5 <= (153 * n + 2) / 5
  {
  }

  /** A date's place in its March-based year. */
  function DayInYear(d: YearMonthDay): int {
    d.day + (153 * MarchMonth(d) + 2) / 5
  }

  lemma JdnParts(d: YearMonthDay)
    requires IsDate(d) && FromFirst(d)
    ensures MarchYear(d) >= 0 && Jdn(d) == DayInYear(d) + YearDays(MarchYear(d)) - 32045
    ensures 1 <= DayInYear(d) <= YearDays(MarchYear(d) + 1) - YearDays(MarchYear(d))
  {
    JdnFromMarch(d);
    DayInYearFits(d);
    hide Jdn, YearDays;
  }

  lemma EarlierInYear(d: YearMonthDay, e: YearMonthDay)
    requires IsDate(d) && IsDate(e) && Earlier(d, e)
    ensures MarchYear(d) <= MarchYear(e)
    ensures MarchYear(d) == MarchYear(e) ==> DayInYear(d) < DayInYear(e)
  {
    if MarchYear(d) == MarchYear(e) && MarchMonth(d) < MarchMonth(e) {
      MonthTermGap(d, MarchMonth(e));
    }
  }

  lemma EarlierIsSmaller(d: YearMonthDay, e: YearMonthDay)
    requires IsDate(d) && FromFirst(d) && IsDate(e) && FromFirst(e) && Earlier(d, e)
    ensures Jdn(d) < Jdn(e)
  {
    hide Jdn, YearDays, IsDate, FromFirst, Earlier, DayInYear, MarchYear;
    JdnParts(d);
    JdnParts(e);
    EarlierInYear(d, e);
    if MarchYear(d) < MarchYear(e) {
      YearDaysMonotone(MarchYear(d) + 1, MarchYear(e));
    }
  }

  /** `operator<` on day numbers is the order of the calendar. */
  lemma OrderAgrees(d: YearMonthDay, e: YearMonthDay)
    requires IsDate(d) && FromFirst(d) && IsDate(e) && FromFirst(e)
    ensures Jdn(d) < Jdn(e) <==> Earlier(d, e)
    ensures Jdn(d) == Jdn(e) <==> d == e
  {
    if Earlier(d, e) {
      EarlierIsSmaller(d, e);
    } else if Earlier(e, d) {
      EarlierIsSmaller(e, d);
    } else {
      assert d == e;
    }
  }

  // ---- The inverse ----

  /** Peeling off centuries: b is the century, c the day in it. */
  lemma CenturySplit(a: nat)
    ensures var b := (4 * a + 3) / 146097; var c := a - b * 146097 / 4;
            0 <= c <= 36524 && (c == 36524 ==> b % 4 == 3)
  {
  }

  /** Peeling off years: d is the year of the century, e the day in it. */
  lemma YearSplit(c: nat)
    requires c <= 36524
    ensures var d := (4 * c + 3) / 1461; var e := c - 1461 * d / 4;
            0 <= d <= 99 && 0 <= e <= 365 && (e == 365 ==> d % 4 == 3 && (d == 99 ==> c == 36524))
  {
  }

  /** Peeling off months: m is the month from March, the rest is the day. */
  lemma MonthSplit(e: nat)
    requires e <= 365
    ensures var m := (5 * e + 2) / 153; var r := e - (153 * m + 2) / 5 + 1;
            0 <= m <= 11 && 1 <= r && e == (153 * m + 2) / 5 + r - 1
            && r <= (if m == 11 then e - 336 else (153 * (m + 1) + 2) / 5 - (153 * m + 2) / 5)
  {
  }

  lemma YearDaysSplit(b: nat, d: nat)
    requires d <= 99
    ensures YearDays(100 * b + d) == b * 146097 / 4 + 1461 * d / 4
  {
    assert (100 * b + d) / 4 == 25 * b + d / 4;
    assert (100 * b + d) / 100 == b;
    assert (100 * b + d) / 400 == b / 4;
    assert b * 146097 / 4 == 36524 * b + b / 4;
    assert 1461 * d / 4 == 365 * d + d / 4;
  }

  lemma LeapFromSplit(b: nat, d: nat)
    requires d <= 99 && d % 4 == 3 && (d == 99 ==> b % 4 == 3)
    ensures IsLeap(100 * b + d + 1)
  {
    var y := 100 * b + d + 1;
    assert y % 4 == 0 by {
      Fourth(d);
      Remainder(y, 4, 25 * b + (d + 1) / 4, 0);
    }
    if d == 99 {
      Fourth(b);
      Remainder(y, 400, (b + 1) / 4, 0);
    } else {
      Remainder(y, 100, b, d + 1);
    }
  }

  lemma Fourth(k: nat)
    requires k % 4 == 3
    ensures k + 1 == (k + 1) / 4 * 4
  {
  }

  /** Month and day are read off correctly, and counting them back gives the day of the year. */
  lemma MonthAndDayIsDate(y: nat, e: nat)
    requires e <= 365 && (e == 365 ==> IsLeap(y + 1))
    ensures var d := MonthAndDay(y, e);
            IsDate(d) && FromFirst(d) && Jdn(d) == YearDays(y) + e - 32044
  {
    hide MonthAndDay, IsLeap, YearDays, Jdn;
    MonthSplit(e);
    MonthAndDayFields(y, e);
    var d := MonthAndDay(y, e);
    LeapShift(d.year);
    JdnFromMarch(d);
  }

  lemma MonthAndDayFields(y: nat, e: nat)
    requires e <= 365
    ensures var m := (5 * e + 2) / 153;
            MonthAndDay(y, e) == YearMonthDay(y - 4800 + (if m >= 10 then 1 else 0), if m >= 10 then m - 9 else m + 3,
                                              e - (153 * m + 2) / 5 + 1)
  {
  }

  lemma DayOfCenturyIsDate(b: nat, d: nat, e: nat)
    requires d <= 99 && e <= 365 && (e == 365 ==> d % 4 == 3 && (d == 99 ==> b % 4 == 3))
    ensures var ymd := MonthAndDay(100 * b + d, e);
            IsDate(ymd) && FromFirst(ymd) && Jdn(ymd) == b * 146097 / 4 + 1461 * d / 4 + e - 32044
  {
    if e == 365 {
      LeapFromSplit(b, d);
    }
    YearDaysSplit(b, d);
    MonthAndDayIsDate(100 * b + d, e);
  }

  lemma YearAndMonthIsDate(b: nat, c: nat)
    requires c <= 36524 && (c == 36524 ==> b % 4 == 3)
    ensures var d := YearAndMonth(b, c);
            IsDate(d) && FromFirst(d) && Jdn(d) == b * 146097 / 4 + c - 32044
  {
    hide Jdn, MonthAndDay, IsDate, FromFirst;
    YearSplit(c);
    var d := (4 * c + 3) / 1461;
    DayOfCenturyIsDate(b, d, c - 1461 * d / 4);
  }

  /** From the first day number on, `getJulianDayNumber` inverts `getYearMonthDay`. */
  lemma NumberRoundTrip(j: int)
    requires j >= FIRST_NUMBER
    ensures IsDate(GetYearMonthDay(j)) && FromFirst(GetYearMonthDay(j))
    ensures Jdn(GetYearMonthDay(j)) == j
  {
    CenturySplit(j + 32044);
    var b := (4 * (j + 32044) + 3) / 146097;
    YearAndMonthIsDate(b, j + 32044 - b * 146097 / 4);
  }

  /** Before the first day number the result is no date: its day is not positive. */
  lemma NoDateBefore(j: int)
    requires j < FIRST_NUMBER
    ensures GetYearMonthDay(j).day <= 0
  {
    var a := j + 32044;
    var b := Div(4 * a + 3, 146097);
    CenturyBefore(a);
    YearBefore(a - Div(b * 146097, 4));
    var c := a - Div(b * 146097, 4);
    MonthBefore(c - Div(1461 * Div(4 * c + 3, 1461), 4));
  }

  lemma CenturyBefore(a: int)
    requires a < 0
    ensures a - Div(Div(4 * a + 3, 146097) * 146097, 4) < 0
  {
    TruncatedTwice(-a, 146097);
  }

  lemma YearBefore(c: int)
    requires c < 0
    ensures c - Div(1461 * Div(4 * c + 3, 1461), 4) < 0
  {
    TruncatedTwice(-c, 1461);
  }

  /** Truncation toward zero never overshoots a negative day. */
  lemma TruncatedTwice(x: nat, k: nat)
    requires x > 0 && k > 0
    ensures x - (4 * x - 3) / k * k / 4 > 0
  {
    var q := (4 * x - 3) / k;
    assert q * k <= 4 * x - 3;
  }

  lemma MonthBefore(e: int)
    requires e < 0
    ensures e - Div(153 * Div(5 * e + 2, 153) + 2, 5) + 1 <= 0
  {
  }

  lemma NumberBeforeFirst(d: YearMonthDay)
    requires IsDate(d) && !FromFirst(d)
    ensures Jdn(d) <= FIRST_NUMBER
  {
    var y := MarchYear(d);
    assert y <= -1;
    assert Div(14 - d.month, 12) == if d.month <= 2 then 1 else 0;
    assert Div(y, 4) <= 0 && Div(y, 400) <= 0 && -Div(y, 100) <= -y / 100;
  }

  /** `getYearMonthDay` yields a date exactly from the first day number on. */
  lemma NumbersThatAreDates(j: int)
    ensures IsDate(GetYearMonthDay(j)) <==> j >= FIRST_NUMBER
  {
    if j < FIRST_NUMBER {
      NoDateBefore(j);
    } else {
      NumberRoundTrip(j);
    }
  }

  /** A date survives the round trip exactly when it is not before -4800-03-01. */
  lemma DateRoundTrip(d: YearMonthDay)
    requires IsDate(d)
    ensures GetYearMonthDay(Jdn(d)) == d <==> FromFirst(d)
  {
    if FromFirst(d) {
      JdnFromMarch(d);
      DayInYearFits(d);
      YearDaysMonotone(0, MarchYear(d));
      NumberRoundTrip(Jdn(d));
      OrderAgrees(GetYearMonthDay(Jdn(d)), d);
    } else {
      NumberBeforeFirst(d);
      if Jdn(d) < FIRST_NUMBER {
        NoDateBefore(Jdn(d));
      } else {
        NumberRoundTrip(Jdn(d));
      }
    }
  }

  /** The day before the first date has the same number as the first date. */
  lemma RoundTripFailsBefore()
    ensures IsDate(YearMonthDay(-4800, 2, 29))
    ensures GetYearMonthDay(Jdn(YearMonthDay(-4800, 2, 29))) == FIRST
  {
    assert Jdn(YearMonthDay(-4800, 2, 29)) == Jdn(FIRST);
    DateRoundTrip(FIRST);
  }

  /** `getYearMonthDay` is day-by-day counting too. */
  lemma YearMonthDayCountsDays(n: nat)
    ensures GetYearMonthDay(FIRST_NUMBER + n) == DaysAfter(FIRST, n)
  {
    JdnCountsDays(n);
    DateRoundTrip(DaysAfter(FIRST, n));
  }

  // ---- 32-bit range ----

  /** No subexpression of `getYearMonthDay` leaves a 32-bit int. */
  predicate YearMonthDayFits(j: int) {
    var a := j + 32044;
    var b := Div(4 * a + 3, 146097);
    var c := a - Div(b * 146097, 4);
    && Int32(a) && Int32(4 * a) && Int32(4 * a + 3) && Int32(b * 146097) && Int32(c)
    && YearAndMonthFits(b, c)
  }

  predicate YearAndMonthFits(b: int, c: int) {
    var d := Div(4 * c + 3, 1461);
    var e := c - Div(1461 * d, 4);
    && Int32(4 * c) && Int32(4 * c + 3) && Int32(1461 * d) && Int32(e)
    && Int32(b * 100) && Int32(b * 100 + d) && Int32(b * 100 + d - 4800)
    && MonthAndDayFits(b * 100 + d, e)
  }

  predicate MonthAndDayFits(y: int, e: int) {
    var m := Div(5 * e + 2, 153);
    && Int32(5 * e) && Int32(5 * e + 2) && Int32(153 * m) && Int32(153 * m + 2)
    && Int32(e - Div(153 * m + 2, 5)) && Int32(e - Div(153 * m + 2, 5) + 1)
    && Int32(m + 3) && Int32(12 * Div(m, 10)) && Int32(m + 3 - 12 * Div(m, 10))
    && Int32(y - 4800 + Div(m, 10))
  }

  /** No subexpression of `getJulianDayNumber` leaves a 32-bit int. */
  predicate JulianDayNumberFits(d: YearMonthDay) {
    var a := Div(14 - d.month, 12);
    var y := d.year + 4800 - a;
    var m := d.month + 12 * a - 3;
    var s := d.day + Div(153 * m + 2, 5);
    && Int32(14 - d.month) && Int32(d.year + 4800) && Int32(y)
    && Int32(12 * a) && Int32(d.month + 12 * a) && Int32(m)
    && Int32(153 * m) && Int32(153 * m + 2) && Int32(s) && Int32(y * 365)
    && Int32(s + y * 365) && Int32(s + y * 365 + Div(y, 4))
    && Int32(s + y * 365 + Div(y, 4) - Div(y, 100))
    && Int32(s + y * 365 + Div(y, 4) - Div(y, 100) + Div(y, 400))
    && Int32(Jdn(d))
  }

  const LAST_NUMBER := 536838867

  lemma MonthAndDayFitsHere(y: nat, e: nat)
    requires e <= 365 && y <= 2_000_000
    ensures MonthAndDayFits(y, e)
  {
    MonthSplit(e);
    var m := (5 * e + 2) / 153;
    assert Div(m, 10) == if m >= 10 then 1 else 0;
  }

  lemma YearAndMonthFitsHere(b: nat, c: nat)
    requires c <= 36524 && b <= 15_000
    ensures YearAndMonthFits(b, c)
  {
    hide MonthAndDayFits;
    YearSplit(c);
    var d := (4 * c + 3) / 1461;
    MonthAndDayFitsHere(b * 100 + d, c - 1461 * d / 4);
  }

  /** From the first day number on, 32 bits suffice exactly up to day number 536838867. */
  lemma YearMonthDayRange(j: int)
    requires j >= FIRST_NUMBER
    ensures YearMonthDayFits(j) <==> j <= LAST_NUMBER
  {
    hide YearAndMonthFits;
    if j <= LAST_NUMBER {
      var a: nat := j + 32044;
      CenturySplit(a);
      var b := (4 * a + 3) / 146097;
      YearAndMonthFitsHere(b, a - b * 146097 / 4);
    }
  }

  /** Every date up to that day number is numbered without leaving 32 bits. */
  lemma JulianDayNumberRange(d: YearMonthDay)
    requires IsDate(d) && FromFirst(d) && Jdn(d) <= LAST_NUMBER
    ensures JulianDayNumberFits(d)
  {
    JdnFromMarch(d);
    YearDaysMonotone(0, MarchYear(d));
    assert Div(14 - d.month, 12) == if d.month <= 2 then 1 else 0;
  }

  // ---- Weekdays ----

  /** A weekday is one of Sunday to Saturday exactly from day number -1 on, or on an earlier Sunday. */
  lemma WeekDayRange(j: int)
    ensures 0 <= WeekDay(j) < 7 <==> (j >= -1 || (j + 1) % 7 == 0)
  {
  }

  const EPOCH := YearMonthDay(1970, 1, 1)
  const EPOCH_NUMBER := 2440588

  lemma NextWeekDay(j: int)
    requires j >= -1
    ensures WeekDay(j + 1) == (WeekDay(j) + 1) % 7
  {
  }

  /** Weekdays advance with the calendar; the epoch is day number 2440588, a Thursday. */
  lemma WeekDayCycles(d: YearMonthDay)
    requires IsDate(d) && FromFirst(d) && Jdn(d) >= -1
    ensures WeekDay(Jdn(NextDay(d))) == (WeekDay(Jdn(d)) + 1) % 7
    ensures Jdn(EPOCH) == EPOCH_NUMBER && WeekDay(EPOCH_NUMBER) == 4
  {
    NextDayCounts(d);
    hide Jdn;
    NextWeekDay(Jdn(d));
    EpochNumber();
  }

  lemma EpochNumber()
    ensures Jdn(EPOCH) == EPOCH_NUMBER
  {
  }
}
