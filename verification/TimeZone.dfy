module TimeZone {
  import opened CInt
  import opened Date

  const SECONDS_PER_DAY := 24 * 60 * 60

  /** The value of `struct tm`. */
  datatype Broken = Broken(year: int, mon: int, mday: int, hour: int, min: int, sec: int, wday: int, yday: int)

  /** `struct tm`, filled in field by field. */
  class Tm {
    var tm_year: int
    var tm_mon: int
    var tm_mday: int
    var tm_hour: int
    var tm_min: int
    var tm_sec: int
    var tm_wday: int
    var tm_yday: int

    constructor ()
      ensures Value() == Broken(0, 0, 0, 0, 0, 0, 0, 0)
    {
      tm_year, tm_mon, tm_mday := 0, 0, 0;
      tm_hour, tm_min, tm_sec := 0, 0, 0;
      tm_wday, tm_yday := 0, 0;
    }

    function Value(): Broken
      reads this
    {
      Broken(tm_year, tm_mon, tm_mday, tm_hour, tm_min, tm_sec, tm_wday, tm_yday)
    }
  }

  method FillHMS(seconds: nat, utc: Tm)
    modifies utc
    ensures 0 <= utc.tm_sec < 60 && 0 <= utc.tm_min < 60
    ensures utc.tm_hour * 3600 + utc.tm_min * 60 + utc.tm_sec == seconds
    ensures utc.Value() == old(utc.Value()).(hour := utc.tm_hour, min := utc.tm_min, sec := utc.tm_sec)
  {
    utc.tm_sec := seconds % 60;
    var minutes := seconds / 60;
    utc.tm_min := minutes % 60;
    utc.tm_hour := minutes / 60;
  }

  /** The day number and the second of the day that a time falls on, rounding down. */
  function DayNumber(seconds: int): int {
    seconds / SECONDS_PER_DAY + EPOCH_NUMBER
  }

  /** The times whose day number the calendar functions handle in 32 bits. */
  predicate InRange(seconds: int) {
    FIRST_NUMBER <= DayNumber(seconds) <= LAST_NUMBER
  }

  /** The broken-down time: a calendar date and a time of day. */
  function ToUtc(seconds: int, yday: bool): Broken {
    Assembled(DayNumber(seconds), seconds % SECONDS_PER_DAY, yday)
  }

  function Assembled(day: int, s: int, yday: bool): Broken {
    var d := GetYearMonthDay(day);
    Broken(d.year - 1900, d.month - 1, d.day, s / 3600, s / 60 % 60, s % 60, WeekDay(day),
           if yday then day - GetJulianDayNumber(d.year, 1, 1) else 0)
  }

  lemma SplitSeconds(seconds: int)
    ensures seconds >= 0 ==> Rem(seconds, SECONDS_PER_DAY) == seconds % SECONDS_PER_DAY
                             && Div(seconds, SECONDS_PER_DAY) == seconds / SECONDS_PER_DAY
    ensures Rem(seconds, SECONDS_PER_DAY) < 0
            ==> Rem(seconds, SECONDS_PER_DAY) + SECONDS_PER_DAY == seconds % SECONDS_PER_DAY
                && Div(seconds, SECONDS_PER_DAY) - 1 == seconds / SECONDS_PER_DAY
    ensures seconds < 0 && Rem(seconds, SECONDS_PER_DAY) == 0
            ==> seconds % SECONDS_PER_DAY == 0 && Div(seconds, SECONDS_PER_DAY) == seconds / SECONDS_PER_DAY
    ensures Rem(seconds, SECONDS_PER_DAY) <= 0 || seconds >= 0
  {
  }

  lemma HmsUnique(h: int, m: int, s: int, total: nat)
    requires 0 <= m < 60 && 0 <= s < 60 && h * 3600 + m * 60 + s == total
    ensures h == total / 3600 && m == total / 60 % 60 && s == total % 60
  {
  }

  method ToUtcTime(secondsSinceEpoch: int, yday: bool) returns (utc: Tm)
    ensures fresh(utc)
    ensures InRange(secondsSinceEpoch) ==> utc.Value() == ToUtc(secondsSinceEpoch, yday)
  {
    hide Div, Rem, GetYearMonthDay, GetJulianDayNumber, WeekDay;
    utc := new Tm();
    var seconds := Rem(secondsSinceEpoch, SECONDS_PER_DAY);
    var days := Div(secondsSinceEpoch, SECONDS_PER_DAY);
    SplitSeconds(secondsSinceEpoch);
    if seconds < 0 {
      seconds := seconds + SECONDS_PER_DAY;
      days := days - 1;
    }
    assert seconds == secondsSinceEpoch % SECONDS_PER_DAY && days == secondsSinceEpoch / SECONDS_PER_DAY;
    FillHMS(seconds, utc);
    HmsUnique(utc.tm_hour, utc.tm_min, utc.tm_sec, seconds);
    var date := days + GetJulianDayNumber(1970, 1, 1);
    EpochNumber();
    var ymd := GetYearMonthDay(date);
    utc.tm_year := ymd.year - 1900;
    utc.tm_mon := ymd.month - 1;
    utc.tm_mday := ymd.day;
    utc.tm_wday := WeekDay(date);
    if yday {
      utc.tm_yday := date - GetJulianDayNumber(ymd.year, 1, 1);
    }
  }

  /** `fromUtcTime`: seconds since the epoch. */
  function FromUtc(b: Broken): int {
    var days := GetJulianDayNumber(b.year + 1900, b.mon + 1, b.mday) - GetJulianDayNumber(1970, 1, 1);
    days * SECONDS_PER_DAY + (b.hour * 3600 + b.min * 60 + b.sec)
  }

  function DateOf(b: Broken): YearMonthDay {
    YearMonthDay(b.year + 1900, b.mon + 1, b.mday)
  }

  predicate IsTimeOfDay(b: Broken) {
    0 <= b.hour < 24 && 0 <= b.min < 60 && 0 <= b.sec < 60
  }

  /** A broken-down time the conversions handle: a date with 32-bit day number, and a time of day. */
  predicate IsBroken(b: Broken) {
    IsDate(DateOf(b)) && FromFirst(DateOf(b)) && Jdn(DateOf(b)) <= LAST_NUMBER && IsTimeOfDay(b)
  }

  lemma HmsSum(total: nat)
    requires total < SECONDS_PER_DAY
    ensures var h := total / 3600; var m := total / 60 % 60; var s := total % 60;
            h * 3600 + m * 60 + s == total && 0 <= h < 24 && 0 <= m < 60 && 0 <= s < 60
  {
  }

  lemma FromUtcIs(b: Broken)
    ensures FromUtc(b) == (Jdn(DateOf(b)) - EPOCH_NUMBER) * SECONDS_PER_DAY + b.hour * 3600 + b.min * 60 + b.sec
  {
    EpochNumber();
    hide GetJulianDayNumber;
  }

  /** Seconds survive the round trip, negative ones included. */
  lemma SecondsRoundTrip(seconds: int, yday: bool)
    requires InRange(seconds)
    ensures IsBroken(ToUtc(seconds, yday))
    ensures FromUtc(ToUtc(seconds, yday)) == seconds
  {
    hide GetYearMonthDay, GetJulianDayNumber, WeekDay, Jdn, IsDate, FromFirst, FromUtc, Assembled;
    var day, t := DayNumber(seconds), seconds % SECONDS_PER_DAY;
    NumberRoundTrip(day);
    AssembledParts(day, t, yday);
    FromUtcIs(ToUtc(seconds, yday));
    DayAndSeconds(seconds);
    hide DayNumber;
  }

  lemma DayAndSeconds(seconds: int)
    ensures (DayNumber(seconds) - EPOCH_NUMBER) * SECONDS_PER_DAY + seconds % SECONDS_PER_DAY == seconds
  {
  }

  /** The parts of an assembled time: its date, and its time of day that sums up to s. */
  lemma AssembledParts(day: int, s: int, yday: bool)
    requires 0 <= s < SECONDS_PER_DAY
    ensures var b := Assembled(day, s, yday);
            && DateOf(b) == GetYearMonthDay(day) && IsTimeOfDay(b)
            && b.hour * 3600 + b.min * 60 + b.sec == s && b.wday == WeekDay(day)
            && (yday ==> b.yday == day - GetJulianDayNumber(b.year + 1900, 1, 1))
  {
    hide GetYearMonthDay, GetJulianDayNumber, WeekDay;
    HmsSum(s);
  }

  lemma DayAndRest(seconds: int, days: int, t: int)
    requires seconds == days * SECONDS_PER_DAY + t && 0 <= t < SECONDS_PER_DAY
    ensures seconds % SECONDS_PER_DAY == t && seconds / SECONDS_PER_DAY == days
  {
  }

  lemma Reassembled(b: Broken, day: int, t: int)
    requires IsTimeOfDay(b) && b.hour * 3600 + b.min * 60 + b.sec == t && DateOf(b) == GetYearMonthDay(day)
    ensures Assembled(day, t, true)
         == b.(wday := WeekDay(day), yday := day - GetJulianDayNumber(b.year + 1900, 1, 1))
  {
    hide GetYearMonthDay, GetJulianDayNumber, WeekDay;
    HmsUnique(b.hour, b.min, b.sec, t);
  }

  /** Every broken-down time survives the round trip; weekday and day of the year are the ones of its date. */
  lemma BrokenRoundTrip(b: Broken)
    requires IsBroken(b)
    ensures InRange(FromUtc(b))
    ensures ToUtc(FromUtc(b), true)
         == b.(wday := WeekDay(Jdn(DateOf(b))), yday := Jdn(DateOf(b)) - GetJulianDayNumber(b.year + 1900, 1, 1))
  {
    hide GetYearMonthDay, GetJulianDayNumber, WeekDay, FromUtc, Jdn, IsDate, FromFirst, Assembled;
    FromUtcIs(b);
    JdnAtLeastFirst(DateOf(b));
    DateRoundTrip(DateOf(b));
    var day, t := Jdn(DateOf(b)), b.hour * 3600 + b.min * 60 + b.sec;
    DayAndRest(FromUtc(b), day - EPOCH_NUMBER, t);
    Reassembled(b, day, t);
  }

  lemma JdnAtLeastFirst(d: YearMonthDay)
    requires IsDate(d) && FromFirst(d)
    ensures Jdn(d) >= FIRST_NUMBER
  {
    JdnFromMarch(d);
    hide Jdn;
    DayInYearFits(d);
    YearDaysMonotone(0, MarchYear(d));
  }

  // ---- Day of the year ----

  /** Days of the year before a date, by the lengths of the months. */
  function DaysBeforeMonth(year: int, month: int): int
    requires 1 <= month <= 12
    decreases month
  {
    if month == 1 then 0 else DaysBeforeMonth(year, month - 1) + DaysOfMonth(year, month - 1)
  }

  function DayOfYear(d: YearMonthDay): int
    requires 1 <= d.month <= 12
  {
    DaysBeforeMonth(d.year, d.month) + d.day - 1
  }

  /** Counting days from the first of a month goes through DaysBeforeMonth. */
  lemma {:induction false} FirstOfMonth(year: int, month: int)
    requires 1 <= month <= 12 && year > -4800
    ensures Jdn(YearMonthDay(year, month, 1)) == GetJulianDayNumber(year, 1, 1) + DaysBeforeMonth(year, month)
    decreases month
  {
    if month == 1 {
    } else {
      FirstOfMonth(year, month - 1);
      DayOffset(year, month - 1, DaysOfMonth(year, month - 1));
      NextDayCounts(YearMonthDay(year, month - 1, DaysOfMonth(year, month - 1)));
      hide Jdn, GetJulianDayNumber;
    }
  }

  lemma DayOffset(year: int, month: int, day: int)
    ensures GetJulianDayNumber(year, month, day) == GetJulianDayNumber(year, month, 1) + day - 1
  {
  }

  lemma MarchOfFirstYear()
    ensures Jdn(YearMonthDay(-4800, 3, 1)) == GetJulianDayNumber(-4800, 1, 1) + DaysBeforeMonth(-4800, 3) - 1
  {
    assert DaysBeforeMonth(-4800, 2) == 31;
  }

  lemma FirstYearNext(month: int)
    requires 3 <= month < 12
    ensures Jdn(YearMonthDay(-4800, month + 1, 1)) == Jdn(YearMonthDay(-4800, month, 1)) + DaysOfMonth(-4800, month)
  {
    var last := YearMonthDay(-4800, month, DaysOfMonth(-4800, month));
    DayOffset(-4800, month, DaysOfMonth(-4800, month));
    assert NextDay(last) == YearMonthDay(-4800, month + 1, 1);
    NextDayCounts(last);
    hide GetJulianDayNumber;
  }

  /** In year -4800 January 1 is numbered a day too late. */
  lemma {:induction false} FirstYear(month: int)
    requires 3 <= month <= 12
    ensures Jdn(YearMonthDay(-4800, month, 1)) == GetJulianDayNumber(-4800, 1, 1) + DaysBeforeMonth(-4800, month) - 1
    decreases month
  {
    hide Jdn, GetJulianDayNumber, DaysOfMonth;
    if month == 3 {
      MarchOfFirstYear();
    } else {
      FirstYear(month - 1);
      FirstYearNext(month - 1);
    }
  }

  /** `tm_yday` counts the days of the year, except in the first, incomplete year. */
  lemma YearDayIsDayOfYear(d: YearMonthDay)
    requires IsDate(d) && FromFirst(d)
    ensures Jdn(d) - GetJulianDayNumber(d.year, 1, 1) == DayOfYear(d) <==> d.year > -4800
    ensures d.year == -4800 ==> Jdn(d) - GetJulianDayNumber(d.year, 1, 1) == DayOfYear(d) - 1 >= 59
  {
    DayOffset(d.year, d.month, d.day);
    if d.year > -4800 {
      FirstOfMonth(d.year, d.month);
      hide GetJulianDayNumber;
    } else {
      FirstYear(d.month);
      DaysBeforeMonthIs(d.year, d.month);
      hide GetJulianDayNumber;
    }
  }

  lemma DayOfYearRange(d: YearMonthDay)
    requires IsDate(d)
    ensures 0 <= DayOfYear(d) < (if IsLeap(d.year) then 366 else 365)
  {
    DaysBeforeMonthIs(d.year, d.month);
  }

  lemma {:induction false} DaysBeforeMonthIs(year: int, month: int)
    requires 1 <= month <= 12
    ensures DaysBeforeMonth(year, month)
         == (if month <= 2 then 31 * (month - 1) else (153 * (month - 3) + 2) / 5 + DaysOfMonth(year, 2) + 31)
    decreases month
  {
    if month > 1 {
      DaysBeforeMonthIs(year, month - 1);
    }
  }

  /**
   * Month, day, time and day of the year are in their ranges; the last is a day short in year -4800. The weekday is
   * in its range from day number -1 on, and before it only on Sundays.
   */
  lemma FieldsInRange(seconds: int)
    requires InRange(seconds)
    ensures var b := ToUtc(seconds, true);
            && 0 <= b.mon < 12
            && 1 <= b.mday <= DaysOfMonth(b.year + 1900, b.mon + 1)
            && IsTimeOfDay(b)
            && (0 <= b.wday < 7 <==> DayNumber(seconds) >= -1 || (DayNumber(seconds) + 1) % 7 == 0)
            && b.yday == (if b.year + 1900 > -4800 then DayOfYear(DateOf(b)) else DayOfYear(DateOf(b)) - 1)
            && 0 <= b.yday < (if IsLeap(b.year + 1900) then 366 else 365)
            && ToUtc(seconds, false) == b.(yday := 0)
  {
    hide GetYearMonthDay, GetJulianDayNumber, WeekDay, Jdn, FromUtc, DayOfYear, IsLeap, Assembled;
    var d := GetYearMonthDay(DayNumber(seconds));
    SecondsRoundTrip(seconds, true);
    AssembledParts(DayNumber(seconds), seconds % SECONDS_PER_DAY, true);
    WeekDayRange(DayNumber(seconds));
    NumberRoundTrip(DayNumber(seconds));
    YearDayIsDayOfYear(d);
    DayOfYearRange(d);
    assert ToUtc(seconds, false) == ToUtc(seconds, true).(yday := 0) by {
      WithoutYearDay(DayNumber(seconds), seconds % SECONDS_PER_DAY);
    }
  }

  lemma WithoutYearDay(day: int, s: int)
    ensures Assembled(day, s, false) == Assembled(day, s, true).(yday := 0)
  {
    hide GetYearMonthDay, GetJulianDayNumber, WeekDay;
  }

  /** A time in range whose weekday is negative: day number -10, in the year -4713. */
  lemma WeekDayCanBeNegative()
    ensures InRange(-210867667200) && ToUtc(-210867667200, true).wday == -2
  {
    assert DayNumber(-210867667200) == -10;
    hide GetYearMonthDay, GetJulianDayNumber;
  }

  // ---- Seconds since the Epoch: section 4.16 of the Base Definitions of IEEE Std 1003.1-2017 ----

  function PosixSeconds(b: Broken): int {
    b.sec + b.min * 60 + b.hour * 3600 + b.yday * 86400 + (b.year - 70) * 31536000
    + (b.year - 69) / 4 * 86400 - (b.year - 1) / 100 * 86400 + (b.year + 299) / 400 * 86400
  }

  lemma PosixYear(year: int)
    requires year >= 70
    ensures GetJulianDayNumber(year + 1900, 1, 1) - EPOCH_NUMBER
         == (year - 70) * 365 + (year - 69) / 4 - (year - 1) / 100 + (year + 299) / 400
  {
    JdnFromMarch(YearMonthDay(year + 1900, 1, 1));
    hide GetJulianDayNumber;
    assert (year + 6699) / 4 == (year - 69) / 4 + 1692;
    assert (year + 6699) / 100 == (year - 1) / 100 + 67;
    assert (year + 6699) / 400 == (year + 299) / 400 + 16;
  }

  lemma DateFromEpoch(d: YearMonthDay)
    requires IsDate(d) && FromFirst(d) && Jdn(d) >= EPOCH_NUMBER
    ensures d.year >= 1970
  {
    EpochNumber();
    OrderAgrees(d, EPOCH);
    hide Jdn;
  }

  /** The formula's days are the day number. */
  lemma PosixDays(seconds: int)
    requires InRange(seconds) && seconds >= 0
    ensures var b := ToUtc(seconds, true);
            b.yday + (b.year - 70) * 365 + (b.year - 69) / 4 - (b.year - 1) / 100 + (b.year + 299) / 400
            == DayNumber(seconds) - EPOCH_NUMBER
  {
    hide GetYearMonthDay, GetJulianDayNumber, WeekDay, Jdn, Assembled, IsDate, FromFirst;
    var d := GetYearMonthDay(DayNumber(seconds));
    AssembledParts(DayNumber(seconds), seconds % SECONDS_PER_DAY, true);
    NumberRoundTrip(DayNumber(seconds));
    DateFromEpoch(d);
    PosixYear(d.year - 1900);
  }

  lemma PosixSum(b: Broken, days: int, t: int)
    requires b.yday + (b.year - 70) * 365 + (b.year - 69) / 4 - (b.year - 1) / 100 + (b.year + 299) / 400 == days
    requires b.hour * 3600 + b.min * 60 + b.sec == t
    ensures PosixSeconds(b) == days * 86400 + t
  {
  }

  /** From 1970 on, fromUtcTime is the standard's formula on the day of the year of the date, whatever yday says. */
  lemma FromUtcAgreesWithPosix(b: Broken)
    requires IsBroken(b) && b.year >= 70
    ensures FromUtc(b) == PosixSeconds(b.(yday := DayOfYear(DateOf(b))))
  {
    hide GetJulianDayNumber, Jdn, FromUtc, DayOfYear, PosixSeconds;
    var d := DateOf(b);
    FromUtcIs(b);
    YearDayIsDayOfYear(d);
    PosixYear(b.year);
    PosixSum(b.(yday := DayOfYear(d)), Jdn(d) - EPOCH_NUMBER, b.hour * 3600 + b.min * 60 + b.sec);
  }

  /** From 1970 on, both directions agree with the standard's formula. */
  lemma AgreesWithPosix(seconds: int)
    requires InRange(seconds) && seconds >= 0
    ensures PosixSeconds(ToUtc(seconds, true)) == seconds
    ensures FromUtc(ToUtc(seconds, true)) == seconds
  {
    hide GetYearMonthDay, GetJulianDayNumber, WeekDay, Jdn, FromUtc, Assembled, PosixSeconds;
    SecondsRoundTrip(seconds, true);
    PosixDays(seconds);
    AssembledParts(DayNumber(seconds), seconds % SECONDS_PER_DAY, true);
    PosixSum(ToUtc(seconds, true), DayNumber(seconds) - EPOCH_NUMBER, seconds % SECONDS_PER_DAY);
  }

  /** The casts to `int` and the day arithmetic in `toUtcTime` stay in 32 bits. */
  lemma ToUtcTimeFits(seconds: int)
    requires InRange(seconds)
    ensures Int32(Rem(seconds, SECONDS_PER_DAY)) && Int32(Div(seconds, SECONDS_PER_DAY))
    ensures Int32(Div(seconds, SECONDS_PER_DAY) - 1) && Int32(DayNumber(seconds))
    ensures YearMonthDayFits(DayNumber(seconds))
  {
    hide YearMonthDayFits;
    YearMonthDayRange(DayNumber(seconds));
  }

  // ---- Local time lookup ----

  datatype Transition = Transition(gmttime: int, localtime: int, localtimeIdx: nat)

  datatype Localtime = Localtime(gmtOffset: int, isDst: bool, arrbIdx: int)

  datatype Data = Data(transitions: seq<Transition>, localtimes: seq<Localtime>)

  /** There is a first record, and every transition points at one. */
  predicate IsData(data: Data) {
    |data.localtimes| > 0
    && forall t :: t in data.transitions ==> t.localtimeIdx < |data.localtimes|
  }

  function Key(t: Transition, compareGmt: bool): int {
    if compareGmt then t.gmttime else t.localtime
  }

  predicate Less(lhs: Transition, rhs: Transition, compareGmt: bool) {
    Key(lhs, compareGmt) < Key(rhs, compareGmt)
  }

  /** `std::lower_bound`: halving [lo, hi) until it is empty. */
  function LowerBound(ts: seq<Transition>, sentry: Transition, compareGmt: bool, lo: nat, hi: nat): (r: nat)
    requires lo <= hi <= |ts|
    ensures lo <= r <= hi
    ensures r < hi ==> !Less(ts[r], sentry, compareGmt)
    decreases hi - lo
  {
    if lo == hi then lo
    else
      var mid := lo + (hi - lo) / 2;
      if Less(ts[mid], sentry, compareGmt) then LowerBound(ts, sentry, compareGmt, mid + 1, hi)
      else LowerBound(ts, sentry, compareGmt, lo, mid)
  }

  function FindLocaltime(data: Data, sentry: Transition, compareGmt: bool): Localtime
    requires IsData(data)
  {
    var ts := data.transitions;
    if |ts| == 0 || Less(sentry, ts[0], compareGmt) then data.localtimes[0]
    else
      var i := LowerBound(ts, sentry, compareGmt, 0, |ts|);
      if i < |ts| then
        if Key(sentry, compareGmt) != Key(ts[i], compareGmt) then
          assert i != 0;
          data.localtimes[ts[i - 1].localtimeIdx]
        else data.localtimes[ts[i].localtimeIdx]
      else data.localtimes[ts[|ts| - 1].localtimeIdx]
  }

  predicate Ascending(ts: seq<Transition>, compareGmt: bool) {
    forall i, j :: 0 <= i < j < |ts| ==> Less(ts[i], ts[j], compareGmt)
  }

  /** How many transitions a scan passes before the first one after the key. */
  function CountNotAfter(ts: seq<Transition>, key: int, compareGmt: bool): (n: nat)
    ensures n <= |ts|
  {
    if |ts| == 0 || key < Key(ts[0], compareGmt) then 0 else 1 + CountNotAfter(ts[1..], key, compareGmt)
  }

  /** The record in force: that of the last transition not after the time, the first record when there is none. */
  function RecordInForce(data: Data, key: int, compareGmt: bool): Localtime
    requires IsData(data)
  {
    var n := CountNotAfter(data.transitions, key, compareGmt);
    if n == 0 then data.localtimes[0] else data.localtimes[data.transitions[n - 1].localtimeIdx]
  }

  /** Everything before the result is less than the sentry, nothing from it on is. */
  lemma {:induction false} LowerBoundSplits(ts: seq<Transition>, sentry: Transition, compareGmt: bool, lo: nat, hi: nat)
    requires lo <= hi <= |ts| && Ascending(ts, compareGmt)
    requires forall i :: 0 <= i < lo ==> Less(ts[i], sentry, compareGmt)
    requires forall i :: hi <= i < |ts| ==> !Less(ts[i], sentry, compareGmt)
    ensures var r := LowerBound(ts, sentry, compareGmt, lo, hi);
            && (forall i :: 0 <= i < r ==> Less(ts[i], sentry, compareGmt))
            && (forall i :: r <= i < |ts| ==> !Less(ts[i], sentry, compareGmt))
    decreases hi - lo
  {
    hide Less, Ascending;
    if lo < hi {
      var mid := lo + (hi - lo) / 2;
      Spreads(ts, sentry, compareGmt, mid);
      if Less(ts[mid], sentry, compareGmt) {
        LowerBoundSplits(ts, sentry, compareGmt, mid + 1, hi);
      } else {
        LowerBoundSplits(ts, sentry, compareGmt, lo, mid);
      }
    }
  }

  lemma Spreads(ts: seq<Transition>, sentry: Transition, compareGmt: bool, mid: nat)
    requires mid < |ts| && Ascending(ts, compareGmt)
    ensures Less(ts[mid], sentry, compareGmt) ==> forall i :: 0 <= i <= mid ==> Less(ts[i], sentry, compareGmt)
    ensures !Less(ts[mid], sentry, compareGmt) ==> forall i :: mid <= i < |ts| ==> !Less(ts[i], sentry, compareGmt)
  {
    forall i | 0 <= i < mid ensures Less(ts[i], ts[mid], compareGmt) {
    }
    forall i | mid < i < |ts| ensures Less(ts[mid], ts[i], compareGmt) {
    }
  }

  lemma {:induction false} CountNotAfterSplits(ts: seq<Transition>, key: int, compareGmt: bool)
    requires Ascending(ts, compareGmt)
    ensures var n := CountNotAfter(ts, key, compareGmt);
            && (forall i :: 0 <= i < n ==> Key(ts[i], compareGmt) <= key)
            && (forall i :: n <= i < |ts| ==> key < Key(ts[i], compareGmt))
  {
    if |ts| > 0 && key >= Key(ts[0], compareGmt) {
      CountNotAfterSplits(ts[1..], key, compareGmt);
      var n := CountNotAfter(ts[1..], key, compareGmt);
      forall i | n + 1 <= i < |ts| ensures key < Key(ts[i], compareGmt) {
        assert ts[i] == ts[1..][i - 1];
      }
      forall i | 0 < i < n + 1 ensures Key(ts[i], compareGmt) <= key {
        assert ts[i] == ts[1..][i - 1];
      }
    }
  }

  /** The two searches differ by the one transition that may fall on the time itself. */
  lemma LowerBoundAndCount(ts: seq<Transition>, sentry: Transition, compareGmt: bool)
    requires Ascending(ts, compareGmt)
    ensures var r := LowerBound(ts, sentry, compareGmt, 0, |ts|);
            CountNotAfter(ts, Key(sentry, compareGmt), compareGmt)
            == if r < |ts| && Key(ts[r], compareGmt) == Key(sentry, compareGmt) then r + 1 else r
  {
    LowerBoundSplits(ts, sentry, compareGmt, 0, |ts|);
    CountNotAfterSplits(ts, Key(sentry, compareGmt), compareGmt);
    hide LowerBound, CountNotAfter;
    var r := LowerBound(ts, sentry, compareGmt, 0, |ts|);
    var n := CountNotAfter(ts, Key(sentry, compareGmt), compareGmt);
    assert r + 1 < n ==> Less(ts[r], ts[r + 1], compareGmt);
    assert n < r ==> Less(ts[n], sentry, compareGmt);
  }

  /** The binary search finds the record in force, as section 3.2 of RFC 8536 describes it. */
  lemma FindLocaltimeIsRecordInForce(data: Data, sentry: Transition, compareGmt: bool)
    requires IsData(data) && Ascending(data.transitions, compareGmt)
    ensures FindLocaltime(data, sentry, compareGmt) == RecordInForce(data, Key(sentry, compareGmt), compareGmt)
  {
    hide Key;
    LowerBoundAndCount(data.transitions, sentry, compareGmt);
    hide LowerBound;
  }

  /** Transition i is the last one whose time is at most the one looked for; -1 if there is none. */
  predicate IsInForce(times: seq<int>, i: int, time: int) {
    && -1 <= i < |times|
    && (forall j :: 0 <= j <= i ==> times[j] <= time) && forall j :: i < j < |times| ==> 0 <= j && time < times[j]
  }

  predicate StrictlyAscending(times: seq<int>) {
    forall i, j :: 0 <= i < j < |times| ==> times[i] < times[j]
  }

  function GmtTimes(ts: seq<Transition>): (r: seq<int>)
    ensures |r| == |ts|
  {
    seq(|ts|, i requires 0 <= i < |ts| => ts[i].gmttime)
  }

  function LocalTimes(ts: seq<Transition>): (r: seq<int>)
    ensures |r| == |ts|
  {
    seq(|ts|, i requires 0 <= i < |ts| => ts[i].localtime)
  }

  function RecordAt(data: Data, i: int): Localtime
    requires IsData(data) && i < |data.transitions|
  {
    if i < 0 then data.localtimes[0] else data.localtimes[data.transitions[i].localtimeIdx]
  }

  lemma {:induction false} CountIs(ts: seq<Transition>, key: int, compareGmt: bool, i: int)
    requires Ascending(ts, compareGmt) && -1 <= i < |ts|
    requires forall j :: 0 <= j <= i ==> Key(ts[j], compareGmt) <= key
    requires forall j :: i < j < |ts| ==> 0 <= j && key < Key(ts[j], compareGmt)
    ensures CountNotAfter(ts, key, compareGmt) == i + 1
  {
    CountNotAfterSplits(ts, key, compareGmt);
    hide CountNotAfter, Key;
    assert i >= 0 ==> Key(ts[i], compareGmt) <= key;
    assert i + 1 < |ts| ==> key < Key(ts[i + 1], compareGmt);
  }

  /** By universal time the lookup gives the record of the last transition whose gmttime is not after it. */
  lemma LookupByGmt(data: Data, seconds: int, i: int)
    requires IsData(data) && StrictlyAscending(GmtTimes(data.transitions))
    requires IsInForce(GmtTimes(data.transitions), i, seconds)
    ensures FindLocaltime(data, Transition(seconds, 0, 0), true) == RecordAt(data, i)
  {
    var ts := data.transitions;
    assert forall j :: 0 <= j < |ts| ==> GmtTimes(ts)[j] == Key(ts[j], true);
    FindLocaltimeIsRecordInForce(data, Transition(seconds, 0, 0), true);
    CountIs(ts, seconds, true, i);
    hide FindLocaltime, CountNotAfter;
  }

  /** By local time, that of the last transition whose localtime is not after it. */
  lemma LookupByLocal(data: Data, seconds: int, i: int)
    requires IsData(data) && StrictlyAscending(LocalTimes(data.transitions))
    requires IsInForce(LocalTimes(data.transitions), i, seconds)
    ensures FindLocaltime(data, Transition(0, seconds, 0), false) == RecordAt(data, i)
  {
    var ts := data.transitions;
    assert forall j :: 0 <= j < |ts| ==> LocalTimes(ts)[j] == Key(ts[j], false);
    FindLocaltimeIsRecordInForce(data, Transition(0, seconds, 0), false);
    CountIs(ts, seconds, false, i);
    hide FindLocaltime, CountNotAfter;
  }
}
