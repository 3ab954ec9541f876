/** Civil time in UTC: the part of Go's `time` package the scheduler's search relies on.
    A `Time` is a proleptic-Gregorian date, a time of day and a nanosecond count. */
module Calendar {

  datatype Stamp = Stamp(year: int, month: int, day: int, hour: int, minute: int, second: int, nano: int)

  predicate IsLeap(y: int) {
    y % 4 == 0 && (y % 100 != 0 || y % 400 == 0)
  }

  function DaysIn(y: int, m: int): int {
    if m == 2 then (if IsLeap(y) then 29 else 28)
    else if m == 4 || m == 6 || m == 9 || m == 11 then 30
    else 31
  }

  predicate Valid(t: Stamp) {
    && 1 <= t.month <= 12
    && 1 <= t.day <= DaysIn(t.year, t.month)
    && 0 <= t.hour < 24
    && 0 <= t.minute < 60
    && 0 <= t.second < 60
    && 0 <= t.nano < 1_000_000_000
  }

  type Time = t: Stamp | Valid(t) witness Stamp(1, 1, 1, 0, 0, 0, 0)

  // Go's zero `time.Time{}`.
  const ZERO_TIME: Time := Stamp(1, 1, 1, 0, 0, 0, 0)

  const EPOCH: Time := Stamp(1970, 1, 1, 0, 0, 0, 0)

  predicate Whole(t: Time) {
    t.nano == 0
  }

  // The chronological order, read field by field.
  predicate Before(a: Stamp, b: Stamp) {
    if a.year != b.year then a.year < b.year
    else if a.month != b.month then a.month < b.month
    else if a.day != b.day then a.day < b.day
    else if a.hour != b.hour then a.hour < b.hour
    else if a.minute != b.minute then a.minute < b.minute
    else if a.second != b.second then a.second < b.second
    else a.nano < b.nano
  }

  predicate NotAfter(a: Stamp, b: Stamp) {
    a == b || Before(a, b)
  }

  // ----- time.Date, AddDate, Truncate and Add, as far as the search uses them -----

  // t.AddDate(0, 0, 1)
  function AddDay(t: Time): Time {
    if t.day < DaysIn(t.year, t.month) then t.(day := t.day + 1)
    else if t.month < 12 then t.(month := t.month + 1, day := 1)
    else t.(year := t.year + 1, month := 1, day := 1)
  }

  // t.AddDate(0, 1, 0): a day the next month does not have runs over into the month after it,
  // so 31 January becomes 2 or 3 March.
  function AddMonth(t: Time): Time {
    var y := if t.month < 12 then t.year else t.year + 1;
    var m := if t.month < 12 then t.month + 1 else 1;
    if t.day <= DaysIn(y, m) then t.(year := y, month := m, day := t.day)
    else t.(year := y, month := m + 1, day := t.day - DaysIn(y, m))
  }

  // t.Add(1 * time.Hour)
  function AddHour(t: Time): Time {
    if t.hour < 23 then t.(hour := t.hour + 1) else AddDay(t.(hour := 0))
  }

  // t.Add(1 * time.Minute)
  function AddMinute(t: Time): Time {
    if t.minute < 59 then t.(minute := t.minute + 1) else AddHour(t.(minute := 0))
  }

  // t.Add(1 * time.Second)
  function AddSecond(t: Time): Time {
    if t.second < 59 then t.(second := t.second + 1) else AddMinute(t.(second := 0))
  }

  function StartOfMonth(t: Time): Time {
    t.(day := 1, hour := 0, minute := 0, second := 0, nano := 0)
  }

  function StartOfDay(t: Time): Time {
    t.(hour := 0, minute := 0, second := 0, nano := 0)
  }

  function StartOfHour(t: Time): Time {
    t.(minute := 0, second := 0, nano := 0)
  }

  // t.Truncate(time.Minute)
  function StartOfMinute(t: Time): Time {
    t.(second := 0, nano := 0)
  }

  // t.Truncate(time.Second)
  function StartOfSecond(t: Time): Time {
    t.(nano := 0)
  }

  // t.Add(n * time.Second), as n steps of one second
  function AddSeconds(t: Time, n: nat): Time {
    if n == 0 then t else AddSecond(AddSeconds(t, n - 1))
  }

  // ----- absolute time -----

  function DaysBeforeYear(y: int): int {
    365 * (y - 1) + (y - 1) / 4 - (y - 1) / 100 + (y - 1) / 400
  }

  function DaysBeforeMonth(y: int, m: int): int
    requires 1 <= m <= 12
  {
    var leap := if IsLeap(y) then 1 else 0;
    if m == 1 then 0 else if m == 2 then 31 else if m == 3 then 59 + leap
    else if m == 4 then 90 + leap else if m == 5 then 120 + leap else if m == 6 then 151 + leap
    else if m == 7 then 181 + leap else if m == 8 then 212 + leap else if m == 9 then 243 + leap
    else if m == 10 then 273 + leap else if m == 11 then 304 + leap else 334 + leap
  }

  // Days since 1 January of year 1.
  function DayNumber(y: int, m: int, d: int): int
    requires 1 <= m <= 12
  {
    DaysBeforeYear(y) + DaysBeforeMonth(y, m) + d - 1
  }

  // Sunday = 0; 1 January of year 1 was a Monday.
  function DayOfWeek(y: int, m: int, d: int): nat
    requires 1 <= m <= 12
  {
    (DayNumber(y, m, d) + 1) % 7
  }

  // t.Weekday()
  function Weekday(t: Time): nat {
    DayOfWeek(t.year, t.month, t.day)
  }

  function Days(t: Time): int {
    DayNumber(t.year, t.month, t.day)
  }

  // t.Unix(); 1 January 1970 is day 719162.
  function Unix(t: Time): int {
    (Days(t) - 719162) * 86400 + t.hour * 3600 + t.minute * 60 + t.second
  }

  // ----- the civil steps are the absolute ones -----

  lemma FloorSteps(y: int)
    ensures y / 4 == (y - 1) / 4 + if y % 4 == 0 then 1 else 0
    ensures y / 100 == (y - 1) / 100 + if y % 100 == 0 then 1 else 0
    ensures y / 400 == (y - 1) / 400 + if y % 400 == 0 then 1 else 0
  {
  }

  lemma MultiplesNest(y: int)
    ensures y % 400 == 0 ==> y % 100 == 0
    ensures y % 100 == 0 ==> y % 4 == 0
  {
  }

  lemma YearLength(y: int)
    ensures DaysBeforeYear(y + 1) == DaysBeforeYear(y) + (if IsLeap(y) then 366 else 365)
  {
    FloorSteps(y);
    MultiplesNest(y);
  }

  lemma MonthLength(y: int, m: int)
    requires 1 <= m < 12
    ensures DaysBeforeMonth(y, m + 1) == DaysBeforeMonth(y, m) + DaysIn(y, m)
  {
  }

  lemma AddDayIsNextDay(t: Time)
    ensures Days(AddDay(t)) == Days(t) + 1
  {
    if t.day == DaysIn(t.year, t.month) {
      if t.month < 12 {
        MonthLength(t.year, t.month);
      } else {
        YearLength(t.year);
      }
    }
  }

  lemma WeekCycle(n: int, n': int)
    requires n' == n + 1
    ensures (n' + 1) % 7 == ((n + 1) % 7 + 1) % 7
  {
  }

  lemma WeekdayAdvances(t: Time)
    ensures Weekday(AddDay(t)) == (Weekday(t) + 1) % 7
  {
    AddDayIsNextDay(t);
    WeekCycle(Days(t), Days(AddDay(t)));
  }

  // Each civil step advances absolute time by its nominal number of seconds.
  lemma AddDayUnix(t: Time)
    ensures Unix(AddDay(t)) == Unix(t) + 86400
  {
    AddDayIsNextDay(t);
  }

  lemma AddHourUnix(t: Time)
    ensures Unix(AddHour(t)) == Unix(t) + 3600
  {
    AddDayUnix(t.(hour := 0));
  }

  lemma AddMinuteUnix(t: Time)
    ensures Unix(AddMinute(t)) == Unix(t) + 60
  {
    AddHourUnix(t.(minute := 0));
  }

  lemma AddSecondUnix(t: Time)
    ensures Unix(AddSecond(t)) == Unix(t) + 1
    ensures AddSecond(t).nano == t.nano
  {
    AddMinuteUnix(t.(second := 0));
  }

  // Adding a month adds as many days as the month has, so 31 January becomes 2 or 3 March.
  lemma AddMonthUnix(t: Time)
    ensures Unix(AddMonth(t)) == Unix(t) + DaysIn(t.year, t.month) * 86400 && AddMonth(t).nano == t.nano
  {
    if t.month == 12 { YearLength(t.year); }
  }

  lemma DayOfUnix(t: Time)
    ensures Unix(t) / 86400 == Days(t) - 719162
  {
    DayOfSeconds(Days(t) - 719162, t.hour * 3600 + t.minute * 60 + t.second);
  }

  lemma DayOfSeconds(d: int, s: int)
    requires 0 <= s < 86400
    ensures (d * 86400 + s) / 86400 == d
  {
  }

  lemma WeekShift(d: int)
    ensures (d + 1) % 7 == (d - 719162 + 4) % 7
  {
    var q, r := (d + 1) / 7, (d + 1) % 7;
    assert d - 719162 + 4 == 7 * (q - 102737) + r;
  }

  lemma WeekdayOfDay(t: Time)
    ensures Weekday(t) == (Days(t) + 1) % 7
  {
  }

  // The weekday of every time, from its seconds since 1970: 1 January 1970 was a Thursday.
  lemma WeekdayOfUnix(t: Time)
    ensures Weekday(t) == (Unix(t) / 86400 + 4) % 7
  {
    WeekdayOfDay(t);
    WeekShift(Days(t));
    DayOfUnix(t);
  }

  // The same, without showing the dates.
  lemma UnixSuccessor(t: Time, u: Time)
    requires u == AddSecond(t)
    ensures Unix(u) == Unix(t) + 1 && u.nano == t.nano
  {
    AddSecondUnix(t);
  }

  lemma {:induction false} YearsGrow(y: int, z: int)
    requires y < z
    ensures DaysBeforeYear(z) >= DaysBeforeYear(y) + (if IsLeap(y) then 366 else 365)
    decreases z - y
  {
    YearLength(z - 1);
    if y < z - 1 { YearsGrow(y, z - 1); }
  }

  lemma MonthsGrow(y: int, m: int, n: int)
    requires 1 <= m < n <= 12
    ensures DaysBeforeMonth(y, n) >= DaysBeforeMonth(y, m) + DaysIn(y, m)
  {
  }

  lemma EarlierDayIsSmaller(a: Time, b: Time)
    requires a.year < b.year || (a.year == b.year && (a.month < b.month || (a.month == b.month && a.day < b.day)))
    ensures Days(a) < Days(b)
  {
    if a.year < b.year {
      YearsGrow(a.year, b.year);
    } else if a.month < b.month {
      MonthsGrow(a.year, a.month, b.month);
    }
  }

  // The field-by-field order is the order of absolute time.
  lemma BeforeIffUnix(a: Time, b: Time)
    requires Whole(a) && Whole(b)
    ensures Before(a, b) <==> Unix(a) < Unix(b)
    ensures a == b <==> Unix(a) == Unix(b)
  {
    if a.year != b.year || a.month != b.month || a.day != b.day {
      if Before(a, b) {
        EarlierDayIsSmaller(a, b);
      } else {
        EarlierDayIsSmaller(b, a);
      }
    }
  }

  lemma {:induction false} AddSecondsUnix(t: Time, n: nat)
    ensures Unix(AddSeconds(t, n)) == Unix(t) + n
    ensures AddSeconds(t, n).nano == t.nano
  {
    if n > 0 {
      AddSecondsUnix(t, n - 1);
      UnixSuccessor(AddSeconds(t, n - 1), AddSeconds(t, n));
    }
  }

  lemma EpochIsZero()
    ensures Reads(EPOCH, 0)
  {
  }

  // The whole second t is u seconds after 1 January 1970.
  predicate Reads(t: Time, u: int) {
    Whole(t) && Unix(t) == u
  }

  function SecondsOn(start: Time, u: nat): (t: Time)
    requires Reads(start, 0)
    ensures Reads(t, u)
  {
    AddSecondsUnix(start, u);
    AddSeconds(start, u)
  }

  // time.Unix(u, 0)
  function FromUnix(u: nat): (t: Time)
    ensures Reads(t, u)
  {
    EpochIsZero();
    SecondsOn(EPOCH, u)
  }

  // Every whole second after `start` is the one its number of seconds denotes.
  lemma SecondAfter(start: Time, t: Time) returns (u: nat)
    requires Reads(start, 0) && Whole(t) && start.year < t.year
    ensures FromUnix(u) == t
  {
    BeforeIffUnix(start, t);
    u := Unix(t);
    SameReading(FromUnix(u), t, u);
  }

  lemma SameReading(a: Time, b: Time, u: int)
    requires Reads(a, u) && Reads(b, u)
    ensures a == b
  {
    BeforeIffUnix(a, b);
  }

  lemma FromUnixOf(t: Time) returns (u: nat)
    requires Whole(t) && t.year > 1970
    ensures FromUnix(u) == t
  {
    EpochIsZero();
    u := SecondAfter(EPOCH, t);
  }

  // AddSecond is the successor in the chronological order.
  lemma AddSecondIsSuccessor(t: Time, x: Time)
    requires Whole(t) && Whole(x)
    ensures Before(t, x) <==> NotAfter(AddSecond(t), x)
  {
    AddSecondUnix(t);
    BeforeIffUnix(t, x);
    BeforeIffUnix(AddSecond(t), x);
  }
}
