/** Which schedules can fire at all, read off their fields. */
module CronFeasible {
  import opened Wrappers
  import opened Calendar
  import opened CronSearch
  import opened CronLaws

  // The most days a month can have.
  function MostDays(month: int): int {
    DaysIn(2000, month)
  }

  predicate HasBelow(bits: Bits, n: nat) {
    exists k: nat :: k < n && k in bits
  }

  // The day can be chosen in some year: under the star rule it must be in the day-of-month field and some
  // weekday in the other; otherwise one of the two suffices.
  predicate DayFeasible(s: SpecSchedule, day: nat) {
    if STAR_BIT in s.dom || STAR_BIT in s.dow then day in s.dom && HasBelow(s.dow, 7)
    else day in s.dom || HasBelow(s.dow, 7)
  }

  predicate DateFeasible(s: SpecSchedule, month: nat, day: nat) {
    1 <= month <= 12 && month in s.month && 1 <= day <= MostDays(month) && DayFeasible(s, day)
  }

  // No field is empty of values, and some month has a feasible day.
  predicate CanFire(s: SpecSchedule) {
    && HasBelow(s.second, 60) && HasBelow(s.minute, 60) && HasBelow(s.hour, 24)
    && exists month: nat, day: nat :: month <= 12 && day <= 31 && DateFeasible(s, month, day)
  }

  // ----- every date falls on every weekday -----

  // Four years on, from a leap year to the next, the weekday of a date advances by five.
  lemma FourYearsOn(j: nat, month: int, day: int)
    requires j < 7 && 1 <= month <= 12
    ensures IsLeap(2000 + 4 * j) && DayOfWeek(2000 + 4 * j, month, day) == (DayOfWeek(2000, month, day) + 5 * j) % 7
  {
    assert DaysBeforeYear(2000 + 4 * j) == DaysBeforeYear(2000) + 1461 * j by {
      if j == 0 {} else if j == 1 {} else if j == 2 {} else if j == 3 {} else if j == 4 {} else if j == 5 {} else {}
    }
    assert DayNumber(2000 + 4 * j, month, day) == DayNumber(2000, month, day) + 1461 * j;
    assert 1461 * j == 7 * (208 * j) + 5 * j;
  }

  lemma DateOnWeekday(month: int, day: int, w: nat) returns (year: int)
    requires 1 <= month <= 12 && 1 <= day <= MostDays(month) && w < 7
    ensures 2000 <= year && day <= DaysIn(year, month) && DayOfWeek(year, month, day) == w
  {
    var j := (3 * (w + 7 - DayOfWeek(2000, month, day))) % 7;
    FourYearsOn(j, month, day);
    year := 2000 + 4 * j;
    assert IsLeap(2000);
  }

  // ----- a feasible date has a matching time, and a matching time is a feasible date -----

  lemma MatchingTime(s: SpecSchedule) returns (t: Time)
    requires CanFire(s)
    ensures Matches(s, t) && Whole(t) && t.year >= 2000
  {
    var second: nat :| second < 60 && second in s.second;
    var minute: nat :| minute < 60 && minute in s.minute;
    var hour: nat :| hour < 24 && hour in s.hour;
    var month: nat, day: nat :| month <= 12 && day <= 31 && DateFeasible(s, month, day);
    var year := 2000;
    if HasBelow(s.dow, 7) {
      var w: nat :| w < 7 && w in s.dow;
      year := DateOnWeekday(month, day, w);
    }
    t := Stamp(year, month, day, hour, minute, second, 0);
  }

  lemma MatchIsFeasible(s: SpecSchedule, t: Time)
    requires Matches(s, t)
    ensures CanFire(s)
  {
    assert IsLeap(2000) && t.day <= MostDays(t.month);
    assert t.second in s.second && t.minute in s.minute && t.hour in s.hour;
    if Weekday(t) in s.dow { assert HasBelow(s.dow, 7); }
    assert DateFeasible(s, t.month, t.day);
  }

  function LastSecondOf(year: int): Time {
    Stamp(year, 12, 31, 23, 59, 59, 0)
  }

  // A schedule finds an activation from some second if and only if its fields allow one.
  lemma NeverFiresIffInfeasible(s: SpecSchedule)
    ensures (forall t: Time :: FirstFire(s, t) == None) <==> !CanFire(s)
  {
    if CanFire(s) {
      var year := FireAfter(s);
      assert FirstFire(s, LastSecondOf(year)) != None;
    } else {
      forall t: Time ensures FirstFire(s, t) == None {
        FirstFireMeaning(s, t);
        forall x: Time ensures !Matches(s, x) {
          if Matches(s, x) { MatchIsFeasible(s, x); }
        }
      }
    }
  }

  // It then finds one from the end of some year after 1998.
  lemma FireAfter(s: SpecSchedule) returns (year: int)
    requires CanFire(s)
    ensures year >= 1999 && FirstFire(s, LastSecondOf(year)).Some?
  {
    var x := MatchingTime(s);
    year := x.year - 1;
    FirstFireMeaning(s, LastSecondOf(year));
    assert Before(LastSecondOf(year), x);
  }
}
