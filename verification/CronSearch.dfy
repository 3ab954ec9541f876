/** delayquene/spec.go: a schedule as six bit masks, and the search for its next activation. */
module CronSearch {
  import opened Wrappers
  import opened Calendar

  // A 64-bit mask, as the set of the bits that are 1: 1<<k & mask != 0 is k in mask.
  type Bits = set<nat>

  datatype SpecSchedule = SpecSchedule(second: Bits, minute: Bits, hour: Bits, dom: Bits, month: Bits, dow: Bits)

  // The bit that records a star in the field's text.
  const STAR_BIT: nat := 63

  const SEARCH_YEARS := 5

  predicate DayMatches(s: SpecSchedule, t: Time) {
    var domMatch := t.day in s.dom;
    var dowMatch := Weekday(t) in s.dow;
    if STAR_BIT in s.dom || STAR_BIT in s.dow then domMatch && dowMatch else domMatch || dowMatch
  }

  predicate Matches(s: SpecSchedule, t: Time) {
    && t.month in s.month
    && DayMatches(s, t)
    && t.hour in s.hour
    && t.minute in s.minute
    && t.second in s.second
  }

  // ----- the obvious specification: step one second at a time -----

  function Scan(s: SpecSchedule, t: Time, limit: int): Option<Time>
    decreases limit - t.year, 12 - t.month, 31 - t.day, 23 - t.hour, 59 - t.minute, 59 - t.second
  {
    if t.year > limit then None
    else if Matches(s, t) then Some(t)
    else Scan(s, AddSecond(t), limit)
  }

  // The upcoming second: t.Add(1*time.Second - t.Nanosecond())
  function UpcomingSecond(t: Time): Time {
    AddSecond(StartOfSecond(t))
  }

  function SearchLimit(t: Time): int {
    UpcomingSecond(t).year + SEARCH_YEARS
  }

  // The first activation after t, if the search window holds one.
  function FirstFire(s: SpecSchedule, t: Time): Option<Time> {
    Scan(s, UpcomingSecond(t), SearchLimit(t))
  }

  // What Next returns: the zero time stands for "no activation in the window".
  function NextTime(s: SpecSchedule, t: Time): Time {
    match FirstFire(s, t)
    case Some(r) => r
    case None => ZERO_TIME
  }

  // ----- what the scan finds -----

  // No activation in [a, b).
  ghost predicate Quiet(s: SpecSchedule, a: Time, b: Time) {
    forall x: Time :: Whole(x) && NotAfter(a, x) && Before(x, b) ==> !Matches(s, x)
  }

  // No activation from a to the end of the year `limit`.
  ghost predicate Silent(s: SpecSchedule, a: Time, limit: int) {
    forall x: Time :: Whole(x) && NotAfter(a, x) && x.year <= limit ==> !Matches(s, x)
  }

  // What the scan finds is the earliest activation of its window, and it misses none.
  lemma {:induction false} ScanIsFirst(s: SpecSchedule, t: Time, limit: int)
    requires Whole(t)
    ensures var r := Scan(s, t, limit);
      if r.None? then Silent(s, t, limit)
      else && Matches(s, r.value) && Whole(r.value) && NotAfter(t, r.value) && r.value.year <= limit
           && Quiet(s, t, r.value)
    decreases limit - t.year, 12 - t.month, 31 - t.day, 23 - t.hour, 59 - t.minute, 59 - t.second
  {
    if t.year <= limit && !Matches(s, t) {
      ScanIsFirst(s, AddSecond(t), limit);
      forall x: Time | Whole(x)
        ensures Before(t, x) <==> NotAfter(AddSecond(t), x)
      {
        AddSecondIsSuccessor(t, x);
      }
    }
  }

  // ----- skipping a field that does not match skips no activation -----

  // The number of seconds from t to the end of the search window.
  ghost function SecondsLeft(t: Time, limit: int): nat
    decreases limit - t.year, 12 - t.month, 31 - t.day, 23 - t.hour, 59 - t.minute, 59 - t.second
  {
    if t.year > limit then 0 else 1 + SecondsLeft(AddSecond(t), limit)
  }

  lemma {:induction false} SkipMonth(s: SpecSchedule, t: Time, limit: int)
    requires t.year <= limit && Whole(t) && t.month !in s.month
    ensures Scan(s, t, limit) == Scan(s, AddMonth(StartOfMonth(t)), limit)
    ensures SecondsLeft(AddMonth(StartOfMonth(t)), limit) < SecondsLeft(t, limit)
    decreases 31 - t.day, 23 - t.hour, 59 - t.minute, 59 - t.second
  {
    var u := AddSecond(t);
    if u.month == t.month { SkipMonth(s, u, limit); }
  }

  lemma {:induction false} SkipDay(s: SpecSchedule, t: Time, limit: int)
    requires t.year <= limit && Whole(t) && !DayMatches(s, t)
    ensures Scan(s, t, limit) == Scan(s, AddDay(StartOfDay(t)), limit)
    ensures SecondsLeft(AddDay(StartOfDay(t)), limit) < SecondsLeft(t, limit)
    decreases 23 - t.hour, 59 - t.minute, 59 - t.second
  {
    if t.hour < 23 || t.minute < 59 || t.second < 59 { SkipDay(s, AddSecond(t), limit); }
  }

  lemma {:induction false} SkipHour(s: SpecSchedule, t: Time, limit: int)
    requires t.year <= limit && Whole(t) && t.hour !in s.hour
    ensures Scan(s, t, limit) == Scan(s, AddHour(StartOfHour(t)), limit)
    ensures SecondsLeft(AddHour(StartOfHour(t)), limit) < SecondsLeft(t, limit)
    decreases 59 - t.minute, 59 - t.second
  {
    if t.minute < 59 || t.second < 59 { SkipHour(s, AddSecond(t), limit); }
  }

  lemma {:induction false} SkipMinute(s: SpecSchedule, t: Time, limit: int)
    requires t.year <= limit && Whole(t) && t.minute !in s.minute
    ensures Scan(s, t, limit) == Scan(s, AddMinute(StartOfMinute(t)), limit)
    ensures SecondsLeft(AddMinute(StartOfMinute(t)), limit) < SecondsLeft(t, limit)
    decreases 59 - t.second
  {
    if t.second < 59 { SkipMinute(s, AddSecond(t), limit); }
  }

  // ----- the search -----

  // Once a field has been advanced, every field that is not yet known to match sits on top of
  // fields that are all at their minimum.
  predicate ResetBelow(s: SpecSchedule, t: Time) {
    && (t.month !in s.month ==> t == StartOfMonth(t))
    && (!DayMatches(s, t) ==> t == StartOfDay(t))
    && (t.hour !in s.hour ==> t == StartOfHour(t))
    && (t.minute !in s.minute ==> t == StartOfMinute(t))
  }

  // The state of the search at time t: scanning from t still leads to `goal`.
  ghost predicate Seeking(s: SpecSchedule, t: Time, added: bool, limit: int, goal: Option<Time>) {
    && Whole(t)
    && Scan(s, t, limit) == goal
    && (added ==> ResetBelow(s, t))
  }

  lemma MonthStep(s: SpecSchedule, t: Time, added: bool, u: Time, limit: int, goal: Option<Time>)
    requires Seeking(s, t, added, limit, goal) && t.year <= limit
    requires t.month !in s.month
    requires u == if added then t else StartOfMonth(t)
    ensures Seeking(s, AddMonth(u), true, limit, goal)
    ensures added ==> SecondsLeft(AddMonth(u), limit) < SecondsLeft(t, limit)
  {
    assert u == StartOfMonth(t);
    SkipMonth(s, t, limit);
  }

  lemma DayStep(s: SpecSchedule, t: Time, added: bool, u: Time, limit: int, goal: Option<Time>)
    requires Seeking(s, t, added, limit, goal) && t.year <= limit
    requires t.month in s.month && !DayMatches(s, t)
    requires u == if added then t else StartOfDay(t)
    ensures Seeking(s, AddDay(u), true, limit, goal)
    ensures added ==> SecondsLeft(AddDay(u), limit) < SecondsLeft(t, limit)
  {
    assert u == StartOfDay(t);
    SkipDay(s, t, limit);
  }

  lemma HourStep(s: SpecSchedule, t: Time, added: bool, u: Time, limit: int, goal: Option<Time>)
    requires Seeking(s, t, added, limit, goal) && t.year <= limit
    requires t.month in s.month && DayMatches(s, t) && t.hour !in s.hour
    requires u == if added then t else StartOfHour(t)
    ensures Seeking(s, AddHour(u), true, limit, goal)
    ensures added ==> SecondsLeft(AddHour(u), limit) < SecondsLeft(t, limit)
  {
    assert u == StartOfHour(t);
    SkipHour(s, t, limit);
  }

  lemma MinuteStep(s: SpecSchedule, t: Time, added: bool, u: Time, limit: int, goal: Option<Time>)
    requires Seeking(s, t, added, limit, goal) && t.year <= limit
    requires t.month in s.month && DayMatches(s, t) && t.hour in s.hour && t.minute !in s.minute
    requires u == if added then t else StartOfMinute(t)
    ensures Seeking(s, AddMinute(u), true, limit, goal)
    ensures added ==> SecondsLeft(AddMinute(u), limit) < SecondsLeft(t, limit)
  {
    assert u == StartOfMinute(t);
    SkipMinute(s, t, limit);
  }

  lemma SecondStep(s: SpecSchedule, t: Time, added: bool, u: Time, limit: int, goal: Option<Time>)
    requires Seeking(s, t, added, limit, goal) && t.year <= limit
    requires t.month in s.month && DayMatches(s, t) && t.hour in s.hour && t.minute in s.minute && t.second !in s.second
    requires u == if added then t else StartOfSecond(t)
    ensures Seeking(s, AddSecond(u), true, limit, goal)
    ensures added ==> SecondsLeft(AddSecond(u), limit) < SecondsLeft(t, limit)
  {
    assert u == t;
  }

  // The hour, minute and second loops of the search. `wrap` stands for the source's goto WRAP.
  method NextTimeOfDay(s: SpecSchedule, from: Time, fromAdded: bool, limit: int, ghost goal: Option<Time>)
    returns (t: Time, added: bool, wrap: bool)
    requires from.year <= limit && Seeking(s, from, fromAdded, limit, goal)
    requires from.month in s.month && DayMatches(s, from)
    ensures Seeking(s, t, added, limit, goal)
    ensures wrap ==> added && (fromAdded ==> SecondsLeft(t, limit) < SecondsLeft(from, limit))
    ensures !wrap ==> t.year <= limit && Matches(s, t)
  {
    t, added := from, fromAdded;
    while t.hour !in s.hour
      invariant t.year <= limit && Seeking(s, t, added, limit, goal)
      invariant t.month in s.month && DayMatches(s, t)
      invariant fromAdded ==> added && SecondsLeft(t, limit) <= SecondsLeft(from, limit)
      decreases !added, SecondsLeft(t, limit)
    {
      ghost var was, wasAdded := t, added;
      if !added {
        added := true;
        t := StartOfHour(t);
      }
      HourStep(s, was, wasAdded, t, limit, goal);
      t := AddHour(t);
      if t.hour == 0 {
        return t, true, true;
      }
    }

    while t.minute !in s.minute
      invariant t.year <= limit && Seeking(s, t, added, limit, goal)
      invariant t.month in s.month && DayMatches(s, t) && t.hour in s.hour
      invariant fromAdded ==> added && SecondsLeft(t, limit) <= SecondsLeft(from, limit)
      decreases !added, SecondsLeft(t, limit)
    {
      ghost var was, wasAdded := t, added;
      if !added {
        added := true;
        t := StartOfMinute(t);
      }
      MinuteStep(s, was, wasAdded, t, limit, goal);
      t := AddMinute(t);
      if t.minute == 0 {
        return t, true, true;
      }
    }

    while t.second !in s.second
      invariant t.year <= limit && Seeking(s, t, added, limit, goal)
      invariant t.month in s.month && DayMatches(s, t) && t.hour in s.hour && t.minute in s.minute
      invariant fromAdded ==> added && SecondsLeft(t, limit) <= SecondsLeft(from, limit)
      decreases !added, SecondsLeft(t, limit)
    {
      ghost var was, wasAdded := t, added;
      if !added {
        added := true;
        t := StartOfSecond(t);
      }
      SecondStep(s, was, wasAdded, t, limit, goal);
      t := AddSecond(t);
      if t.second == 0 {
        return t, true, true;
      }
    }
    wrap := false;
  }

  // The search of the source, whose goto WRAP is `continue Wrap`: each loop advances one field, and a flag
  // truncates the smaller fields once. It returns what the one-second scan finds.
  method Next(s: SpecSchedule, from: Time) returns (r: Time)
    ensures r == NextTime(s, from)
  {
    var t: Time := UpcomingSecond(from);
    var added := false;
    var yearLimit := t.year + 5;
    ghost var goal := FirstFire(s, from);
    label Wrap:
    while true
      invariant Seeking(s, t, added, yearLimit, goal)
      decreases !added, SecondsLeft(t, yearLimit)
    {
      if t.year > yearLimit {
        return ZERO_TIME;
      }
      ghost var head, headAdded := t, added;

      while t.month !in s.month
        invariant t.year <= yearLimit && Seeking(s, t, added, yearLimit, goal)
        invariant headAdded ==> added && SecondsLeft(t, yearLimit) <= SecondsLeft(head, yearLimit)
        decreases !added, SecondsLeft(t, yearLimit)
      {
        ghost var was, wasAdded := t, added;
        if !added {
          added := true;
          t := StartOfMonth(t);
        }
        MonthStep(s, was, wasAdded, t, yearLimit, goal);
        t := AddMonth(t);
        if t.month == 1 {
          continue Wrap;
        }
      }

      while !DayMatches(s, t)
        invariant t.year <= yearLimit && Seeking(s, t, added, yearLimit, goal)
        invariant t.month in s.month
        invariant headAdded ==> added && SecondsLeft(t, yearLimit) <= SecondsLeft(head, yearLimit)
        decreases !added, SecondsLeft(t, yearLimit)
      {
        ghost var was, wasAdded := t, added;
        if !added {
          added := true;
          t := StartOfDay(t);
        }
        DayStep(s, was, wasAdded, t, yearLimit, goal);
        t := AddDay(t);
        if t.day == 1 {
          continue Wrap;
        }
      }

      var wrap;
      t, added, wrap := NextTimeOfDay(s, t, added, yearLimit, goal);
      if wrap {
        continue Wrap;
      }
      return t;
    }
  }
}
