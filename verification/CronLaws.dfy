/** What the result of `SpecSchedule.Next` means, and what iterating it lists. */
module CronLaws {
  import opened Wrappers
  import opened Calendar
  import opened CronSearch

  // r is the first activation strictly after t.
  ghost predicate IsNextFire(s: SpecSchedule, t: Time, r: Time) {
    && Whole(r) && Before(t, r) && Matches(s, r)
    && forall x: Time :: Whole(x) && Before(t, x) && Before(x, r) ==> !Matches(s, x)
  }

  // No activation strictly after t up to the end of the year `limit`.
  ghost predicate NoneUntil(s: SpecSchedule, t: Time, limit: int) {
    forall x: Time :: Whole(x) && Before(t, x) && x.year <= limit ==> !Matches(s, x)
  }

  lemma UpcomingIsLeastAfter(t: Time, x: Time)
    requires Whole(x)
    ensures Before(t, x) <==> NotAfter(UpcomingSecond(t), x)
  {
    AddSecondIsSuccessor(StartOfSecond(t), x);
  }

  // The search finds r exactly when r is the first activation after t and lies in the window; it
  // finds nothing exactly when the window holds no activation.
  lemma FirstFireMeaning(s: SpecSchedule, t: Time)
    ensures forall r: Time :: FirstFire(s, t) == Some(r) <==> IsNextFire(s, t, r) && r.year <= SearchLimit(t)
    ensures FirstFire(s, t) == None <==> NoneUntil(s, t, SearchLimit(t))
  {
    var u := UpcomingSecond(t);
    ScanIsFirst(s, u, SearchLimit(t));
    forall x: Time | Whole(x)
      ensures Before(t, x) <==> NotAfter(u, x)
    {
      UpcomingIsLeastAfter(t, x);
    }
    forall r: Time
      ensures FirstFire(s, t) == Some(r) <==> IsNextFire(s, t, r) && r.year <= SearchLimit(t)
    {
      if IsNextFire(s, t, r) && r.year <= SearchLimit(t) {
        var q := Scan(s, u, SearchLimit(t)).value;
        BeforeTotal(q, r);
        BeforeTotal(r, q);
      }
    }
  }

  // The zero result says "nothing in the window", unless the first activation is the zero time itself.
  lemma ZeroResultMeaning(s: SpecSchedule, t: Time)
    ensures NextTime(s, t) == ZERO_TIME <==>
            NoneUntil(s, t, SearchLimit(t)) || (IsNextFire(s, t, ZERO_TIME) && 1 <= SearchLimit(t))
    ensures NotAfter(ZERO_TIME, t) ==> (NextTime(s, t) == ZERO_TIME <==> NoneUntil(s, t, SearchLimit(t)))
  {
    FirstFireMeaning(s, t);
  }

  const EVERY_SECOND := SpecSchedule(
    set k: nat | 0 <= k < 60, set k: nat | 0 <= k < 60, set k: nat | 0 <= k < 24,
    set k: nat | 1 <= k < 32, set k: nat | 1 <= k < 13, set k: nat | 0 <= k < 7)

  // Before year 1 the zero result can be an activation.
  lemma ZeroResultAmbiguous()
    ensures var t: Time := Stamp(0, 12, 31, 23, 59, 59, 0);
      && NextTime(EVERY_SECOND, t) == ZERO_TIME && Matches(EVERY_SECOND, ZERO_TIME)
      && !NoneUntil(EVERY_SECOND, t, SearchLimit(t))
  {
    var t: Time := Stamp(0, 12, 31, 23, 59, 59, 0);
    assert UpcomingSecond(t) == ZERO_TIME;
    assert Matches(EVERY_SECOND, ZERO_TIME);
    assert Before(t, ZERO_TIME);
  }

  // ----- monotonicity and enumeration -----

  lemma BeforeTrans(a: Stamp, b: Stamp, c: Stamp)
    requires NotAfter(a, b) && NotAfter(b, c)
    ensures NotAfter(a, c)
    ensures a != b || b != c ==> Before(a, c)
  {
  }

  lemma BeforeTotal(a: Stamp, b: Stamp)
    ensures Before(a, b) || NotAfter(b, a)
    ensures !(Before(a, b) && NotAfter(b, a))
  {
  }

  // A later start searches at least as far.
  lemma WindowGrows(a: Time, b: Time)
    requires NotAfter(a, b)
    ensures SearchLimit(a) <= SearchLimit(b)
  {
    UpcomingIsLeastAfter(a, UpcomingSecond(b));
    UpcomingIsLeastAfter(b, UpcomingSecond(b));
    BeforeTrans(a, b, UpcomingSecond(b));
  }

  // Every start between t and its next activation has the same next activation.
  lemma SameFireUntilIt(s: SpecSchedule, a: Time, b: Time)
    requires FirstFire(s, a).Some? && NotAfter(a, b) && Before(b, FirstFire(s, a).value)
    ensures FirstFire(s, b) == FirstFire(s, a)
  {
    var r := FirstFire(s, a).value;
    FirstFireMeaning(s, a);
    FirstFireMeaning(s, b);
    WindowGrows(a, b);
    forall x: Time | Whole(x) && Before(b, x) && Before(x, r)
      ensures !Matches(s, x)
    {
      BeforeTrans(a, b, x);
    }
    assert IsNextFire(s, b, r);
  }

  lemma NextIsMonotone(s: SpecSchedule, a: Time, b: Time)
    requires NotAfter(a, b) && FirstFire(s, a).Some? && FirstFire(s, b).Some?
    ensures NotAfter(FirstFire(s, a).value, FirstFire(s, b).value)
  {
    var r, q := FirstFire(s, a).value, FirstFire(s, b).value;
    FirstFireMeaning(s, a);
    FirstFireMeaning(s, b);
    BeforeTrans(a, b, q);
    BeforeTotal(q, r);
  }

  // The first n activations after t, as iterating Next yields them until it reports none.
  function Fires(s: SpecSchedule, t: Time, n: nat): seq<Time>
    decreases n
  {
    if n == 0 then []
    else match FirstFire(s, t)
      case None => []
      case Some(r) => [r] + Fires(s, r, n - 1)
  }

  function LastOf(t: Time, f: seq<Time>): Time {
    if f == [] then t else f[|f| - 1]
  }

  lemma FiresCons(s: SpecSchedule, t: Time, n: nat) returns (r: Time, g: seq<Time>)
    requires n > 0 && FirstFire(s, t).Some?
    ensures r == FirstFire(s, t).value && g == Fires(s, r, n - 1)
    ensures Fires(s, t, n) == [r] + g
    ensures IsNextFire(s, t, r)
  {
    FirstFireMeaning(s, t);
    r := FirstFire(s, t).value;
    g := Fires(s, r, n - 1);
  }

  lemma FiresNil(s: SpecSchedule, t: Time, n: nat)
    requires n == 0 || FirstFire(s, t).None?
    ensures Fires(s, t, n) == []
    ensures n > 0 ==> NoneUntil(s, t, SearchLimit(t))
  {
    FirstFireMeaning(s, t);
  }

  ghost predicate Ascending(t: Time, f: seq<Time>) {
    && (forall i :: 0 <= i < |f| ==> Whole(f[i]) && Before(t, f[i]) && NotAfter(f[i], LastOf(t, f)))
    && (forall i, j :: 0 <= i < j < |f| ==> Before(f[i], f[j]))
  }

  lemma {:induction false} FiresAscend(s: SpecSchedule, t: Time, n: nat)
    ensures Ascending(t, Fires(s, t, n))
    decreases n
  {
    if n == 0 || FirstFire(s, t).None? {
      FiresNil(s, t, n);
    } else {
      var r, g := FiresCons(s, t, n);
      FiresAscend(s, r, n - 1);
      Prepend(t, r, g);
    }
  }

  lemma Prepend(t: Time, r: Time, g: seq<Time>)
    requires Whole(r) && Before(t, r) && Ascending(r, g)
    ensures Ascending(t, [r] + g)
    ensures LastOf(t, [r] + g) == LastOf(r, g) && NotAfter(r, LastOf(r, g))
  {
    forall i | 0 <= i < |g|
      ensures Before(t, g[i])
    {
      BeforeTrans(t, r, g[i]);
    }
    if g != [] { BeforeTrans(r, g[0], LastOf(r, g)); }
  }

  lemma ListedStep(s: SpecSchedule, t: Time, r: Time, g: seq<Time>, x: Time)
    requires IsNextFire(s, t, r) && Ascending(r, g)
    requires Whole(x) && Before(t, x)
    requires Before(r, x) ==> (Matches(s, x) <==> x in g)
    ensures Matches(s, x) <==> x in [r] + g
  {
    BeforeTotal(r, x);
    BeforeTotal(x, r);
    if x in g {
      var i :| 0 <= i < |g| && g[i] == x;
      assert Before(r, g[i]);
    }
  }

  // A second up to the last one listed is listed if and only if it matches.
  lemma {:induction false} FiresListMatches(s: SpecSchedule, t: Time, n: nat, x: Time)
    requires Whole(x) && Before(t, x) && NotAfter(x, LastOf(t, Fires(s, t, n)))
    ensures Matches(s, x) <==> x in Fires(s, t, n)
    decreases n
  {
    if n == 0 || FirstFire(s, t).None? {
      FiresNil(s, t, n);
      BeforeTotal(t, x);
    } else {
      var r, g := FiresCons(s, t, n);
      FiresAscend(s, r, n - 1);
      Prepend(t, r, g);
      if Before(r, x) { FiresListMatches(s, r, n - 1, x); }
      ListedStep(s, t, r, g, x);
    }
  }

  // The list stops before n entries only where the search finds nothing more.
  lemma {:induction false} FiresStop(s: SpecSchedule, t: Time, n: nat)
    ensures |Fires(s, t, n)| <= n
    ensures |Fires(s, t, n)| < n ==>
      var last := LastOf(t, Fires(s, t, n)); NoneUntil(s, last, SearchLimit(last))
    decreases n
  {
    if n == 0 || FirstFire(s, t).None? {
      FiresNil(s, t, n);
    } else {
      var r, g := FiresCons(s, t, n);
      FiresStop(s, r, n - 1);
      assert LastOf(t, [r] + g) == LastOf(r, g);
    }
  }

  // Iterating Next lists exactly the matching seconds up to the last one listed, in increasing
  // order and without repetition, and ends early only where the window after the last one is empty.
  lemma IteratingNextEnumerates(s: SpecSchedule, t: Time, n: nat)
    ensures var f := Fires(s, t, n); var last := LastOf(t, f);
      && Ascending(t, f)
      && (forall x: Time :: Whole(x) && Before(t, x) && NotAfter(x, last) ==> (Matches(s, x) <==> x in f))
      && |f| <= n
      && (|f| < n ==> NoneUntil(s, last, SearchLimit(last)))
  {
    FiresAscend(s, t, n);
    FiresStop(s, t, n);
    forall x: Time | Whole(x) && Before(t, x) && NotAfter(x, LastOf(t, Fires(s, t, n)))
      ensures Matches(s, x) <==> x in Fires(s, t, n)
    {
      FiresListMatches(s, t, n, x);
    }
  }

  // ----- where the five-year window matters -----

  // Midnight on 29 February: the pattern "0 0 29 2 *".
  const LEAP_DAY := SpecSchedule({0}, {0}, {0}, {29}, {2}, (set k: nat | 0 <= k < 7) + {STAR_BIT})

  function LeapDay(y: int): Time
    requires IsLeap(y)
  {
    Stamp(y, 2, 29, 0, 0, 0, 0)
  }

  // The pattern fires in exactly the leap years, yet the search reports none when the next leap
  // year lies beyond its window.
  lemma LeapDayFound(t: Time)
    ensures FirstFire(LEAP_DAY, t) == None <==>
            forall y :: y <= SearchLimit(t) && IsLeap(y) ==> NotAfter(LeapDay(y), t)
  {
    FirstFireMeaning(LEAP_DAY, t);
    if FirstFire(LEAP_DAY, t) == None {
      forall y | y <= SearchLimit(t) && IsLeap(y)
        ensures NotAfter(LeapDay(y), t)
      {
        assert Matches(LEAP_DAY, LeapDay(y));
        BeforeTotal(t, LeapDay(y));
      }
    } else {
      var r := FirstFire(LEAP_DAY, t).value;
      assert IsLeap(r.year) && r == LeapDay(r.year);
      BeforeTotal(t, r);
    }
  }

  lemma NoLeapYearBetween(y: int)
    requires 2096 < y < 2104
    ensures !IsLeap(y)
  {
    if y == 2097 {} else if y == 2098 {} else if y == 2099 {} else if y == 2100 {}
    else if y == 2101 {} else if y == 2102 {} else {}
  }

  lemma EarlierLeapDay(y: int, t: Time)
    requires IsLeap(y) && y < 2104 && NotAfter(Stamp(2096, 2, 29, 0, 0, 0, 0), t)
    ensures NotAfter(LeapDay(y), t)
  {
    if y > 2096 { NoLeapYearBetween(y); }
    BeforeTrans(LeapDay(y), Stamp(2096, 2, 29, 0, 0, 0, 0), t);
  }

  lemma FoundFrom2099(t: Time)
    requires NotAfter(LeapDay(2096), t) && Before(t, LeapDay(2104))
    ensures FirstFire(LEAP_DAY, t) == None <==> SearchLimit(t) < 2104
  {
    LeapDayFound(t);
    if SearchLimit(t) < 2104 {
      forall y | y <= SearchLimit(t) && IsLeap(y) ensures NotAfter(LeapDay(y), t) { EarlierLeapDay(y, t); }
    } else {
      BeforeTotal(t, LeapDay(2104));
      assert IsLeap(2104) && !NotAfter(LeapDay(2104), t);
    }
  }

  // 2100 is not a leap year. Between the leap days of 2096 and 2104 the search gives up, although the
  // latter matches, exactly for the starts before the last second of 2098.
  lemma LeapDayMissed(t: Time)
    requires NotAfter(LeapDay(2096), t) && Before(t, LeapDay(2104))
    ensures NextTime(LEAP_DAY, t) == ZERO_TIME <==> Before(t, Stamp(2098, 12, 31, 23, 59, 59, 0))
    ensures Matches(LEAP_DAY, LeapDay(2104))
  {
    FoundFrom2099(t);
    ZeroResultMeaning(LEAP_DAY, t);
    FirstFireMeaning(LEAP_DAY, t);
    assert Before(t, Stamp(2098, 12, 31, 23, 59, 59, 0)) <==> UpcomingSecond(t).year <= 2098;
  }
}
