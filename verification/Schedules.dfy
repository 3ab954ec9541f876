/** The two kinds of schedule a pattern can name, and the time of the next firing they give a worker. */
module Schedules {
  import opened Wrappers
  import opened Text
  import opened Calendar
  import opened CronSearch
  import opened CronLaws
  import opened CronFeasible
  import opened CronParserLaws
  import opened CronPatterns
  import opened CronParser

  // A constant delay is a positive number of whole seconds, as Every makes it.
  predicate Proper(sch: Schedule) {
    sch.ConstantDelay? ==> sch.delay >= SECOND_NANOS && sch.delay % SECOND_NANOS == 0
  }

  // Schedule.Next; the constant delay is t.Add(delay - t.Nanosecond()).
  function NextActivation(sch: Schedule, t: Time): Time
    requires Proper(sch)
  {
    match sch
    case Cron(spec) => NextTime(spec, t)
    case ConstantDelay(delay) => AddSeconds(StartOfSecond(t), delay / SECOND_NANOS)
  }

  // Every rounds a delay down to whole seconds, and up to one second.
  lemma EveryIsProper(duration: int)
    ensures Proper(Every(duration))
    ensures var d := Every(duration).delay;
      if duration < SECOND_NANOS then d == SECOND_NANOS else d <= duration < d + SECOND_NANOS
  {
  }

  lemma DescriptorIsProper(text: string, durations: Durations)
    ensures ParseDescriptor(text, durations).Ok? ==> Proper(ParseDescriptor(text, durations).value)
  {
    if HasPrefix(text, "@every ") {
      var d := ReadDuration(text[7..], durations);
      if d.Some? { EveryIsProper(d.value); }
    }
  }

  lemma FieldsAreCron(fields: seq<string>)
    requires |fields| == 6
    ensures ReadFields(fields).Ok? ==> ReadFields(fields).value.Cron?
  {
  }

  lemma ParserIsProper(p: Parser, text: string, durations: Durations)
    ensures ParseWith(p, text, durations).Ok? ==> Proper(ParseWith(p, text, durations).value)
  {
    DescriptorIsProper(text, durations);
    FieldsAreCron(Expanded(Words(text, IsSpace), p.options));
  }

  // Every schedule that a text parses to can be asked for its next activation.
  lemma ParsedIsProper(text: string, durations: Durations)
    ensures Parse(text, durations).Ok? ==> Proper(Parse(text, durations).value)
  {
    ParserIsProper(SECONDS_PARSER, TrimSpace(text), durations);
    ParserIsProper(SECONDS_PARSER, text, durations);
    ParserIsProper(STANDARD_PARSER, text, durations);
  }

  // A constant delay fires exactly that many seconds after the second t lies in, on a whole second.
  lemma ConstantDelayAdvances(delay: int, t: Time)
    requires Proper(ConstantDelay(delay))
    ensures var r := NextActivation(ConstantDelay(delay), t);
      Whole(r) && Before(t, r) && Unix(r) == Unix(t) + delay / SECOND_NANOS && Unix(r) > Unix(t)
  {
    var r := NextActivation(ConstantDelay(delay), t);
    AddSecondsUnix(StartOfSecond(t), delay / SECOND_NANOS);
    UpcomingIsLeastAfter(t, r);
    BeforeIffUnix(StartOfSecond(t), r);
    AddSecondIsSuccessor(StartOfSecond(t), r);
  }

  // The fraction of a second does not matter to either kind.
  lemma FractionIrrelevant(sch: Schedule, t: Time)
    requires Proper(sch)
    ensures NextActivation(sch, t) == NextActivation(sch, StartOfSecond(t))
  {
    assert StartOfSecond(StartOfSecond(t)) == StartOfSecond(t);
  }

  // ----- what the worker schedules -----

  // The plan time a worker computes from a pattern at the second `now`: None when the pattern does
  // not parse, else Next(now).Unix().
  function PlanAt(pattern: string, now: nat, durations: Durations): Option<int> {
    match Parse(pattern, durations)
    case Err(_) => None
    case Ok(sch) =>
      ParsedIsProper(pattern, durations);
      Some(Unix(NextActivation(sch, FromUnix(now))))
  }

  // The cron search of the pattern finds nothing in its window.
  predicate NothingAhead(pattern: string, now: nat, durations: Durations) {
    var p := Parse(pattern, durations);
    p.Ok? && p.value.Cron? && FirstFire(p.value.spec, FromUnix(now)) == None
  }

  // The Unix time of Go's zero time, 1 January of year 1.
  const YEAR_ONE := -62135596800

  // `plan` is what the schedule asks for at `now`: now and the delay; or the first activation after now, if
  // there is one up to the end of the search window, and otherwise the zero time.
  ghost predicate IsPlan(sch: Schedule, now: nat, plan: int) {
    var t := FromUnix(now);
    match sch
    case ConstantDelay(delay) => plan == now + delay / SECOND_NANOS
    case Cron(spec) =>
      if NoneUntil(spec, t, SearchLimit(t)) then plan == YEAR_ONE
      else exists r: Time :: IsNextFire(spec, t, r) && r.year <= SearchLimit(t) && Unix(r) == plan
  }

  // A worker's plan time is that of the pattern's first activation after now, and none exists exactly when
  // the pattern does not parse.
  lemma PlanIsFirst(pattern: string, now: nat, durations: Durations)
    ensures PlanAt(pattern, now, durations).Some? <==> Parse(pattern, durations).Ok?
    ensures Parse(pattern, durations).Ok? ==>
      IsPlan(Parse(pattern, durations).value, now, PlanAt(pattern, now, durations).value)
  {
    if Parse(pattern, durations).Ok? {
      ParsedIsProper(pattern, durations);
      NextIsPlan(Parse(pattern, durations).value, now);
    }
  }

  lemma NextIsPlan(sch: Schedule, now: nat)
    requires Proper(sch)
    ensures IsPlan(sch, now, Unix(NextActivation(sch, FromUnix(now))))
  {
    var t := FromUnix(now);
    match sch
    case ConstantDelay(delay) =>
      ConstantDelayAdvances(delay, t);
    case Cron(spec) =>
      FirstFireMeaning(spec, t);
      ZeroUnix();
      if FirstFire(spec, t).Some? {
        var r := FirstFire(spec, t).value;
        assert IsNextFire(spec, t, r) && r.year <= SearchLimit(t);
        assert Before(t, r) && Matches(spec, r);
      }
  }

  // From the text: the plan time is the first second after now at which the written pattern fires.
  ghost predicate PlansFirst(p: Pattern, now: nat, plan: int) {
    var t := FromUnix(now);
    || (&& plan == YEAR_ONE
        && forall x: Time :: Whole(x) && Before(t, x) && x.year <= SearchLimit(t) ==> !FiresAt(p, x))
    || exists r: Time ::
         && FiresAt(p, r) && Whole(r) && Before(t, r) && r.year <= SearchLimit(t) && Unix(r) == plan
         && forall x: Time :: Whole(x) && Before(t, x) && Before(x, r) ==> !FiresAt(p, x)
  }

  lemma TextPlansFirst(text: string, now: nat, durations: Durations)
    requires !IsDescriptor(text) && Parse(text, durations).Ok?
    ensures exists p :: Writes(p, Words(text, IsSpace)) && PlansFirst(p, now, PlanAt(text, now, durations).value)
  {
    AcceptedTextIsWritten(text, durations);
    var p :| Writes(p, Words(text, IsSpace)) && PatternAcceptable(p);
    WritesParses(p, text, durations);
    PlanIsFirst(text, now, durations);
    SchedulePlansFirst(p, now, PlanAt(text, now, durations).value);
  }

  lemma SchedulePlansFirst(p: Pattern, now: nat, plan: int)
    requires PatternAcceptable(p) && IsPlan(Cron(PatternSchedule(p)), now, plan)
    ensures PlansFirst(p, now, plan)
  {
    var spec, t := PatternSchedule(p), FromUnix(now);
    forall x: Time ensures Matches(spec, x) <==> FiresAt(p, x) { ScheduleFires(p, x); }
    if !NoneUntil(spec, t, SearchLimit(t)) {
      var r: Time :| IsNextFire(spec, t, r) && r.year <= SearchLimit(t) && Unix(r) == plan;
      assert FiresAt(p, r) && Whole(r) && Before(t, r);
    }
  }

  // A computed plan time lies after `now` unless the search found nothing; then it is the zero time's.
  lemma PlanIsLater(pattern: string, now: nat, durations: Durations)
    requires PlanAt(pattern, now, durations).Some?
    ensures var plan := PlanAt(pattern, now, durations).value;
      if NothingAhead(pattern, now, durations) then plan == YEAR_ONE else plan > now
  {
    ParsedIsProper(pattern, durations);
    var t := FromUnix(now);
    match Parse(pattern, durations).value
    case ConstantDelay(delay) =>
      ConstantDelayAdvances(delay, t);
    case Cron(spec) =>
      if FirstFire(spec, t).Some? {
        FirstFireMeaning(spec, t);
        BeforeIffUnix(t, FirstFire(spec, t).value);
      } else {
        ZeroUnix();
      }
  }

  // The seconds at which the search finds nothing are all of them exactly when the fields of the pattern
  // allow no date or no time of day.
  lemma NothingEverAhead(pattern: string, durations: Durations)
    requires Parse(pattern, durations).Ok? && Parse(pattern, durations).value.Cron?
    ensures (forall now: nat :: NothingAhead(pattern, now, durations)) <==>
            !CanFire(Parse(pattern, durations).value.spec)
  {
    var s := Parse(pattern, durations).value.spec;
    if CanFire(s) {
      var year := FireAfter(s);
      var now := FromUnixOf(LastSecondOf(year));
      assert !NothingAhead(pattern, now, durations);
    } else {
      NeverFiresIffInfeasible(s);
    }
  }

  lemma ZeroUnix()
    ensures Unix(ZERO_TIME) == YEAR_ONE
  {
  }

  // ----- when the descriptors fire -----

  predicate Midnight(t: Time) {
    t.hour == 0 && t.minute == 0 && t.second == 0
  }

  lemma EveryValue(k: nat, r: Bounds)
    requires r.min <= k <= r.max
    ensures k in AllBits(r) && STAR_BIT in AllBits(r)
  {
    assert (k - r.min) % 1 == 0;
  }

  // The text is a descriptor, and its schedule matches the second t exactly when cond holds.
  predicate FiresWhen(text: string, durations: Durations, t: Time, cond: bool) {
    var p := ParseDescriptor(text, durations);
    p.Ok? && p.value.Cron? && (Matches(p.value.spec, t) <==> cond)
  }

  lemma DescriptorsFire(durations: Durations, t: Time)
    ensures FiresWhen("@hourly", durations, t, t.minute == 0 && t.second == 0)
    ensures FiresWhen("@daily", durations, t, Midnight(t))
    ensures FiresWhen("@midnight", durations, t, Midnight(t))
    ensures FiresWhen("@weekly", durations, t, Midnight(t) && Weekday(t) == 0)
    ensures FiresWhen("@monthly", durations, t, Midnight(t) && t.day == 1)
    ensures FiresWhen("@yearly", durations, t, Midnight(t) && t.day == 1 && t.month == 1)
    ensures FiresWhen("@annually", durations, t, Midnight(t) && t.day == 1 && t.month == 1)
  {
    EveryValue(t.hour, HOURS);
    EveryValue(t.day, DAYS_OF_MONTH);
    EveryValue(t.month, MONTHS);
    EveryValue(Weekday(t), DAYS_OF_WEEK);
  }

  lemma EveryReads(text: string, durations: Durations)
    ensures ParseDescriptor("@every " + text, durations) ==
            match ReadDuration(text, durations) { case None => Err(BadDuration) case Some(d) => Ok(Every(d)) }
  {
    var descriptor := "@every " + text;
    assert descriptor[6] == ' ' && descriptor[..7] == "@every " && descriptor[7..] == text;
  }

  lemma EverySeconds(d: int)
    ensures Every(d).delay / SECOND_NANOS == if d < SECOND_NANOS then 1 else d / SECOND_NANOS
  {
  }

  // White space around a descriptor does not matter.
  lemma DescriptorParses(text: string, durations: Durations)
    requires HasPrefix(TrimSpace(text), "@")
    ensures Parse(text, durations) == ParseDescriptor(TrimSpace(text), durations)
  {
  }

  // From the text "@every d", with any white space around it, to its firings: it is refused when d has white
  // space or is no duration, and otherwise fires d rounded down to whole seconds later, and at least one.
  lemma EveryFires(before: string, d: string, after: string, durations: Durations, t: Time)
    requires AllSpace(before) && AllSpace(after) && d != [] && !IsSpace(d[|d| - 1])
    ensures var p := Parse(before + ("@every " + d) + after, durations);
      if !NoSpace(d) || durations(d).None? then p == Err(BadDuration)
      else
        var delay := durations(d).value;
        && p.Ok? && Proper(p.value)
        && var r := NextActivation(p.value, t);
           Whole(r) && Unix(r) == Unix(t) + if delay < SECOND_NANOS then 1 else delay / SECOND_NANOS
  {
    AtSign(d);
    TrimSpaceTrims(before, "@every " + d, after);
    DescriptorParses(before + ("@every " + d) + after, durations);
    EveryReads(d, durations);
    var delay := ReadDuration(d, durations);
    if delay.Some? { EveryAdvances(delay.value, t); }
  }

  // A descriptor with white space around it is that descriptor.
  lemma SpacedDescriptor(before: string, text: string, after: string, durations: Durations)
    requires AllSpace(before) && AllSpace(after) && text != [] && text[0] == '@' && !IsSpace(text[|text| - 1])
    ensures Parse(before + text + after, durations) == ParseDescriptor(text, durations)
  {
    TrimSpaceTrims(before, text, after);
    DescriptorParses(before + text + after, durations);
  }

  // The descriptors that are accepted: seven names, and "@every " before a duration.
  lemma DescriptorsAccepted(text: string, durations: Durations)
    requires IsDescriptor(text)
    ensures Parse(text, durations).Ok? <==>
      var d := TrimSpace(text);
      || d in {"@yearly", "@annually", "@monthly", "@weekly", "@daily", "@midnight", "@hourly"}
      || ("@every " <= d && NoSpace(d[7..]) && durations(d[7..]).Some?)
  {
    DescriptorParses(text, durations);
  }

  lemma AtSign(d: string)
    ensures HasPrefix("@every " + d, "@") && !IsSpace(("@every " + d)[0])
    ensures d != [] ==> ("@every " + d)[6 + |d|] == d[|d| - 1]
  {
  }

  lemma EveryAdvances(delay: int, t: Time)
    ensures Proper(Every(delay))
    ensures var r := NextActivation(Every(delay), t);
      Whole(r) && Unix(r) == Unix(t) + if delay < SECOND_NANOS then 1 else delay / SECOND_NANOS
  {
    EveryIsProper(delay);
    EverySeconds(delay);
    ConstantDelayAdvances(Every(delay).delay, t);
  }
}
