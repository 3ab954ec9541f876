/** The plan times that a worker schedules, with the cron package of CronParser and Schedules. */
module QueuePlans {
  import opened QueueModel
  import opened QueueInvariant
  import opened QueueForks
  import opened Requests
  import CronParser
  import CronFeasible
  import Schedules

  // ----- the cron package as the queue uses it -----

  function NextUnix(pattern: string, now: nat, durations: CronParser.Durations): int {
    match Schedules.PlanAt(pattern, now, durations)
    case Some(plan) => plan
    case None => 0
  }

  function GuaConfig(maxAttempts: nat, durations: CronParser.Durations): Config {
    Config(maxAttempts,
           (pattern: string) => CronParser.Parse(pattern, durations).Ok?,
           (pattern: string, now: nat) => NextUnix(pattern, now, durations))
  }

  // The time after `now` that a worker schedules lies ahead exactly when the search finds one.
  lemma NextLiesAhead(maxAttempts: nat, durations: CronParser.Durations, pattern: string, now: nat)
    requires GuaConfig(maxAttempts, durations).parses(pattern)
    ensures var next := GuaConfig(maxAttempts, durations).next(pattern, now);
      if Schedules.NothingAhead(pattern, now, durations) then next == Schedules.YEAR_ONE else next > now
  {
    Schedules.PlanIsLater(pattern, now, durations);
  }

  // The pattern is accepted, and its search never finds a time.
  ghost predicate FindsNothing(cfg: Config, pattern: string) {
    cfg.parses(pattern) && !IsOnce(pattern) && forall now: nat :: cfg.next(pattern, now) == Schedules.YEAR_ONE
  }

  // A pattern never finds a time exactly when its fields allow no date or no time of day.
  lemma FindsNothingIffInfeasible(maxAttempts: nat, durations: CronParser.Durations, pattern: string)
    requires GuaConfig(maxAttempts, durations).parses(pattern)
    ensures FindsNothing(GuaConfig(maxAttempts, durations), pattern) <==>
            (var sch := CronParser.Parse(pattern, durations).value; sch.Cron? && !CronFeasible.CanFire(sch.spec))
  {
    forall now: nat
      ensures GuaConfig(maxAttempts, durations).next(pattern, now) == Schedules.YEAR_ONE <==>
              Schedules.NothingAhead(pattern, now, durations)
    {
      NextLiesAhead(maxAttempts, durations, pattern, now);
    }
    if IsOnce(pattern) { ParsedIsRecurring(pattern, durations); }
    if CronParser.Parse(pattern, durations).value.Cron? {
      Schedules.NothingEverAhead(pattern, durations);
    } else {
      assert !Schedules.NothingAhead(pattern, 0, durations);
    }
  }

  // A fire-once pattern is no text of the cron package.
  lemma ParsedIsRecurring(pattern: string, durations: CronParser.Durations)
    requires IsOnce(pattern)
    ensures CronParser.Parse(pattern, durations).Err?
  {
  }

  // What the cron package answers is what the parsed schedule asks for.
  lemma NextIsPlanned(maxAttempts: nat, durations: CronParser.Durations, pattern: string, now: nat)
    requires GuaConfig(maxAttempts, durations).parses(pattern)
    ensures CronParser.Parse(pattern, durations).Ok?
    ensures Schedules.IsPlan(CronParser.Parse(pattern, durations).value, now,
                             GuaConfig(maxAttempts, durations).next(pattern, now))
  {
    Schedules.PlanIsFirst(pattern, now, durations);
  }

  // A reschedule plans the next occurrence at the first activation of the loaded pattern after now. That is
  // strictly after the one it replaces exactly when the search finds a time; otherwise the next one is
  // planned in year 1 and is due at once.
  lemma PlanGrowsAlongChain(maxAttempts: nat, durations: CronParser.Durations, st: State, ev: Event)
    requires var cfg := GuaConfig(maxAttempts, durations); Inv(cfg, st) && Reschedules(cfg, st, ev)
    ensures var st' := Apply(GuaConfig(maxAttempts, durations), st, ev); var def := st.workers[ev.occ].def;
      && st.nextId in st'.occs && st'.occs[st.nextId].job == st.occs[ev.occ].job
      && st'.occs[st.nextId].plan == st'.jobs[def.id].exectime
      && (if Schedules.NothingAhead(def.pattern, st.clock, durations) then st'.occs[st.nextId].plan < 0
          else st'.occs[st.nextId].plan > st.clock >= st.occs[ev.occ].plan)
      && (var p := CronParser.Parse(def.pattern, durations);
          p.Ok? && Schedules.IsPlan(p.value, st.clock, st'.occs[st.nextId].plan))
  {
    var cfg := GuaConfig(maxAttempts, durations);
    assert OccFits(cfg, st, ev.occ);
    RescheduleInserts(cfg, st, ev);
    NextLiesAhead(maxAttempts, durations, st.workers[ev.occ].def.pattern, st.clock);
    NextIsPlanned(maxAttempts, durations, st.workers[ev.occ].def.pattern, st.clock);
  }

  lemma RescheduleInserts(cfg: Config, st: State, ev: Event)
    requires Inv(cfg, st) && Reschedules(cfg, st, ev)
    ensures
      var st' := Apply(cfg, st, ev); var def := st.workers[ev.occ].def; var next := cfg.next(def.pattern, st.clock);
      && cfg.parses(def.pattern) && def.id == st.occs[ev.occ].job && def.id in st'.jobs
      && st.nextId in st'.occs
      && st'.occs[st.nextId] == Occurrence(def.id, def.group, next, Pending, 0)
      && st'.jobs[def.id].exectime == next
  {
    assert OccFits(cfg, st, ev.occ);
  }
}
