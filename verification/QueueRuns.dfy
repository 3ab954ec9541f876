/** Runs from the empty queue that end where a property fails: its hypotheses are needed. */
module QueueRuns {
  import opened Requests
  import opened QueueModel
  import opened QueueAlive
  import opened QueueForks
  import opened QueuePlans
  import CronParser

  // ----- building blocks -----

  lemma {:induction false} RunConcat(cfg: Config, st: State, a: seq<Event>, b: seq<Event>)
    ensures Run(cfg, st, a + b) == Run(cfg, Run(cfg, st, a), b)
    decreases |a|
  {
    if a == [] {
      assert a + b == b;
    } else {
      assert (a + b)[1..] == a[1..] + b;
      RunConcat(cfg, Apply(cfg, st, a[0]), a[1..], b);
    }
  }

  lemma RunTwo(cfg: Config, st: State, a: Event, b: Event)
    ensures Run(cfg, st, [a, b]) == Apply(cfg, Apply(cfg, st, a), b)
  {
    assert [a, b][1..] == [b];
    assert Run(cfg, Apply(cfg, st, a), [b]) == Apply(cfg, Apply(cfg, st, a), b);
  }

  lemma RunThree(cfg: Config, st: State, a: Event, b: Event, c: Event)
    ensures Run(cfg, st, [a, b, c]) == Apply(cfg, Apply(cfg, Apply(cfg, st, a), b), c)
  {
    assert [a, b, c][1..] == [b, c];
    RunTwo(cfg, Apply(cfg, st, a), b, c);
  }

  // A job is pushed into a new group, and its time comes.
  function Setup(job: Job): seq<Event>
    requires job.exectime >= 0
  {
    [RegisterGroupEv(job.group), PushEv(job), AdvanceEv(job.exectime)]
  }

  function PlanOf(clock: nat, job: Job): int {
    if job.exectime == 0 then clock else job.exectime
  }

  function Started(clock: nat, job: Job): State
    requires job.exectime >= 0
  {
    State({job.group}, map[job.id := PushedRow(Init(clock), job)],
          map[1 := Occurrence(job.id, job.group, PlanOf(clock, job), Pending, 0)],
          2, map[], [], clock + job.exectime)
  }

  lemma AfterSetup(cfg: Config, clock: nat, job: Job)
    requires ValidJob(cfg, job)
    ensures Run(cfg, Init(clock), Setup(job)) == Started(clock, job)
  {
    RunThree(cfg, Init(clock), RegisterGroupEv(job.group), PushEv(job), AdvanceEv(job.exectime));
    assert Apply(cfg, Init(clock), RegisterGroupEv(job.group)).groups == {job.group};
  }

  // The occurrence is due and its definition active.
  predicate Due(st: State, o: nat) {
    && o in st.occs && st.occs[o].state == Pending && st.occs[o].plan <= st.clock
    && IsActive(st, st.occs[o].job)
    && st.jobs[st.occs[o].job].id == st.occs[o].job
  }

  function Serve(o: nat, accepted: bool): seq<Event> {
    [FetchEv(o), LoadEv(o, false), DeliverEv(o, accepted)]
  }

  // The same state with o fetched once more, its worker at w, and one more delivery in the log.
  function Served(st: State, o: nat, w: Worker, ok: bool): State
    requires o in st.occs
  {
    var occ := st.occs[o];
    st.(occs := st.occs[o := occ.(state := Running, attempt := occ.attempt + 1)],
        workers := st.workers[o := w],
        log := st.log + [Delivery(o, occ.job, occ.plan, ok)])
  }

  function AfterDelivery(cfg: Config, def: Job, attempt: nat, ok: bool): Worker {
    if ok then Delivered(def) else if attempt >= cfg.maxAttempts then Exhausted(def) else Returned(false)
  }

  lemma AfterServe(cfg: Config, st: State, o: nat, accepted: bool)
    requires Due(st, o)
    ensures var def := st.jobs[st.occs[o].job]; var ok := accepted && SplitRequestURL(def.url).Some?;
      Run(cfg, st, Serve(o, accepted)) ==
      Served(st, o, AfterDelivery(cfg, def, st.occs[o].attempt + 1, ok), ok)
  {
    RunThree(cfg, st, FetchEv(o), LoadEv(o, false), DeliverEv(o, accepted));
    var s1 := Apply(cfg, st, FetchEv(o));
    var s2 := Apply(cfg, s1, LoadEv(o, false));
    assert s2.workers == st.workers[o := Loaded(st.jobs[st.occs[o].job])];
  }

  function Conclude(o: nat): seq<Event> {
    [FinishEv(o, false), CompleteEv(o)]
  }

  // ----- a second live occurrence -----

  // Push, fetch, activate: two live occurrences.
  lemma ForkIsReachable(cfg: Config, clock: nat, job: Job)
    requires ValidJob(cfg, job)
    ensures var st := Run(cfg, Init(clock), Setup(job) + [FetchEv(1), ActiveEv(job.group, job.id, 0)]);
      Tokens(st, job.id) == {1, 2} && |Tokens(st, job.id)| == 2
  {
    AfterSetup(cfg, clock, job);
    var s := Started(clock, job);
    RunConcat(cfg, Init(clock), Setup(job), [FetchEv(1), ActiveEv(job.group, job.id, 0)]);
    RunTwo(cfg, s, FetchEv(1), ActiveEv(job.group, job.id, 0));
    var s1 := Apply(cfg, s, FetchEv(1));
    assert s1.occs == map[1 := Occurrence(job.id, job.group, PlanOf(clock, job), Running, 1)];
  }

  // ----- an id reused in another group -----

  // While the first delivery is out, the job is deleted and its id pushed in the group g.
  function Reuse(job: Job, g: string, accepted: bool): seq<Event>
    requires job.exectime >= 0
  {
    Setup(job) + ([RegisterGroupEv(g)] + (Serve(1, accepted) + [DeleteEv(job.group, job.id), PushEv(job.(group := g))]))
  }

  lemma AfterReuse(cfg: Config, clock: nat, job: Job, g: string, accepted: bool)
    requires ValidJob(cfg, job) && ValidName(g) && g != job.group && cfg.maxAttempts > 1
    ensures var st := Run(cfg, Init(clock), Reuse(job, g, accepted));
      && st.nextId == 3 && st.clock == clock + job.exectime
      && st.jobs == map[job.id := PushedRow(st, job.(group := g))]
      && st.occs == map[1 := Occurrence(job.id, job.group, PlanOf(clock, job), Running, 1),
                        2 := Occurrence(job.id, g, PlanOf(clock, job), Pending, 0)]
      && st.workers == map[1 := if accepted then Delivered(PushedRow(Init(clock), job)) else Returned(false)]
  {
    var again := [DeleteEv(job.group, job.id), PushEv(job.(group := g))];
    var s1 := Started(clock, job);
    AfterSetup(cfg, clock, job);
    RunConcat(cfg, Init(clock), Setup(job), [RegisterGroupEv(g)] + (Serve(1, accepted) + again));
    RunConcat(cfg, s1, [RegisterGroupEv(g)], Serve(1, accepted) + again);
    var s2 := Apply(cfg, s1, RegisterGroupEv(g));
    assert Run(cfg, s1, [RegisterGroupEv(g)]) == s2;
    RunConcat(cfg, s2, Serve(1, accepted), again);
    AfterServe(cfg, s2, 1, accepted);
    var s3 := Run(cfg, s2, Serve(1, accepted));
    RunTwo(cfg, s3, again[0], again[1]);
    var s4 := Apply(cfg, s3, again[0]);
    assert s4.jobs == map[];
    assert s4.occs == s3.occs;
  }

  lemma StaleFinish(cfg: Config, st: State, id: string)
    requires 1 in st.occs && 1 in st.workers && st.workers[1].Delivered? && st.workers[1].def.id == id
    requires IsActive(st, id)
    requires var def := st.workers[1].def; !IsOnce(def.pattern) && cfg.parses(def.pattern)
    requires st.jobs[id].group != st.workers[1].def.group && st.nextId == 3
    ensures var st' := Apply(cfg, st, FinishEv(1, false)); var def := st.workers[1].def;
      && st'.jobs == st.jobs[id := st.jobs[id].(exectime := cfg.next(def.pattern, st.clock))]
      && st'.occs == st.occs[3 := Occurrence(id, def.group, cfg.next(def.pattern, st.clock), Pending, 0)]
  {
  }

  // The time a search gives is never one between 1970 and now.
  predicate NextIsNew(cfg: Config, pattern: string, now: nat) {
    cfg.parses(pattern) && (cfg.next(pattern, now) < 0 || cfg.next(pattern, now) > now)
  }

  lemma GuaNextIsNew(maxAttempts: nat, durations: CronParser.Durations, pattern: string, now: nat)
    requires GuaConfig(maxAttempts, durations).parses(pattern)
    ensures NextIsNew(GuaConfig(maxAttempts, durations), pattern, now)
  {
    NextLiesAhead(maxAttempts, durations, pattern, now);
  }

  // The job is active in group g, and displays a time at which none of its occurrences is planned.
  predicate FalseDisplay(st: State, id: string, g: string) {
    && IsActive(st, id) && st.jobs[id].group == g
    && forall o :: o in st.occs && st.occs[o].job == id && st.occs[o].group == g ==>
         st.occs[o].plan != st.jobs[id].exectime
  }

  // The worker of the old group reschedules. GuaNextIsNew shows that the cron package meets the condition
  // for every pattern it accepts.
  lemma DisplayCanBeFalse(cfg: Config, clock: nat, job: Job, g: string)
    requires cfg.maxAttempts > 1 && ValidName(g) && g != job.group
    requires ValidJob(cfg, job) && !IsOnce(job.pattern) && NextIsNew(cfg, job.pattern, clock + job.exectime)
    ensures FalseDisplay(Run(cfg, Init(clock), Reuse(job, g, true) + [FinishEv(1, false)]), job.id, g)
  {
    AfterReuse(cfg, clock, job, g, true);
    RunConcat(cfg, Init(clock), Reuse(job, g, true), [FinishEv(1, false)]);
    var s := Run(cfg, Init(clock), Reuse(job, g, true));
    assert Run(cfg, s, [FinishEv(1, false)]) == Apply(cfg, s, FinishEv(1, false));
    StaleFinish(cfg, s, job.id);
  }

  // The delivery fails and is to be retried: an operation on group g removes the pending occurrence
  // that carries the other group.
  lemma CancelReachesOtherGroup(cfg: Config, clock: nat, job: Job, g: string)
    requires cfg.maxAttempts > 1 && ValidJob(cfg, job) && ValidName(g) && g != job.group
    ensures var st := Run(cfg, Init(clock), Reuse(job, g, false) + [CompleteEv(1)]);
      && 1 in st.occs && st.occs[1].state == Pending && st.occs[1].group == job.group
      && 1 !in Pause(st, g, job.id).0.occs && 1 !in Activate(st, g, job.id, 0).0.occs
      && 1 !in Delete(st, g, job.id).0.occs
  {
    AfterReuse(cfg, clock, job, g, false);
    RunConcat(cfg, Init(clock), Reuse(job, g, false), [CompleteEv(1)]);
    var s := Run(cfg, Init(clock), Reuse(job, g, false));
    assert Run(cfg, s, [CompleteEv(1)]) == Apply(cfg, s, CompleteEv(1));
  }

  // ----- storage errors until the attempts are used up -----

  function Failures(o: nat, n: nat): seq<Event> {
    if n == 0 then [] else [FetchEv(o), LoadEv(o, true), CompleteEv(o)] + Failures(o, n - 1)
  }

  predicate Retriable(st: State, o: nat) {
    o in st.occs && o !in st.workers && st.occs[o].state == Pending && st.occs[o].plan <= st.clock
  }

  lemma OneFailure(cfg: Config, st: State, o: nat)
    requires Retriable(st, o)
    ensures
      var attempt := st.occs[o].attempt + 1;
      var state := if attempt >= cfg.maxAttempts then Finished else Pending;
      Run(cfg, st, [FetchEv(o), LoadEv(o, true), CompleteEv(o)]) ==
      st.(occs := st.occs[o := st.occs[o].(state := state, attempt := attempt)])
  {
    RunThree(cfg, st, FetchEv(o), LoadEv(o, true), CompleteEv(o));
    var s := Apply(cfg, Apply(cfg, st, FetchEv(o)), LoadEv(o, true));
    assert s.workers == st.workers[o := Returned(false)];
    assert s.workers - {o} == st.workers;
  }

  function FailedTimes(cfg: Config, occ: Occurrence, n: nat): Occurrence {
    if n == 0 then occ
    else occ.(state := if occ.attempt + n >= cfg.maxAttempts then Finished else Pending, attempt := occ.attempt + n)
  }

  lemma {:induction false} AfterFailures(cfg: Config, st: State, o: nat, n: nat)
    requires Retriable(st, o) && st.occs[o].attempt + n <= cfg.maxAttempts
    ensures Run(cfg, st, Failures(o, n)) == st.(occs := st.occs[o := FailedTimes(cfg, st.occs[o], n)])
    decreases n
  {
    if n == 0 {
      assert st.occs[o := st.occs[o]] == st.occs;
    } else {
      RunConcat(cfg, st, [FetchEv(o), LoadEv(o, true), CompleteEv(o)], Failures(o, n - 1));
      OneFailure(cfg, st, o);
      var s := Run(cfg, st, [FetchEv(o), LoadEv(o, true), CompleteEv(o)]);
      if n > 1 { AfterFailures(cfg, s, o, n - 1); }
    }
  }

  // The job is active and none of its occurrences is live.
  predicate ActiveAndDead(st: State, id: string) {
    IsActive(st, id) && forall o :: o in st.occs ==> st.occs[o].state == Finished
  }

  // Whatever the attempt bound, a storage error on each attempt leaves any pushed job active and dead.
  lemma StorageErrorsKillJob(cfg: Config, clock: nat, job: Job)
    requires cfg.maxAttempts > 0 && ValidJob(cfg, job)
    ensures ActiveAndDead(Run(cfg, Init(clock), Setup(job) + Failures(1, cfg.maxAttempts)), job.id)
  {
    AfterSetup(cfg, clock, job);
    RunConcat(cfg, Init(clock), Setup(job), Failures(1, cfg.maxAttempts));
    AfterFailures(cfg, Started(clock, job), 1, cfg.maxAttempts);
  }

  // The job is pushed, and all attempts but the last fail.
  function UpToLast(cfg: Config, job: Job): seq<Event>
    requires cfg.maxAttempts > 0 && job.exectime >= 0
  {
    Setup(job) + Failures(1, cfg.maxAttempts - 1)
  }

  lemma AfterUpToLast(cfg: Config, clock: nat, job: Job)
    requires cfg.maxAttempts > 0 && ValidJob(cfg, job)
    ensures Run(cfg, Init(clock), UpToLast(cfg, job)) ==
            Started(clock, job).(occs :=
              map[1 := Occurrence(job.id, job.group, PlanOf(clock, job), Pending, cfg.maxAttempts - 1)])
  {
    AfterSetup(cfg, clock, job);
    RunConcat(cfg, Init(clock), Setup(job), Failures(1, cfg.maxAttempts - 1));
    AfterFailures(cfg, Started(clock, job), 1, cfg.maxAttempts - 1);
  }

  // So does a crash on the last attempt.
  lemma CrashKillsJob(cfg: Config, clock: nat, job: Job)
    requires cfg.maxAttempts > 0 && ValidJob(cfg, job)
    ensures ActiveAndDead(Run(cfg, Init(clock), UpToLast(cfg, job) + [FetchEv(1), CrashEv(1), RescueEv(1)]), job.id)
  {
    AfterUpToLast(cfg, clock, job);
    RunConcat(cfg, Init(clock), UpToLast(cfg, job), [FetchEv(1), CrashEv(1), RescueEv(1)]);
    RunThree(cfg, Run(cfg, Init(clock), UpToLast(cfg, job)), FetchEv(1), CrashEv(1), RescueEv(1));
  }

  // The last attempt's delivery fails, and so does the pause that is to show it.
  lemma UnstoredPauseKillsJob(cfg: Config, clock: nat, job: Job)
    requires cfg.maxAttempts > 0 && ValidJob(cfg, job)
    ensures ActiveAndDead(
      Run(cfg, Init(clock), UpToLast(cfg, job) + (Serve(1, false) + [PauseExhaustedEv(1, true), CompleteEv(1)])),
      job.id)
  {
    var s := Run(cfg, Init(clock), UpToLast(cfg, job));
    var last := [PauseExhaustedEv(1, true), CompleteEv(1)];
    AfterUpToLast(cfg, clock, job);
    RunConcat(cfg, Init(clock), UpToLast(cfg, job), Serve(1, false) + last);
    RunConcat(cfg, s, Serve(1, false), last);
    AfterServe(cfg, s, 1, false);
    RunTwo(cfg, Run(cfg, s, Serve(1, false)), last[0], last[1]);
  }

  lemma FiredOnce(cfg: Config, clock: nat, job: Job)
    requires ValidJob(cfg, job)
    ensures Run(cfg, Init(clock), Setup(job) + Serve(1, true)) ==
            Served(Started(clock, job), 1, Delivered(PushedRow(Init(clock), job)), true)
  {
    AfterSetup(cfg, clock, job);
    RunConcat(cfg, Init(clock), Setup(job), Serve(1, true));
    AfterServe(cfg, Started(clock, job), 1, true);
  }

  lemma DropFails(cfg: Config, st: State, id: string)
    requires IsActive(st, id) && st.workers.Keys == {1} && st.occs.Keys == {1}
    requires st.workers[1].Delivered? && IsOnce(st.workers[1].def.pattern)
    ensures ActiveAndDead(Run(cfg, st, [FinishEv(1, true), CompleteEv(1)]), id)
  {
    RunTwo(cfg, st, FinishEv(1, true), CompleteEv(1));
  }

  // A fire-once job is delivered, and dropping its definition fails.
  lemma UnstoredDropKillsJob(cfg: Config, clock: nat, job: Job)
    requires ValidJob(cfg, job) && IsOnce(job.pattern)
    ensures ActiveAndDead(
      Run(cfg, Init(clock), (Setup(job) + Serve(1, true)) + [FinishEv(1, true), CompleteEv(1)]), job.id)
  {
    FiredOnce(cfg, clock, job);
    RunConcat(cfg, Init(clock), Setup(job) + Serve(1, true), [FinishEv(1, true), CompleteEv(1)]);
    DropFails(cfg, Served(Started(clock, job), 1, Delivered(PushedRow(Init(clock), job)), true), job.id);
  }

  // ----- the next round of a recurring job -----

  // The worker reschedules and completes: o is finished, and the next occurrence is planned.
  lemma AfterConclude(cfg: Config, st: State, o: nat)
    requires o in st.occs && o < st.nextId && o in st.workers && st.workers[o].Delivered?
    requires var def := st.workers[o].def; !IsOnce(def.pattern) && cfg.parses(def.pattern) && IsActive(st, def.id)
    ensures var def := st.workers[o].def; var next := cfg.next(def.pattern, st.clock);
      Run(cfg, st, Conclude(o)) ==
      st.(jobs := st.jobs[def.id := st.jobs[def.id].(exectime := next)],
          occs := st.occs[st.nextId := Occurrence(def.id, def.group, next, Pending, 0)]
                         [o := st.occs[o].(state := Finished)],
          nextId := st.nextId + 1, workers := st.workers - {o})
  {
    RunTwo(cfg, st, FinishEv(o, false), CompleteEv(o));
    var s := Apply(cfg, st, FinishEv(o, false));
    assert s.workers - {o} == st.workers - {o};
  }

  // ----- a fire-once job, and a delivery repeated after an error -----

  lemma DropsDefinition(cfg: Config, st: State, id: string)
    requires st.jobs.Keys == {id} && st.workers.Keys == {1} && st.occs.Keys == {1}
    requires st.workers[1].Delivered? && st.workers[1].def.id == id && IsOnce(st.workers[1].def.pattern)
    ensures Run(cfg, st, Conclude(1)) ==
            st.(jobs := map[], occs := map[1 := st.occs[1].(state := Finished)], workers := map[])
  {
    RunTwo(cfg, st, FinishEv(1, false), CompleteEv(1));
    var s := Apply(cfg, st, FinishEv(1, false));
    assert s.jobs == map[];
    assert s.workers - {1} == map[];
  }

  // A fire-once job, pushed and delivered, leaves the table; its occurrence is finished.
  lemma FireOnceIsDropped(cfg: Config, clock: nat, job: Job)
    requires ValidJob(cfg, job) && (job.pattern == "" || job.pattern == "@once")
    ensures var plan := PlanOf(clock, job);
      Run(cfg, Init(clock), (Setup(job) + Serve(1, true)) + Conclude(1)) ==
      State({job.group}, map[], map[1 := Occurrence(job.id, job.group, plan, Finished, 1)], 2, map[],
            [Delivery(1, job.id, plan, true)], clock + job.exectime)
  {
    FiredOnce(cfg, clock, job);
    RunConcat(cfg, Init(clock), Setup(job) + Serve(1, true), Conclude(1));
    DropsDefinition(cfg, Served(Started(clock, job), 1, Delivered(PushedRow(Init(clock), job)), true), job.id);
  }

  lemma FailsToReschedule(cfg: Config, st: State)
    requires st.workers.Keys == {1} && 1 in st.occs && st.workers[1].Delivered?
    requires !IsOnce(st.workers[1].def.pattern) && cfg.parses(st.workers[1].def.pattern)
    requires st.occs[1].attempt < cfg.maxAttempts
    ensures Run(cfg, st, [FinishEv(1, true), CompleteEv(1)]) ==
            st.(occs := st.occs[1 := st.occs[1].(state := Pending)], workers := map[])
  {
    RunTwo(cfg, st, FinishEv(1, true), CompleteEv(1));
    var s := Apply(cfg, st, FinishEv(1, true));
    assert s.workers - {1} == map[];
  }

  // Where the reschedule fails, an occurrence that was accepted is delivered again under the same key.
  lemma AcceptedIsRepeated(cfg: Config, clock: nat, job: Job)
    requires cfg.maxAttempts > 1 && ValidJob(cfg, job) && !IsOnce(job.pattern) && cfg.parses(job.pattern)
    ensures var d := Delivery(1, job.id, PlanOf(clock, job), true);
      Run(cfg, Init(clock),
          (Setup(job) + Serve(1, true)) + ([FinishEv(1, true), CompleteEv(1)] + Serve(1, true))).log == [d, d]
  {
    var again := [FinishEv(1, true), CompleteEv(1)];
    var s := Served(Started(clock, job), 1, Delivered(PushedRow(Init(clock), job)), true);
    FiredOnce(cfg, clock, job);
    RunConcat(cfg, Init(clock), Setup(job) + Serve(1, true), again + Serve(1, true));
    RunConcat(cfg, s, again, Serve(1, true));
    FailsToReschedule(cfg, s);
    AfterServe(cfg, Run(cfg, s, again), 1, true);
  }
}
