/** Where one plan time is given to two firings of a job. */
module QueueRepeats {
  import opened Requests
  import opened QueueModel
  import opened QueueInvariant
  import opened QueueAlive
  import opened QueuePlans
  import opened QueueChains
  import opened QueueRuns
  import CronParser
  import CronExamples
  import CronFeasible
  import Schedules

  // ----- an activation that is served at once -----

  lemma ServedOccurrence(cfg: Config, st: State, o: nat, accepted: bool, id: string)
    requires Due(st, o) && st.occs[o].job == id && forall i :: 0 <= i < |st.log| ==> st.log[i].occ != o
    ensures PlansIdentify(Run(cfg, st, Serve(o, accepted)).log, id) <==>
            PlansIdentify(st.log, id)
            && forall i :: 0 <= i < |st.log| && st.log[i].job == id ==> st.log[i].plan != st.occs[o].plan
  {
    AfterServe(cfg, st, o, accepted);
    var ok := accepted && SplitRequestURL(st.jobs[id].url).Some?;
    IdentifyOneMore(st.log, Delivery(o, id, st.occs[o].plan, ok), id);
  }

  // An activation at a time that has come is served: plan times still identify the job's firings if and
  // only if none of them was planned at that time.
  lemma ServedActivation(cfg: Config, st: State, group: string, id: string, exectime: int, accepted: bool)
    requires Inv(cfg, st) && Owns(st, group, id) && 0 <= exectime <= st.clock
    ensures var at := if exectime == 0 then st.clock else exectime;
      var log' := Run(cfg, Activate(st, group, id, exectime).0, Serve(st.nextId, accepted)).log;
      PlansIdentify(log', id) <==>
      PlansIdentify(st.log, id) && forall i :: 0 <= i < |st.log| && st.log[i].job == id ==> st.log[i].plan != at
  {
    ServedOccurrence(cfg, Activate(st, group, id, exectime).0, st.nextId, accepted, id);
  }

  // The same for a push of an id that was used before.
  lemma ServedPush(cfg: Config, st: State, job: Job, accepted: bool)
    requires Inv(cfg, st) && Push(cfg, st, job).1 == Done && job.exectime <= st.clock
    ensures var at := PlanOf(st.clock, job);
      var log' := Run(cfg, Push(cfg, st, job).0, Serve(st.nextId, accepted)).log;
      PlansIdentify(log', job.id) <==>
      PlansIdentify(st.log, job.id) && forall i :: 0 <= i < |st.log| && st.log[i].job == job.id ==> st.log[i].plan != at
  {
    ServedOccurrence(cfg, Push(cfg, st, job).0, st.nextId, accepted, job.id);
  }

  // ----- an activation while the first delivery is on its way -----

  function ForkAndServe(job: Job): seq<Event>
    requires job.exectime >= 0
  {
    [FetchEv(1), LoadEv(1, false), ActiveEv(job.group, job.id, job.exectime)] + ([DeliverEv(1, true)] + Serve(2, true))
  }

  lemma Forked(cfg: Config, clock: nat, job: Job)
    requires ValidJob(cfg, job)
    ensures var row := PushedRow(Init(clock), job); var plan := PlanOf(clock, job);
      Run(cfg, Started(clock, job), [FetchEv(1), LoadEv(1, false), ActiveEv(job.group, job.id, job.exectime)]) ==
      Started(clock, job).(
        occs := map[1 := Occurrence(job.id, job.group, plan, Running, 1),
                    2 := Occurrence(job.id, job.group, plan, Pending, 0)],
        nextId := 3, workers := map[1 := Loaded(row)])
  {
    var s := Started(clock, job);
    RunThree(cfg, s, FetchEv(1), LoadEv(1, false), ActiveEv(job.group, job.id, job.exectime));
    var s2 := Apply(cfg, Apply(cfg, s, FetchEv(1)), LoadEv(1, false));
    assert s2.occs == map[1 := Occurrence(job.id, job.group, PlanOf(clock, job), Running, 1)];
    assert CancelOccurrences(s2, job.id).occs == s2.occs;
    assert s2.jobs[job.id := s2.jobs[job.id]] == s2.jobs;
  }

  lemma DeliversBoth(cfg: Config, st: State, id: string, plan: int)
    requires HasWorker(st, 1) && st.workers[1].Loaded? && st.workers[1].def.id == id && st.occs[1].plan == plan
    requires Due(st, 2) && st.occs[2].job == id && st.occs[2].plan == plan
    requires SplitRequestURL(st.workers[1].def.url).Some? && SplitRequestURL(st.jobs[id].url).Some?
    ensures Run(cfg, st, [DeliverEv(1, true)] + Serve(2, true)).log ==
            st.log + [Delivery(1, id, plan, true)] + [Delivery(2, id, plan, true)]
  {
    RunConcat(cfg, st, [DeliverEv(1, true)], Serve(2, true));
    var s := Apply(cfg, st, DeliverEv(1, true));
    assert Run(cfg, st, [DeliverEv(1, true)]) == s;
    AfterServe(cfg, s, 2, true);
  }

  // Push, fetch, load, activate at the same exectime: both occurrences are delivered with one plan time,
  // although nothing had been delivered when the job was activated.
  lemma ForkRepeatsPlan(cfg: Config, clock: nat, job: Job)
    requires ValidJob(cfg, job)
    ensures
      var log := Run(cfg, Run(cfg, Init(clock), Setup(job)), ForkAndServe(job)).log;
      var plan := PlanOf(clock, job);
      log == [Delivery(1, job.id, plan, true)] + [Delivery(2, job.id, plan, true)]
  {
    var fork := [FetchEv(1), LoadEv(1, false), ActiveEv(job.group, job.id, job.exectime)];
    AfterSetup(cfg, clock, job);
    RunConcat(cfg, Started(clock, job), fork, [DeliverEv(1, true)] + Serve(2, true));
    Forked(cfg, clock, job);
    DeliversBoth(cfg, Run(cfg, Started(clock, job), fork), job.id, PlanOf(clock, job));
  }

  // ----- an activation at an exectime that has fired -----

  // A recurring job fires, is activated at the exectime it already had, and fires again.
  function FireTwice(job: Job): seq<Event>
    requires job.exectime >= 0
  {
    (Setup(job) + Serve(1, true)) + (Conclude(1) + ([ActiveEv(job.group, job.id, job.exectime)] + Serve(3, true)))
  }

  lemma PlanTimeCanRepeat(cfg: Config, clock: nat, job: Job)
    requires ValidJob(cfg, job) && !IsOnce(job.pattern) && cfg.parses(job.pattern)
    ensures var log := Run(cfg, Init(clock), FireTwice(job)).log; var plan := PlanOf(clock, job);
      log == [Delivery(1, job.id, plan, true), Delivery(3, job.id, plan, true)]
  {
    var reactivate := ActiveEv(job.group, job.id, job.exectime);
    FiredOnce(cfg, clock, job);
    RunConcat(cfg, Init(clock), Setup(job) + Serve(1, true), Conclude(1) + ([reactivate] + Serve(3, true)));
    var s2 := Served(Started(clock, job), 1, Delivered(PushedRow(Init(clock), job)), true);
    RunConcat(cfg, s2, Conclude(1), [reactivate] + Serve(3, true));
    AfterConclude(cfg, s2, 1);
    FiresAgain(cfg, Run(cfg, s2, Conclude(1)), job, PlanOf(clock, job));
  }

  lemma FiresAgain(cfg: Config, st: State, job: Job, plan: int)
    requires IsActive(st, job.id) && Owns(st, job.group, job.id) && st.nextId == 3
    requires st.jobs[job.id].id == job.id && SplitRequestURL(st.jobs[job.id].url).Some?
    requires 0 <= job.exectime && plan <= st.clock && plan == if job.exectime == 0 then st.clock else job.exectime
    ensures Run(cfg, st, [ActiveEv(job.group, job.id, job.exectime)] + Serve(3, true)).log ==
            st.log + [Delivery(3, job.id, plan, true)]
  {
    var s := Apply(cfg, st, ActiveEv(job.group, job.id, job.exectime));
    RunConcat(cfg, st, [ActiveEv(job.group, job.id, job.exectime)], Serve(3, true));
    assert Run(cfg, st, [ActiveEv(job.group, job.id, job.exectime)]) == s;
    AfterServe(cfg, s, 3, true);
  }

  // ----- a pattern that never fires -----

  const NEVER := "0 0 30 2 *"

  lemma NeverFindsNothing(maxAttempts: nat, durations: CronParser.Durations)
    ensures FindsNothing(GuaConfig(maxAttempts, durations), NEVER)
  {
    CronExamples.NeverFires(durations);
    CronFeasible.NeverFiresIffInfeasible(CronExamples.FebruarySchedule(30));
    FindsNothingIffInfeasible(maxAttempts, durations, NEVER);
  }

  // Some occurrence of a job with such a pattern is due.
  ghost predicate DueInVain(cfg: Config, st: State, o: nat, id: string) {
    && Due(st, o) && st.occs[o].job == id && o < st.nextId
    && FindsNothing(cfg, st.jobs[id].pattern) && SplitRequestURL(st.jobs[id].url).Some?
  }

  function Round(o: nat): seq<Event> {
    Serve(o, true) + Conclude(o)
  }

  // Fetch to completion, over and over: each round serves the occurrence that the last one inserted.
  function Spin(o: nat, next: nat, n: nat): seq<Event>
    decreases n
  {
    if n == 0 then [] else Round(o) + Spin(next, next + 1, n - 1)
  }

  // The occurrence that replaces the one delivered is due at once.
  lemma DueAgain(cfg: Config, st: State, o: nat, id: string)
    requires DueInVain(cfg, st, o, id)
    ensures var st' := Run(cfg, st, Round(o));
      && DueInVain(cfg, st', st.nextId, id) && st'.nextId == st.nextId + 1 && st'.clock == st.clock
      && st'.log == st.log + [Delivery(o, id, st.occs[o].plan, true)] && st'.occs[st.nextId].plan == Schedules.YEAR_ONE
  {
    RunConcat(cfg, st, Serve(o, true), Conclude(o));
    AfterServe(cfg, st, o, true);
    AfterConclude(cfg, Served(st, o, Delivered(st.jobs[id]), true), o);
  }

  // The log has grown by n accepted deliveries of the job.
  predicate Appended(log: seq<Delivery>, log': seq<Delivery>, id: string, n: nat) {
    && log <= log' && |log'| == |log| + n
    && forall i :: |log| <= i < |log'| ==> log'[i].job == id && log'[i].ok
  }

  lemma OneMoreAppended(log: seq<Delivery>, d: Delivery, log': seq<Delivery>, n: nat)
    requires d.ok && Appended(log + [d], log', d.job, n)
    ensures Appended(log, log', d.job, n + 1)
  {
    assert (log + [d])[|log|] == d;
  }

  lemma SpinUnrolls(cfg: Config, st: State, o: nat, next: nat, n: nat)
    requires n > 0
    ensures Run(cfg, st, Spin(o, next, n)) == Run(cfg, Run(cfg, st, Round(o)), Spin(next, next + 1, n - 1))
  {
    RunConcat(cfg, st, Round(o), Spin(next, next + 1, n - 1));
  }

  lemma FirstRound(cfg: Config, st: State, o: nat, id: string, n: nat)
    returns (st1: State)
    requires DueInVain(cfg, st, o, id) && n > 0
    ensures DueInVain(cfg, st1, st.nextId, id) && st1.nextId == st.nextId + 1 && st1.clock == st.clock
    ensures st1.log == st.log + [Delivery(o, id, st.occs[o].plan, true)]
    ensures st1.occs[st.nextId].plan == Schedules.YEAR_ONE
    ensures Run(cfg, st, Spin(o, st.nextId, n)) ==
            Run(cfg, st1, Spin(st.nextId, st1.nextId, n - 1))
  {
    st1 := Run(cfg, st, Round(o));
    SpinUnrolls(cfg, st, o, st.nextId, n);
    DueAgain(cfg, st, o, id);
  }

  lemma {:induction false} Spins(cfg: Config, st: State, o: nat, id: string, n: nat)
    requires DueInVain(cfg, st, o, id)
    ensures var st' := Run(cfg, st, Spin(o, st.nextId, n));
      st'.clock == st.clock && Appended(st.log, st'.log, id, n)
    decreases n
  {
    if n > 0 {
      var st1 := FirstRound(cfg, st, o, id, n);
      Spins(cfg, st1, st.nextId, id, n - 1);
      var st' := Run(cfg, st, Spin(o, st.nextId, n));
      OneMoreAppended(st.log, Delivery(o, id, st.occs[o].plan, true), st'.log, n - 1);
    }
  }

  // A job with such a pattern can be pushed, and is delivered any number of times within one second.
  lemma ZeroTimeSpins(cfg: Config, clock: nat, job: Job, n: nat)
    requires ValidJob(cfg, job) && FindsNothing(cfg, job.pattern)
    ensures var st := Run(cfg, Init(clock), Setup(job)); var st' := Run(cfg, st, Spin(1, 2, n));
      st.log == [] && st'.clock == st.clock && Appended([], st'.log, job.id, n)
  {
    AfterSetup(cfg, clock, job);
    Spins(cfg, Started(clock, job), 1, job.id, n);
  }

  lemma OneRound(cfg: Config, st: State, o: nat, id: string)
    requires DueInVain(cfg, st, o, id)
    ensures Run(cfg, st, Spin(o, st.nextId, 1)).log ==
            st.log + [Delivery(o, id, st.occs[o].plan, true)]
  {
    var st1 := FirstRound(cfg, st, o, id, 1);
    assert Run(cfg, st1, []) == st1;
  }

  lemma TwoRounds(cfg: Config, st: State, o: nat, id: string)
    requires DueInVain(cfg, st, o, id)
    ensures Run(cfg, st, Spin(o, st.nextId, 2)).log ==
            st.log + [Delivery(o, id, st.occs[o].plan, true)] + [Delivery(st.nextId, id, Schedules.YEAR_ONE, true)]
  {
    var st1 := FirstRound(cfg, st, o, id, 2);
    OneRound(cfg, st1, st.nextId, id);
  }

  lemma ThreeRounds(cfg: Config, st: State, o: nat, id: string)
    requires DueInVain(cfg, st, o, id)
    ensures Run(cfg, st, Spin(o, st.nextId, 3)).log ==
            st.log + [Delivery(o, id, st.occs[o].plan, true)]
            + [Delivery(st.nextId, id, Schedules.YEAR_ONE, true)]
            + [Delivery(st.nextId + 1, id, Schedules.YEAR_ONE, true)]
  {
    var st1 := FirstRound(cfg, st, o, id, 3);
    TwoRounds(cfg, st1, st.nextId, id);
  }

  // The second and the third delivery have one plan time.
  lemma EmptySearchRepeats(cfg: Config, clock: nat, job: Job)
    requires ValidJob(cfg, job) && FindsNothing(cfg, job.pattern)
    ensures var st := Run(cfg, Init(clock), Setup(job));
      Run(cfg, st, Spin(1, st.nextId, 3)).log ==
      [Delivery(1, job.id, PlanOf(clock, job), true)]
      + [Delivery(2, job.id, Schedules.YEAR_ONE, true)] + [Delivery(3, job.id, Schedules.YEAR_ONE, true)]
  {
    AfterSetup(cfg, clock, job);
    ThreeRounds(cfg, Started(clock, job), 1, job.id);
  }
}
