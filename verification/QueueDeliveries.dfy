/** A paused job stays quiet, deliveries are bounded, and a fire-once job does not vanish undelivered. */
module QueueDeliveries {
  import opened Wrappers
  import opened QueueModel
  import opened QueueInvariant
  import opened QueueAlive

  // ----- after a pause -----

  // The event may make the job active again: an Active call or a Push of its id.
  predicate Wakes(ev: Event, id: string) {
    (ev.ActiveEv? && ev.id == id) || (ev.PushEv? && ev.job.id == id)
  }

  predicate NeverWoken(evs: seq<Event>, id: string) {
    forall i :: 0 <= i < |evs| ==> !Wakes(evs[i], id)
  }

  // The occurrences of the job that are in the table, and those whose worker is past the load step.
  function OccsOf(st: State, id: string): set<nat> {
    set o | o in st.occs && st.occs[o].job == id
  }

  predicate PastLoad(st: State, o: nat, id: string) {
    o in st.occs && st.occs[o].job == id && o in st.workers && st.workers[o].Loaded?
  }

  function LoadedOf(st: State, id: string): set<nat> {
    set o | o in st.occs && PastLoad(st, o, id)
  }

  function DeliveriesOf(log: seq<Delivery>, id: string): nat {
    if log == [] then 0
    else DeliveriesOf(log[..|log| - 1], id) + if log[|log| - 1].job == id then 1 else 0
  }

  lemma StaysQuiet(cfg: Config, st: State, ev: Event, id: string)
    requires !IsActive(st, id) && !Wakes(ev, id)
    ensures !IsActive(Apply(cfg, st, ev), id)
  {
  }

  // No occurrence of the job is inserted, and no worker on one gets past the load step.
  predicate InsertsNothing(cfg: Config, st: State, ev: Event, o: nat, id: string) {
    var st' := Apply(cfg, st, ev);
    && (o in OccsOf(st', id) ==> o in OccsOf(st, id))
    && (PastLoad(st', o, id) ==> PastLoad(st, o, id))
  }

  lemma NothingInsertedAdmin(cfg: Config, st: State, ev: Event, o: nat, id: string)
    requires OfAdmin(ev) && RowsFit(cfg, st) && !IsActive(st, id) && !Wakes(ev, id)
    ensures InsertsNothing(cfg, st, ev, o, id)
  {
    assert OccFits(cfg, st, o);
  }

  lemma NothingInsertedEarly(cfg: Config, st: State, ev: Event, o: nat, id: string)
    requires BeforeFinish(ev) && RowsFit(cfg, st) && !IsActive(st, id) && !Wakes(ev, id)
    ensures InsertsNothing(cfg, st, ev, o, id)
  {
    assert OccFits(cfg, st, o);
  }

  lemma NothingInsertedFinish(cfg: Config, st: State, ev: Event, o: nat, id: string)
    requires ev.FinishEv? && RowsFit(cfg, st) && !IsActive(st, id) && !Wakes(ev, id)
    ensures InsertsNothing(cfg, st, ev, o, id)
  {
    assert OccFits(cfg, st, o) && OccFits(cfg, st, ev.occ);
  }

  lemma NothingInsertedLate(cfg: Config, st: State, ev: Event, o: nat, id: string)
    requires AfterFinish(ev) && RowsFit(cfg, st) && !IsActive(st, id) && !Wakes(ev, id)
    ensures InsertsNothing(cfg, st, ev, o, id)
  {
    assert OccFits(cfg, st, o);
  }

  // While the job is inactive no step inserts anything.
  lemma NothingInserted(cfg: Config, st: State, ev: Event, o: nat, id: string)
    requires RowsFit(cfg, st) && !IsActive(st, id) && !Wakes(ev, id)
    ensures InsertsNothing(cfg, st, ev, o, id)
  {
    if OfAdmin(ev) { NothingInsertedAdmin(cfg, st, ev, o, id); }
    else if BeforeFinish(ev) { NothingInsertedEarly(cfg, st, ev, o, id); }
    else if ev.FinishEv? { NothingInsertedFinish(cfg, st, ev, o, id); }
    else { NothingInsertedLate(cfg, st, ev, o, id); }
  }

  // A delivery leaves at most its own worker's place, and adds at most one entry of that worker's job.
  lemma DeliveryCounts(cfg: Config, st: State, ev: Event, id: string)
    requires RowsFit(cfg, st) && ev.DeliverEv?
    ensures var st' := Apply(cfg, st, ev);
      if PastLoad(st, ev.occ, id)
      then DeliveriesOf(st'.log, id) == DeliveriesOf(st.log, id) + 1 && ev.occ !in LoadedOf(st', id)
      else DeliveriesOf(st'.log, id) == DeliveriesOf(st.log, id)
  {
    var st' := Apply(cfg, st, ev);
    assert OccFits(cfg, st, ev.occ);
    if st'.log != st.log { assert st'.log[..|st'.log| - 1] == st.log; }
  }

  // A delivery of an inactive job uses up a worker that was past the load step.
  lemma DeliveryUsesWorker(cfg: Config, st: State, ev: Event, id: string)
    requires RowsFit(cfg, st) && !IsActive(st, id) && !Wakes(ev, id)
    ensures var st' := Apply(cfg, st, ev);
      DeliveriesOf(st'.log, id) + |LoadedOf(st', id)| <= DeliveriesOf(st.log, id) + |LoadedOf(st, id)|
  {
    var before, after := LoadedOf(st, id), LoadedOf(Apply(cfg, st, ev), id);
    forall o | o in after ensures o in before { NothingInserted(cfg, st, ev, o, id); }
    SubsetSize(after, before);
    if ev.DeliverEv? {
      DeliveryCounts(cfg, st, ev, id);
      if PastLoad(st, ev.occ, id) { SubsetSize(after, before - {ev.occ}); }
    } else {
      LogUntouched(cfg, st, ev);
    }
  }

  // From a state where the job is inactive until it is activated or pushed again: it stays inactive, no
  // occurrence of it is inserted, and it is delivered at most once for each worker past the load step.
  lemma {:induction false} QuietUntilWoken(cfg: Config, st: State, evs: seq<Event>, id: string)
    requires cfg.maxAttempts > 0 && Inv(cfg, st) && !IsActive(st, id) && NeverWoken(evs, id)
    ensures var st' := Run(cfg, st, evs);
      && !IsActive(st', id)
      && OccsOf(st', id) <= OccsOf(st, id)
      && DeliveriesOf(st'.log, id) + |LoadedOf(st', id)| <= DeliveriesOf(st.log, id) + |LoadedOf(st, id)|
    decreases |evs|
  {
    if evs != [] {
      var st1 := Apply(cfg, st, evs[0]);
      StaysQuiet(cfg, st, evs[0], id);
      DeliveryUsesWorker(cfg, st, evs[0], id);
      forall o | o in OccsOf(st1, id) ensures o in OccsOf(st, id) { NothingInserted(cfg, st, evs[0], o, id); }
      InvKept(cfg, st, evs[0]);
      QuietUntilWoken(cfg, st1, evs[1..], id);
    }
  }

  // Pause is safe under races, from any reachable state and whatever follows.
  lemma PauseIsSafe(cfg: Config, st: State, group: string, id: string, evs: seq<Event>)
    requires cfg.maxAttempts > 0 && Inv(cfg, st) && Owns(st, group, id) && NeverWoken(evs, id)
    ensures var st1 := Pause(st, group, id).0; var st' := Run(cfg, st1, evs);
      && !IsActive(st', id)
      && OccsOf(st', id) <= OccsOf(st, id)
      && DeliveriesOf(st'.log, id) <= DeliveriesOf(st.log, id) + |LoadedOf(st, id)|
  {
    var ev := PauseEv(group, id);
    var st1 := Apply(cfg, st, ev);
    InvKept(cfg, st, ev);
    assert LoadedOf(st1, id) == LoadedOf(st, id) by {
      forall o ensures PastLoad(st1, o, id) <==> PastLoad(st, o, id) { assert OccFits(cfg, st, o); }
    }
    QuietUntilWoken(cfg, st1, evs, id);
  }

  // Once the pause that follows the last failed attempt has been stored, the job is inactive or gone
  // when the occurrence is discarded, unless it is woken in between.
  lemma ExhaustionIsVisible(cfg: Config, st: State, o: nat, evs: seq<Event>)
    requires cfg.maxAttempts > 0 && Inv(cfg, st) && o in st.workers && st.workers[o].Exhausted?
    requires o in st.occs && NeverWoken(evs, st.occs[o].job)
    ensures !IsActive(Run(cfg, PauseExhausted(st, o, false), evs), st.occs[o].job)
  {
    var ev := PauseExhaustedEv(o, false);
    assert OccFits(cfg, st, o);
    InvKept(cfg, st, ev);
    QuietUntilWoken(cfg, Apply(cfg, st, ev), evs, st.occs[o].job);
  }

  // ----- attempts -----

  function AttemptsLogged(log: seq<Delivery>, o: nat): nat {
    if log == [] then 0
    else AttemptsLogged(log[..|log| - 1], o) + if log[|log| - 1].occ == o then 1 else 0
  }

  predicate InHand(st: State, o: nat) {
    o in st.workers && (st.workers[o].Fetched? || st.workers[o].Loaded?)
  }

  // Every logged attempt of o has been counted; a worker that has not delivered yet has one in hand.
  predicate AttemptsCounted(cfg: Config, st: State, o: nat) {
    && (o >= st.nextId ==> AttemptsLogged(st.log, o) == 0)
    && AttemptsLogged(st.log, o) <= cfg.maxAttempts
    && (o in st.occs ==>
        AttemptsLogged(st.log, o) + (if InHand(st, o) then 1 else 0) <= st.occs[o].attempt)
  }

  predicate KeepsAttempts(cfg: Config, st: State, ev: Event, o: nat) {
    cfg.maxAttempts > 0 && AttemptsCounted(cfg, st, o) ==> AttemptsCounted(cfg, Apply(cfg, st, ev), o)
  }

  lemma AttemptsStepAdmin(cfg: Config, st: State, ev: Event, o: nat)
    requires OfAdmin(ev) && RowsFit(cfg, st)
    ensures KeepsAttempts(cfg, st, ev, o)
  {
    assert OccFits(cfg, st, o);
  }

  lemma AttemptsStepEarly(cfg: Config, st: State, ev: Event, o: nat)
    requires BeforeFinish(ev) && RowsFit(cfg, st)
    ensures KeepsAttempts(cfg, st, ev, o)
  {
    var log' := Apply(cfg, st, ev).log;
    assert OccFits(cfg, st, o) && OccFits(cfg, st, ev.occ);
    assert log' != st.log ==> log'[..|log'| - 1] == st.log;
  }

  lemma AttemptsStepFinish(cfg: Config, st: State, ev: Event, o: nat)
    requires ev.FinishEv? && RowsFit(cfg, st)
    ensures KeepsAttempts(cfg, st, ev, o)
  {
    assert OccFits(cfg, st, o) && OccFits(cfg, st, ev.occ);
  }

  lemma AttemptsStepLate(cfg: Config, st: State, ev: Event, o: nat)
    requires AfterFinish(ev) && RowsFit(cfg, st)
    ensures KeepsAttempts(cfg, st, ev, o)
  {
    assert OccFits(cfg, st, o);
  }

  lemma AttemptsStep(cfg: Config, st: State, ev: Event, o: nat)
    requires cfg.maxAttempts > 0 && RowsFit(cfg, st) && AttemptsCounted(cfg, st, o)
    ensures AttemptsCounted(cfg, Apply(cfg, st, ev), o)
  {
    if OfAdmin(ev) { AttemptsStepAdmin(cfg, st, ev, o); }
    else if BeforeFinish(ev) { AttemptsStepEarly(cfg, st, ev, o); }
    else if ev.FinishEv? { AttemptsStepFinish(cfg, st, ev, o); }
    else { AttemptsStepLate(cfg, st, ev, o); }
  }

  lemma {:induction false} AttemptsAlways(cfg: Config, st: State, evs: seq<Event>, o: nat)
    requires cfg.maxAttempts > 0 && Inv(cfg, st) && AttemptsCounted(cfg, st, o)
    ensures AttemptsCounted(cfg, Run(cfg, st, evs), o)
    decreases |evs|
  {
    if evs != [] {
      AttemptsStep(cfg, st, evs[0], o);
      InvKept(cfg, st, evs[0]);
      AttemptsAlways(cfg, Apply(cfg, st, evs[0]), evs[1..], o);
    }
  }

  // In every run an occurrence is delivered at most maxAttempts times, and all its deliveries, which
  // share its id as their key, are for one job and one plan time.
  lemma RetriesAreBounded(cfg: Config, clock: nat, evs: seq<Event>, o: nat)
    requires cfg.maxAttempts > 0
    ensures var log := Run(cfg, Init(clock), evs).log;
      && AttemptsLogged(log, o) <= cfg.maxAttempts
      && (forall i, j :: 0 <= i < |log| && 0 <= j < |log| && log[i].occ == log[j].occ ==>
          log[i].job == log[j].job && log[i].plan == log[j].plan)
  {
    InitFits(cfg, clock);
    AttemptsAlways(cfg, Init(clock), evs, o);
    InvAlways(cfg, Init(clock), evs);
  }

  // ----- a definition leaves the table -----

  // The step deletes the definition on behalf of an administrator.
  predicate AdminRemoves(st: State, ev: Event, id: string) {
    id in st.jobs &&
    match ev
    case DeleteEv(g, i) => i == id && st.jobs[id].group == g
    case DeleteJobsEv(g, name) => id in Selected(st, g, name)
    case RemoveGroupEv(g) => g in st.groups && st.jobs[id].group == g
    case _ => false
  }

  // An occurrence of the job, at least as new as `base`, has been delivered successfully.
  predicate DeliveredSince(st: State, id: string, base: nat) {
    exists i :: 0 <= i < |st.log| && st.log[i].job == id && st.log[i].ok && st.log[i].occ >= base
  }

  // No occurrence of the job older than `base` is pending or running.
  predicate FreshSince(st: State, o: nat, id: string, base: nat) {
    o in st.occs && st.occs[o].job == id && st.occs[o].state != Finished ==> o >= base
  }

  ghost predicate AllFresh(st: State, id: string, base: nat) {
    base <= st.nextId && forall o: nat :: FreshSince(st, o, id, base)
  }

  lemma FreshStep(cfg: Config, st: State, ev: Event, o: nat, id: string, base: nat)
    requires OccFits(cfg, st, o) && base <= st.nextId && FreshSince(st, o, id, base)
    ensures FreshSince(Apply(cfg, st, ev), o, id, base) && base <= Apply(cfg, st, ev).nextId
  {
  }

  // A definition leaves the table only by an administrator's deletion, or when a worker drops it after a
  // successful delivery of one of its job's occurrences.
  lemma LeavesDelivered(cfg: Config, st: State, ev: Event, id: string, base: nat)
    requires Inv(cfg, st) && AllFresh(st, id, base) && id in st.jobs && !AdminRemoves(st, ev, id)
    ensures id in Apply(cfg, st, ev).jobs || DeliveredSince(st, id, base)
  {
    if ev.FinishEv? && HasWorker(st, ev.occ) && st.workers[ev.occ].Delivered? && st.workers[ev.occ].def.id == id {
      assert OccFits(cfg, st, ev.occ) && FreshSince(st, ev.occ, id, base);
      var i :| 0 <= i < |st.log| && st.log[i].occ == ev.occ && st.log[i].ok;
      assert st.log[i].job == id;
    }
  }

  lemma DeliveredStays(cfg: Config, st: State, ev: Event, id: string, base: nat)
    requires DeliveredSince(st, id, base)
    ensures DeliveredSince(Apply(cfg, st, ev), id, base)
  {
    var i :| 0 <= i < |st.log| && st.log[i].job == id && st.log[i].ok && st.log[i].occ >= base;
    var log' := Apply(cfg, st, ev).log;
    if !ev.DeliverEv? { LogUntouched(cfg, st, ev); }
    assert i < |log'| && log'[i] == st.log[i];
  }

  predicate NoAdminRemoval(cfg: Config, st: State, evs: seq<Event>, id: string)
    decreases |evs|
  {
    evs != [] ==> !AdminRemoves(st, evs[0], id) && NoAdminRemoval(cfg, Apply(cfg, st, evs[0]), evs[1..], id)
  }

  lemma {:induction false} StaysOrDelivered(cfg: Config, st: State, evs: seq<Event>, id: string, base: nat)
    requires cfg.maxAttempts > 0 && Inv(cfg, st) && AllFresh(st, id, base) && NoAdminRemoval(cfg, st, evs, id)
    requires id in st.jobs || DeliveredSince(st, id, base)
    ensures id in Run(cfg, st, evs).jobs || DeliveredSince(Run(cfg, st, evs), id, base)
    decreases |evs|
  {
    if evs != [] {
      var st1 := Apply(cfg, st, evs[0]);
      if id in st.jobs { LeavesDelivered(cfg, st, evs[0], id, base); }
      if DeliveredSince(st, id, base) { DeliveredStays(cfg, st, evs[0], id, base); }
      FreshStep(cfg, st, evs[0], 0, id, base);
      forall o: nat ensures FreshSince(st1, o, id, base) { FreshStep(cfg, st, evs[0], o, id, base); }
      InvKept(cfg, st, evs[0]);
      StaysOrDelivered(cfg, st1, evs[1..], id, base);
    }
  }

  // A definition pushed under an id without live occurrences is still there after any run without an
  // administrator's deletion of it, or one of the occurrences inserted since the push was delivered.
  lemma NeverVanishesUndelivered(cfg: Config, st: State, job: Job, evs: seq<Event>)
    requires cfg.maxAttempts > 0 && Inv(cfg, st) && Push(cfg, st, job).1 == Done
    requires forall o :: o in st.occs && st.occs[o].job == job.id ==> st.occs[o].state == Finished
    requires NoAdminRemoval(cfg, Push(cfg, st, job).0, evs, job.id)
    ensures var st' := Run(cfg, Push(cfg, st, job).0, evs);
      job.id in st'.jobs || DeliveredSince(st', job.id, st.nextId)
  {
    var st1 := Apply(cfg, st, PushEv(job));
    InvKept(cfg, st, PushEv(job));
    StaysOrDelivered(cfg, st1, evs, job.id, st.nextId);
  }
}
