/** Every active job stays alive, and its displayed next fire time is true. */
module QueueAlive {
  import opened Requests
  import opened QueueModel
  import opened QueueInvariant

  // The occurrence will still lead to a delivery, a reschedule or a pause of its job. A worker that
  // has returned nil will not, nor one whose last attempt has returned an error.
  predicate WillServe(cfg: Config, st: State, o: nat, group: string)
    requires o in st.occs
  {
    match st.occs[o].state
    case Pending => true
    case Finished => false
    case Running =>
      o in st.workers ==>
        match st.workers[o]
        case Fetched => true
        case Loaded(def) => def.group == group
        case Exhausted(def) => def.group == group
        case Delivered(def) => def.group == group
        case Rescheduled => false
        case Returned(ok) => !ok && st.occs[o].attempt < cfg.maxAttempts
  }

  // Occurrence o keeps the definition `id` alive; with `shown`, its plan time is the displayed exectime.
  predicate Carries(cfg: Config, st: State, o: nat, id: string, shown: bool) {
    && o in st.occs && id in st.jobs
    && st.occs[o].job == id && st.occs[o].group == st.jobs[id].group
    && (shown ==> st.occs[o].plan == st.jobs[id].exectime)
    && WillServe(cfg, st, o, st.jobs[id].group)
  }

  predicate IsActive(st: State, id: string) {
    id in st.jobs && st.jobs[id].active
  }

  ghost predicate Alive(cfg: Config, st: State, shown: bool) {
    forall id :: IsActive(st, id) ==> exists o :: Carries(cfg, st, o, id, shown)
  }

  // The errors after which an occurrence is gone although its definition stays active: a storage error
  // on the last attempt or while dropping or pausing the definition, and a crash on the last attempt.
  predicate Fatal(cfg: Config, st: State, ev: Event) {
    match ev
    case LoadEv(o, err) => err && HasWorker(st, o) && st.workers[o].Fetched? && st.occs[o].attempt >= cfg.maxAttempts
    case PauseExhaustedEv(o, err) => err && HasWorker(st, o) && st.workers[o].Exhausted?
    case FinishEv(o, err) =>
      && err && HasWorker(st, o) && st.workers[o].Delivered?
      && var pattern := st.workers[o].def.pattern;
         IsOnce(pattern) || !cfg.parses(pattern) || st.occs[o].attempt >= cfg.maxAttempts
    case RescueEv(o) =>
      o in st.occs && st.occs[o].state == Running && o !in st.workers && st.occs[o].attempt >= cfg.maxAttempts
    case _ => false
  }

  // The event is fatal to the only occurrence that keeps an active definition alive.
  ghost predicate Orphans(cfg: Config, st: State, ev: Event, shown: bool) {
    && Fatal(cfg, st, ev)
    && IsActive(st, st.occs[ev.occ].job)
    && forall o :: Carries(cfg, st, o, st.occs[ev.occ].job, shown) ==> o == ev.occ
  }

  // A worker that loaded the definition of another group reschedules the active job that now has the id.
  predicate ForeignReschedule(cfg: Config, st: State, ev: Event) {
    && ev.FinishEv? && !ev.err && HasWorker(st, ev.occ) && st.workers[ev.occ].Delivered?
    && var def := st.workers[ev.occ].def;
       && !IsOnce(def.pattern) && cfg.parses(def.pattern)
       && IsActive(st, def.id) && st.jobs[def.id].group != def.group
  }

  // It does so, and no occurrence of the job's own group is planned at the time that is now displayed.
  ghost predicate Misleads(cfg: Config, st: State, ev: Event) {
    && ForeignReschedule(cfg, st, ev)
    && var def := st.workers[ev.occ].def;
       forall p :: Carries(cfg, st, p, def.id, false) ==> st.occs[p].plan != cfg.next(def.pattern, st.clock)
  }

  ghost predicate Breaks(cfg: Config, st: State, ev: Event, shown: bool) {
    Orphans(cfg, st, ev, shown) || (shown && Misleads(cfg, st, ev))
  }

  // ----- ids are not reused across groups -----

  // A pending or running occurrence, and what its worker has loaded, carry the group of its definition.
  predicate SameGroup(st: State, o: nat) {
    o in st.occs && st.occs[o].state != Finished ==>
      && (st.occs[o].job in st.jobs ==> st.jobs[st.occs[o].job].group == st.occs[o].group)
      && (o in st.workers && HasDef(st.workers[o]) ==> st.workers[o].def.group == st.occs[o].group)
  }

  ghost predicate GroupsAgree(st: State) {
    forall o: nat :: SameGroup(st, o)
  }

  // The push reuses the id of a job of another group while an old occurrence of it is pending or running.
  predicate ForeignReuse(cfg: Config, st: State, ev: Event) {
    && ev.PushEv? && Push(cfg, st, ev.job).1 == Done
    && exists o :: o in st.occs && st.occs[o].state != Finished && st.occs[o].job == ev.job.id
                   && st.occs[o].group != ev.job.group
  }

  ghost predicate KeepsSameGroup(cfg: Config, st: State, ev: Event, o: nat) {
    RowsFit(cfg, st) && GroupsAgree(st) && !ForeignReuse(cfg, st, ev) ==> SameGroup(Apply(cfg, st, ev), o)
  }

  lemma SameGroupKeptAdmin(cfg: Config, st: State, ev: Event, o: nat)
    requires OfAdmin(ev)
    ensures KeepsSameGroup(cfg, st, ev, o)
  {
    if RowsFit(cfg, st) && GroupsAgree(st) {
      assert SameGroup(st, o) && OccFits(cfg, st, o);
    }
  }

  lemma SameGroupKeptEarly(cfg: Config, st: State, ev: Event, o: nat)
    requires BeforeFinish(ev)
    ensures KeepsSameGroup(cfg, st, ev, o)
  {
    if RowsFit(cfg, st) && GroupsAgree(st) {
      assert SameGroup(st, o) && OccFits(cfg, st, o);
    }
  }

  lemma SameGroupKeptFinish(cfg: Config, st: State, ev: Event, o: nat)
    requires ev.FinishEv?
    ensures KeepsSameGroup(cfg, st, ev, o)
  {
    if RowsFit(cfg, st) && GroupsAgree(st) {
      assert SameGroup(st, o) && OccFits(cfg, st, o);
      assert SameGroup(st, ev.occ) && OccFits(cfg, st, ev.occ);
    }
  }

  lemma SameGroupKeptLate(cfg: Config, st: State, ev: Event, o: nat)
    requires AfterFinish(ev)
    ensures KeepsSameGroup(cfg, st, ev, o)
  {
    if RowsFit(cfg, st) && GroupsAgree(st) {
      assert SameGroup(st, o) && OccFits(cfg, st, o);
    }
  }

  lemma SameGroupKept(cfg: Config, st: State, ev: Event, o: nat)
    requires RowsFit(cfg, st) && GroupsAgree(st)
    requires !ForeignReuse(cfg, st, ev)
    ensures SameGroup(Apply(cfg, st, ev), o)
  {
    if OfAdmin(ev) { SameGroupKeptAdmin(cfg, st, ev, o); }
    else if BeforeFinish(ev) { SameGroupKeptEarly(cfg, st, ev, o); }
    else if ev.FinishEv? { SameGroupKeptFinish(cfg, st, ev, o); }
    else { SameGroupKeptLate(cfg, st, ev, o); }
  }

  lemma GroupsKept(cfg: Config, st: State, ev: Event)
    requires RowsFit(cfg, st) && GroupsAgree(st) && !ForeignReuse(cfg, st, ev)
    ensures GroupsAgree(Apply(cfg, st, ev))
  {
    forall o: nat ensures SameGroup(Apply(cfg, st, ev), o) { SameGroupKept(cfg, st, ev, o); }
  }

  // ----- an active definition keeps a carrier -----

  // Activating or pushing a definition inserts its carrier.
  lemma NewCarrier(cfg: Config, st: State, ev: Event, id: string, shown: bool)
    requires Inv(cfg, st) && !IsActive(st, id) && IsActive(Apply(cfg, st, ev), id)
    ensures Carries(cfg, Apply(cfg, st, ev), st.nextId, id, shown)
  {
    assert OccFits(cfg, st, st.nextId);
    if !ev.PushEv? && !ev.ActiveEv? {
      OnlyAdminsActivate(cfg, st, ev, id);
    }
  }

  lemma OnlyAdminsActivate(cfg: Config, st: State, ev: Event, id: string)
    requires !ev.PushEv? && !ev.ActiveEv?
    ensures IsActive(Apply(cfg, st, ev), id) ==> IsActive(st, id)
  {
  }

  // The carrier's own worker finishes.
  lemma CarrierFinishes(cfg: Config, st: State, o: nat, err: bool, id: string, shown: bool)
    requires !Fatal(cfg, st, FinishEv(o, err))
    requires OccFits(cfg, st, o) && OccFits(cfg, st, st.nextId)
    requires Carries(cfg, st, o, id, shown) && IsActive(st, id) && IsActive(Finish(cfg, st, o, err), id)
    ensures var st' := Finish(cfg, st, o, err);
      Carries(cfg, st', o, id, shown) || Carries(cfg, st', st.nextId, id, shown)
  {
  }

  lemma FinishFrame(cfg: Config, st: State, p: nat, err: bool, o: nat, id: string)
    requires p != o && o in st.occs && o < st.nextId
    ensures var st' := Finish(cfg, st, p, err);
      && o in st'.occs && st'.occs[o] == st.occs[o]
      && (o in st'.workers <==> o in st.workers) && (o in st.workers ==> st'.workers[o] == st.workers[o])
      && (id in st'.jobs ==> id in st.jobs && st'.jobs[id].group == st.jobs[id].group)
  {
  }

  // Another worker finishes: only a reschedule of the same job could matter.
  lemma OtherFinishes(cfg: Config, st: State, p: nat, err: bool, o: nat, id: string, shown: bool)
    requires p != o && !(shown && ForeignReschedule(cfg, st, FinishEv(p, err)) && st.workers[p].def.id == id)
    requires OccFits(cfg, st, o) && OccFits(cfg, st, p) && OccFits(cfg, st, st.nextId)
    requires Carries(cfg, st, o, id, shown) && IsActive(st, id) && IsActive(Finish(cfg, st, p, err), id)
    ensures var st' := Finish(cfg, st, p, err);
      Carries(cfg, st', o, id, shown) || Carries(cfg, st', st.nextId, id, shown)
  {
    FinishFrame(cfg, st, p, err, o, id);
    var st' := Finish(cfg, st, p, err);
    if st'.nextId == st.nextId { assert st'.jobs[id].exectime == st.jobs[id].exectime; }
  }

  // After a reschedule by a worker of another group, the displayed time is kept by exactly those
  // occurrences that carried the job and happen to be planned at the new time.
  lemma ForeignRescheduleMisleads(cfg: Config, st: State, ev: Event, p: nat)
    requires RowsFit(cfg, st) && ForeignReschedule(cfg, st, ev)
    ensures
      var st' := Apply(cfg, st, ev); var def := st.workers[ev.occ].def; var next := cfg.next(def.pattern, st.clock);
      && IsActive(st', def.id) && st'.jobs[def.id].exectime == next
      && (Carries(cfg, st', p, def.id, true) <==> Carries(cfg, st, p, def.id, false) && st.occs[p].plan == next)
  {
    assert OccFits(cfg, st, ev.occ) && OccFits(cfg, st, p) && OccFits(cfg, st, st.nextId);
    if p != ev.occ && p in st.occs { FinishFrame(cfg, st, ev.occ, false, p, st.workers[ev.occ].def.id); }
  }

  // An activation of the job itself replaces its carrier.
  lemma CarrierReplaced(cfg: Config, st: State, ev: Event, id: string, shown: bool)
    requires ev.ActiveEv? && ev.id == id && Activate(st, ev.group, id, ev.exectime).1 == Done
    requires OccFits(cfg, st, st.nextId)
    ensures Carries(cfg, Apply(cfg, st, ev), st.nextId, id, shown)
  {
  }

  // Unless the step is fatal to it or misleads about its job, a carrier stays one, or the step inserts
  // a new one.
  predicate KeepsCarrier(cfg: Config, st: State, ev: Event, o: nat, id: string, shown: bool) {
    var st' := Apply(cfg, st, ev);
    && Carries(cfg, st, o, id, shown) && IsActive(st, id) && IsActive(st', id)
    && !(Fatal(cfg, st, ev) && ev.occ == o)
    && !(shown && ForeignReschedule(cfg, st, ev) && st.workers[ev.occ].def.id == id)
    ==> Carries(cfg, st', o, id, shown) || Carries(cfg, st', st.nextId, id, shown)
  }

  lemma CarrierKeptAdmin(cfg: Config, st: State, ev: Event, o: nat, id: string, shown: bool)
    requires OfAdmin(ev) && RowsFit(cfg, st)
    ensures KeepsCarrier(cfg, st, ev, o, id, shown)
  {
    assert OccFits(cfg, st, o) && OccFits(cfg, st, st.nextId);
    if ev.ActiveEv? && ev.id == id && Activate(st, ev.group, id, ev.exectime).1 == Done {
      CarrierReplaced(cfg, st, ev, id, shown);
    }
  }

  lemma CarrierKeptEarly(cfg: Config, st: State, ev: Event, o: nat, id: string, shown: bool)
    requires BeforeFinish(ev) && RowsFit(cfg, st)
    ensures KeepsCarrier(cfg, st, ev, o, id, shown)
  {
    assert OccFits(cfg, st, o) && OccFits(cfg, st, st.nextId);
  }

  lemma CarrierKeptFinish(cfg: Config, st: State, ev: Event, o: nat, id: string, shown: bool)
    requires ev.FinishEv? && RowsFit(cfg, st)
    ensures KeepsCarrier(cfg, st, ev, o, id, shown)
  {
    assert OccFits(cfg, st, o) && OccFits(cfg, st, ev.occ) && OccFits(cfg, st, st.nextId);
    if Carries(cfg, st, o, id, shown) && IsActive(st, id) && IsActive(Apply(cfg, st, ev), id) {
      if ev.occ == o {
        if !Fatal(cfg, st, ev) { CarrierFinishes(cfg, st, o, ev.err, id, shown); }
      } else if !(shown && ForeignReschedule(cfg, st, ev) && st.workers[ev.occ].def.id == id) {
        OtherFinishes(cfg, st, ev.occ, ev.err, o, id, shown);
      }
    }
  }

  lemma CarrierKeptLate(cfg: Config, st: State, ev: Event, o: nat, id: string, shown: bool)
    requires AfterFinish(ev) && RowsFit(cfg, st)
    ensures KeepsCarrier(cfg, st, ev, o, id, shown)
  {
    assert OccFits(cfg, st, o) && OccFits(cfg, st, st.nextId);
  }

  lemma CarrierKept(cfg: Config, st: State, ev: Event, o: nat, id: string, shown: bool)
    requires RowsFit(cfg, st)
    ensures KeepsCarrier(cfg, st, ev, o, id, shown)
  {
    if OfAdmin(ev) { CarrierKeptAdmin(cfg, st, ev, o, id, shown); }
    else if BeforeFinish(ev) { CarrierKeptEarly(cfg, st, ev, o, id, shown); }
    else if ev.FinishEv? { CarrierKeptFinish(cfg, st, ev, o, id, shown); }
    else { CarrierKeptLate(cfg, st, ev, o, id, shown); }
  }

  // A fatal step leaves the other carriers of the definition, and no more.
  lemma FatalRemoves(cfg: Config, st: State, ev: Event, o: nat, shown: bool)
    requires Fatal(cfg, st, ev) && OccFits(cfg, st, ev.occ)
    ensures var id := st.occs[ev.occ].job;
      && Apply(cfg, st, ev).jobs == st.jobs
      && (Carries(cfg, Apply(cfg, st, ev), o, id, shown) <==> Carries(cfg, st, o, id, shown) && o != ev.occ)
  {
  }

  // In a state where every active definition is kept alive, and with `shown` its displayed time is that
  // of an occurrence, a step keeps it so if and only if it neither orphans a definition nor misleads.
  lemma AliveIffUnbroken(cfg: Config, st: State, ev: Event, shown: bool)
    requires Inv(cfg, st) && Alive(cfg, st, shown)
    ensures Alive(cfg, Apply(cfg, st, ev), shown) <==> !Breaks(cfg, st, ev, shown)
  {
    var st' := Apply(cfg, st, ev);
    if Orphans(cfg, st, ev, shown) {
      var id := st.occs[ev.occ].job;
      assert OccFits(cfg, st, ev.occ);
      FatalRemoves(cfg, st, ev, ev.occ, shown);
      assert IsActive(st', id);
      forall o ensures !Carries(cfg, st', o, id, shown) { FatalRemoves(cfg, st, ev, o, shown); }
    } else if shown && Misleads(cfg, st, ev) {
      var id := st.workers[ev.occ].def.id;
      ForeignRescheduleMisleads(cfg, st, ev, ev.occ);
      assert IsActive(st', id);
      forall o ensures !Carries(cfg, st', o, id, true) { ForeignRescheduleMisleads(cfg, st, ev, o); }
    } else {
      forall id | IsActive(st', id)
        ensures exists o :: Carries(cfg, st', o, id, shown)
      {
        KeepsOne(cfg, st, ev, id, shown);
      }
    }
  }

  lemma KeepsOne(cfg: Config, st: State, ev: Event, id: string, shown: bool)
    requires Inv(cfg, st) && Alive(cfg, st, shown)
    requires !Breaks(cfg, st, ev, shown) && IsActive(Apply(cfg, st, ev), id)
    ensures exists o :: Carries(cfg, Apply(cfg, st, ev), o, id, shown)
  {
    if !IsActive(st, id) {
      NewCarrier(cfg, st, ev, id, shown);
    } else if shown && ForeignReschedule(cfg, st, ev) && st.workers[ev.occ].def.id == id {
      var p :| Carries(cfg, st, p, id, false) && st.occs[p].plan == cfg.next(st.workers[ev.occ].def.pattern, st.clock);
      ForeignRescheduleMisleads(cfg, st, ev, p);
    } else {
      var o :| Carries(cfg, st, o, id, shown);
      if Fatal(cfg, st, ev) && ev.occ == o {
        FatalRemoves(cfg, st, ev, o, shown);
        var o2 :| Carries(cfg, st, o2, id, shown) && o2 != o;
        CarrierKept(cfg, st, ev, o2, id, shown);
      } else {
        CarrierKept(cfg, st, ev, o, id, shown);
      }
    }
  }

  // ----- over whole runs -----

  // No step of the run breaks the property.
  ghost predicate Unbroken(cfg: Config, st: State, evs: seq<Event>, shown: bool)
    decreases |evs|
  {
    evs != [] ==> !Breaks(cfg, st, evs[0], shown) && Unbroken(cfg, Apply(cfg, st, evs[0]), evs[1..], shown)
  }

  // Every state of the run has the property.
  ghost predicate AliveThroughout(cfg: Config, st: State, evs: seq<Event>, shown: bool)
    decreases |evs|
  {
    Alive(cfg, st, shown) && (evs != [] ==> AliveThroughout(cfg, Apply(cfg, st, evs[0]), evs[1..], shown))
  }

  // A run keeps every active definition alive throughout if and only if none of its steps is among
  // the listed ones.
  lemma {:induction false} AliveThroughoutIffUnbroken(cfg: Config, st: State, evs: seq<Event>, shown: bool)
    requires cfg.maxAttempts > 0 && Inv(cfg, st) && Alive(cfg, st, shown)
    ensures AliveThroughout(cfg, st, evs, shown) <==> Unbroken(cfg, st, evs, shown)
    ensures Unbroken(cfg, st, evs, shown) ==> Alive(cfg, Run(cfg, st, evs), shown)
    decreases |evs|
  {
    if evs != [] {
      var st1 := Apply(cfg, st, evs[0]);
      AliveIffUnbroken(cfg, st, evs[0], shown);
      InvKept(cfg, st, evs[0]);
      if Alive(cfg, st1, shown) { AliveThroughoutIffUnbroken(cfg, st1, evs[1..], shown); }
    }
  }

  // From the empty queue, in every interleaving without an orphaning step, each active definition has
  // a pending or running occurrence that carries its id and group.
  lemma ActiveJobsStayAlive(cfg: Config, clock: nat, evs: seq<Event>, id: string)
    requires cfg.maxAttempts > 0 && Unbroken(cfg, Init(clock), evs, false)
    ensures var st := Run(cfg, Init(clock), evs);
      IsActive(st, id) ==>
        exists o :: o in st.occs && st.occs[o].state != Finished
          && st.occs[o].job == id && st.occs[o].group == st.jobs[id].group
  {
    InitFits(cfg, clock);
    AliveThroughoutIffUnbroken(cfg, Init(clock), evs, false);
    var st := Run(cfg, Init(clock), evs);
    if IsActive(st, id) {
      var o :| Carries(cfg, st, o, id, false);
    }
  }

  // If moreover no step misleads, one of them is planned at the displayed exectime.
  lemma DisplayedFireIsTrue(cfg: Config, clock: nat, evs: seq<Event>, id: string)
    requires cfg.maxAttempts > 0 && Unbroken(cfg, Init(clock), evs, true)
    ensures var st := Run(cfg, Init(clock), evs);
      IsActive(st, id) ==>
        exists o :: o in st.occs && st.occs[o].state != Finished
          && st.occs[o].job == id && st.occs[o].group == st.jobs[id].group && st.occs[o].plan == st.jobs[id].exectime
  {
    InitFits(cfg, clock);
    AliveThroughoutIffUnbroken(cfg, Init(clock), evs, true);
    var st := Run(cfg, Init(clock), evs);
    if IsActive(st, id) {
      var o :| Carries(cfg, st, o, id, true);
    }
  }

  // ----- runs without errors -----

  // No storage error and no crash.
  predicate Clean(ev: Event) {
    match ev
    case LoadEv(_, err) => !err
    case PauseExhaustedEv(_, err) => !err
    case FinishEv(_, err) => !err
    case CrashEv(_) => false
    case _ => true
  }

  ghost predicate AllManned(st: State) {
    forall o :: o in st.occs && st.occs[o].state == Running ==> o in st.workers
  }

  lemma StaysManned(cfg: Config, st: State, ev: Event)
    requires AllManned(st) && Clean(ev)
    ensures AllManned(Apply(cfg, st, ev)) && !Fatal(cfg, st, ev)
  {
  }

  // No step of the run reuses an id across groups.
  ghost predicate GroupLoyal(cfg: Config, st: State, evs: seq<Event>)
    decreases |evs|
  {
    evs != [] ==> !ForeignReuse(cfg, st, evs[0]) && GroupLoyal(cfg, Apply(cfg, st, evs[0]), evs[1..])
  }

  lemma {:induction false} GroupsAlways(cfg: Config, st: State, evs: seq<Event>)
    requires cfg.maxAttempts > 0 && Inv(cfg, st) && GroupsAgree(st) && GroupLoyal(cfg, st, evs)
    ensures GroupsAgree(Run(cfg, st, evs))
    decreases |evs|
  {
    if evs != [] {
      InvKept(cfg, st, evs[0]);
      GroupsKept(cfg, st, evs[0]);
      GroupsAlways(cfg, Apply(cfg, st, evs[0]), evs[1..]);
    }
  }

  lemma LoyalWorkersDoNotMislead(cfg: Config, st: State, ev: Event)
    requires RowsFit(cfg, st) && GroupsAgree(st)
    ensures !ForeignReschedule(cfg, st, ev)
  {
    if ev.FinishEv? { assert SameGroup(st, ev.occ) && OccFits(cfg, st, ev.occ); }
  }

  lemma {:induction false} CleanIsUnbroken(cfg: Config, st: State, evs: seq<Event>, shown: bool)
    requires cfg.maxAttempts > 0 && Inv(cfg, st) && AllManned(st) && forall ev :: ev in evs ==> Clean(ev)
    requires shown ==> GroupsAgree(st) && GroupLoyal(cfg, st, evs)
    ensures Unbroken(cfg, st, evs, shown)
    decreases |evs|
  {
    if evs != [] {
      StaysManned(cfg, st, evs[0]);
      InvKept(cfg, st, evs[0]);
      if shown {
        LoyalWorkersDoNotMislead(cfg, st, evs[0]);
        GroupsKept(cfg, st, evs[0]);
      }
      CleanIsUnbroken(cfg, Apply(cfg, st, evs[0]), evs[1..], shown);
    }
  }

  // With no storage error and no crash in the run, every active definition has a pending or running
  // occurrence, however the deliveries turn out; if no id is reused across groups while an occurrence
  // of it is live, one of them is planned at the displayed time.
  lemma CleanRunsKeepJobsAlive(cfg: Config, clock: nat, evs: seq<Event>, id: string)
    requires cfg.maxAttempts > 0 && forall ev :: ev in evs ==> Clean(ev)
    ensures var st := Run(cfg, Init(clock), evs);
      IsActive(st, id) ==>
        exists o :: o in st.occs && st.occs[o].state != Finished
          && st.occs[o].job == id && st.occs[o].group == st.jobs[id].group
          && (GroupLoyal(cfg, Init(clock), evs) ==> st.occs[o].plan == st.jobs[id].exectime)
  {
    InitFits(cfg, clock);
    var shown := GroupLoyal(cfg, Init(clock), evs);
    CleanIsUnbroken(cfg, Init(clock), evs, shown);
    AliveThroughoutIffUnbroken(cfg, Init(clock), evs, shown);
    var st := Run(cfg, Init(clock), evs);
    if IsActive(st, id) {
      var o :| Carries(cfg, st, o, id, shown);
    }
  }
}
