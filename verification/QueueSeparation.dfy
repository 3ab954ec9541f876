/** Groups that use their own job ids do not observe each other, in any interleaving. */
module QueueSeparation {
  import opened QueueModel
  import opened QueueInvariant

  // A group, and the job ids that it and no other group uses.
  datatype Tenant = Tenant(group: string, ids: set<string>)

  // Pushes keep to the ids of their group.
  predicate Respects(ev: Event, own: Tenant) {
    ev.PushEv? ==> (ev.job.group == own.group <==> ev.job.id in own.ids)
  }

  predicate IsTheirs(st: State, o: nat, own: Tenant) {
    o in st.occs && st.occs[o].job in own.ids
  }

  // The event is an operation on the group, or a step of a worker on one of its occurrences.
  predicate OfTenant(st: State, ev: Event, own: Tenant) {
    match ev
    case RegisterGroupEv(g) => g == own.group
    case RemoveGroupEv(g) => g == own.group
    case PushEv(job) => job.group == own.group
    case EditEv(g, _, _, _) => g == own.group
    case ActiveEv(g, _, _) => g == own.group
    case PauseEv(g, _) => g == own.group
    case DeleteEv(g, _) => g == own.group
    case DeleteJobsEv(g, _) => g == own.group
    case AdvanceEv(_) => false
    case FetchEv(o) => IsTheirs(st, o, own)
    case LoadEv(o, _) => IsTheirs(st, o, own)
    case DeliverEv(o, _) => IsTheirs(st, o, own)
    case PauseExhaustedEv(o, _) => IsTheirs(st, o, own)
    case FinishEv(o, _) => IsTheirs(st, o, own)
    case CompleteEv(o) => IsTheirs(st, o, own)
    case CrashEv(o) => IsTheirs(st, o, own)
    case RescueEv(o) => IsTheirs(st, o, own)
  }

  // ----- rows keep to their group -----

  predicate JobDivided(st: State, id: string, own: Tenant) {
    id in st.jobs ==> (st.jobs[id].group == own.group <==> id in own.ids)
  }

  predicate OccDivided(st: State, o: nat, own: Tenant) {
    && (o in st.occs ==> (st.occs[o].group == own.group <==> st.occs[o].job in own.ids))
    && (o in st.occs && o in st.workers && HasDef(st.workers[o]) ==>
        (st.workers[o].def.group == own.group <==> st.occs[o].job in own.ids))
  }

  ghost predicate Divided(st: State, own: Tenant) {
    && (forall id :: JobDivided(st, id, own))
    && (forall o: nat :: OccDivided(st, o, own))
  }

  ghost predicate KeepsDivision(cfg: Config, st: State, ev: Event, id: string, o: nat, own: Tenant) {
    RowsFit(cfg, st) && Divided(st, own) && Respects(ev, own) ==>
      JobDivided(Apply(cfg, st, ev), id, own) && OccDivided(Apply(cfg, st, ev), o, own)
  }

  lemma DivisionKeptAdmin(cfg: Config, st: State, ev: Event, id: string, o: nat, own: Tenant)
    requires OfAdmin(ev)
    ensures KeepsDivision(cfg, st, ev, id, o, own)
  {
    if RowsFit(cfg, st) && Divided(st, own) {
      assert OccFits(cfg, st, o) && JobDivided(st, id, own) && OccDivided(st, o, own);
      if ev.ActiveEv? { assert JobDivided(st, ev.id, own); }
    }
  }

  lemma DivisionKeptEarly(cfg: Config, st: State, ev: Event, id: string, o: nat, own: Tenant)
    requires BeforeFinish(ev)
    ensures KeepsDivision(cfg, st, ev, id, o, own)
  {
    if RowsFit(cfg, st) && Divided(st, own) {
      assert OccFits(cfg, st, o) && JobDivided(st, id, own) && OccDivided(st, o, own);
      if o in st.occs { assert JobDivided(st, st.occs[o].job, own); }
    }
  }

  lemma DivisionKeptFinish(cfg: Config, st: State, ev: Event, id: string, o: nat, own: Tenant)
    requires ev.FinishEv?
    ensures KeepsDivision(cfg, st, ev, id, o, own)
  {
    if RowsFit(cfg, st) && Divided(st, own) {
      assert OccFits(cfg, st, o) && JobDivided(st, id, own) && OccDivided(st, o, own);
      assert OccFits(cfg, st, ev.occ) && OccDivided(st, ev.occ, own);
    }
  }

  lemma DivisionKeptLate(cfg: Config, st: State, ev: Event, id: string, o: nat, own: Tenant)
    requires AfterFinish(ev)
    ensures KeepsDivision(cfg, st, ev, id, o, own)
  {
    if RowsFit(cfg, st) && Divided(st, own) {
      assert OccFits(cfg, st, o) && JobDivided(st, id, own) && OccDivided(st, o, own);
    }
  }

  lemma DivisionKeptAt(cfg: Config, st: State, ev: Event, id: string, o: nat, own: Tenant)
    ensures KeepsDivision(cfg, st, ev, id, o, own)
  {
    if OfAdmin(ev) { DivisionKeptAdmin(cfg, st, ev, id, o, own); }
    else if BeforeFinish(ev) { DivisionKeptEarly(cfg, st, ev, id, o, own); }
    else if ev.FinishEv? { DivisionKeptFinish(cfg, st, ev, id, o, own); }
    else { DivisionKeptLate(cfg, st, ev, id, o, own); }
  }

  lemma DivisionKept(cfg: Config, st: State, ev: Event, own: Tenant)
    requires RowsFit(cfg, st) && Divided(st, own) && Respects(ev, own)
    ensures Divided(Apply(cfg, st, ev), own)
  {
    forall id ensures JobDivided(Apply(cfg, st, ev), id, own) { DivisionKeptAt(cfg, st, ev, id, 0, own); }
    forall o: nat ensures OccDivided(Apply(cfg, st, ev), o, own) { DivisionKeptAt(cfg, st, ev, "", o, own); }
  }

  // ----- what the other groups see -----

  function LogWithout(log: seq<Delivery>, ids: set<string>): seq<Delivery> {
    if log == [] then []
    else
      var last := log[|log| - 1];
      LogWithout(log[..|log| - 1], ids) + if last.job in ids then [] else [last]
  }

  predicate SameJob(a: State, b: State, id: string) {
    (id in a.jobs <==> id in b.jobs) && (id in a.jobs ==> a.jobs[id] == b.jobs[id])
  }

  predicate SameOcc(a: State, b: State, o: nat) {
    && (o in a.occs <==> o in b.occs) && (o in a.occs ==> a.occs[o] == b.occs[o])
    && (o in a.workers <==> o in b.workers) && (o in a.workers ==> a.workers[o] == b.workers[o])
  }

  predicate JobWithout(st: State, h: State, id: string, own: Tenant) {
    if id in own.ids then id !in h.jobs else SameJob(st, h, id)
  }

  predicate OccWithout(st: State, h: State, o: nat, own: Tenant) {
    if o in st.occs && !IsTheirs(st, o, own) then SameOcc(st, h, o) else o !in h.occs && o !in h.workers
  }

  predicate RestWithout(st: State, h: State, own: Tenant) {
    && h.groups == st.groups - {own.group} && h.nextId == st.nextId && h.clock == st.clock
    && h.log == LogWithout(st.log, own.ids)
  }

  // h is the state st without the group, its definitions, occurrences, workers and deliveries.
  ghost predicate Without(st: State, h: State, own: Tenant) {
    && (forall id :: JobWithout(st, h, id, own))
    && (forall o: nat :: OccWithout(st, h, o, own))
    && RestWithout(st, h, own)
  }

  // The same event without the group's events: of those only the numbers they took remain.
  function Step(cfg: Config, st: State, h: State, ev: Event, own: Tenant): State {
    if OfTenant(st, ev, own) then h.(nextId := Apply(cfg, st, ev).nextId) else Apply(cfg, h, ev)
  }

  predicate JobFacts(st: State, h: State, id: string, own: Tenant) {
    JobDivided(st, id, own) && JobWithout(st, h, id, own) && (id in st.jobs ==> st.jobs[id].id == id)
  }

  predicate OccFacts(cfg: Config, st: State, h: State, o: nat, own: Tenant) {
    OccFits(cfg, st, o) && OccDivided(st, o, own) && OccWithout(st, h, o, own)
  }

  predicate Facts(cfg: Config, st: State, h: State, ev: Event, own: Tenant) {
    && Respects(ev, own) && h.groups == st.groups - {own.group} && h.nextId == st.nextId && h.clock == st.clock
    && OccFacts(cfg, st, h, st.nextId, own)
  }

  // What is known about the job of an admin operation, and about the occurrence of a worker's step.
  predicate Names(st: State, h: State, ev: Event, own: Tenant) {
    || ev.RegisterGroupEv? || ev.RemoveGroupEv? || ev.DeleteJobsEv? || ev.AdvanceEv?
    || (ev.PushEv? && JobFacts(st, h, ev.job.id, own))
    || ((ev.EditEv? || ev.ActiveEv? || ev.PauseEv? || ev.DeleteEv?) && JobFacts(st, h, ev.id, own))
  }

  predicate Works(cfg: Config, st: State, h: State, ev: Event, own: Tenant) {
    && !OfAdmin(ev) && OccFacts(cfg, st, h, ev.occ, own)
    && (ev.occ in st.occs ==> JobFacts(st, h, st.occs[ev.occ].job, own))
  }

  // What the step makes of the definition, and of the occurrence.
  predicate JobAfter(cfg: Config, st: State, h: State, ev: Event, id: string, own: Tenant) {
    JobWithout(Apply(cfg, st, ev), Step(cfg, st, h, ev, own), id, own)
  }

  predicate OccAfter(cfg: Config, st: State, h: State, ev: Event, o: nat, own: Tenant) {
    OccWithout(Apply(cfg, st, ev), Step(cfg, st, h, ev, own), o, own)
  }

  predicate RestAfter(cfg: Config, st: State, h: State, ev: Event, own: Tenant) {
    RestWithout(Apply(cfg, st, ev), Step(cfg, st, h, ev, own), own)
  }

  lemma JobOwnAdmin(cfg: Config, st: State, h: State, ev: Event, id: string, own: Tenant)
    requires OfTenant(st, ev, own)
    requires Facts(cfg, st, h, ev, own) && JobFacts(st, h, id, own)
    requires Names(st, h, ev, own)
    ensures JobAfter(cfg, st, h, ev, id, own)
  {
  }

  lemma OccOwnAdmin(cfg: Config, st: State, h: State, ev: Event, o: nat, own: Tenant)
    requires OfTenant(st, ev, own)
    requires Facts(cfg, st, h, ev, own) && OccFacts(cfg, st, h, o, own)
    requires o in st.occs ==> JobFacts(st, h, st.occs[o].job, own)
    requires Names(st, h, ev, own)
    ensures OccAfter(cfg, st, h, ev, o, own)
  {
  }

  lemma JobOwnWorker(cfg: Config, st: State, h: State, ev: Event, id: string, own: Tenant)
    requires OfTenant(st, ev, own)
    requires Facts(cfg, st, h, ev, own) && JobFacts(st, h, id, own)
    requires Works(cfg, st, h, ev, own)
    ensures JobAfter(cfg, st, h, ev, id, own)
  {
  }

  lemma OccOwnWorker(cfg: Config, st: State, h: State, ev: Event, o: nat, own: Tenant)
    requires OfTenant(st, ev, own)
    requires Facts(cfg, st, h, ev, own) && OccFacts(cfg, st, h, o, own)
    requires Works(cfg, st, h, ev, own)
    ensures OccAfter(cfg, st, h, ev, o, own)
  {
  }

  lemma JobPush(cfg: Config, st: State, h: State, ev: Event, id: string, own: Tenant)
    requires ev.PushEv? && !OfTenant(st, ev, own)
    requires Facts(cfg, st, h, ev, own) && JobFacts(st, h, id, own)
    requires JobFacts(st, h, ev.job.id, own)
    ensures JobAfter(cfg, st, h, ev, id, own)
  {
  }

  lemma OccPush(cfg: Config, st: State, h: State, ev: Event, o: nat, own: Tenant)
    requires ev.PushEv? && !OfTenant(st, ev, own)
    requires Facts(cfg, st, h, ev, own) && OccFacts(cfg, st, h, o, own)
    requires JobFacts(st, h, ev.job.id, own)
    ensures OccAfter(cfg, st, h, ev, o, own)
  {
  }

  lemma JobJobs(cfg: Config, st: State, h: State, ev: Event, id: string, own: Tenant)
    requires (ev.EditEv? || ev.ActiveEv? || ev.PauseEv? || ev.DeleteEv?) && !OfTenant(st, ev, own)
    requires Facts(cfg, st, h, ev, own) && JobFacts(st, h, id, own)
    requires JobFacts(st, h, ev.id, own)
    ensures JobAfter(cfg, st, h, ev, id, own)
  {
  }

  lemma OccActive(cfg: Config, st: State, h: State, ev: Event, o: nat, own: Tenant)
    requires ev.ActiveEv? && !OfTenant(st, ev, own)
    requires Facts(cfg, st, h, ev, own) && OccFacts(cfg, st, h, o, own)
    requires JobFacts(st, h, ev.id, own)
    ensures OccAfter(cfg, st, h, ev, o, own)
  {
  }

  lemma OccJobs(cfg: Config, st: State, h: State, ev: Event, o: nat, own: Tenant)
    requires (ev.EditEv? || ev.PauseEv? || ev.DeleteEv?) && !OfTenant(st, ev, own)
    requires Facts(cfg, st, h, ev, own) && OccFacts(cfg, st, h, o, own)
    requires JobFacts(st, h, ev.id, own)
    ensures OccAfter(cfg, st, h, ev, o, own)
  {
  }

  lemma JobGroups(cfg: Config, st: State, h: State, ev: Event, id: string, own: Tenant)
    requires (ev.RegisterGroupEv? || ev.RemoveGroupEv? || ev.DeleteJobsEv? || ev.AdvanceEv?) && !OfTenant(st, ev, own)
    requires Facts(cfg, st, h, ev, own) && JobFacts(st, h, id, own)
    ensures JobAfter(cfg, st, h, ev, id, own)
  {
  }

  lemma OccGroups(cfg: Config, st: State, h: State, ev: Event, o: nat, own: Tenant)
    requires (ev.RegisterGroupEv? || ev.RemoveGroupEv? || ev.DeleteJobsEv? || ev.AdvanceEv?) && !OfTenant(st, ev, own)
    requires Facts(cfg, st, h, ev, own) && OccFacts(cfg, st, h, o, own)
    requires o in st.occs ==> JobFacts(st, h, st.occs[o].job, own)
    ensures OccAfter(cfg, st, h, ev, o, own)
  {
  }

  lemma JobEarly(cfg: Config, st: State, h: State, ev: Event, id: string, own: Tenant)
    requires BeforeFinish(ev) && !OfTenant(st, ev, own)
    requires Facts(cfg, st, h, ev, own) && JobFacts(st, h, id, own)
    requires Works(cfg, st, h, ev, own)
    ensures JobAfter(cfg, st, h, ev, id, own)
  {
  }

  lemma OccEarly(cfg: Config, st: State, h: State, ev: Event, o: nat, own: Tenant)
    requires BeforeFinish(ev) && !OfTenant(st, ev, own)
    requires Facts(cfg, st, h, ev, own) && OccFacts(cfg, st, h, o, own)
    requires Works(cfg, st, h, ev, own)
    ensures OccAfter(cfg, st, h, ev, o, own)
  {
  }

  lemma JobFinish(cfg: Config, st: State, h: State, ev: Event, id: string, own: Tenant)
    requires ev.FinishEv? && !OfTenant(st, ev, own)
    requires Facts(cfg, st, h, ev, own) && JobFacts(st, h, id, own)
    requires Works(cfg, st, h, ev, own)
    ensures JobAfter(cfg, st, h, ev, id, own)
  {
  }

  // The others' worker of p finishes.
  lemma OccOtherFinished(cfg: Config, st: State, h: State, p: nat, err: bool, o: nat, own: Tenant)
    requires h.nextId == st.nextId && h.clock == st.clock && o != p && !IsTheirs(st, p, own)
    requires OccFacts(cfg, st, h, o, own) && OccFacts(cfg, st, h, p, own) && OccFacts(cfg, st, h, st.nextId, own)
    requires p in st.occs ==> JobFacts(st, h, st.occs[p].job, own)
    ensures OccWithout(Finish(cfg, st, p, err), Finish(cfg, h, p, err), o, own)
  {
  }

  lemma OccFinished(cfg: Config, st: State, h: State, p: nat, err: bool, own: Tenant)
    requires h.nextId == st.nextId && h.clock == st.clock && !IsTheirs(st, p, own)
    requires OccFacts(cfg, st, h, p, own) && OccFacts(cfg, st, h, st.nextId, own)
    requires p in st.occs ==> JobFacts(st, h, st.occs[p].job, own)
    ensures OccWithout(Finish(cfg, st, p, err), Finish(cfg, h, p, err), p, own)
  {
  }

  lemma OccFinish(cfg: Config, st: State, h: State, ev: Event, o: nat, own: Tenant)
    requires ev.FinishEv? && !OfTenant(st, ev, own)
    requires Facts(cfg, st, h, ev, own) && OccFacts(cfg, st, h, o, own)
    requires Works(cfg, st, h, ev, own)
    ensures OccAfter(cfg, st, h, ev, o, own)
  {
    if o == ev.occ { OccFinished(cfg, st, h, o, ev.err, own); }
    else { OccOtherFinished(cfg, st, h, ev.occ, ev.err, o, own); }
  }

  lemma JobLate(cfg: Config, st: State, h: State, ev: Event, id: string, own: Tenant)
    requires AfterFinish(ev) && !OfTenant(st, ev, own)
    requires Facts(cfg, st, h, ev, own) && JobFacts(st, h, id, own)
    requires Works(cfg, st, h, ev, own)
    ensures JobAfter(cfg, st, h, ev, id, own)
  {
  }

  lemma OccLate(cfg: Config, st: State, h: State, ev: Event, o: nat, own: Tenant)
    requires AfterFinish(ev) && !OfTenant(st, ev, own)
    requires Facts(cfg, st, h, ev, own) && OccFacts(cfg, st, h, o, own)
    requires Works(cfg, st, h, ev, own)
    ensures OccAfter(cfg, st, h, ev, o, own)
  {
  }

  lemma AfterStep(cfg: Config, st: State, h: State, ev: Event, id: string, o: nat, own: Tenant)
    requires Facts(cfg, st, h, ev, own) && (Names(st, h, ev, own) || Works(cfg, st, h, ev, own))
    requires JobFacts(st, h, id, own) && OccFacts(cfg, st, h, o, own)
    requires o in st.occs ==> JobFacts(st, h, st.occs[o].job, own)
    ensures JobAfter(cfg, st, h, ev, id, own) && OccAfter(cfg, st, h, ev, o, own)
  {
    if OfTenant(st, ev, own) && OfAdmin(ev) {
      JobOwnAdmin(cfg, st, h, ev, id, own);
      OccOwnAdmin(cfg, st, h, ev, o, own);
    } else if OfTenant(st, ev, own) {
      JobOwnWorker(cfg, st, h, ev, id, own);
      OccOwnWorker(cfg, st, h, ev, o, own);
    } else if ev.PushEv? {
      JobPush(cfg, st, h, ev, id, own);
      OccPush(cfg, st, h, ev, o, own);
    } else if ev.EditEv? || ev.ActiveEv? || ev.PauseEv? || ev.DeleteEv? {
      JobJobs(cfg, st, h, ev, id, own);
      if ev.ActiveEv? { OccActive(cfg, st, h, ev, o, own); } else { OccJobs(cfg, st, h, ev, o, own); }
    } else if OfAdmin(ev) {
      JobGroups(cfg, st, h, ev, id, own);
      OccGroups(cfg, st, h, ev, o, own);
    } else if BeforeFinish(ev) {
      JobEarly(cfg, st, h, ev, id, own);
      OccEarly(cfg, st, h, ev, o, own);
    } else if ev.FinishEv? {
      JobFinish(cfg, st, h, ev, id, own);
      OccFinish(cfg, st, h, ev, o, own);
    } else {
      JobLate(cfg, st, h, ev, id, own);
      OccLate(cfg, st, h, ev, o, own);
    }
  }

  lemma RestOwnAdmin(cfg: Config, st: State, h: State, ev: Event, own: Tenant)
    requires OfTenant(st, ev, own)
    requires Facts(cfg, st, h, ev, own) && RestWithout(st, h, own)
    requires Names(st, h, ev, own)
    ensures RestAfter(cfg, st, h, ev, own)
  {
  }

  lemma RestOwnWorker(cfg: Config, st: State, h: State, ev: Event, own: Tenant)
    requires OfTenant(st, ev, own)
    requires Facts(cfg, st, h, ev, own) && RestWithout(st, h, own)
    requires Works(cfg, st, h, ev, own)
    ensures RestAfter(cfg, st, h, ev, own)
  {
    var log' := Apply(cfg, st, ev).log;
    if log' != st.log { assert log'[..|log'| - 1] == st.log; }
  }

  lemma RestPush(cfg: Config, st: State, h: State, ev: Event, own: Tenant)
    requires ev.PushEv? && !OfTenant(st, ev, own)
    requires Facts(cfg, st, h, ev, own) && RestWithout(st, h, own)
    requires JobFacts(st, h, ev.job.id, own)
    ensures RestAfter(cfg, st, h, ev, own)
  {
  }

  lemma RestJobs(cfg: Config, st: State, h: State, ev: Event, own: Tenant)
    requires (ev.EditEv? || ev.ActiveEv? || ev.PauseEv? || ev.DeleteEv?) && !OfTenant(st, ev, own)
    requires Facts(cfg, st, h, ev, own) && RestWithout(st, h, own)
    requires JobFacts(st, h, ev.id, own)
    ensures RestAfter(cfg, st, h, ev, own)
  {
  }

  lemma RestGroups(cfg: Config, st: State, h: State, ev: Event, own: Tenant)
    requires (ev.RegisterGroupEv? || ev.RemoveGroupEv?) && !OfTenant(st, ev, own)
    requires Facts(cfg, st, h, ev, own) && RestWithout(st, h, own)
    ensures RestAfter(cfg, st, h, ev, own)
  {
  }

  lemma RestRemoval(cfg: Config, st: State, h: State, ev: Event, own: Tenant)
    requires (ev.DeleteJobsEv? || ev.AdvanceEv?) && !OfTenant(st, ev, own)
    requires Facts(cfg, st, h, ev, own) && RestWithout(st, h, own)
    ensures RestAfter(cfg, st, h, ev, own)
  {
  }

  lemma RestDeliver(cfg: Config, st: State, h: State, ev: Event, own: Tenant)
    requires ev.DeliverEv? && !OfTenant(st, ev, own)
    requires Facts(cfg, st, h, ev, own) && RestWithout(st, h, own)
    requires Works(cfg, st, h, ev, own)
    ensures RestAfter(cfg, st, h, ev, own)
  {
    var log' := Apply(cfg, st, ev).log;
    if log' != st.log { assert log'[..|log'| - 1] == st.log; }
  }

  lemma RestFinish(cfg: Config, st: State, h: State, ev: Event, own: Tenant)
    requires ev.FinishEv? && !OfTenant(st, ev, own)
    requires Facts(cfg, st, h, ev, own) && RestWithout(st, h, own)
    requires Works(cfg, st, h, ev, own)
    ensures RestAfter(cfg, st, h, ev, own)
  {
  }

  lemma RestWorker(cfg: Config, st: State, h: State, ev: Event, own: Tenant)
    requires !ev.DeliverEv? && !ev.FinishEv? && !OfTenant(st, ev, own)
    requires Facts(cfg, st, h, ev, own) && RestWithout(st, h, own)
    requires Works(cfg, st, h, ev, own)
    ensures RestAfter(cfg, st, h, ev, own)
  {
  }

  lemma RestStep(cfg: Config, st: State, h: State, ev: Event, own: Tenant)
    requires Facts(cfg, st, h, ev, own) && (Names(st, h, ev, own) || Works(cfg, st, h, ev, own))
    requires RestWithout(st, h, own)
    ensures RestAfter(cfg, st, h, ev, own)
  {
    if OfTenant(st, ev, own) && OfAdmin(ev) { RestOwnAdmin(cfg, st, h, ev, own); }
    else if OfTenant(st, ev, own) { RestOwnWorker(cfg, st, h, ev, own); }
    else if ev.PushEv? { RestPush(cfg, st, h, ev, own); }
    else if ev.EditEv? || ev.ActiveEv? || ev.PauseEv? || ev.DeleteEv? { RestJobs(cfg, st, h, ev, own); }
    else if ev.RegisterGroupEv? || ev.RemoveGroupEv? { RestGroups(cfg, st, h, ev, own); }
    else if OfAdmin(ev) { RestRemoval(cfg, st, h, ev, own); }
    else if ev.DeliverEv? { RestDeliver(cfg, st, h, ev, own); }
    else if ev.FinishEv? { RestFinish(cfg, st, h, ev, own); }
    else { RestWorker(cfg, st, h, ev, own); }
  }

  lemma FactsHold(cfg: Config, st: State, h: State, ev: Event, own: Tenant)
    requires RowsFit(cfg, st) && Divided(st, own) && Respects(ev, own) && Without(st, h, own)
    ensures Facts(cfg, st, h, ev, own) && (Names(st, h, ev, own) || Works(cfg, st, h, ev, own))
    ensures (forall id :: JobFacts(st, h, id, own)) && (forall o: nat :: OccFacts(cfg, st, h, o, own))
  {
    forall id ensures JobFacts(st, h, id, own) { assert JobWithout(st, h, id, own) && JobDivided(st, id, own); }
    forall o: nat ensures OccFacts(cfg, st, h, o, own) {
      assert OccFits(cfg, st, o) && OccDivided(st, o, own) && OccWithout(st, h, o, own);
    }
  }

  lemma StepWithout(cfg: Config, st: State, h: State, ev: Event, own: Tenant)
    requires RowsFit(cfg, st) && Divided(st, own) && Respects(ev, own) && Without(st, h, own)
    ensures Without(Apply(cfg, st, ev), Step(cfg, st, h, ev, own), own)
  {
    var st', h' := Apply(cfg, st, ev), Step(cfg, st, h, ev, own);
    FactsHold(cfg, st, h, ev, own);
    forall id ensures JobWithout(st', h', id, own) { AfterStep(cfg, st, h, ev, id, 0, own); }
    forall o: nat ensures OccWithout(st', h', o, own) { AfterStep(cfg, st, h, ev, "", o, own); }
    RestStep(cfg, st, h, ev, own);
  }

  // ----- over whole runs -----

  // The run without the group's events. Which events are the group's is seen in the full run.
  function RunWithout(cfg: Config, st: State, h: State, evs: seq<Event>, own: Tenant): State
    decreases |evs|
  {
    if evs == [] then h
    else RunWithout(cfg, Apply(cfg, st, evs[0]), Step(cfg, st, h, evs[0], own), evs[1..], own)
  }

  // In any interleaving of admin operations, workers, crashes and rescues, the other groups see what they
  // would see had the group's events not happened.
  lemma {:induction false} OthersSeeNothing(cfg: Config, st: State, h: State, evs: seq<Event>, own: Tenant)
    requires cfg.maxAttempts > 0 && Inv(cfg, st) && Divided(st, own) && Without(st, h, own)
    requires forall ev :: ev in evs ==> Respects(ev, own)
    ensures Without(Run(cfg, st, evs), RunWithout(cfg, st, h, evs, own), own)
    decreases |evs|
  {
    if evs != [] {
      StepWithout(cfg, st, h, evs[0], own);
      DivisionKept(cfg, st, evs[0], own);
      InvKept(cfg, st, evs[0]);
      OthersSeeNothing(cfg, Apply(cfg, st, evs[0]), Step(cfg, st, h, evs[0], own), evs[1..], own);
    }
  }

  lemma GroupsDoNotInterfere(cfg: Config, clock: nat, evs: seq<Event>, own: Tenant)
    requires cfg.maxAttempts > 0 && forall ev :: ev in evs ==> Respects(ev, own)
    ensures Without(Run(cfg, Init(clock), evs), RunWithout(cfg, Init(clock), Init(clock), evs, own), own)
  {
    InitFits(cfg, clock);
    OthersSeeNothing(cfg, Init(clock), Init(clock), evs, own);
  }
}
