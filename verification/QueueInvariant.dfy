/** What every step keeps: the tables, the workers and the delivery log fit together. */
module QueueInvariant {
  import opened QueueModel

  predicate HasDef(w: Worker) {
    w.Loaded? || w.Exhausted? || w.Delivered?
  }

  predicate RowsNamed(st: State) {
    forall id :: id in st.jobs ==> st.jobs[id].id == id
  }

  // Occurrence o: its id has been given out, its attempts are within the bound, it runs no earlier
  // than its plan time, and a worker on it works on a running row of the job it loaded.
  predicate OccFits(cfg: Config, st: State, o: nat) {
    && (o in st.occs ==>
        var occ := st.occs[o];
        && o < st.nextId
        && occ.attempt <= cfg.maxAttempts
        && (occ.state == Pending ==> occ.attempt < cfg.maxAttempts)
        && (occ.state == Running ==> occ.attempt >= 1 && occ.plan <= st.clock))
    && (o in st.workers ==>
        && o in st.occs && st.occs[o].state == Running
        && (HasDef(st.workers[o]) ==> st.workers[o].def.id == st.occs[o].job)
        && (st.workers[o].Exhausted? ==> st.occs[o].attempt == cfg.maxAttempts))
  }

  ghost predicate RowsFit(cfg: Config, st: State) {
    RowsNamed(st) && forall o: nat :: OccFits(cfg, st, o)
  }

  // A log entry describes its occurrence, and two entries of one occurrence agree.
  predicate LogFits(st: State) {
    && (forall i :: 0 <= i < |st.log| ==>
        st.log[i].occ < st.nextId
        && (st.log[i].occ in st.occs ==>
            st.log[i].job == st.occs[st.log[i].occ].job && st.log[i].plan == st.occs[st.log[i].occ].plan))
    && (forall i, j :: 0 <= i < |st.log| && 0 <= j < |st.log| && st.log[i].occ == st.log[j].occ ==>
        st.log[i].job == st.log[j].job && st.log[i].plan == st.log[j].plan)
  }

  predicate SuccessLogged(log: seq<Delivery>, o: nat) {
    exists i :: 0 <= i < |log| && log[i].occ == o && log[i].ok
  }

  // A worker past its delivery has a successful delivery in the log.
  predicate DeliveriesLogged(st: State) {
    forall o :: o in st.workers && st.workers[o].Delivered? ==> SuccessLogged(st.log, o)
  }

  ghost predicate Inv(cfg: Config, st: State) {
    RowsFit(cfg, st) && LogFits(st) && DeliveriesLogged(st)
  }

  lemma InitFits(cfg: Config, clock: nat)
    ensures Inv(cfg, Init(clock))
  {
  }

  lemma NamesKept(cfg: Config, st: State, ev: Event)
    requires RowsNamed(st)
    ensures RowsNamed(Apply(cfg, st, ev))
  {
  }

  predicate KeepsOcc(cfg: Config, st: State, ev: Event, o: nat) {
    cfg.maxAttempts > 0 && RowsNamed(st) && OccFits(cfg, st, o) ==> OccFits(cfg, Apply(cfg, st, ev), o)
  }

  lemma OccKeptPush(cfg: Config, st: State, ev: Event, o: nat)
    requires ev.PushEv? || ev.RegisterGroupEv? || ev.EditEv? || ev.AdvanceEv?
    ensures KeepsOcc(cfg, st, ev, o)
  {
  }

  lemma OccKeptActive(cfg: Config, st: State, ev: Event, o: nat)
    requires ev.ActiveEv?
    ensures KeepsOcc(cfg, st, ev, o)
  {
  }

  lemma OccKeptCancel(cfg: Config, st: State, ev: Event, o: nat)
    requires ev.PauseEv? || ev.DeleteEv? || ev.DeleteJobsEv? || ev.RemoveGroupEv?
    ensures KeepsOcc(cfg, st, ev, o)
  {
  }

  lemma OccKeptAdmin(cfg: Config, st: State, ev: Event, o: nat)
    requires OfAdmin(ev)
    ensures KeepsOcc(cfg, st, ev, o)
  {
    if ev.ActiveEv? { OccKeptActive(cfg, st, ev, o); }
    else if ev.PauseEv? || ev.DeleteEv? || ev.DeleteJobsEv? || ev.RemoveGroupEv? { OccKeptCancel(cfg, st, ev, o); }
    else { OccKeptPush(cfg, st, ev, o); }
  }

  lemma OccKeptEarly(cfg: Config, st: State, ev: Event, o: nat)
    requires BeforeFinish(ev)
    ensures KeepsOcc(cfg, st, ev, o)
  {
  }

  lemma OccKeptFinish(cfg: Config, st: State, ev: Event, o: nat)
    requires ev.FinishEv?
    ensures KeepsOcc(cfg, st, ev, o)
  {
  }

  lemma OccKeptLate(cfg: Config, st: State, ev: Event, o: nat)
    requires AfterFinish(ev)
    ensures KeepsOcc(cfg, st, ev, o)
  {
  }

  lemma OccKept(cfg: Config, st: State, ev: Event, o: nat)
    requires cfg.maxAttempts > 0 && RowsNamed(st) && OccFits(cfg, st, o)
    ensures OccFits(cfg, Apply(cfg, st, ev), o)
  {
    if OfAdmin(ev) { OccKeptAdmin(cfg, st, ev, o); }
    else if BeforeFinish(ev) { OccKeptEarly(cfg, st, ev, o); }
    else if ev.FinishEv? { OccKeptFinish(cfg, st, ev, o); }
    else { OccKeptLate(cfg, st, ev, o); }
  }

  lemma LogKept(cfg: Config, st: State, ev: Event)
    requires RowsFit(cfg, st) && LogFits(st)
    ensures LogFits(Apply(cfg, st, ev))
  {
    if ev.DeliverEv? {
      assert OccFits(cfg, st, ev.occ);
    } else {
      LogUntouched(cfg, st, ev);
    }
  }

  // Nothing is logged, and no occurrence that was there changes its job or plan time.
  predicate OldOccsStay(st: State, st': State) {
    && st'.log == st.log && st.nextId <= st'.nextId
    && (forall o :: o in st'.occs && o < st.nextId ==>
        o in st.occs && st'.occs[o].job == st.occs[o].job && st'.occs[o].plan == st.occs[o].plan)
  }

  lemma LogUntouchedByAdmin(cfg: Config, st: State, ev: Event)
    requires OfAdmin(ev)
    ensures OldOccsStay(st, Apply(cfg, st, ev))
  {
  }

  lemma LogUntouchedByWorker(cfg: Config, st: State, ev: Event)
    requires !OfAdmin(ev) && !ev.DeliverEv?
    ensures OldOccsStay(st, Apply(cfg, st, ev))
  {
  }

  // Only a delivery appends to the log.
  lemma LogUntouched(cfg: Config, st: State, ev: Event)
    requires !ev.DeliverEv?
    ensures OldOccsStay(st, Apply(cfg, st, ev))
  {
    if OfAdmin(ev) { LogUntouchedByAdmin(cfg, st, ev); } else { LogUntouchedByWorker(cfg, st, ev); }
  }

  lemma LoggedStays(log: seq<Delivery>, d: Delivery, o: nat)
    ensures SuccessLogged(log, o) ==> SuccessLogged(log + [d], o)
    ensures d.occ == o && d.ok ==> SuccessLogged(log + [d], o)
  {
    assert (log + [d])[|log|] == d;
    assert forall i :: 0 <= i < |log| ==> (log + [d])[i] == log[i];
  }

  lemma DeliveriesKept(cfg: Config, st: State, ev: Event)
    requires DeliveriesLogged(st)
    ensures DeliveriesLogged(Apply(cfg, st, ev))
  {
    var st' := Apply(cfg, st, ev);
    if ev.DeliverEv? {
      forall o | o in st'.workers && st'.workers[o].Delivered?
        ensures SuccessLogged(st'.log, o)
      {
        if st'.log != st.log { LoggedStays(st.log, st'.log[|st.log|], o); }
      }
    } else {
      LogUntouched(cfg, st, ev);
      NoNewDelivery(cfg, st, ev);
    }
  }

  lemma NoNewDelivery(cfg: Config, st: State, ev: Event)
    requires !ev.DeliverEv?
    ensures var st' := Apply(cfg, st, ev);
      forall o :: o in st'.workers && st'.workers[o].Delivered? ==> o in st.workers && st.workers[o].Delivered?
  {
  }

  lemma InvKept(cfg: Config, st: State, ev: Event)
    requires cfg.maxAttempts > 0 && Inv(cfg, st)
    ensures Inv(cfg, Apply(cfg, st, ev))
  {
    NamesKept(cfg, st, ev);
    forall o: nat ensures OccFits(cfg, Apply(cfg, st, ev), o) { OccKept(cfg, st, ev, o); }
    LogKept(cfg, st, ev);
    DeliveriesKept(cfg, st, ev);
  }

  // The tables fit together after every run.
  lemma {:induction false} InvAlways(cfg: Config, st: State, evs: seq<Event>)
    requires cfg.maxAttempts > 0 && Inv(cfg, st)
    ensures Inv(cfg, Run(cfg, st, evs))
    decreases |evs|
  {
    if evs != [] {
      InvKept(cfg, st, evs[0]);
      InvAlways(cfg, Apply(cfg, st, evs[0]), evs[1..]);
    }
  }
}
