/** What the worker does to the tables, said directly. */
module QueueSteps {
  import opened Requests
  import opened QueueModel
  import opened QueueInvariant
  import opened QueueAlive

  // The tables after an accepted delivery of `def`: a fire-once definition is dropped, one whose pattern does
  // not parse is paused, and any other that is still active is scheduled. A storage error changes nothing.
  predicate AfterSuccess(cfg: Config, a: State, b: State, def: Job, err: bool) {
    var next := cfg.next(def.pattern, a.clock);
    if err then b.jobs == a.jobs && b.occs == a.occs && b.nextId == a.nextId
    else if def.pattern == "" || def.pattern == "@once" then
      b.jobs == a.jobs - {def.id} && b.occs == a.occs && b.nextId == a.nextId
    else if !cfg.parses(def.pattern) then
      && b.jobs == (if def.id in a.jobs then a.jobs[def.id := a.jobs[def.id].(active := false)] else a.jobs)
      && b.occs == a.occs && b.nextId == a.nextId
    else if def.id in a.jobs && a.jobs[def.id].active then
      && b.jobs == a.jobs[def.id := a.jobs[def.id].(exectime := next)]
      && b.occs == a.occs[a.nextId := Occurrence(def.id, def.group, next, Pending, 0)]
      && b.nextId == a.nextId + 1
    else b.jobs == a.jobs && b.occs == a.occs && b.nextId == a.nextId
  }

  predicate SameBesides(a: State, b: State) {
    b.groups == a.groups && b.clock == a.clock
  }

  // Only a failed reschedule is an error after an accepted delivery.
  predicate Retries(cfg: Config, def: Job, err: bool) {
    err && def.pattern != "" && def.pattern != "@once" && cfg.parses(def.pattern)
  }

  lemma FinishIs(cfg: Config, st: State, o: nat, err: bool)
    requires HasWorker(st, o) && st.workers[o].Delivered?
    ensures var st' := Finish(cfg, st, o, err); var def := st.workers[o].def;
      && AfterSuccess(cfg, st, st', def, err) && SameBesides(st, st') && st'.log == st.log
      && o in st'.workers && st'.workers == st.workers[o := st'.workers[o]]
      && (st'.workers[o] == Returned(false) <==> Retries(cfg, def, err))
      && (st'.workers[o] == Rescheduled || st'.workers[o] == Returned(!Retries(cfg, def, err)))
  {
  }

  // One uninterrupted run of Work: `success` tells that it returns nil.
  predicate WorkDoes(cfg: Config, a: State, b: State, o: nat, loadErr: bool, accepted: bool, pauseErr: bool,
                     finishErr: bool, success: bool)
    requires o in a.occs
  {
    var occ := a.occs[o];
    && SameBesides(a, b)
    && if loadErr then !success && b.jobs == a.jobs && b.occs == a.occs && b.nextId == a.nextId && b.log == a.log
       else if !IsActive(a, occ.job) then
         success && b.jobs == a.jobs && b.occs == a.occs && b.nextId == a.nextId && b.log == a.log
       else
         var def := a.jobs[occ.job];
         var ok := accepted && SplitRequestURL(def.url).Some?;
         && b.log == a.log + [Delivery(o, occ.job, occ.plan, ok)]
         && if ok then success == !Retries(cfg, def, finishErr) && AfterSuccess(cfg, a, b, def, finishErr)
            else
              && !success && b.occs == a.occs && b.nextId == a.nextId
              && b.jobs == if occ.attempt < cfg.maxAttempts || pauseErr then a.jobs
                           else a.jobs[occ.job := def.(active := false)]
  }

  function WorkAll(
    cfg: Config, st: State, o: nat, loadErr: bool, accepted: bool, pauseErr: bool, finishErr: bool): State
  {
    Finish(cfg, PauseExhausted(Deliver(cfg, Load(st, o, loadErr), o, accepted), o, pauseErr), o, finishErr)
  }

  // Work changes the tables as said, and its result is what the worker's last state tells River.
  lemma WorkIs(cfg: Config, st: State, o: nat, loadErr: bool, accepted: bool, pauseErr: bool, finishErr: bool)
    requires RowsFit(cfg, st) && HasWorker(st, o) && st.workers[o].Fetched?
    ensures var st' := WorkAll(cfg, st, o, loadErr, accepted, pauseErr, finishErr);
      && o in st'.workers && (st'.workers[o].Returned? || st'.workers[o].Rescheduled?)
      && WorkDoes(cfg, st, st', o, loadErr, accepted, pauseErr, finishErr, st'.workers[o] != Returned(false))
  {
    assert OccFits(cfg, st, o);
    var s1 := Load(st, o, loadErr);
    var s2 := Deliver(cfg, s1, o, accepted);
    if s2.workers[o].Delivered? { FinishIs(cfg, s2, o, finishErr); }
  }

  // ----- a success is final -----

  // The occurrence has been delivered, and nothing will deliver it again.
  predicate Settled(st: State, o: nat) {
    o in st.occs ==>
      || st.occs[o].state == Finished
      || (o in st.workers
          && (st.workers[o].Delivered? || st.workers[o] == Rescheduled || st.workers[o] == Returned(true)))
  }

  predicate SuccessSettles(st: State, o: nat) {
    SuccessLogged(st.log, o) ==> o < st.nextId && Settled(st, o)
  }

  ghost predicate KeepsSettled(cfg: Config, st: State, ev: Event, o: nat) {
    RowsFit(cfg, st) && AllManned(st) && Clean(ev) && o < st.nextId && Settled(st, o) ==>
      Settled(Apply(cfg, st, ev), o)
  }

  lemma SettledKeptAdmin(cfg: Config, st: State, ev: Event, o: nat)
    requires OfAdmin(ev)
    ensures KeepsSettled(cfg, st, ev, o)
  {
    if RowsFit(cfg, st) { assert OccFits(cfg, st, o); }
  }

  lemma SettledKeptByWorker(cfg: Config, st: State, ev: Event, o: nat)
    requires !OfAdmin(ev)
    ensures KeepsSettled(cfg, st, ev, o)
  {
    if RowsFit(cfg, st) { assert OccFits(cfg, st, o); }
  }

  lemma SettledKept(cfg: Config, st: State, ev: Event, o: nat)
    ensures KeepsSettled(cfg, st, ev, o)
  {
    if OfAdmin(ev) { SettledKeptAdmin(cfg, st, ev, o); } else { SettledKeptByWorker(cfg, st, ev, o); }
  }

  // No entry of an occurrence follows an accepted one.
  predicate SuccessIsLast(log: seq<Delivery>) {
    forall i, j :: 0 <= i < j < |log| && log[i].occ == log[j].occ ==> !log[i].ok
  }

  ghost predicate AllSettled(st: State) {
    SuccessIsLast(st.log) && forall o: nat :: SuccessSettles(st, o)
  }

  lemma DeliveryAppends(cfg: Config, st: State, ev: Event)
    requires ev.DeliverEv? && Apply(cfg, st, ev).log != st.log
    ensures var st' := Apply(cfg, st, ev);
      && HasWorker(st, ev.occ) && st.workers[ev.occ].Loaded?
      && |st'.log| == |st.log| + 1 && st'.log == st.log + [st'.log[|st.log|]] && st'.log[|st.log|].occ == ev.occ
      && (st'.log[|st.log|].ok ==> ev.occ in st'.workers && st'.workers[ev.occ].Delivered?)
      && st'.nextId == st.nextId && st'.occs == st.occs
  {
  }

  lemma SuccessStays(log: seq<Delivery>, d: Delivery, o: nat)
    ensures SuccessLogged(log + [d], o) ==> SuccessLogged(log, o) || (d.ok && d.occ == o)
  {
    if SuccessLogged(log + [d], o) {
      var i :| 0 <= i < |log + [d]| && (log + [d])[i].occ == o && (log + [d])[i].ok;
      if i < |log| { assert log[i] == (log + [d])[i]; }
    }
  }

  lemma LastKept(log: seq<Delivery>, d: Delivery)
    requires SuccessIsLast(log) && !SuccessLogged(log, d.occ)
    ensures SuccessIsLast(log + [d])
  {
    forall i, j | 0 <= i < j < |log + [d]| && (log + [d])[i].occ == (log + [d])[j].occ
      ensures !(log + [d])[i].ok
    {
      assert (log + [d])[i] == log[i];
      if j < |log| { assert (log + [d])[j] == log[j]; }
    }
  }

  lemma AllSettledKept(cfg: Config, st: State, ev: Event)
    requires RowsFit(cfg, st) && AllManned(st) && Clean(ev) && AllSettled(st)
    ensures AllSettled(Apply(cfg, st, ev))
  {
    var st' := Apply(cfg, st, ev);
    if ev.DeliverEv? && st'.log != st.log {
      DeliveryAppends(cfg, st, ev);
      var d := st'.log[|st.log|];
      assert SuccessSettles(st, ev.occ) && OccFits(cfg, st, ev.occ);
      LastKept(st.log, d);
      forall o: nat ensures SuccessSettles(st', o) {
        assert SuccessSettles(st, o);
        SuccessStays(st.log, d, o);
        SettledKept(cfg, st, ev, o);
      }
    } else {
      if !ev.DeliverEv? { LogUntouched(cfg, st, ev); }
      forall o: nat ensures SuccessSettles(st', o) {
        assert SuccessSettles(st, o);
        SettledKept(cfg, st, ev, o);
      }
    }
  }

  lemma {:induction false} AllSettledAlways(cfg: Config, st: State, evs: seq<Event>)
    requires cfg.maxAttempts > 0 && Inv(cfg, st) && AllManned(st) && AllSettled(st)
    requires forall ev :: ev in evs ==> Clean(ev)
    ensures AllSettled(Run(cfg, st, evs))
    decreases |evs|
  {
    if evs != [] {
      AllSettledKept(cfg, st, evs[0]);
      StaysManned(cfg, st, evs[0]);
      InvKept(cfg, st, evs[0]);
      AllSettledAlways(cfg, Apply(cfg, st, evs[0]), evs[1..]);
    }
  }

  // In a run without storage errors and crashes an accepted delivery of an occurrence is its last one.
  lemma SuccessIsFinal(cfg: Config, clock: nat, evs: seq<Event>)
    requires cfg.maxAttempts > 0 && forall ev :: ev in evs ==> Clean(ev)
    ensures SuccessIsLast(Run(cfg, Init(clock), evs).log)
  {
    InitFits(cfg, clock);
    AllSettledAlways(cfg, Init(clock), evs);
  }
}
