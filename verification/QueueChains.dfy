/** When (job_id, plan_time) identifies a firing, as the idempotency key does. */
module QueueChains {
  import opened QueueModel
  import opened QueueInvariant
  import opened QueueForks

  // ----- exactly when plan times identify firings -----

  // Two entries of the job with one plan time have one idempotency key.
  predicate PlansIdentify(log: seq<Delivery>, id: string) {
    forall i, j :: 0 <= i < |log| && 0 <= j < |log| && log[i].job == id && log[j].job == id ==>
      (log[i].plan == log[j].plan ==> log[i].occ == log[j].occ)
  }

  // The job has an entry with this plan time under another key than o.
  predicate PlanLogged(log: seq<Delivery>, id: string, plan: int, o: nat) {
    exists i :: 0 <= i < |log| && log[i].job == id && log[i].plan == plan && log[i].occ != o
  }

  // The step delivers an occurrence of the job whose plan time is already logged under another key.
  predicate Repeats(cfg: Config, st: State, ev: Event, id: string) {
    && ev.DeliverEv? && HasWorker(st, ev.occ) && st.workers[ev.occ].Loaded?
    && st.occs[ev.occ].job == id && PlanLogged(st.log, id, st.occs[ev.occ].plan, ev.occ)
  }

  predicate NoRepeat(cfg: Config, st: State, evs: seq<Event>, id: string)
    decreases |evs|
  {
    evs != [] ==> !Repeats(cfg, st, evs[0], id) && NoRepeat(cfg, Apply(cfg, st, evs[0]), evs[1..], id)
  }

  lemma IdentifyOneMore(log: seq<Delivery>, d: Delivery, id: string)
    ensures PlansIdentify(log + [d], id) <==>
            PlansIdentify(log, id) && (d.job == id ==> !PlanLogged(log, id, d.plan, d.occ))
  {
    var log' := log + [d];
    assert forall i :: 0 <= i < |log| ==> log'[i] == log[i];
    if PlansIdentify(log', id) && d.job == id {
      forall i | 0 <= i < |log| && log[i].job == id && log[i].plan == d.plan ensures log[i].occ == d.occ {
        assert log'[i] == log[i] && log'[|log|] == d;
      }
    }
    if PlansIdentify(log', id) {
      forall i, j | 0 <= i < |log| && 0 <= j < |log| && log[i].job == id && log[j].job == id
                    && log[i].plan == log[j].plan
        ensures log[i].occ == log[j].occ
      {
        assert log'[i] == log[i] && log'[j] == log[j];
      }
    }
  }

  // A delivery is made by a token, and appends its entry.
  lemma DelivererIsToken(cfg: Config, st: State, ev: Event)
    requires RowsFit(cfg, st) && ev.DeliverEv? && Apply(cfg, st, ev).log != st.log
    ensures HasWorker(st, ev.occ) && st.workers[ev.occ].Loaded? && IsToken(st, ev.occ, st.occs[ev.occ].job)
    ensures exists ok :: Apply(cfg, st, ev).log ==
              st.log + [Delivery(ev.occ, st.occs[ev.occ].job, st.occs[ev.occ].plan, ok)]
  {
    assert OccFits(cfg, st, ev.occ);
    var log' := Apply(cfg, st, ev).log;
    assert log'[..|st.log|] == st.log;
    assert log' == st.log + [Delivery(ev.occ, st.occs[ev.occ].job, st.occs[ev.occ].plan, log'[|st.log|].ok)];
  }

  lemma LogGrows(cfg: Config, st: State, ev: Event)
    requires ev.DeliverEv?
    ensures Apply(cfg, st, ev).log != st.log <==> HasWorker(st, ev.occ) && st.workers[ev.occ].Loaded?
  {
    if HasWorker(st, ev.occ) && st.workers[ev.occ].Loaded? {
      assert |Apply(cfg, st, ev).log| == |st.log| + 1;
    }
  }

  lemma StepIdentifies(cfg: Config, st: State, ev: Event, id: string)
    requires RowsFit(cfg, st)
    ensures PlansIdentify(Apply(cfg, st, ev).log, id) <==> PlansIdentify(st.log, id) && !Repeats(cfg, st, ev, id)
  {
    if !ev.DeliverEv? {
      LogUntouched(cfg, st, ev);
    } else if Apply(cfg, st, ev).log == st.log {
      LogGrows(cfg, st, ev);
    } else {
      DelivererIsToken(cfg, st, ev);
      var occ := st.occs[ev.occ];
      var ok :| Apply(cfg, st, ev).log == st.log + [Delivery(ev.occ, occ.job, occ.plan, ok)];
      IdentifyOneMore(st.log, Delivery(ev.occ, occ.job, occ.plan, ok), id);
    }
  }

  // After any run, plan times identify the job's firings if and only if they did before and no step
  // delivered an occurrence whose plan time was already logged under another key.
  lemma {:induction false} IdentifyIffNoRepeat(cfg: Config, st: State, evs: seq<Event>, id: string)
    requires cfg.maxAttempts > 0 && Inv(cfg, st)
    ensures PlansIdentify(Run(cfg, st, evs).log, id) <==> PlansIdentify(st.log, id) && NoRepeat(cfg, st, evs, id)
    decreases |evs|
  {
    if evs != [] {
      StepIdentifies(cfg, st, evs[0], id);
      InvKept(cfg, st, evs[0]);
      IdentifyIffNoRepeat(cfg, Apply(cfg, st, evs[0]), evs[1..], id);
    }
  }

  // ----- exactly when the job's occurrences form one chain of growing plan times -----

  // Entry d lies before occurrence o on the chain, or belongs to o itself.
  predicate Precedes(st: State, d: Delivery, o: nat, id: string)
    requires o in st.occs
  {
    d.job == id ==> d.plan <= st.occs[o].plan && (d.plan == st.occs[o].plan ==> d.occ == o)
  }

  predicate AllPrecede(st: State, o: nat, id: string)
    requires o in st.occs
  {
    forall i :: 0 <= i < |st.log| ==> Precedes(st, st.log[i], o, id)
  }

  // At most one occurrence is live, and it is planned after every other delivery of the job.
  ghost predicate OneChain(st: State, id: string) {
    && (forall a, b :: IsToken(st, a, id) && IsToken(st, b, id) ==> a == b)
    && (forall o :: IsToken(st, o, id) ==> AllPrecede(st, o, id))
  }

  // The plan time of the occurrence that a push or an activation inserts.
  function InsertedPlan(st: State, ev: Event): int
    requires ev.PushEv? || ev.ActiveEv?
  {
    if ev.PushEv? then PushedRow(st, ev.job).exectime else if ev.exectime == 0 then st.clock else ev.exectime
  }

  // An insertion leaves no other live occurrence, and is planned after every delivery of the job so far; a
  // reschedule is planned after the occurrence it replaces; and where a worker dies that has rescheduled,
  // its occurrence is the only live one again, and the last delivered.
  ghost predicate Extends(cfg: Config, st: State, ev: Event, id: string) {
    && (Inserts(cfg, st, ev, id) ==>
        && !Forks(cfg, st, ev, id)
        && forall i :: 0 <= i < |st.log| && st.log[i].job == id ==> st.log[i].plan < InsertedPlan(st, ev))
    && (Reschedules(cfg, st, ev) && st.occs[ev.occ].job == id ==>
        cfg.next(st.workers[ev.occ].def.pattern, st.clock) > st.occs[ev.occ].plan)
    && (ev.CrashEv? && Forks(cfg, st, ev, id) ==> Tokens(st, id) == {} && AllPrecede(st, ev.occ, id))
  }

  // Where a token of the next state comes from: it was one, or it is inserted by a push or an activation,
  // which leaves no other, or it replaces the token that is rescheduled, or its worker has died.
  ghost predicate ComesFrom(cfg: Config, st: State, ev: Event, o: nat, id: string)
    requires o in Apply(cfg, st, ev).occs
  {
    var plan := Apply(cfg, st, ev).occs[o].plan;
    || (IsToken(st, o, id) && !Inserts(cfg, st, ev, id) && plan == st.occs[o].plan
        && !(Reschedules(cfg, st, ev) && o == ev.occ))
    || (o == st.nextId && Inserts(cfg, st, ev, id)
        && forall i :: 0 <= i < |st.log| && st.log[i].job == id ==> st.log[i].plan < plan)
    || (o == st.nextId && !Inserts(cfg, st, ev, id)
        && Reschedules(cfg, st, ev) && IsToken(st, ev.occ, id) && plan > st.occs[ev.occ].plan)
    || (ev.CrashEv? && o == ev.occ && Tokens(st, id) == {} && o in st.occs && plan == st.occs[o].plan
        && AllPrecede(st, o, id))
  }

  lemma InsertedOcc(cfg: Config, st: State, ev: Event, id: string)
    requires Inserts(cfg, st, ev, id)
    ensures var st' := Apply(cfg, st, ev);
      IsToken(st', st.nextId, id) && st'.occs[st.nextId].plan == InsertedPlan(st, ev) && st'.log == st.log
  {
  }

  lemma RescheduledOcc(cfg: Config, st: State, ev: Event)
    requires RowsFit(cfg, st) && Reschedules(cfg, st, ev)
    ensures var st' := Apply(cfg, st, ev); var id := st.occs[ev.occ].job;
      && IsToken(st', st.nextId, id) && st'.log == st.log
      && st'.occs[st.nextId].plan == cfg.next(st.workers[ev.occ].def.pattern, st.clock)
  {
    assert OccFits(cfg, st, ev.occ) && OccFits(cfg, st, st.nextId);
  }

  lemma PlanUnchanged(cfg: Config, st: State, ev: Event, o: nat)
    requires Inv(cfg, st) && o in st.occs && o in Apply(cfg, st, ev).occs
    ensures Apply(cfg, st, ev).occs[o].plan == st.occs[o].plan
  {
    assert OccFits(cfg, st, o);
    if !ev.DeliverEv? { LogUntouched(cfg, st, ev); }
  }

  lemma TokenOrigin(cfg: Config, st: State, ev: Event, o: nat, id: string)
    requires Inv(cfg, st) && Extends(cfg, st, ev, id) && IsToken(Apply(cfg, st, ev), o, id)
    ensures ComesFrom(cfg, st, ev, o, id)
  {
    TokenMoves(cfg, st, ev, o, id);
    assert OccFits(cfg, st, o);
    assert IsToken(st, o, id) ==> o in Tokens(st, id);
    if Inserts(cfg, st, ev, id) {
      InsertedOcc(cfg, st, ev, id);
    } else if o in st.occs {
      PlanUnchanged(cfg, st, ev, o);
    } else if Reschedules(cfg, st, ev) {
      RescheduledOcc(cfg, st, ev);
    }
  }

  // Every old log entry precedes every token of the next state.
  lemma OldEntryPrecedes(cfg: Config, st: State, ev: Event, id: string, o: nat, i: nat)
    requires Inv(cfg, st) && Extends(cfg, st, ev, id) && OneChain(st, id)
    requires IsToken(Apply(cfg, st, ev), o, id) && i < |st.log|
    ensures Precedes(Apply(cfg, st, ev), st.log[i], o, id)
  {
    TokenOrigin(cfg, st, ev, o, id);
    if o in st.occs {
      PlanUnchanged(cfg, st, ev, o);
      assert IsToken(st, o, id) ==> AllPrecede(st, o, id);
      assert AllPrecede(st, o, id) ==> Precedes(st, st.log[i], o, id);
    } else if Reschedules(cfg, st, ev) && IsToken(st, ev.occ, id) {
      assert AllPrecede(st, ev.occ, id);
      assert Precedes(st, st.log[i], ev.occ, id);
    }
  }

  lemma EntryPrecedes(cfg: Config, st: State, ev: Event, id: string, o: nat, i: nat)
    requires Inv(cfg, st) && Extends(cfg, st, ev, id) && OneChain(st, id)
    requires IsToken(Apply(cfg, st, ev), o, id) && i < |Apply(cfg, st, ev).log|
    ensures Precedes(Apply(cfg, st, ev), Apply(cfg, st, ev).log[i], o, id)
  {
    if !ev.DeliverEv? {
      LogUntouched(cfg, st, ev);
    } else if Apply(cfg, st, ev).log != st.log {
      DelivererIsToken(cfg, st, ev);
    }
    if i < |st.log| {
      assert Apply(cfg, st, ev).log[i] == st.log[i];
      OldEntryPrecedes(cfg, st, ev, id, o, i);
    } else {
      TokenOrigin(cfg, st, ev, o, id);
    }
  }

  lemma ChainKept(cfg: Config, st: State, ev: Event, id: string)
    requires Inv(cfg, st) && Extends(cfg, st, ev, id) && OneChain(st, id)
    ensures OneChain(Apply(cfg, st, ev), id)
  {
    var st' := Apply(cfg, st, ev);
    forall a, b | IsToken(st', a, id) && IsToken(st', b, id)
      ensures a == b
    {
      TokenOrigin(cfg, st, ev, a, id);
      TokenOrigin(cfg, st, ev, b, id);
      assert IsToken(st, a, id) ==> a in Tokens(st, id);
      assert IsToken(st, b, id) ==> b in Tokens(st, id);
    }
    forall o | IsToken(st', o, id)
      ensures AllPrecede(st', o, id)
    {
      forall i | 0 <= i < |st'.log| ensures Precedes(st', st'.log[i], o, id) { EntryPrecedes(cfg, st, ev, id, o, i); }
    }
  }

  // A token that an insertion finds stays one, or is pending and replaced by an activation.
  lemma InsertionFinds(cfg: Config, st: State, ev: Event, id: string, o: nat)
    requires RowsFit(cfg, st) && Inserts(cfg, st, ev, id)
    requires if ev.PushEv? then IsToken(st, o, id) else RunningToken(st, o, id)
    ensures IsToken(Apply(cfg, st, ev), o, id) && o < st.nextId
  {
    assert OccFits(cfg, st, o);
  }

  lemma InsertionExtends(cfg: Config, st: State, ev: Event, id: string)
    requires Inv(cfg, st) && OneChain(Apply(cfg, st, ev), id) && Inserts(cfg, st, ev, id)
    ensures Extends(cfg, st, ev, id)
  {
    var st' := Apply(cfg, st, ev);
    InsertedOcc(cfg, st, ev, id);
    if Forks(cfg, st, ev, id) {
      var o :| if ev.PushEv? then o in Tokens(st, id) else RunningToken(st, o, id);
      InsertionFinds(cfg, st, ev, id, o);
    }
    forall i | 0 <= i < |st.log| && st.log[i].job == id
      ensures st.log[i].plan < InsertedPlan(st, ev)
    {
      assert AllPrecede(st', st.nextId, id);
      assert Precedes(st', st'.log[i], st.nextId, id);
    }
  }

  lemma RescheduleExtends(cfg: Config, st: State, ev: Event, id: string)
    requires Inv(cfg, st) && OneChain(Apply(cfg, st, ev), id)
    requires Reschedules(cfg, st, ev) && st.occs[ev.occ].job == id
    ensures Extends(cfg, st, ev, id)
  {
    var st' := Apply(cfg, st, ev);
    RescheduledOcc(cfg, st, ev);
    var i :| 0 <= i < |st.log| && st.log[i].occ == ev.occ && st.log[i].ok;
    assert AllPrecede(st', st.nextId, id);
    assert Precedes(st', st'.log[i], st.nextId, id);
    assert OccFits(cfg, st, ev.occ);
  }

  lemma CrashFinds(cfg: Config, st: State, ev: Event, id: string, o: nat)
    requires ev.CrashEv? && Forks(cfg, st, ev, id) && RowsFit(cfg, st)
    ensures IsToken(st, o, id) ==> IsToken(Apply(cfg, st, ev), o, id) && o != ev.occ
    ensures IsToken(Apply(cfg, st, ev), ev.occ, id)
  {
    assert OccFits(cfg, st, ev.occ);
  }

  lemma CrashExtends(cfg: Config, st: State, ev: Event, id: string)
    requires Inv(cfg, st) && OneChain(Apply(cfg, st, ev), id) && ev.CrashEv? && Forks(cfg, st, ev, id)
    ensures Extends(cfg, st, ev, id)
  {
    var st' := Apply(cfg, st, ev);
    forall o ensures o !in Tokens(st, id) { CrashFinds(cfg, st, ev, id, o); }
    CrashFinds(cfg, st, ev, id, ev.occ);
    assert AllPrecede(st', ev.occ, id);
    forall i | 0 <= i < |st.log| ensures Precedes(st, st.log[i], ev.occ, id) {
      assert Precedes(st', st'.log[i], ev.occ, id);
    }
  }

  // A step keeps the chain if and only if it extends it.
  lemma ChainIffExtends(cfg: Config, st: State, ev: Event, id: string)
    requires Inv(cfg, st) && OneChain(st, id)
    ensures OneChain(Apply(cfg, st, ev), id) <==> Extends(cfg, st, ev, id)
  {
    if Extends(cfg, st, ev, id) {
      ChainKept(cfg, st, ev, id);
    } else if OneChain(Apply(cfg, st, ev), id) {
      if Inserts(cfg, st, ev, id) { InsertionExtends(cfg, st, ev, id); }
      if Reschedules(cfg, st, ev) && st.occs[ev.occ].job == id { RescheduleExtends(cfg, st, ev, id); }
      if ev.CrashEv? && Forks(cfg, st, ev, id) { CrashExtends(cfg, st, ev, id); }
    }
  }

  // ----- over whole runs -----

  ghost predicate AllExtend(cfg: Config, st: State, evs: seq<Event>, id: string)
    decreases |evs|
  {
    evs != [] ==> Extends(cfg, st, evs[0], id) && AllExtend(cfg, Apply(cfg, st, evs[0]), evs[1..], id)
  }

  ghost predicate ChainThroughout(cfg: Config, st: State, evs: seq<Event>, id: string)
    decreases |evs|
  {
    OneChain(st, id) && (evs != [] ==> ChainThroughout(cfg, Apply(cfg, st, evs[0]), evs[1..], id))
  }

  lemma ChainNeverRepeats(cfg: Config, st: State, ev: Event, id: string)
    requires RowsFit(cfg, st) && OneChain(st, id)
    ensures !Repeats(cfg, st, ev, id)
  {
    if ev.DeliverEv? && HasWorker(st, ev.occ) && st.workers[ev.occ].Loaded? && st.occs[ev.occ].job == id {
      assert OccFits(cfg, st, ev.occ);
      assert AllPrecede(st, ev.occ, id);
      forall i | 0 <= i < |st.log| && st.log[i].job == id && st.log[i].plan == st.occs[ev.occ].plan
        ensures st.log[i].occ == ev.occ
      {
        assert Precedes(st, st.log[i], ev.occ, id);
      }
    }
  }

  // A run keeps the job's occurrences one chain throughout if and only if each of its steps extends it; no
  // delivery of such a run repeats a plan time.
  lemma {:induction false} ChainThroughoutIffExtends(cfg: Config, st: State, evs: seq<Event>, id: string)
    requires cfg.maxAttempts > 0 && Inv(cfg, st) && OneChain(st, id)
    ensures ChainThroughout(cfg, st, evs, id) <==> AllExtend(cfg, st, evs, id)
    ensures AllExtend(cfg, st, evs, id) ==> NoRepeat(cfg, st, evs, id)
    decreases |evs|
  {
    if evs != [] {
      var st1 := Apply(cfg, st, evs[0]);
      ChainIffExtends(cfg, st, evs[0], id);
      ChainNeverRepeats(cfg, st, evs[0], id);
      InvKept(cfg, st, evs[0]);
      if OneChain(st1, id) { ChainThroughoutIffExtends(cfg, st1, evs[1..], id); }
    }
  }

  // In a run whose steps all extend the chain, two deliveries of the job carry the same plan time exactly
  // when they carry the same idempotency key.
  lemma PlanTimeIdentifiesFiring(cfg: Config, clock: nat, evs: seq<Event>, id: string, i: nat, j: nat)
    requires cfg.maxAttempts > 0 && AllExtend(cfg, Init(clock), evs, id)
    requires var log := Run(cfg, Init(clock), evs).log;
      i < |log| && j < |log| && log[i].job == id && log[j].job == id
    ensures var log := Run(cfg, Init(clock), evs).log;
      log[i].plan == log[j].plan <==> log[i].occ == log[j].occ
  {
    InitFits(cfg, clock);
    ChainThroughoutIffExtends(cfg, Init(clock), evs, id);
    IdentifyIffNoRepeat(cfg, Init(clock), evs, id);
    InvAlways(cfg, Init(clock), evs);
  }
}
