/** Conservation: a job's chains of occurrences fork only where an event forks them. */
module QueueForks {
  import opened Wrappers
  import opened QueueModel
  import opened QueueInvariant
  import opened QueueAlive

  // Occurrence o of the job is pending, or running and not yet rescheduled.
  predicate IsToken(st: State, o: nat, id: string) {
    && o in st.occs && st.occs[o].job == id
    && (st.occs[o].state == Pending
        || (st.occs[o].state == Running && (o in st.workers ==> !st.workers[o].Rescheduled?)))
  }

  function Tokens(st: State, id: string): set<nat> {
    set o | o in st.occs && IsToken(st, o, id)
  }

  predicate RunningToken(st: State, o: nat, id: string) {
    IsToken(st, o, id) && st.occs[o].state == Running
  }

  // The events that may add a chain: an activation while one occurrence is running, a push of an id
  // with an occurrence still live, and a crash between the reschedule and its completion.
  ghost predicate Forks(cfg: Config, st: State, ev: Event, id: string) {
    match ev
    case ActiveEv(g, i, exectime) =>
      i == id && Activate(st, g, i, exectime).1 == Done && exists o :: RunningToken(st, o, id)
    case PushEv(job) => job.id == id && Push(cfg, st, job).1 == Done && Tokens(st, id) != {}
    case CrashEv(o) => HasWorker(st, o) && st.workers[o].Rescheduled? && st.occs[o].job == id
    case _ => false
  }

  ghost function ForkCount(cfg: Config, st: State, evs: seq<Event>, id: string): nat
    decreases |evs|
  {
    if evs == [] then 0
    else (if Forks(cfg, st, evs[0], id) then 1 else 0) + ForkCount(cfg, Apply(cfg, st, evs[0]), evs[1..], id)
  }

  // The occurrence whose chain a step moves to the inserted occurrence.
  predicate Reschedules(cfg: Config, st: State, ev: Event) {
    && ev.FinishEv? && HasWorker(st, ev.occ) && st.workers[ev.occ].Delivered?
    && var st' := Apply(cfg, st, ev); ev.occ in st'.workers && st'.workers[ev.occ].Rescheduled?
  }

  predicate Inserts(cfg: Config, st: State, ev: Event, id: string) {
    || (ev.PushEv? && ev.job.id == id && Push(cfg, st, ev.job).1 == Done)
    || (ev.ActiveEv? && ev.id == id && Activate(st, ev.group, ev.id, ev.exectime).1 == Done)
  }

  // What a step does to one occurrence as a token: it becomes one only by insertion, or by the crash of a
  // rescheduled worker; a reschedule uses its own up; an activation leaves the new one and running ones.
  ghost predicate TokenMoved(cfg: Config, st: State, ev: Event, o: nat, id: string) {
    var st' := Apply(cfg, st, ev);
    && (IsToken(st', o, id) && !IsToken(st, o, id) && !(ev.CrashEv? && Forks(cfg, st, ev, id) && o == ev.occ) ==>
        o == st.nextId && (Inserts(cfg, st, ev, id) || (Reschedules(cfg, st, ev) && IsToken(st, ev.occ, id))))
    && (Reschedules(cfg, st, ev) ==> !IsToken(st', ev.occ, id))
    && (ev.ActiveEv? && Inserts(cfg, st, ev, id) && IsToken(st', o, id) ==> o == st.nextId || RunningToken(st, o, id))
  }

  lemma TokenMovesAdmin(cfg: Config, st: State, ev: Event, o: nat, id: string)
    requires OfAdmin(ev)
    requires RowsFit(cfg, st)
    ensures TokenMoved(cfg, st, ev, o, id)
  {
    assert OccFits(cfg, st, o);
  }

  lemma TokenMovesEarly(cfg: Config, st: State, ev: Event, o: nat, id: string)
    requires BeforeFinish(ev)
    requires RowsFit(cfg, st)
    ensures TokenMoved(cfg, st, ev, o, id)
  {
    assert OccFits(cfg, st, o);
  }

  lemma TokenMovesFinish(cfg: Config, st: State, ev: Event, o: nat, id: string)
    requires ev.FinishEv?
    requires RowsFit(cfg, st)
    ensures TokenMoved(cfg, st, ev, o, id)
  {
    assert OccFits(cfg, st, o) && OccFits(cfg, st, ev.occ) && OccFits(cfg, st, st.nextId);
  }

  lemma TokenMovesLate(cfg: Config, st: State, ev: Event, o: nat, id: string)
    requires AfterFinish(ev)
    requires RowsFit(cfg, st)
    ensures TokenMoved(cfg, st, ev, o, id)
  {
    assert OccFits(cfg, st, o);
  }

  lemma TokenMoves(cfg: Config, st: State, ev: Event, o: nat, id: string)
    requires RowsFit(cfg, st)
    ensures TokenMoved(cfg, st, ev, o, id)
  {
    if OfAdmin(ev) { TokenMovesAdmin(cfg, st, ev, o, id); }
    else if BeforeFinish(ev) { TokenMovesEarly(cfg, st, ev, o, id); }
    else if ev.FinishEv? { TokenMovesFinish(cfg, st, ev, o, id); }
    else { TokenMovesLate(cfg, st, ev, o, id); }
  }

  // One step adds at most one chain, and only a forking event adds to a chain that is there.
  lemma TokensBounded(cfg: Config, st: State, ev: Event, id: string)
    requires RowsFit(cfg, st)
    ensures |Tokens(Apply(cfg, st, ev), id)| <=
      (if Tokens(st, id) == {} then 1 else |Tokens(st, id)|) + (if Forks(cfg, st, ev, id) then 1 else 0)
  {
    var before, after := Tokens(st, id), Tokens(Apply(cfg, st, ev), id);
    forall o | o in after
      ensures o in before || o == st.nextId || (ev.CrashEv? && Forks(cfg, st, ev, id) && o == ev.occ)
    {
      TokenMoves(cfg, st, ev, o, id);
    }
    if ev.CrashEv? {
      SubsetSize(after, before + {ev.occ});
      if !Forks(cfg, st, ev, id) {
        TokenMoves(cfg, st, ev, st.nextId, id);
        SubsetSize(after, before);
      }
    } else if Forks(cfg, st, ev, id) || before == {} {
      SubsetSize(after, before + {st.nextId});
    } else if Reschedules(cfg, st, ev) && IsToken(st, ev.occ, id) {
      TokenMoves(cfg, st, ev, ev.occ, id);
      SubsetSize(after, before - {ev.occ} + {st.nextId});
    } else if ev.ActiveEv? && Inserts(cfg, st, ev, id) {
      forall o | o in after ensures o == st.nextId { TokenMoves(cfg, st, ev, o, id); }
      SubsetSize(after, {st.nextId});
    } else {
      TokenMoves(cfg, st, ev, st.nextId, id);
      assert OccFits(cfg, st, st.nextId);
      SubsetSize(after, before);
    }
  }

  // Over a run, the live occurrences of a job number at most one more than the forking events.
  lemma {:induction false} ForksBoundTokens(cfg: Config, st: State, evs: seq<Event>, id: string)
    requires cfg.maxAttempts > 0 && Inv(cfg, st)
    ensures |Tokens(Run(cfg, st, evs), id)| <=
      (if Tokens(st, id) == {} then 1 else |Tokens(st, id)|) + ForkCount(cfg, st, evs, id)
    decreases |evs|
  {
    if evs != [] {
      TokensBounded(cfg, st, evs[0], id);
      InvKept(cfg, st, evs[0]);
      ForksBoundTokens(cfg, Apply(cfg, st, evs[0]), evs[1..], id);
    }
  }

  lemma ConservationOfOccurrences(cfg: Config, clock: nat, evs: seq<Event>, id: string)
    requires cfg.maxAttempts > 0
    ensures |Tokens(Run(cfg, Init(clock), evs), id)| <= 1 + ForkCount(cfg, Init(clock), evs, id)
  {
    InitFits(cfg, clock);
    ForksBoundTokens(cfg, Init(clock), evs, id);
  }

  // Without forking and orphaning events, an active definition has exactly one live occurrence.
  lemma ExactlyOneChain(cfg: Config, clock: nat, evs: seq<Event>, id: string)
    requires cfg.maxAttempts > 0 && Unbroken(cfg, Init(clock), evs, false)
    requires ForkCount(cfg, Init(clock), evs, id) == 0
    ensures var st := Run(cfg, Init(clock), evs); IsActive(st, id) ==> |Tokens(st, id)| == 1
  {
    ConservationOfOccurrences(cfg, clock, evs, id);
    InitFits(cfg, clock);
    AliveThroughoutIffUnbroken(cfg, Init(clock), evs, false);
    var st := Run(cfg, Init(clock), evs);
    if IsActive(st, id) {
      var o :| Carries(cfg, st, o, id, false);
      assert o in Tokens(st, id);
    }
  }

  function RunningTokens(st: State, id: string): set<nat> {
    set o | o in st.occs && RunningToken(st, o, id)
  }

  lemma AfterActivation(cfg: Config, st: State, group: string, id: string, exectime: int, o: nat)
    requires RowsFit(cfg, st) && Owns(st, group, id) && exectime >= 0
    ensures IsToken(Activate(st, group, id, exectime).0, o, id) <==> RunningToken(st, o, id) || o == st.nextId
    ensures RunningToken(st, o, id) ==> o < st.nextId
  {
    assert OccFits(cfg, st, o);
  }

  lemma OneMore(a: set<nat>, n: nat)
    requires n !in a
    ensures |a + {n}| == |a| + 1
  {
  }

  // An activation leaves the running occurrences that are not yet rescheduled and adds the new one, so the
  // job has exactly one live occurrence afterwards if and only if none was running.
  lemma ActivationForks(cfg: Config, st: State, group: string, id: string, exectime: int)
    requires RowsFit(cfg, st) && Owns(st, group, id) && exectime >= 0
    ensures var st' := Activate(st, group, id, exectime).0;
      && Tokens(st', id) == RunningTokens(st, id) + {st.nextId}
      && |Tokens(st', id)| == |RunningTokens(st, id)| + 1
      && (|Tokens(st', id)| == 1 <==> forall o :: !RunningToken(st, o, id))
  {
    var before, after := RunningTokens(st, id), Tokens(Activate(st, group, id, exectime).0, id);
    forall o: nat
      ensures o in after <==> o in before + {st.nextId}
      ensures o in before ==> o < st.nextId
    {
      AfterActivation(cfg, st, group, id, exectime, o);
    }
    assert after == before + {st.nextId};
    OneMore(before, st.nextId);
    assert forall o :: RunningToken(st, o, id) <==> o in before;
    assert |before| == 0 <==> before == {};
  }

  // An activation replaces what is pending: afterwards the one pending occurrence of the job is the new
  // one, so calling it twice schedules one firing.
  lemma ActivationReplaces(cfg: Config, st: State, group: string, id: string, exectime: int, o: nat)
    requires RowsFit(cfg, st) && Owns(st, group, id) && exectime >= 0
    ensures var st' := Activate(st, group, id, exectime).0;
      && IsActive(st', id)
      && (o in st'.occs && st'.occs[o].job == id && st'.occs[o].state == Pending <==> o == st.nextId)
      && st'.occs[st.nextId].plan == st'.jobs[id].exectime && st'.occs[st.nextId].group == group
  {
    assert OccFits(cfg, st, o) && OccFits(cfg, st, st.nextId);
  }
}
