/** Groups do not touch each other's jobs, and the monitoring counts fit together. */
module QueueIsolation {
  import opened Wrappers
  import opened QueueModel
  import opened QueueInvariant
  import opened QueueAlive

  // ----- group isolation -----

  // An admin operation on the jobs of group g.
  predicate OnGroup(ev: Event, g: string) {
    || (ev.EditEv? && ev.group == g)
    || (ev.ActiveEv? && ev.group == g)
    || (ev.PauseEv? && ev.group == g)
    || (ev.DeleteEv? && ev.group == g)
    || (ev.DeleteJobsEv? && ev.group == g)
    || (ev.RemoveGroupEv? && ev.group == g)
  }

  // The operation cancels the pending occurrences of the job `id`, by id alone.
  predicate CancelsId(st: State, ev: Event, id: string) {
    && (ev.ActiveEv? || ev.PauseEv? || ev.DeleteEv?)
    && ev.id == id && Owns(st, ev.group, id)
    && (ev.ActiveEv? ==> ev.exectime >= 0)
  }

  // Definitions of other groups are untouched, whatever the operation does to its own.
  lemma OtherJobsUntouched(cfg: Config, st: State, ev: Event, g: string, id: string)
    requires OnGroup(ev, g)
    ensures var st' := Apply(cfg, st, ev);
      && (id in st.jobs && st.jobs[id].group != g ==> id in st'.jobs && st'.jobs[id] == st.jobs[id])
      && (id in st'.jobs && st'.jobs[id].group != g ==> id in st.jobs && st.jobs[id] == st'.jobs[id])
      && st'.workers == st.workers && st'.log == st.log
  {
  }

  // An occurrence that carries another group disappears exactly when it is pending and the operation
  // cancels its job id; otherwise it is unchanged, and none is added.
  lemma OtherOccurrences(cfg: Config, st: State, ev: Event, g: string, o: nat)
    requires OnGroup(ev, g) && OccFits(cfg, st, o)
    ensures var st' := Apply(cfg, st, ev);
      && (o in st.occs && st.occs[o].group != g ==>
          if st.occs[o].state == Pending && CancelsId(st, ev, st.occs[o].job) then o !in st'.occs
          else o in st'.occs && st'.occs[o] == st.occs[o])
      && (o in st'.occs && st'.occs[o].group != g ==> o in st.occs && st.occs[o] == st'.occs[o])
  {
  }

  // What belongs to other groups.
  predicate SameElsewhere(a: State, b: State, g: string) {
    && (forall id :: id in a.jobs && a.jobs[id].group != g ==> id in b.jobs && b.jobs[id] == a.jobs[id])
    && (forall id :: id in b.jobs && b.jobs[id].group != g ==> id in a.jobs && a.jobs[id] == b.jobs[id])
    && (forall o :: o in a.occs && a.occs[o].group != g ==> o in b.occs && b.occs[o] == a.occs[o])
    && (forall o :: o in b.occs && b.occs[o].group != g ==> o in a.occs && a.occs[o] == b.occs[o])
  }

  lemma SameElsewhereTrans(a: State, b: State, c: State, g: string)
    requires SameElsewhere(a, b, g) && SameElsewhere(b, c, g)
    ensures SameElsewhere(a, c, g)
  {
  }

  lemma StepIsolated(cfg: Config, st: State, ev: Event, g: string)
    requires RowsFit(cfg, st) && GroupsAgree(st) && OnGroup(ev, g)
    ensures SameElsewhere(st, Apply(cfg, st, ev), g)
  {
    var st' := Apply(cfg, st, ev);
    forall id: string
      ensures id in st.jobs && st.jobs[id].group != g ==> id in st'.jobs && st'.jobs[id] == st.jobs[id]
      ensures id in st'.jobs && st'.jobs[id].group != g ==> id in st.jobs && st.jobs[id] == st'.jobs[id]
    {
      OtherJobsUntouched(cfg, st, ev, g, id);
    }
    forall o: nat
      ensures o in st.occs && st.occs[o].group != g ==> o in st'.occs && st'.occs[o] == st.occs[o]
      ensures o in st'.occs && st'.occs[o].group != g ==> o in st.occs && st.occs[o] == st'.occs[o]
    {
      assert OccFits(cfg, st, o) && SameGroup(st, o);
      OtherOccurrences(cfg, st, ev, g, o);
    }
  }

  // Where ids are not reused across groups, any sequence of operations on one group leaves the
  // definitions and occurrences of all other groups as they were.
  lemma {:induction false} GroupsAreIsolated(cfg: Config, st: State, evs: seq<Event>, g: string)
    requires cfg.maxAttempts > 0 && Inv(cfg, st) && GroupsAgree(st)
    requires forall i :: 0 <= i < |evs| ==> OnGroup(evs[i], g)
    ensures SameElsewhere(st, Run(cfg, st, evs), g)
    decreases |evs|
  {
    if evs != [] {
      var st1 := Apply(cfg, st, evs[0]);
      StepIsolated(cfg, st, evs[0], g);
      InvKept(cfg, st, evs[0]);
      GroupsKept(cfg, st, evs[0]);
      GroupsAreIsolated(cfg, st1, evs[1..], g);
      SameElsewhereTrans(st, st1, Run(cfg, st, evs), g);
    }
  }

  // A call that names the wrong group, or removes an unknown one, changes nothing; nor does a refused push.
  lemma RefusedCallsChangeNothing(cfg: Config, st: State, group: string, id: string, url: string, payload: string,
                                  exectime: int, job: Job)
    ensures !Owns(st, group, id) ==>
      && Edit(st, group, id, url, payload).0 == st && Activate(st, group, id, exectime).0 == st
      && Pause(st, group, id) == (st, NotFound) && Delete(st, group, id) == (st, NotFound)
    ensures group !in st.groups ==> RemoveGroup(st, group) == (st, NotFound)
    ensures Push(cfg, st, job).1 != Done ==> Push(cfg, st, job).0 == st
    ensures Push(cfg, st, job).1 == Done ==> job.group in st.groups && job.id !in st.jobs
  {
  }

  // ----- counts -----

  lemma RemovedRows(jobs: map<string, Job>, del: set<string>)
    requires del <= jobs.Keys
    ensures |jobs - del| == |jobs| - |del|
  {
    assert (jobs - del).Keys == jobs.Keys - del;
    assert |jobs.Keys| == |jobs.Keys - del| + |del|;
    assert |jobs| == |jobs.Keys| && |jobs - del| == |(jobs - del).Keys|;
  }

  // Exactly the definitions of the group with the name, or all of the group, are gone, and with them exactly
  // their pending occurrences of the group; n is their number.
  ghost predicate DeletesJobs(a: State, b: State, group: string, name: string, n: nat) {
    && n == |a.jobs| - |b.jobs|
    && (forall id :: id in b.jobs <==>
          id in a.jobs && !(a.jobs[id].group == group && (name == "" || a.jobs[id].name == name)))
    && (forall id :: id in b.jobs ==> b.jobs[id] == a.jobs[id])
    && (forall o :: o in b.occs <==>
          o in a.occs && !(a.occs[o].state == Pending && a.occs[o].group == group
                           && a.occs[o].job in a.jobs && a.occs[o].job !in b.jobs))
    && (forall o :: o in b.occs ==> b.occs[o] == a.occs[o])
    && b == a.(jobs := b.jobs, occs := b.occs)
  }

  lemma DeleteJobsIs(st: State, group: string, name: string)
    ensures DeletesJobs(st, DeleteJobs(st, group, name).0, group, name, DeleteJobs(st, group, name).1)
  {
    RemovedRows(st.jobs, Selected(st, group, name));
  }

  function ActiveIds(st: State): set<string> {
    set id | id in st.jobs && st.jobs[id].active
  }

  function PausedIds(st: State): set<string> {
    set id | id in st.jobs && !st.jobs[id].active
  }

  function InState(st: State, state: OccState): set<nat> {
    set o | o in st.occs && st.occs[o].state == state
  }

  function JobIds(st: State, os: set<nat>): set<string> {
    set o | o in os && o in st.occs :: st.occs[o].job
  }

  lemma {:induction false} ImageIsNoLarger(st: State, os: set<nat>)
    ensures |JobIds(st, os)| <= |os|
    decreases |os|
  {
    if os == {} {
      assert JobIds(st, os) == {};
    } else {
      var o :| o in os;
      ImageIsNoLarger(st, os - {o});
      if o in st.occs {
        assert JobIds(st, os) == JobIds(st, os - {o}) + {st.occs[o].job};
      } else {
        assert JobIds(st, os) == JobIds(st, os - {o});
      }
    }
  }

  // While every active job is kept alive, there are at least as many waiting and running occurrences
  // as active jobs.
  lemma ActiveJobsAreCounted(cfg: Config, st: State)
    requires Alive(cfg, st, false)
    ensures |ActiveIds(st)| <= |InState(st, Pending)| + |InState(st, Running)|
  {
    var live := InState(st, Pending) + InState(st, Running);
    forall id | id in ActiveIds(st)
      ensures id in JobIds(st, live)
    {
      assert IsActive(st, id);
      var o :| Carries(cfg, st, o, id, false);
      assert o in live;
    }
    SubsetSize(ActiveIds(st), JobIds(st, live));
    ImageIsNoLarger(st, live);
  }
}
