/** The queue as riverquene.go runs it: tables that the transactions of Push, Edit, Active, Pause, Delete,
    DeleteJobs, RemoveGroup and of the worker update in place. Each method is one transaction, takes the
    tables through the step of the same name in QueueModel, and keeps its invariant. */
module Queue {
  import opened Requests
  import Model = QueueModel
  import opened QueueInvariant
  import opened QueueIsolation
  import opened QueueAlive
  import opened QueueSteps

  datatype Stats = Stats(now: nat, readyQueueDepth: nat, running: nat, jobsActive: nat, jobsPaused: nat)

  // Exactly the pending occurrences of the job are gone, and the others are as they were.
  ghost predicate CancelledOnly(before: map<nat, Model.Occurrence>, after: map<nat, Model.Occurrence>, id: string) {
    && (forall o :: o in after <==> o in before && !(before[o].state == Model.Pending && before[o].job == id))
    && (forall o :: o in after ==> after[o] == before[o])
  }

  // The rows other than `id` are as they were.
  ghost predicate OnlyRow(before: map<string, Model.Job>, after: map<string, Model.Job>, id: string) {
    && (forall i :: i != id ==> (i in after <==> i in before))
    && (forall i :: i != id && i in after ==> after[i] == before[i])
  }

  class RiverQueue {
    const cfg: Model.Config
    var groups: set<string>
    var jobs: map<string, Model.Job>
    var occs: map<nat, Model.Occurrence>
    var nextId: nat
    var workers: map<nat, Model.Worker>
    var log: seq<Model.Delivery>
    var clock: nat

    ghost function View(): Model.State
      reads this
    {
      Model.State(groups, jobs, occs, nextId, workers, log, clock)
    }

    ghost predicate Valid()
      reads this
    {
      cfg.maxAttempts > 0 && Inv(cfg, View())
    }

    constructor (cfg: Model.Config, clock: nat)
      requires cfg.maxAttempts > 0
      ensures Valid() && this.cfg == cfg && View() == Model.Init(clock)
    {
      this.cfg := cfg;
      this.clock := clock;
      groups, jobs, occs, nextId, workers, log := {}, map[], map[], 1, map[], [];
      new;
      InitFits(cfg, clock);
    }

    // ----- inside a transaction -----

    method InsertOccurrence(job: string, group: string, at: int)
      modifies this`occs, this`nextId
      ensures View() == Model.InsertOccurrence(old(View()), job, group, at)
    {
      occs := occs[nextId := Model.Occurrence(job, group, at, Model.Pending, 0)];
      nextId := nextId + 1;
    }

    method CancelOccurrences(job: string)
      modifies this`occs
      ensures View() == Model.CancelOccurrences(old(View()), job)
    {
      occs := map o | o in occs && !(occs[o].state == Model.Pending && occs[o].job == job) :: occs[o];
    }

    // ----- admin transactions -----

    method RegisterGroup(group: string) returns (reply: Model.Reply)
      requires Valid()
      modifies this`groups
      ensures Valid() && (View(), reply) == Model.RegisterGroup(old(View()), group)
      ensures reply == Model.Done <==> ValidName(group) && group !in old(groups)
      ensures groups == old(groups) + if reply == Model.Done then {group} else {}
    {
      InvKept(cfg, View(), Model.RegisterGroupEv(group));
      if !ValidName(group) { return Model.Invalid; }
      if group in groups { return Model.Duplicate; }
      groups := groups + {group};
      return Model.Done;
    }

    method Push(job: Model.Job) returns (reply: Model.Reply)
      requires Valid()
      modifies this`jobs, this`occs, this`nextId
      ensures Valid() && (View(), reply) == Model.Push(cfg, old(View()), job)
      ensures reply != Model.Invalid <==>
        && ValidName(job.group) && ValidName(job.id) && job.name != "" && SplitRequestURL(job.url).Some?
        && (job.pattern == "" || job.pattern == "@once" || cfg.parses(job.pattern))
        && job.exectime >= 0 && job.timeout >= 0
      ensures reply == Model.NotFound <==> reply != Model.Invalid && job.group !in groups
      ensures reply == Model.Duplicate <==> reply != Model.Invalid && job.group in groups && job.id in old(jobs)
      ensures reply == Model.Done ==>
        var at := if job.exectime == 0 then clock else job.exectime;
        && jobs == old(jobs)[job.id := Model.Job(
             job.id, job.group, job.name, job.url, job.payload,
             if job.pattern == "" then "@once" else job.pattern, job.timeout, at, true, job.memo)]
        && occs == old(occs)[old(nextId) := Model.Occurrence(job.id, job.group, at, Model.Pending, 0)]
        && nextId == old(nextId) + 1
      ensures reply != Model.Done ==> unchanged(this)
    {
      InvKept(cfg, View(), Model.PushEv(job));
      var row := job;
      if !ValidName(row.group) || !ValidName(row.id) || row.name == "" { return Model.Invalid; }
      if SplitRequestURL(row.url).None? { return Model.Invalid; }
      if row.pattern == "" { row := row.(pattern := "@once"); }
      if !IsOnce(row.pattern) && !cfg.parses(row.pattern) { return Model.Invalid; }
      if row.exectime < 0 { return Model.Invalid; }
      if row.exectime == 0 { row := row.(exectime := clock); }
      if row.timeout < 0 { return Model.Invalid; }
      if row.group !in groups { return Model.NotFound; }
      if row.id in jobs { return Model.Duplicate; }
      assert Model.ValidJob(cfg, job) && row.(active := true) == Model.PushedRow(View(), job);
      jobs := jobs[row.id := row.(active := true)];
      InsertOccurrence(row.id, row.group, row.exectime);
      return Model.Done;
    }

    method Edit(group: string, id: string, url: string, payload: string) returns (reply: Model.Reply)
      requires Valid()
      modifies this`jobs
      ensures Valid() && (View(), reply) == Model.Edit(old(View()), group, id, url, payload)
      ensures reply == Model.Done <==>
        SplitRequestURL(url).Some? && id in old(jobs) && old(jobs)[id].group == group
      ensures jobs == if reply == Model.Done then old(jobs)[id := old(jobs)[id].(url := url, payload := payload)]
                      else old(jobs)
    {
      InvKept(cfg, View(), Model.EditEv(group, id, url, payload));
      if SplitRequestURL(url).None? { return Model.Invalid; }
      if id !in jobs || jobs[id].group != group { return Model.NotFound; }
      jobs := jobs[id := jobs[id].(url := url, payload := payload)];
      return Model.Done;
    }

    method Active(group: string, id: string, exectime: int) returns (reply: Model.Reply)
      requires Valid()
      modifies this`jobs, this`occs, this`nextId
      ensures Valid() && (View(), reply) == Model.Activate(old(View()), group, id, exectime)
      ensures reply == Model.Done <==> exectime >= 0 && id in old(jobs) && old(jobs)[id].group == group
      ensures reply == Model.Done ==>
        var at := if exectime == 0 then clock else exectime;
        && jobs == old(jobs)[id := old(jobs)[id].(active := true, exectime := at)]
        && old(nextId) in occs && CancelledOnly(old(occs), occs - {old(nextId)}, id)
        && occs[old(nextId)] == Model.Occurrence(id, group, at, Model.Pending, 0) && nextId == old(nextId) + 1
      ensures reply != Model.Done ==> unchanged(this)
    {
      InvKept(cfg, View(), Model.ActiveEv(group, id, exectime));
      assert OccFits(cfg, View(), nextId);
      if exectime < 0 { return Model.Invalid; }
      var at := exectime;
      if at == 0 { at := clock; }
      if id !in jobs || jobs[id].group != group { return Model.NotFound; }
      jobs := jobs[id := jobs[id].(active := true, exectime := at)];
      CancelOccurrences(id);
      InsertOccurrence(id, group, at);
      return Model.Done;
    }

    method Pause(group: string, id: string) returns (reply: Model.Reply)
      requires Valid()
      modifies this`jobs, this`occs
      ensures Valid() && (View(), reply) == Model.Pause(old(View()), group, id)
      ensures reply == Model.Done <==> id in old(jobs) && old(jobs)[id].group == group
      ensures reply == Model.Done ==>
        && OnlyRow(old(jobs), jobs, id) && id in jobs && jobs[id] == old(jobs)[id].(active := false)
        && CancelledOnly(old(occs), occs, id)
      ensures reply != Model.Done ==> unchanged(this)
    {
      InvKept(cfg, View(), Model.PauseEv(group, id));
      if id !in jobs || jobs[id].group != group { return Model.NotFound; }
      jobs := jobs[id := jobs[id].(active := false)];
      CancelOccurrences(id);
      return Model.Done;
    }

    method Delete(group: string, id: string) returns (reply: Model.Reply)
      requires Valid()
      modifies this`jobs, this`occs
      ensures Valid() && (View(), reply) == Model.Delete(old(View()), group, id)
      ensures reply == Model.Done <==> id in old(jobs) && old(jobs)[id].group == group
      ensures reply == Model.Done ==>
        OnlyRow(old(jobs), jobs, id) && id !in jobs && CancelledOnly(old(occs), occs, id)
      ensures reply != Model.Done ==> unchanged(this)
    {
      InvKept(cfg, View(), Model.DeleteEv(group, id));
      if id !in jobs || jobs[id].group != group { return Model.NotFound; }
      jobs := jobs - {id};
      CancelOccurrences(id);
      return Model.Done;
    }

    method DeleteJobs(group: string, name: string) returns (n: nat)
      requires Valid()
      modifies this`jobs, this`occs
      ensures Valid() && (View(), n) == Model.DeleteJobs(old(View()), group, name)
      ensures DeletesJobs(old(View()), View(), group, name, n)
    {
      InvKept(cfg, View(), Model.DeleteJobsEv(group, name));
      DeleteJobsIs(View(), group, name);
      var del := set id | id in jobs && jobs[id].group == group && (name == "" || jobs[id].name == name);
      assert del == Model.Selected(View(), group, name);
      jobs := jobs - del;
      occs := map o | o in occs
                      && !(occs[o].state == Model.Pending && occs[o].group == group && occs[o].job in del) :: occs[o];
      return |del|;
    }

    // The deletes come before the check of the group; an unknown group rolls them back.
    method RemoveGroup(group: string) returns (reply: Model.Reply)
      requires Valid()
      modifies this`groups, this`jobs, this`occs
      ensures Valid() && (View(), reply) == Model.RemoveGroup(old(View()), group)
      ensures reply == Model.Done <==> group in old(groups)
      ensures reply == Model.Done ==>
        && groups == old(groups) - {group}
        && (forall id :: id in jobs <==> id in old(jobs) && old(jobs)[id].group != group)
        && (forall o :: o in occs <==>
              o in old(occs) && !(old(occs)[o].state == Model.Pending && old(occs)[o].group == group))
        && (forall id :: id in jobs ==> jobs[id] == old(jobs)[id])
        && (forall o :: o in occs ==> occs[o] == old(occs)[o])
      ensures reply != Model.Done ==> unchanged(this)
    {
      InvKept(cfg, View(), Model.RemoveGroupEv(group));
      var jobsBefore, occsBefore := jobs, occs;
      assert Model.Selected(View(), group, "") == set id | id in jobs && jobs[id].group == group;
      jobs := jobs - set id | id in jobs && jobs[id].group == group;
      occs := map o | o in occs && !(occs[o].state == Model.Pending && occs[o].group == group) :: occs[o];
      if group !in groups {
        jobs, occs := jobsBefore, occsBefore;
        return Model.NotFound;
      }
      groups := groups - {group};
      return Model.Done;
    }

    // ----- the worker, between two points where others may run -----

    method Load(o: nat, err: bool)
      requires Valid() && o in workers && workers[o].Fetched?
      modifies this`workers
      ensures Valid() && View() == Model.Load(old(View()), o, err)
      ensures o in occs && var id := occs[o].job;
        workers == old(workers)[o :=
          if err then Model.Returned(false)
          else if id in jobs && jobs[id].active then Model.Loaded(jobs[id])
          else Model.Returned(true)]
    {
      InvKept(cfg, View(), Model.LoadEv(o, err));
      assert OccFits(cfg, View(), o);
      var id := occs[o].job;
      if err {
        workers := workers[o := Model.Returned(false)];
      } else if id !in jobs {
        workers := workers[o := Model.Returned(true)];
      } else if !jobs[id].active {
        workers := workers[o := Model.Returned(true)];
      } else {
        workers := workers[o := Model.Loaded(jobs[id])];
      }
    }

    method Deliver(o: nat, accepted: bool)
      requires Valid() && o in workers && workers[o].Loaded?
      modifies this`workers, this`log
      ensures Valid() && View() == Model.Deliver(cfg, old(View()), o, accepted)
      ensures o in occs && var def := old(workers)[o].def; var ok := accepted && SplitRequestURL(def.url).Some?;
        && log == old(log) + [Model.Delivery(o, occs[o].job, occs[o].plan, ok)]
        && workers == old(workers)[o :=
             if ok then Model.Delivered(def)
             else if occs[o].attempt < cfg.maxAttempts then Model.Returned(false)
             else Model.Exhausted(def)]
    {
      InvKept(cfg, View(), Model.DeliverEv(o, accepted));
      assert OccFits(cfg, View(), o);
      var def := workers[o].def;
      var ok := accepted && SplitRequestURL(def.url).Some?;
      log := log + [Model.Delivery(o, def.id, occs[o].plan, ok)];
      if ok {
        workers := workers[o := Model.Delivered(def)];
      } else if occs[o].attempt >= cfg.maxAttempts {
        workers := workers[o := Model.Exhausted(def)];
      } else {
        workers := workers[o := Model.Returned(false)];
      }
    }

    method PauseExhausted(o: nat, err: bool)
      requires Valid() && o in workers && workers[o].Exhausted?
      modifies this`workers, this`jobs
      ensures Valid() && View() == Model.PauseExhausted(old(View()), o, err)
      ensures workers == old(workers)[o := Model.Returned(false)]
      ensures o in occs && var id := occs[o].job;
        jobs == if err || id !in old(jobs) then old(jobs) else old(jobs)[id := old(jobs)[id].(active := false)]
    {
      InvKept(cfg, View(), Model.PauseExhaustedEv(o, err));
      assert OccFits(cfg, View(), o);
      var id := workers[o].def.id;
      if !err && id in jobs {
        jobs := jobs[id := jobs[id].(active := false)];
      }
      workers := workers[o := Model.Returned(false)];
    }

    method ScheduleNext(o: nat, def: Model.Job, next: int)
      modifies this`jobs, this`occs, this`nextId, this`workers
      ensures View() == Model.ScheduleNext(old(View()), o, def, next)
      ensures if def.id in old(jobs) && old(jobs)[def.id].active
              then jobs == old(jobs)[def.id := old(jobs)[def.id].(exectime := next)]
                && occs == old(occs)[old(nextId) := Model.Occurrence(def.id, def.group, next, Model.Pending, 0)]
              else unchanged(this`jobs, this`occs, this`nextId)
      ensures workers == old(workers)[o :=
        if def.id in old(jobs) && old(jobs)[def.id].active then Model.Rescheduled else Model.Returned(true)]
    {
      if def.id !in jobs || !jobs[def.id].active {
        workers := workers[o := Model.Returned(true)];
        return;
      }
      jobs := jobs[def.id := jobs[def.id].(exectime := next)];
      InsertOccurrence(def.id, def.group, next);
      workers := workers[o := Model.Rescheduled];
    }

    method Finish(o: nat, err: bool)
      requires Valid() && o in workers && workers[o].Delivered?
      modifies this`jobs, this`occs, this`nextId, this`workers
      ensures Valid() && View() == Model.Finish(cfg, old(View()), o, err)
      ensures var def := old(workers)[o].def;
        && AfterSuccess(cfg, old(View()), View(), def, err)
        && o in workers && workers == old(workers)[o := workers[o]]
        && (workers[o] == Model.Rescheduled || workers[o] == Model.Returned(!Retries(cfg, def, err)))
    {
      InvKept(cfg, View(), Model.FinishEv(o, err));
      assert OccFits(cfg, View(), o);
      FinishIs(cfg, View(), o, err);
      var def := workers[o].def;
      if IsOnce(def.pattern) {
        if !err { jobs := jobs - {def.id}; }
        workers := workers[o := Model.Returned(true)];
      } else if !cfg.parses(def.pattern) {
        if !err && def.id in jobs {
          jobs := jobs[def.id := jobs[def.id].(active := false)];
        }
        workers := workers[o := Model.Returned(true)];
      } else if err {
        workers := workers[o := Model.Returned(false)];
      } else {
        ScheduleNext(o, def, cfg.next(def.pattern, clock));
      }
    }

    // Work, when nothing runs in between; `success` tells whether it returns nil.
    method Work(o: nat, loadErr: bool, accepted: bool, pauseErr: bool, finishErr: bool) returns (success: bool)
      requires Valid() && o in workers && workers[o].Fetched?
      modifies this
      ensures Valid()
      ensures View() == WorkAll(cfg, old(View()), o, loadErr, accepted, pauseErr, finishErr)
      ensures o in workers && (workers[o] == Model.Rescheduled || workers[o] == Model.Returned(success))
      ensures workers[o] == Model.Rescheduled ==> success
      ensures o in old(occs) && WorkDoes(cfg, old(View()), View(), o, loadErr, accepted, pauseErr, finishErr, success)
    {
      assert OccFits(cfg, View(), o);
      WorkIs(cfg, View(), o, loadErr, accepted, pauseErr, finishErr);
      assert OccFits(cfg, View(), o);
      Load(o, loadErr);
      if workers[o].Returned? { return workers[o].ok; }
      assert OccFits(cfg, View(), o);
      Deliver(o, accepted);
      if workers[o].Returned? { return workers[o].ok; }
      assert OccFits(cfg, View(), o);
      if workers[o].Exhausted? {
        PauseExhausted(o, pauseErr);
        return false;
      }
      Finish(o, finishErr);
      return workers[o].Rescheduled? || workers[o].ok;
    }

    // ----- monitoring -----

    method ReadStats() returns (s: Stats)
      ensures s.now == clock
      ensures s.jobsActive == |set id | id in jobs && jobs[id].active|
      ensures s.jobsPaused == |set id | id in jobs && !jobs[id].active|
      ensures s.readyQueueDepth == |set o | o in occs && occs[o].state == Model.Pending|
      ensures s.running == |set o | o in occs && occs[o].state == Model.Running|
      ensures s.jobsActive + s.jobsPaused == |jobs|
      ensures Alive(cfg, View(), false) ==> s.jobsActive <= s.readyQueueDepth + s.running
    {
      var pending := set o | o in occs && occs[o].state == Model.Pending;
      var running := set o | o in occs && occs[o].state == Model.Running;
      var active := set id | id in jobs && jobs[id].active;
      var paused := set id | id in jobs && !jobs[id].active;
      assert pending == InState(View(), Model.Pending) && running == InState(View(), Model.Running);
      assert active == ActiveIds(View()) && paused == PausedIds(View());
      assert jobs.Keys == active + paused;
      if Alive(cfg, View(), false) { ActiveJobsAreCounted(cfg, View()); }
      s := Stats(clock, |pending|, |running|, |active|, |paused|);
    }
  }
}
