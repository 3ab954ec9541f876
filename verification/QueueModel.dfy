/** delayquene/riverquene.go as a state machine. Each SQL transaction and each lone SQL statement is one
    step; a worker's run of `Work` is cut into steps between which anything else may happen. */
module QueueModel {
  import opened Wrappers
  import opened Requests

  // ----- tables -----

  // A row of gua_jobs.
  datatype Job = Job(id: string, group: string, name: string, url: string, payload: string,
                     pattern: string, timeout: int, exectime: int, active: bool, memo: string)

  // Pending stands for River's available, scheduled, retryable and pending; Finished for its final states.
  datatype OccState = Pending | Running | Finished

  // A row of river_job of kind gua_delivery.
  datatype Occurrence = Occurrence(job: string, group: string, plan: int, state: OccState, attempt: nat)

  // How far the worker of a running occurrence has come, with the definition it has loaded.
  datatype Worker =
    | Fetched
    | Loaded(def: Job)
    | Exhausted(def: Job)     // the last attempt failed, the definition is still to be paused
    | Delivered(def: Job)
    | Rescheduled             // scheduleNext has inserted the next occurrence; Work returns nil
    | Returned(ok: bool)      // Work has returned: nil or an error

  // One delivery attempt. The occurrence's id is its idempotency key.
  datatype Delivery = Delivery(occ: nat, job: string, plan: int, ok: bool)

  datatype State = State(
    groups: set<string>,
    jobs: map<string, Job>,
    occs: map<nat, Occurrence>,
    nextId: nat,
    workers: map<nat, Worker>,
    log: seq<Delivery>,
    clock: nat)               // seconds since 1970

  // The configured attempt bound, and the cron package: whether a pattern parses, and the Unix time
  // its schedule gives for Next at a second.
  datatype Config = Config(maxAttempts: nat, parses: string -> bool, next: (string, nat) -> int)

  datatype Reply = Done | Invalid | NotFound | Duplicate

  function Init(clock: nat): State {
    State({}, map[], map[], 1, map[], [], clock)
  }

  // ----- occurrences -----

  function InsertOccurrence(st: State, job: string, group: string, at: int): State {
    st.(occs := st.occs[st.nextId := Occurrence(job, group, at, Pending, 0)], nextId := st.nextId + 1)
  }

  // cancelOccurrencesTx: by job id, whatever the group
  function CancelOccurrences(st: State, job: string): State {
    st.(occs := map o | o in st.occs && !(st.occs[o].state == Pending && st.occs[o].job == job) :: st.occs[o])
  }

  // ----- admin transactions -----

  predicate Owns(st: State, group: string, id: string) {
    id in st.jobs && st.jobs[id].group == group
  }

  predicate ValidPattern(cfg: Config, pattern: string) {
    IsOnce(pattern) || cfg.parses(pattern)
  }

  predicate ValidJob(cfg: Config, job: Job) {
    && ValidName(job.group) && ValidName(job.id) && job.name != "" && SplitRequestURL(job.url).Some?
    && ValidPattern(cfg, job.pattern) && job.exectime >= 0 && job.timeout >= 0
  }

  // The row that Push stores.
  function PushedRow(st: State, job: Job): Job {
    job.(pattern := if job.pattern == "" then "@once" else job.pattern,
         exectime := if job.exectime == 0 then st.clock else job.exectime,
         active := true)
  }

  function Push(cfg: Config, st: State, job: Job): (State, Reply) {
    if !ValidJob(cfg, job) then (st, Invalid)
    else if job.group !in st.groups then (st, NotFound)
    else if job.id in st.jobs then (st, Duplicate)
    else
      var row := PushedRow(st, job);
      (InsertOccurrence(st.(jobs := st.jobs[job.id := row]), job.id, job.group, row.exectime), Done)
  }

  function Edit(st: State, group: string, id: string, url: string, payload: string): (State, Reply) {
    if SplitRequestURL(url).None? then (st, Invalid)
    else if !Owns(st, group, id) then (st, NotFound)
    else (st.(jobs := st.jobs[id := st.jobs[id].(url := url, payload := payload)]), Done)
  }

  function Activate(st: State, group: string, id: string, exectime: int): (State, Reply) {
    if exectime < 0 then (st, Invalid)
    else if !Owns(st, group, id) then (st, NotFound)
    else
      var at := if exectime == 0 then st.clock else exectime;
      var st1 := st.(jobs := st.jobs[id := st.jobs[id].(active := true, exectime := at)]);
      (InsertOccurrence(CancelOccurrences(st1, id), id, group, at), Done)
  }

  function Pause(st: State, group: string, id: string): (State, Reply) {
    if !Owns(st, group, id) then (st, NotFound)
    else (CancelOccurrences(st.(jobs := st.jobs[id := st.jobs[id].(active := false)]), id), Done)
  }

  function Delete(st: State, group: string, id: string): (State, Reply) {
    if !Owns(st, group, id) then (st, NotFound)
    else (CancelOccurrences(st.(jobs := st.jobs - {id}), id), Done)
  }

  // The definitions DeleteJobs removes: all of the group, or those with the given name.
  function Selected(st: State, group: string, name: string): set<string> {
    set id | id in st.jobs && st.jobs[id].group == group && (name == "" || st.jobs[id].name == name)
  }

  function DeleteJobs(st: State, group: string, name: string): (State, nat) {
    var del := Selected(st, group, name);
    (st.(jobs := st.jobs - del,
         occs := map o | o in st.occs
                         && !(st.occs[o].state == Pending && st.occs[o].group == group && st.occs[o].job in del)
                 :: st.occs[o]),
     |del|)
  }

  function RegisterGroup(st: State, group: string): (State, Reply) {
    if !ValidName(group) then (st, Invalid)
    else if group in st.groups then (st, Duplicate)
    else (st.(groups := st.groups + {group}), Done)
  }

  // An unknown group rolls everything back.
  function RemoveGroup(st: State, group: string): (State, Reply) {
    if group !in st.groups then (st, NotFound)
    else
      (st.(groups := st.groups - {group},
           jobs := st.jobs - Selected(st, group, ""),
           occs := map o | o in st.occs && !(st.occs[o].state == Pending && st.occs[o].group == group) :: st.occs[o]),
       Done)
  }

  // ----- River and the worker -----

  predicate HasWorker(st: State, o: nat) {
    o in st.workers && o in st.occs
  }

  // River hands a due occurrence to a worker and counts the attempt.
  function Fetch(st: State, o: nat): State {
    if o in st.occs && st.occs[o].state == Pending && st.occs[o].plan <= st.clock then
      st.(occs := st.occs[o := st.occs[o].(state := Running, attempt := st.occs[o].attempt + 1)],
          workers := st.workers[o := Fetched])
    else st
  }

  function ActiveDef(st: State, id: string): Option<Job> {
    if id in st.jobs && st.jobs[id].active then Some(st.jobs[id]) else None
  }

  // loadJob and the checks after it; `err` is a storage error.
  function Load(st: State, o: nat, err: bool): State {
    if HasWorker(st, o) && st.workers[o].Fetched? then
      st.(workers := st.workers[o :=
        if err then Returned(false)
        else match ActiveDef(st, st.occs[o].job)
          case None => Returned(true)
          case Some(def) => Loaded(def)])
    else st
  }

  // deliver and recordExecution; `accepted` is the consumer's answer.
  function Deliver(cfg: Config, st: State, o: nat, accepted: bool): State {
    if HasWorker(st, o) && st.workers[o].Loaded? then
      var def := st.workers[o].def;
      var ok := accepted && SplitRequestURL(def.url).Some?;
      st.(log := st.log + [Delivery(o, def.id, st.occs[o].plan, ok)],
          workers := st.workers[o :=
            if ok then Delivered(def)
            else if st.occs[o].attempt >= cfg.maxAttempts then Exhausted(def)
            else Returned(false)])
    else st
  }

  // UPDATE gua_jobs SET active=false WHERE id=...
  function SetInactive(st: State, id: string): State {
    if id in st.jobs then st.(jobs := st.jobs[id := st.jobs[id].(active := false)]) else st
  }

  // The pause after the last failed attempt; a storage error is only logged.
  function PauseExhausted(st: State, o: nat, err: bool): State {
    if HasWorker(st, o) && st.workers[o].Exhausted? then
      var st1 := if err then st else SetInactive(st, st.workers[o].def.id);
      st1.(workers := st1.workers[o := Returned(false)])
    else st
  }

  // scheduleNext, when it commits
  function ScheduleNext(st: State, o: nat, def: Job, next: int): State {
    match ActiveDef(st, def.id)
    case None => st.(workers := st.workers[o := Returned(true)])
    case Some(row) =>
      var st1 := InsertOccurrence(st.(jobs := st.jobs[def.id := row.(exectime := next)]), def.id, def.group, next);
      st1.(workers := st1.workers[o := Rescheduled])
  }

  // What Work does after a delivery: drop a fire-once definition, pause one with a bad pattern, or
  // schedule the next occurrence. `err` is a storage error, which rolls the statement back.
  function Finish(cfg: Config, st: State, o: nat, err: bool): State {
    if HasWorker(st, o) && st.workers[o].Delivered? then
      var def := st.workers[o].def;
      if IsOnce(def.pattern) then
        st.(jobs := if err then st.jobs else st.jobs - {def.id}, workers := st.workers[o := Returned(true)])
      else if !cfg.parses(def.pattern) then
        var st1 := if err then st else SetInactive(st, def.id);
        st1.(workers := st1.workers[o := Returned(true)])
      else if err then st.(workers := st.workers[o := Returned(false)])
      else ScheduleNext(st, o, def, cfg.next(def.pattern, st.clock))
    else st
  }

  // A failed attempt goes back to the queue, or is discarded when it was the last.
  function AfterFailure(cfg: Config, occ: Occurrence): Occurrence {
    occ.(state := if occ.attempt >= cfg.maxAttempts then Finished else Pending)
  }

  // River records what Work returned.
  function Complete(cfg: Config, st: State, o: nat): State {
    if HasWorker(st, o) && (st.workers[o].Returned? || st.workers[o].Rescheduled?) then
      st.(occs := st.occs[o :=
            if st.workers[o] == Returned(false) then AfterFailure(cfg, st.occs[o])
            else st.occs[o].(state := Finished)],
          workers := st.workers - {o})
    else st
  }

  // The worker's process dies.
  function Crash(st: State, o: nat): State {
    st.(workers := st.workers - {o})
  }

  // River's rescuer finds a running occurrence without a worker.
  function Rescue(cfg: Config, st: State, o: nat): State {
    if o in st.occs && st.occs[o].state == Running && o !in st.workers then
      st.(occs := st.occs[o := AfterFailure(cfg, st.occs[o])])
    else st
  }

  // ----- runs -----

  datatype Event =
    | RegisterGroupEv(group: string)
    | RemoveGroupEv(group: string)
    | PushEv(job: Job)
    | EditEv(group: string, id: string, url: string, payload: string)
    | ActiveEv(group: string, id: string, exectime: int)
    | PauseEv(group: string, id: string)
    | DeleteEv(group: string, id: string)
    | DeleteJobsEv(group: string, name: string)
    | AdvanceEv(seconds: nat)
    | FetchEv(occ: nat)
    | LoadEv(occ: nat, err: bool)
    | DeliverEv(occ: nat, accepted: bool)
    | PauseExhaustedEv(occ: nat, err: bool)
    | FinishEv(occ: nat, err: bool)
    | CompleteEv(occ: nat)
    | CrashEv(occ: nat)
    | RescueEv(occ: nat)

  // The clock and the admin transactions: no worker changes.
  predicate OfAdmin(ev: Event) {
    || ev.RegisterGroupEv? || ev.RemoveGroupEv? || ev.PushEv? || ev.EditEv? || ev.ActiveEv? || ev.PauseEv?
    || ev.DeleteEv? || ev.DeleteJobsEv? || ev.AdvanceEv?
  }

  // The steps of River and the worker, up to and after the decision of Finish.
  predicate BeforeFinish(ev: Event) {
    ev.FetchEv? || ev.LoadEv? || ev.DeliverEv? || ev.PauseExhaustedEv?
  }

  predicate AfterFinish(ev: Event) {
    ev.CompleteEv? || ev.CrashEv? || ev.RescueEv?
  }

  // One step. An event that is not enabled changes nothing.
  function Apply(cfg: Config, st: State, ev: Event): State {
    match ev
    case RegisterGroupEv(g) => RegisterGroup(st, g).0
    case RemoveGroupEv(g) => RemoveGroup(st, g).0
    case PushEv(job) => Push(cfg, st, job).0
    case EditEv(g, id, url, payload) => Edit(st, g, id, url, payload).0
    case ActiveEv(g, id, exectime) => Activate(st, g, id, exectime).0
    case PauseEv(g, id) => Pause(st, g, id).0
    case DeleteEv(g, id) => Delete(st, g, id).0
    case DeleteJobsEv(g, name) => DeleteJobs(st, g, name).0
    case AdvanceEv(seconds) => st.(clock := st.clock + seconds)
    case FetchEv(o) => Fetch(st, o)
    case LoadEv(o, err) => Load(st, o, err)
    case DeliverEv(o, accepted) => Deliver(cfg, st, o, accepted)
    case PauseExhaustedEv(o, err) => PauseExhausted(st, o, err)
    case FinishEv(o, err) => Finish(cfg, st, o, err)
    case CompleteEv(o) => Complete(cfg, st, o)
    case CrashEv(o) => Crash(st, o)
    case RescueEv(o) => Rescue(cfg, st, o)
  }

  // Any interleaving of admin transactions, worker steps, crashes and rescues.
  function Run(cfg: Config, st: State, evs: seq<Event>): State
    decreases |evs|
  {
    if evs == [] then st else Run(cfg, Apply(cfg, st, evs[0]), evs[1..])
  }
}
