/** The job protocol of the chart statistics batch as a state machine: any number of processes,
    each with any number of command-line runs and administration requests; one advisory lock;
    one job table; saves that fail or whose success is not acknowledged; crashes. */
module BatchJobs {
  import opened Common
  import opened BatchJobEntity

  type ProcId = nat
  type WorkerId = nat
  type JobId = nat
  type Jobs = map<JobId, Job>

  /** The advisory lock belongs to a database session. `Stranded` is a lock whose release
      failed: its session goes on holding it until the session ends. */
  datatype Lock = Free | HeldBy(worker: WorkerId) | Stranded

  datatype SaveResult = Stored | NotStored | StoredUnacknowledged

  datatype Holder = Handler(worker: WorkerId) | Waiter

  datatype WaitPhase = NotWaiting | WaitLocked | WaitClosed | Draining | WaitReturned

  datatype Process = Process(
    alive: bool,
    cancelled: bool,
    closed: bool,
    mutex: Option<Holder>,
    group: set<WorkerId>,
    wait: WaitPhase)

  datatype Pc =
    | AtStart
    | AtGate
    | Acquiring
    | FindingOrphans
    | Interrupting(orphans: seq<(JobId, Job)>)
    | SavingNew
    | BackingOff
    | Spawning(id: JobId, job: Job)
    | Executing(id: JobId, job: Job)
    | Finalizing(id: JobId, job: Job)
    | Releasing
    | Returning
    | Ended
    | Crashed

  datatype Worker = Worker(
    process: ProcId, trigger: Trigger, pc: Pc, acquired: bool, releases: nat)

  datatype State = State(
    jobs: Jobs,
    lock: Lock,
    usedIds: set<JobId>,
    procs: map<ProcId, Process>,
    workers: map<WorkerId, Worker>)

  datatype ExecOutcome = Succeeds | Errs(message: string)

  datatype Action =
    | Boot(p: ProcId)
    | Cancel(p: ProcId)
    | Arrive(w: WorkerId, p: ProcId, trigger: Trigger)
    | LockMutex(w: WorkerId)
    | PassGate(w: WorkerId)
    | TryAcquire(w: WorkerId, errs: bool)
    | FindOrphans(w: WorkerId, found: Option<seq<(JobId, Job)>>)
    | InterruptOrphan(w: WorkerId, now: int, save: SaveResult)
    | SaveNew(w: WorkerId, id: JobId, requester: Option<int>, now: int, save: SaveResult)
    | Spawn(w: WorkerId)
    | UnlockMutex(w: WorkerId)
    | Execute(w: WorkerId, outcome: ExecOutcome, now: int)
    | SaveFinal(w: WorkerId, save: SaveResult)
    | Release(w: WorkerId, fails: bool)
    | Return(w: WorkerId)
    | WaitLock(p: ProcId)
    | WaitClose(p: ProcId)
    | WaitUnlock(p: ProcId)
    | WaitReturn(p: ProcId)
    | Crash(p: ProcId)
    | LoseSession
    | SessionEnds

  // ---------- the job table ----------

  function RunningIds(jobs: Jobs): set<JobId> {
    set id | id in jobs && jobs[id].IsRunning()
  }

  /** Saving updates a running row, inserts a missing one and fails on a finished one. */
  predicate SaveAccepts(jobs: Jobs, id: JobId) {
    id in jobs ==> jobs[id].IsRunning()
  }

  function Saved(jobs: Jobs, id: JobId, job: Job): Jobs {
    if id !in jobs then jobs[id := job]
    else if jobs[id].IsRunning() then
      jobs[id := jobs[id].(status := job.status, finishedAt := job.finishedAt, message := job.message)]
    else jobs
  }

  function JobsAfterSave(jobs: Jobs, id: JobId, job: Job, save: SaveResult): Jobs {
    if save == NotStored then jobs else Saved(jobs, id, job)
  }

  // ---------- one worker ----------

  /** Between taking the lock and releasing it. */
  predicate InCharge(pc: Pc) {
    pc.FindingOrphans? || pc.Interrupting? || pc.SavingNew? || pc.BackingOff?
    || pc.Spawning? || pc.Executing? || pc.Finalizing? || pc.Releasing?
  }

  /** An administration request that still runs under its process's mutex. */
  predicate InHandler(pc: Pc) {
    pc.AtGate? || pc.Acquiring? || pc.FindingOrphans? || pc.Interrupting? || pc.SavingNew?
    || pc.BackingOff? || pc.Spawning?
  }

  /** An administration job that was handed to the background. */
  predicate InBackground(pc: Pc) {
    pc.Executing? || pc.Finalizing? || pc.Releasing? || pc.Returning?
  }

  function Moved(s: State, w: WorkerId, pc: Pc): State
    requires w in s.workers
  {
    s.(workers := s.workers[w := s.workers[w].(pc := pc)])
  }

  function WithProcess(s: State, p: ProcId, proc: Process): State {
    s.(procs := s.procs[p := proc])
  }

  predicate At(s: State, w: WorkerId) {
    w in s.workers && s.workers[w].process in s.procs && s.procs[s.workers[w].process].alive
  }

  function Proc(s: State, w: WorkerId): Process
    requires At(s, w)
  {
    s.procs[s.workers[w].process]
  }

  /** How the result of an execution is written into the job; None when it cannot be. */
  function Conclude(job: Job, outcome: ExecOutcome, cancelled: bool, now: int): Option<Job> {
    match outcome
    case Succeeds =>
      if CompleteError(job).None? then Some(Finished(job, Succeeded, "", now)) else None
    case Errs(message) =>
      if cancelled then
        if CompleteError(job).None?
        then Some(Finished(job, BatchJobEntity.Interrupted, Normalize(message), now)) else None
      else if FailError(job, message).None? then Some(Finished(job, Failed, Normalize(message), now))
      else None
  }

  /** Lists every running row once, in any order. */
  ghost predicate ListsRunning(found: seq<(JobId, Job)>, jobs: Jobs) {
    && (forall i :: 0 <= i < |found| ==>
          found[i].0 in jobs && jobs[found[i].0] == found[i].1 && found[i].1.IsRunning())
    && (forall id :: id in RunningIds(jobs) ==> exists i :: 0 <= i < |found| && found[i].0 == id)
    && (forall i, j :: 0 <= i < j < |found| ==> found[i].0 != found[j].0)
  }

  ghost predicate Enabled(s: State, act: Action) {
    match act
    case Boot(p) => p !in s.procs
    case Cancel(p) => p in s.procs && s.procs[p].alive
    case Arrive(w, p, _) => w !in s.workers && p in s.procs && s.procs[p].alive
    case LockMutex(w) =>
      At(s, w) && s.workers[w].pc.AtStart? && s.workers[w].trigger.Admin? && Proc(s, w).mutex.None?
    case PassGate(w) =>
      At(s, w) && if s.workers[w].trigger.Admin? then s.workers[w].pc.AtGate?
                  else s.workers[w].pc.AtStart?
    case TryAcquire(w, _) => At(s, w) && s.workers[w].pc.Acquiring?
    case FindOrphans(w, found) =>
      && At(s, w) && s.workers[w].pc.FindingOrphans?
      && (found.Some? ==> ListsRunning(found.value, s.jobs))
    case InterruptOrphan(w, _, save) =>
      && At(s, w) && s.workers[w].pc.Interrupting?
      && (s.workers[w].pc.orphans != [] && save != NotStored ==>
            SaveAccepts(s.jobs, s.workers[w].pc.orphans[0].0))
    case SaveNew(w, id, _, _, _) => At(s, w) && s.workers[w].pc.SavingNew? && id !in s.usedIds
    case Spawn(w) => At(s, w) && s.workers[w].pc.Spawning?
    case UnlockMutex(w) =>
      At(s, w) && Proc(s, w).mutex == Some(Handler(w)) && !InHandler(s.workers[w].pc)
    case Execute(w, _, _) => At(s, w) && s.workers[w].pc.Executing?
    case SaveFinal(w, save) =>
      && At(s, w) && s.workers[w].pc.Finalizing?
      && (save != NotStored ==> SaveAccepts(s.jobs, s.workers[w].pc.id))
    case Release(w, _) => At(s, w) && (s.workers[w].pc.BackingOff? || s.workers[w].pc.Releasing?)
    case Return(w) => At(s, w) && s.workers[w].pc.Returning?
    case WaitLock(p) =>
      p in s.procs && s.procs[p].alive && s.procs[p].wait == NotWaiting && s.procs[p].mutex.None?
    case WaitClose(p) => p in s.procs && s.procs[p].alive && s.procs[p].wait == WaitLocked
    case WaitUnlock(p) => p in s.procs && s.procs[p].alive && s.procs[p].wait == WaitClosed
    case WaitReturn(p) =>
      p in s.procs && s.procs[p].alive && s.procs[p].wait == Draining && s.procs[p].group == {}
    case Crash(p) => p in s.procs && s.procs[p].alive
    case LoseSession => s.lock.HeldBy?
    case SessionEnds => s.lock == Stranded
  }

  function AfterRelease(s: State, w: WorkerId, fails: bool, pc: Pc): State
    requires w in s.workers
  {
    s.(workers := s.workers[w := s.workers[w].(pc := pc, releases := s.workers[w].releases + 1)],
       lock := if s.lock == HeldBy(w) then if fails then Stranded else Free else s.lock)
  }

  function AfterCrash(s: State, p: ProcId): State
    requires p in s.procs
  {
    s.(procs := s.procs[p := s.procs[p].(alive := false)],
       lock := if s.lock.HeldBy? && s.lock.worker in s.workers && s.workers[s.lock.worker].process == p
               then Free else s.lock,
       workers := map w | w in s.workers ::
         if s.workers[w].process == p then s.workers[w].(pc := Crashed) else s.workers[w])
  }

  ghost function Next(s: State, act: Action): State
    requires Enabled(s, act)
  {
    match act
    case Boot(p) => WithProcess(s, p, Process(true, false, false, None, {}, NotWaiting))
    case Cancel(p) => WithProcess(s, p, s.procs[p].(cancelled := true))
    case Arrive(w, p, trigger) =>
      s.(workers := s.workers[w := Worker(p, trigger, AtStart, false, 0)])
    case LockMutex(w) =>
      WithProcess(Moved(s, w, AtGate), s.workers[w].process, Proc(s, w).(mutex := Some(Handler(w))))
    case PassGate(w) =>
      if s.workers[w].trigger.Admin? && (Proc(s, w).closed || Proc(s, w).cancelled)
      then Moved(s, w, Ended) else Moved(s, w, Acquiring)
    case TryAcquire(w, errs) =>
      if errs || s.lock != Free then Moved(s, w, Ended)
      else s.(lock := HeldBy(w),
              workers := s.workers[w := s.workers[w].(pc := FindingOrphans, acquired := true)])
    case FindOrphans(w, found) =>
      Moved(s, w, if found.None? then BackingOff else Interrupting(found.value))
    case InterruptOrphan(w, now, save) =>
      var orphans := s.workers[w].pc.orphans;
      if orphans == [] then Moved(s, w, SavingNew)
      else if CompleteError(orphans[0].1).Some? then Moved(s, w, BackingOff)
      else
        var job := Finished(orphans[0].1, BatchJobEntity.Interrupted, "", now);
        var s' := s.(jobs := JobsAfterSave(s.jobs, orphans[0].0, job, save));
        Moved(s', w, if save == Stored then Interrupting(orphans[1..]) else BackingOff)
    case SaveNew(w, id, requester, now, save) =>
      var job := Started(s.workers[w].trigger,
                         if s.workers[w].trigger.Admin? then requester else None, now);
      var s' := s.(jobs := JobsAfterSave(s.jobs, id, job, save), usedIds := s.usedIds + {id});
      Moved(s', w, if save == Stored then Spawning(id, job) else BackingOff)
    case Spawn(w) =>
      var s' := Moved(s, w, Executing(s.workers[w].pc.id, s.workers[w].pc.job));
      if s.workers[w].trigger.Admin?
      then WithProcess(s', s.workers[w].process, Proc(s, w).(group := Proc(s, w).group + {w}))
      else s'
    case UnlockMutex(w) => WithProcess(s, s.workers[w].process, Proc(s, w).(mutex := None))
    case Execute(w, outcome, now) =>
      var concluded := Conclude(s.workers[w].pc.job, outcome, Proc(s, w).cancelled, now);
      Moved(s, w, if concluded.None? then Releasing
                  else Finalizing(s.workers[w].pc.id, concluded.value))
    case SaveFinal(w, save) =>
      Moved(s.(jobs := JobsAfterSave(s.jobs, s.workers[w].pc.id, s.workers[w].pc.job, save)), w, Releasing)
    case Release(w, fails) =>
      AfterRelease(s, w, fails, if s.workers[w].pc.BackingOff? then Ended else Returning)
    case Return(w) =>
      WithProcess(Moved(s, w, Ended), s.workers[w].process, Proc(s, w).(group := Proc(s, w).group - {w}))
    case WaitLock(p) => WithProcess(s, p, s.procs[p].(mutex := Some(Waiter), wait := WaitLocked))
    case WaitClose(p) => WithProcess(s, p, s.procs[p].(closed := true, wait := WaitClosed))
    case WaitUnlock(p) => WithProcess(s, p, s.procs[p].(mutex := None, wait := Draining))
    case WaitReturn(p) => WithProcess(s, p, s.procs[p].(wait := WaitReturned))
    case Crash(p) => AfterCrash(s, p)
    case LoseSession => s.(lock := Free)
    case SessionEnds => s.(lock := Free)
  }

  ghost predicate IsRun(states: seq<State>, acts: seq<Action>) {
    && |states| == |acts| + 1
    && forall k :: 0 <= k < |acts| ==>
         Enabled(states[k], acts[k]) && states[k + 1] == Next(states[k], acts[k])
  }

  /** Any consistent job table, with leftovers of earlier crashes, and no process yet. */
  ghost predicate Init(s: State) {
    && (forall id :: id in s.jobs ==> s.jobs[id].Consistent() && id in s.usedIds)
    && s.lock == Free && s.procs == map[] && s.workers == map[]
  }
}
