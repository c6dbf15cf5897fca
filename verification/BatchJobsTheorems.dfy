/** The batch job protocol over whole runs. Exclusive execution needs the sessions that hold
    the advisory lock to live as long as their processes; everything else holds even when a
    session is lost and its process goes on. */
module BatchJobsTheorems {
  import opened Common
  import opened BatchJobEntity
  import opened BatchJobs
  import opened BatchJobsSafety

  // ---------- exclusive execution ----------

  /** Only a worker in charge holds the lock. */
  ghost predicate HolderInCharge(s: State) {
    s.lock.HeldBy? ==> s.lock.worker in s.workers && InCharge(s.workers[s.lock.worker].pc)
  }

  /** And whoever is in charge holds it. */
  ghost predicate ChargeOk(s: State) {
    && HolderInCharge(s)
    && forall w :: w in s.workers && InCharge(s.workers[w].pc) ==> s.lock == HeldBy(w)
  }

  /** What the worker in charge knows about the running rows. */
  ghost predicate TableMatches(jobs: Jobs, pc: Pc) {
    match pc
    case Interrupting(orphans) => ListsRunning(orphans, jobs)
    case SavingNew => RunningIds(jobs) == {}
    case Spawning(id, job) => id in jobs && jobs[id] == job && RunningIds(jobs) == {id}
    case Executing(id, job) => id in jobs && jobs[id] == job && RunningIds(jobs) == {id}
    case Finalizing(id, _) => id in jobs && RunningIds(jobs) == {id}
    case _ => true
  }

  ghost predicate Exclusive(s: State) {
    && ChargeOk(s)
    && forall w :: w in s.workers ==> TableMatches(s.jobs, s.workers[w].pc)
  }

  lemma {:induction false} ChargeAfterBegin(s: State, act: Action)
    requires ChargeOk(s) && Enabled(s, act) && Begins(act)
    ensures ChargeOk(Next(s, act))
  {
  }

  lemma {:induction false} ChargeAfterJobStep(s: State, act: Action)
    requires ChargeOk(s) && Enabled(s, act) && OnlyMovesWorker(act) && !Begins(act)
    ensures ChargeOk(Next(s, act))
  {
  }

  lemma {:induction false} ChargeAfterOthers(s: State, act: Action)
    requires ChargeOk(s) && Enabled(s, act) && !OnlyMovesWorker(act) && !act.LoseSession?
    ensures ChargeOk(Next(s, act))
  {
  }

  lemma {:induction false} ChargeAfter(s: State, act: Action)
    requires ChargeOk(s) && Enabled(s, act) && !act.LoseSession?
    ensures ChargeOk(Next(s, act))
  {
    if Begins(act) {
      ChargeAfterBegin(s, act);
    } else if OnlyMovesWorker(act) {
      ChargeAfterJobStep(s, act);
    } else {
      ChargeAfterOthers(s, act);
    }
  }

  lemma {:induction false} RunningAfterSave(jobs: Jobs, id: JobId, job: Job)
    requires SaveAccepts(jobs, id)
    ensures id in Saved(jobs, id, job) && Saved(jobs, id, job)[id].status == job.status
    ensures RunningIds(Saved(jobs, id, job))
         == if job.IsRunning() then RunningIds(jobs) + {id} else RunningIds(jobs) - {id}
  {
  }

  lemma {:induction false} OrphanSaved(jobs: Jobs, orphans: seq<(JobId, Job)>, now: int)
    requires ListsRunning(orphans, jobs) && orphans != []
    ensures SaveAccepts(jobs, orphans[0].0) && CompleteError(orphans[0].1).None?
    ensures var job := Finished(orphans[0].1, BatchJobEntity.Interrupted, "", now);
      ListsRunning(orphans[1..], Saved(jobs, orphans[0].0, job))
  {
    var id := orphans[0].0;
    var job := Finished(orphans[0].1, BatchJobEntity.Interrupted, "", now);
    var jobs' := Saved(jobs, id, job);
    RunningAfterSave(jobs, id, job);
    var rest := orphans[1..];
    forall i | 0 <= i < |rest|
      ensures rest[i].0 in jobs' && jobs'[rest[i].0] == rest[i].1 && rest[i].1.IsRunning()
    {
      assert rest[i] == orphans[i + 1];
    }
    forall other | other in RunningIds(jobs') ensures exists i :: 0 <= i < |rest| && rest[i].0 == other {
      var i :| 0 <= i < |orphans| && orphans[i].0 == other;
      assert rest[i - 1] == orphans[i];
    }
    forall i, j | 0 <= i < j < |rest| ensures rest[i].0 != rest[j].0 {
      assert rest[i] == orphans[i + 1] && rest[j] == orphans[j + 1];
    }
  }

  lemma {:induction false} OwnTableAfter(s: State, act: Action, w: WorkerId)
    requires Exclusive(s) && Inv(s) && Enabled(s, act)
    requires act.InterruptOrphan? || act.SaveNew? || act.SaveFinal?
    requires act.w == w
    ensures TableMatches(Next(s, act).jobs, Next(s, act).workers[w].pc)
  {
    var pc := s.workers[w].pc;
    assert TableMatches(s.jobs, pc);
    match act
    case InterruptOrphan(_, now, save) =>
      if pc.orphans == [] {
        assert RunningIds(s.jobs) == {};
      } else {
        OrphanSaved(s.jobs, pc.orphans, now);
      }
    case SaveNew(_, id, requester, now, save) =>
      var job := Started(s.workers[w].trigger,
                         if s.workers[w].trigger.Admin? then requester else None, now);
      assert id !in s.jobs;
      RunningAfterSave(s.jobs, id, job);
    case SaveFinal(_, save) =>
  }

  lemma {:induction false} ExclusiveAfterSave(s: State, act: Action)
    requires Exclusive(s) && Inv(s) && Enabled(s, act)
    requires act.InterruptOrphan? || act.SaveNew? || act.SaveFinal?
    ensures Exclusive(Next(s, act))
  {
    var s' := Next(s, act);
    ChargeAfter(s, act);
    forall w | w in s'.workers ensures TableMatches(s'.jobs, s'.workers[w].pc) {
      if w == act.w {
        OwnTableAfter(s, act, w);
      } else {
        assert s'.workers[w] == s.workers[w];
        assert !InCharge(s.workers[w].pc);
      }
    }
  }

  lemma {:induction false} ExclusiveAfter(s: State, act: Action)
    requires Exclusive(s) && Inv(s) && Enabled(s, act) && !act.LoseSession?
    ensures Exclusive(Next(s, act))
  {
    var s' := Next(s, act);
    if act.InterruptOrphan? || act.SaveNew? || act.SaveFinal? {
      ExclusiveAfterSave(s, act);
    } else {
      ChargeAfter(s, act);
      assert s'.jobs == s.jobs;
      forall w | w in s'.workers ensures TableMatches(s'.jobs, s'.workers[w].pc) {
        if w in s.workers {
          assert TableMatches(s.jobs, s.workers[w].pc);
        }
      }
    }
  }

  // ---------- runs ----------

  lemma {:induction false} RunKeepsInv(states: seq<State>, acts: seq<Action>, k: nat)
    requires IsRun(states, acts) && Init(states[0]) && k < |states|
    ensures Inv(states[k])
  {
    if k > 0 {
      RunKeepsInv(states, acts, k - 1);
      StepKeepsInv(states[k - 1], acts[k - 1]);
    }
  }

  ghost predicate SessionsLive(acts: seq<Action>) {
    forall k :: 0 <= k < |acts| ==> !acts[k].LoseSession?
  }

  lemma {:induction false} RunStaysExclusive(states: seq<State>, acts: seq<Action>, k: nat)
    requires IsRun(states, acts) && Init(states[0]) && SessionsLive(acts) && k < |states|
    ensures Exclusive(states[k])
  {
    if k > 0 {
      RunStaysExclusive(states, acts, k - 1);
      RunKeepsInv(states, acts, k - 1);
      ExclusiveAfter(states[k - 1], acts[k - 1]);
    }
  }

  /** At most one worker of all processes is between acquiring and releasing the lock. */
  lemma {:induction false} OneInCharge(states: seq<State>, acts: seq<Action>, k: nat, w: WorkerId, v: WorkerId)
    requires IsRun(states, acts) && Init(states[0]) && SessionsLive(acts) && k < |states|
    requires w in states[k].workers && InCharge(states[k].workers[w].pc)
    requires v in states[k].workers && InCharge(states[k].workers[v].pc)
    ensures v == w
  {
    RunStaysExclusive(states, acts, k);
  }

  /** While a batch executes, the only running row of the table is its own, as it was created. */
  lemma {:induction false} OnlyOwnJobRuns(states: seq<State>, acts: seq<Action>, k: nat, w: WorkerId)
    requires IsRun(states, acts) && Init(states[0]) && SessionsLive(acts) && k < |states|
    requires w in states[k].workers && states[k].workers[w].pc.Executing?
    ensures var pc := states[k].workers[w].pc;
      && pc.id in states[k].jobs && states[k].jobs[pc.id] == pc.job
      && forall id :: id in states[k].jobs ==> (states[k].jobs[id].IsRunning() <==> id == pc.id)
  {
    RunStaysExclusive(states, acts, k);
    var s := states[k];
    assert TableMatches(s.jobs, s.workers[w].pc);
    forall id | id in s.jobs ensures s.jobs[id].IsRunning() <==> id == s.workers[w].pc.id {
      assert id in RunningIds(s.jobs) <==> id == s.workers[w].pc.id;
    }
  }

  /** The table never refuses a save: no worker meets a row finished behind its back. */
  lemma {:induction false} SavesAreAccepted(states: seq<State>, acts: seq<Action>, k: nat, w: WorkerId)
    requires IsRun(states, acts) && Init(states[0]) && SessionsLive(acts) && k < |states|
    requires w in states[k].workers
    ensures states[k].workers[w].pc.Finalizing? ==>
      SaveAccepts(states[k].jobs, states[k].workers[w].pc.id)
    ensures states[k].workers[w].pc.Interrupting? && states[k].workers[w].pc.orphans != [] ==>
      SaveAccepts(states[k].jobs, states[k].workers[w].pc.orphans[0].0)
  {
    RunStaysExclusive(states, acts, k);
    var s := states[k];
    var pc := s.workers[w].pc;
    assert TableMatches(s.jobs, pc);
    if pc.Finalizing? {
      assert pc.id in RunningIds(s.jobs);
    }
    if pc.Interrupting? && pc.orphans != [] {
      OrphanSaved(s.jobs, pc.orphans, 0);
    }
  }

  /** A job in the table is running exactly while it has no finishing time. */
  lemma {:induction false} StatusMatchesFinishingTime(states: seq<State>, acts: seq<Action>, k: nat, id: JobId)
    requires IsRun(states, acts) && Init(states[0]) && k < |states| && id in states[k].jobs
    ensures states[k].jobs[id].IsRunning() <==> states[k].jobs[id].finishedAt.None?
  {
    RunKeepsInv(states, acts, k);
  }

  lemma {:induction false} FinishedJobStays(s: State, act: Action, id: JobId)
    requires Enabled(s, act) && id in s.jobs && !s.jobs[id].IsRunning()
    ensures id in Next(s, act).jobs && Next(s, act).jobs[id] == s.jobs[id]
  {
  }

  /** A finished job never changes again, even when its session was lost and another process
      finished it first. No row is removed from the table here. */
  lemma {:induction false} FinishedJobsNeverChange(
    states: seq<State>, acts: seq<Action>, j: nat, k: nat, id: JobId)
    requires IsRun(states, acts) && j <= k < |states|
    requires id in states[j].jobs && !states[j].jobs[id].IsRunning()
    ensures id in states[k].jobs && states[k].jobs[id] == states[j].jobs[id]
    decreases k
  {
    if j < k {
      FinishedJobsNeverChange(states, acts, j, k - 1, id);
      FinishedJobStays(states[k - 1], acts[k - 1], id);
    }
  }

  /** A worker that has ended released the lock exactly once if it had acquired it, and not at
      all otherwise; before that it has not released it; a crashed one at most once. */
  lemma {:induction false} ReleasedExactlyOnce(states: seq<State>, acts: seq<Action>, k: nat, w: WorkerId)
    requires IsRun(states, acts) && Init(states[0]) && k < |states| && w in states[k].workers
    ensures var worker := states[k].workers[w];
      && (worker.pc.Ended? ==> worker.releases == if worker.acquired then 1 else 0)
      && (InCharge(worker.pc) ==> worker.acquired && worker.releases == 0)
      && worker.releases <= if worker.acquired then 1 else 0
  {
    RunKeepsInv(states, acts, k);
    assert ReleasesOnce(states[k].workers[w]);
  }

  // ---------- shutdown ----------

  lemma {:induction false} WaitStaysReturned(s: State, act: Action, p: ProcId)
    requires Enabled(s, act) && p in s.procs && s.procs[p].wait.WaitReturned?
    ensures p in Next(s, act).procs && Next(s, act).procs[p].wait.WaitReturned?
  {
  }

  lemma {:induction false} ReturnedForGood(
    states: seq<State>, acts: seq<Action>, j: nat, k: nat, p: ProcId)
    requires IsRun(states, acts) && j <= k < |states|
    requires p in states[j].procs && states[j].procs[p].wait.WaitReturned?
    ensures p in states[k].procs && states[k].procs[p].wait.WaitReturned?
    decreases k
  {
    if j < k {
      ReturnedForGood(states, acts, j, k - 1, p);
      WaitStaysReturned(states[k - 1], acts[k - 1], p);
    }
  }

  /** From the moment `Wait` returns, no administration job of that process is under way, and
      none gets past the gate in the rest of the run. */
  lemma {:induction false} NothingRunsAfterWait(
    states: seq<State>, acts: seq<Action>, j: nat, k: nat, p: ProcId, w: WorkerId)
    requires IsRun(states, acts) && Init(states[0]) && j <= k < |states|
    requires p in states[j].procs && states[j].procs[p].wait.WaitReturned?
    requires w in states[k].workers && states[k].workers[w].process == p
    requires states[k].workers[w].trigger.Admin?
    ensures var pc := states[k].workers[w].pc;
      pc.AtStart? || pc.AtGate? || pc.Ended? || pc.Crashed?
  {
    ReturnedForGood(states, acts, j, k, p);
    RunKeepsInv(states, acts, k);
    assert WorkerGated(states[k], w);
    assert ProcessGated(states[k].procs[p]);
  }

  predicate NotBegun(pc: Pc) { pc.AtStart? || pc.AtGate? || pc.Ended? || pc.Crashed? }

  lemma {:induction false} CancelKeepsOut(s: State, act: Action, w: WorkerId)
    requires Enabled(s, act) && w in Next(s, act).workers && Next(s, act).workers[w].trigger.Admin?
    requires w in s.workers ==>
      && s.workers[w].process in s.procs && s.procs[s.workers[w].process].cancelled && NotBegun(s.workers[w].pc)
    ensures NotBegun(Next(s, act).workers[w].pc)
    ensures w in s.workers ==>
      s.workers[w].trigger.Admin? && Next(s, act).workers[w].process == s.workers[w].process
  {
  }

  lemma {:induction false} CancelStays(s: State, act: Action, p: ProcId)
    requires Enabled(s, act) && p in s.procs && s.procs[p].cancelled
    ensures p in Next(s, act).procs && Next(s, act).procs[p].cancelled
  {
  }

  lemma {:induction false} CancelledForGood(states: seq<State>, acts: seq<Action>, j: nat, k: nat, p: ProcId)
    requires IsRun(states, acts) && j <= k < |states| && p in states[j].procs && states[j].procs[p].cancelled
    ensures p in states[k].procs && states[k].procs[p].cancelled
    decreases k
  {
    if j < k {
      CancelledForGood(states, acts, j, k - 1, p);
      CancelStays(states[k - 1], acts[k - 1], p);
    }
  }

  /** In a process that was cancelled, no administration job begins that had not passed the gate. */
  lemma {:induction false} NothingBeginsAfterCancel(
    states: seq<State>, acts: seq<Action>, j: nat, k: nat, p: ProcId, w: WorkerId)
    requires IsRun(states, acts) && j <= k < |states|
    requires p in states[j].procs && states[j].procs[p].cancelled
    requires w in states[k].workers && states[k].workers[w].process == p && states[k].workers[w].trigger.Admin?
    requires w in states[j].workers ==> NotBegun(states[j].workers[w].pc)
    ensures NotBegun(states[k].workers[w].pc)
    decreases k
  {
    if j < k {
      CancelledForGood(states, acts, j, k - 1, p);
      if w in states[k - 1].workers {
        SameWorker(states[k - 1], acts[k - 1], w);
        NothingBeginsAfterCancel(states, acts, j, k - 1, p, w);
      }
      CancelKeepsOut(states[k - 1], acts[k - 1], w);
    }
  }

  lemma {:induction false} SameWorkerAfterMove(s: State, act: Action, w: WorkerId)
    requires Enabled(s, act) && w in s.workers && OnlyMovesWorker(act)
    ensures w in Next(s, act).workers && Next(s, act).workers[w].trigger == s.workers[w].trigger
    ensures Next(s, act).workers[w].process == s.workers[w].process
  {
  }

  lemma {:induction false} SameWorker(s: State, act: Action, w: WorkerId)
    requires Enabled(s, act) && w in s.workers
    ensures w in Next(s, act).workers && Next(s, act).workers[w].trigger == s.workers[w].trigger
    ensures Next(s, act).workers[w].process == s.workers[w].process
  {
    if OnlyMovesWorker(act) {
      SameWorkerAfterMove(s, act, w);
    }
  }
}
