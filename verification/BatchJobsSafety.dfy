/** What the batch job protocol guarantees in every run. */
module BatchJobsSafety {
  import opened Common
  import opened BatchJobEntity
  import opened BatchJobs

  // ---------- in every run ----------

  /** The jobs that workers carry around are what the table may receive. */
  ghost predicate CarriesSoundJobs(pc: Pc, usedIds: set<JobId>) {
    match pc
    case Interrupting(orphans) =>
      forall i :: 0 <= i < |orphans| ==> orphans[i].1.IsRunning() && orphans[i].0 in usedIds
    case Spawning(id, job) => job.IsRunning() && job.Consistent() && id in usedIds
    case Executing(id, job) => job.IsRunning() && job.Consistent() && id in usedIds
    case Finalizing(id, job) => !job.IsRunning() && job.Consistent() && id in usedIds
    case _ => true
  }

  ghost predicate JobsSound(s: State) {
    && (forall id :: id in s.jobs ==> s.jobs[id].Consistent() && id in s.usedIds)
    && (forall w :: w in s.workers ==> CarriesSoundJobs(s.workers[w].pc, s.usedIds))
  }

  /** How often a worker has released what it acquired. */
  ghost predicate ReleasesOnce(worker: Worker) {
    var pc := worker.pc;
    if pc.AtStart? || pc.AtGate? || pc.Acquiring? then !worker.acquired && worker.releases == 0
    else if InCharge(pc) then worker.acquired && worker.releases == 0
    else if pc.Crashed? then worker.releases <= (if worker.acquired then 1 else 0)
    else worker.releases == if worker.acquired then 1 else 0
  }

  /** Between the gate and the hand-over to the background. */
  predicate PastGate(pc: Pc) { InHandler(pc) && !pc.AtGate? }

  /** A worker against its process's mutex, gate and wait group. */
  ghost predicate WorkerGated(s: State, w: WorkerId)
    requires w in s.workers
  {
    var worker := s.workers[w];
    && worker.process in s.procs
    && (worker.pc.Crashed? <==> !s.procs[worker.process].alive)
    && (worker.trigger.Admin? && InHandler(worker.pc) ==>
          s.procs[worker.process].mutex == Some(Handler(w)))
    && (worker.trigger.Admin? && PastGate(worker.pc) ==> !s.procs[worker.process].closed)
    && (worker.trigger.Admin? && InBackground(worker.pc) ==> w in s.procs[worker.process].group)
  }

  predicate ProcessGated(proc: Process) {
    && (proc.closed <==> proc.wait.WaitClosed? || proc.wait.Draining? || proc.wait.WaitReturned?)
    && (proc.wait.WaitLocked? || proc.wait.WaitClosed? ==> proc.mutex == Some(Waiter))
    && (proc.wait.WaitReturned? ==> proc.group == {})
  }

  ghost predicate GatesOk(s: State) {
    && (forall p :: p in s.procs ==> ProcessGated(s.procs[p]))
    && (forall w :: w in s.workers ==> WorkerGated(s, w))
  }

  ghost predicate Inv(s: State) {
    && JobsSound(s)
    && (forall w :: w in s.workers ==> ReleasesOnce(s.workers[w]))
    && GatesOk(s)
  }

  lemma {:induction false} SavedIsSound(jobs: Jobs, id: JobId, job: Job, usedIds: set<JobId>)
    requires forall i :: i in jobs ==> jobs[i].Consistent() && i in usedIds
    requires job.Consistent() && id in usedIds
    ensures forall i :: i in Saved(jobs, id, job) ==>
      Saved(jobs, id, job)[i].Consistent() && i in usedIds
  {
  }

  lemma {:induction false} SoundAfterMove(s: State, s': State, w: WorkerId)
    requires JobsSound(s)
    requires forall id :: id in s'.jobs ==> s'.jobs[id].Consistent() && id in s'.usedIds
    requires s.usedIds <= s'.usedIds && w in s'.workers && s'.workers.Keys <= s.workers.Keys + {w}
    requires forall v :: v in s'.workers && v != w ==> s'.workers[v].pc == s.workers[v].pc
    requires CarriesSoundJobs(s'.workers[w].pc, s'.usedIds)
    ensures JobsSound(s')
  {
    forall v | v in s'.workers ensures CarriesSoundJobs(s'.workers[v].pc, s'.usedIds) {
      if v != w {
        assert CarriesSoundJobs(s.workers[v].pc, s.usedIds);
      }
    }
  }

  lemma {:induction false} JobsSoundAfterInterrupt(s: State, act: Action)
    requires JobsSound(s) && Enabled(s, act) && act.InterruptOrphan?
    ensures JobsSound(Next(s, act))
  {
    var w := act.w;
    var orphans := s.workers[w].pc.orphans;
    assert CarriesSoundJobs(s.workers[w].pc, s.usedIds);
    if orphans != [] {
      SavedIsSound(s.jobs, orphans[0].0,
                   Finished(orphans[0].1, BatchJobEntity.Interrupted, "", act.now), s.usedIds);
      forall i | 0 <= i < |orphans[1..]| ensures orphans[1..][i] == orphans[i + 1] {}
    }
    SoundAfterMove(s, Next(s, act), w);
  }

  lemma {:induction false} JobsSoundAfterSave(s: State, act: Action)
    requires JobsSound(s) && Enabled(s, act) && (act.SaveNew? || act.SaveFinal?)
    ensures JobsSound(Next(s, act))
  {
    var w := act.w;
    assert CarriesSoundJobs(s.workers[w].pc, s.usedIds);
    if act.SaveNew? {
      var job := Started(s.workers[w].trigger,
                         if s.workers[w].trigger.Admin? then act.requester else None, act.now);
      SavedIsSound(s.jobs, act.id, job, s.usedIds + {act.id});
    } else {
      SavedIsSound(s.jobs, s.workers[w].pc.id, s.workers[w].pc.job, s.usedIds);
    }
    SoundAfterMove(s, Next(s, act), w);
  }

  lemma {:induction false} JobsSoundAfterExecute(s: State, act: Action)
    requires JobsSound(s) && Enabled(s, act) && (act.Execute? || act.Spawn?)
    ensures JobsSound(Next(s, act))
  {
    assert CarriesSoundJobs(s.workers[act.w].pc, s.usedIds);
    SoundAfterMove(s, Next(s, act), act.w);
  }

  lemma {:induction false} JobsSoundAfterOthers(s: State, act: Action)
    requires JobsSound(s) && Enabled(s, act)
    requires !act.InterruptOrphan? && !act.SaveNew? && !act.SaveFinal? && !act.Execute? && !act.Spawn?
    ensures JobsSound(Next(s, act))
  {
    var s' := Next(s, act);
    assert s'.jobs == s.jobs && s'.usedIds == s.usedIds;
    forall w | w in s'.workers ensures CarriesSoundJobs(s'.workers[w].pc, s'.usedIds) {
      if w in s.workers {
        assert CarriesSoundJobs(s.workers[w].pc, s.usedIds);
      }
    }
  }

  lemma {:induction false} JobsSoundAfter(s: State, act: Action)
    requires JobsSound(s) && Enabled(s, act)
    ensures JobsSound(Next(s, act))
  {
    if act.InterruptOrphan? {
      JobsSoundAfterInterrupt(s, act);
    } else if act.SaveNew? || act.SaveFinal? {
      JobsSoundAfterSave(s, act);
    } else if act.Execute? || act.Spawn? {
      JobsSoundAfterExecute(s, act);
    } else {
      JobsSoundAfterOthers(s, act);
    }
  }

  lemma {:induction false} ReleasesOnceAfterMove(s: State, act: Action)
    requires (forall w :: w in s.workers ==> ReleasesOnce(s.workers[w])) && Enabled(s, act) && OnlyMovesWorker(act)
    ensures forall w :: w in Next(s, act).workers ==> ReleasesOnce(Next(s, act).workers[w])
  {
  }

  lemma {:induction false} ReleasesOnceAfterOthers(s: State, act: Action)
    requires (forall w :: w in s.workers ==> ReleasesOnce(s.workers[w])) && Enabled(s, act) && !OnlyMovesWorker(act)
    ensures forall w :: w in Next(s, act).workers ==> ReleasesOnce(Next(s, act).workers[w])
  {
  }

  lemma {:induction false} ReleasesOnceAfter(s: State, act: Action)
    requires (forall w :: w in s.workers ==> ReleasesOnce(s.workers[w])) && Enabled(s, act)
    ensures forall w :: w in Next(s, act).workers ==> ReleasesOnce(Next(s, act).workers[w])
  {
    if OnlyMovesWorker(act) {
      ReleasesOnceAfterMove(s, act);
    } else {
      ReleasesOnceAfterOthers(s, act);
    }
  }

  // ---------- the gate ----------

  predicate Begins(act: Action) {
    act.PassGate? || act.TryAcquire? || act.FindOrphans? || act.InterruptOrphan?
  }

  predicate OnlyMovesWorker(act: Action) {
    Begins(act) || act.SaveNew? || act.Execute? || act.SaveFinal? || act.Release?
  }

  predicate OnlyChangesProcess(act: Action) {
    act.Boot? || act.Cancel? || act.UnlockMutex? || act.WaitLock? || act.WaitClose?
    || act.WaitUnlock? || act.WaitReturn? || act.LoseSession? || act.SessionEnds?
  }

  lemma {:induction false} GatesAfterBegin(s: State, act: Action)
    requires GatesOk(s) && Enabled(s, act) && (act.PassGate? || act.TryAcquire?)
    ensures GatesOk(Next(s, act))
  {
    var s' := Next(s, act);
    assert s'.procs == s.procs;
    forall w | w in s'.workers ensures WorkerGated(s', w) {
      assert WorkerGated(s, w);
    }
  }

  lemma {:induction false} GatesAfterFind(s: State, act: Action)
    requires GatesOk(s) && Enabled(s, act) && act.FindOrphans?
    ensures GatesOk(Next(s, act))
  {
    var s' := Next(s, act);
    assert s'.procs == s.procs;
    forall w | w in s'.workers ensures WorkerGated(s', w) {
      assert WorkerGated(s, w);
    }
  }

  /** A worker goes on under the mutex, past the gate. */
  lemma {:induction false} GatesWithinHandler(s: State, s': State, w: WorkerId, pc: Pc)
    requires GatesOk(s) && w in s.workers && PastGate(s.workers[w].pc) && PastGate(pc)
    requires s'.procs == s.procs && s'.workers == s.workers[w := s.workers[w].(pc := pc)]
    ensures GatesOk(s')
  {
    forall v | v in s'.workers ensures WorkerGated(s', v) {
      assert WorkerGated(s, v);
    }
  }

  lemma {:induction false} GatesAfterInterrupt(s: State, act: Action)
    requires GatesOk(s) && Enabled(s, act) && act.InterruptOrphan?
    ensures GatesOk(Next(s, act))
  {
    GatesWithinHandler(s, Next(s, act), act.w, Next(s, act).workers[act.w].pc);
  }

  lemma {:induction false} GatesAfterSave(s: State, act: Action)
    requires GatesOk(s) && Enabled(s, act) && (act.SaveNew? || act.SaveFinal?)
    ensures GatesOk(Next(s, act))
  {
    var s' := Next(s, act);
    assert s'.procs == s.procs;
    forall w | w in s'.workers ensures WorkerGated(s', w) {
      assert WorkerGated(s, w);
    }
  }

  lemma {:induction false} GatesAfterExecute(s: State, act: Action)
    requires GatesOk(s) && Enabled(s, act) && (act.Execute? || act.Release?)
    ensures GatesOk(Next(s, act))
  {
    var s' := Next(s, act);
    assert s'.procs == s.procs;
    forall w | w in s'.workers ensures WorkerGated(s', w) {
      assert WorkerGated(s, w);
    }
  }

  predicate IsWait(act: Action) {
    act.WaitLock? || act.WaitClose? || act.WaitUnlock? || act.WaitReturn?
  }

  lemma {:induction false} GatesAfterWait(s: State, act: Action)
    requires GatesOk(s) && Enabled(s, act) && IsWait(act)
    ensures GatesOk(Next(s, act))
  {
    var s' := Next(s, act);
    assert s'.workers == s.workers;
    forall w | w in s'.workers ensures WorkerGated(s', w) {
      assert WorkerGated(s, w);
    }
  }

  lemma {:induction false} GatesAfterProcessChange(s: State, act: Action)
    requires GatesOk(s) && Enabled(s, act) && OnlyChangesProcess(act) && !IsWait(act)
    ensures GatesOk(Next(s, act))
  {
    var s' := Next(s, act);
    assert s'.workers == s.workers;
    forall w | w in s'.workers ensures WorkerGated(s', w) {
      assert WorkerGated(s, w);
    }
  }

  lemma {:induction false} GatesAfterArrival(s: State, act: Action)
    requires GatesOk(s) && Enabled(s, act) && (act.Arrive? || act.LockMutex?)
    ensures GatesOk(Next(s, act))
  {
    var s' := Next(s, act);
    forall w | w in s'.workers ensures WorkerGated(s', w) {
      if w in s.workers {
        assert WorkerGated(s, w);
      }
    }
  }

  lemma {:induction false} GatesAfterHandOver(s: State, act: Action)
    requires GatesOk(s) && Enabled(s, act) && (act.Spawn? || act.Return?)
    ensures GatesOk(Next(s, act))
  {
    var s' := Next(s, act);
    assert WorkerGated(s, act.w);
    forall w | w in s'.workers ensures WorkerGated(s', w) {
      assert WorkerGated(s, w);
    }
  }

  lemma {:induction false} GatesAfterCrash(s: State, p: ProcId)
    requires GatesOk(s) && Enabled(s, Crash(p))
    ensures GatesOk(Next(s, Crash(p)))
  {
    var s' := Next(s, Crash(p));
    forall w | w in s'.workers ensures WorkerGated(s', w) {
      assert WorkerGated(s, w);
    }
  }

  lemma {:induction false} StepKeepsInv(s: State, act: Action)
    requires Inv(s) && Enabled(s, act)
    ensures Inv(Next(s, act))
  {
    JobsSoundAfter(s, act);
    ReleasesOnceAfter(s, act);
    if act.PassGate? || act.TryAcquire? {
      GatesAfterBegin(s, act);
    } else if act.FindOrphans? {
      GatesAfterFind(s, act);
    } else if act.InterruptOrphan? {
      GatesAfterInterrupt(s, act);
    } else if act.SaveNew? || act.SaveFinal? {
      GatesAfterSave(s, act);
    } else if act.Execute? || act.Release? {
      GatesAfterExecute(s, act);
    } else if IsWait(act) {
      GatesAfterWait(s, act);
    } else if OnlyChangesProcess(act) {
      GatesAfterProcessChange(s, act);
    } else if act.Crash? {
      GatesAfterCrash(s, act.p);
    } else if act.Arrive? || act.LockMutex? {
      GatesAfterArrival(s, act);
    } else {
      GatesAfterHandOver(s, act);
    }
  }
}
