/** What the job table records of the executions, over whole runs. */
module BatchJobsRecords {
  import opened Common
  import opened BatchJobEntity
  import opened BatchJobs
  import opened BatchJobsSafety
  import opened BatchJobsTheorems

  // ---------- the reason text ----------

  ghost predicate Blank(s: string) {
    forall i :: 0 <= i < |s| ==> IsSpace(s[i])
  }

  lemma {:induction false} LeftTrimmed(s: string) returns (a: string)
    ensures Blank(a) && s == a + TrimLeft(s) && (TrimLeft(s) != "" ==> !IsSpace(TrimLeft(s)[0]))
  {
    if s != "" && IsSpace(s[0]) {
      var rest := LeftTrimmed(s[1..]);
      a := [s[0]] + rest;
      assert s == [s[0]] + s[1..];
    } else {
      a := "";
    }
  }

  lemma {:induction false} RightTrimmed(s: string) returns (b: string)
    ensures Blank(b) && s == TrimRight(s) + b && (TrimRight(s) != "" ==> !IsSpace(TrimRight(s)[|TrimRight(s)| - 1]))
    ensures TrimRight(s) != "" ==> TrimRight(s)[0] == s[0]
  {
    if s != "" && IsSpace(s[|s| - 1]) {
      var init := RightTrimmed(s[..|s| - 1]);
      b := init + [s[|s| - 1]];
      assert s == s[..|s| - 1] + [s[|s| - 1]];
    } else {
      b := "";
    }
  }

  /** The text is the message but for white space before and after it. */
  ghost predicate IsTrimmed(text: string, message: string, before: string, behind: string) {
    && message == before + text + behind && Blank(before) && Blank(behind)
    && (text != "" ==> !IsSpace(text[0]) && !IsSpace(text[|text| - 1]))
  }

  /** The message without white space around it, and of that the first 1000 characters. */
  ghost predicate IsReason(reason: string, message: string) {
    exists text, before, behind :: IsTrimmed(text, message, before, behind)
      && reason == if |text| <= 1000 then text else text[..1000]
  }

  lemma {:induction false} BlankIffNothingLeft(text: string, message: string, before: string, behind: string)
    requires IsTrimmed(text, message, before, behind)
    ensures text == "" <==> Blank(message)
  {
    if text != "" {
      assert message[|before|] == text[0];
    }
  }

  lemma {:induction false} NormalizedIsReason(message: string)
    ensures IsReason(Normalize(message), message)
    ensures Normalize(message) == "" <==> Blank(message)
  {
    var before := LeftTrimmed(message);
    var behind := RightTrimmed(TrimLeft(message));
    var text := TrimRight(TrimLeft(message));
    assert before + text + behind == before + (text + behind);
    assert IsTrimmed(text, message, before, behind);
    BlankIffNothingLeft(text, message, before, behind);
  }

  // ---------- rows and the jobs that workers carry ----------

  /** The same job at different times. */
  predicate SameJob(a: Job, b: Job) {
    a.trigger == b.trigger && a.requester == b.requester && a.startedAt == b.startedAt
  }

  ghost predicate HasRow(jobs: Jobs, id: JobId, job: Job) { id in jobs && SameJob(jobs[id], job) }

  ghost predicate RowKnown(jobs: Jobs, pc: Pc) {
    match pc
    case Interrupting(orphans) => forall i :: 0 <= i < |orphans| ==> HasRow(jobs, orphans[i].0, orphans[i].1)
    case Spawning(id, job) => HasRow(jobs, id, job)
    case Executing(id, job) => HasRow(jobs, id, job)
    case Finalizing(id, job) => HasRow(jobs, id, job)
    case _ => true
  }

  ghost predicate RowsKnown(s: State) {
    forall w :: w in s.workers ==> RowKnown(s.jobs, s.workers[w].pc)
  }

  /** No row goes, and every row stays that of the same job. */
  ghost predicate RowsStay(jobs: Jobs, jobs': Jobs) {
    forall id :: id in jobs ==> id in jobs' && SameJob(jobs'[id], jobs[id])
  }

  lemma {:induction false} StillKnown(jobs: Jobs, jobs': Jobs, pc: Pc)
    requires RowKnown(jobs, pc) && RowsStay(jobs, jobs')
    ensures RowKnown(jobs', pc)
  {
  }

  lemma {:induction false} SaveKeepsRows(jobs: Jobs, id: JobId, job: Job, save: SaveResult)
    ensures RowsStay(jobs, JobsAfterSave(jobs, id, job, save))
  {
  }

  predicate Saves(act: Action) { act.InterruptOrphan? || act.SaveNew? || act.SaveFinal? }

  lemma {:induction false} OthersKeepJobs(s: State, act: Action)
    requires Enabled(s, act) && !Saves(act)
    ensures Next(s, act).jobs == s.jobs
  {
  }

  lemma {:induction false} StepKeepsRows(s: State, act: Action)
    requires Enabled(s, act)
    ensures RowsStay(s.jobs, Next(s, act).jobs)
  {
    if !Saves(act) {
      OthersKeepJobs(s, act);
    }
  }

  /** A step moves one worker at most, or crashes some. */
  lemma {:induction false} StepMovesOne(s: State, act: Action, w: WorkerId)
    requires Enabled(s, act) && w in Next(s, act).workers
    ensures var pc := Next(s, act).workers[w].pc;
      || (w in s.workers && pc == s.workers[w].pc) || pc.Crashed?
      || (act.Arrive? && pc.AtStart?) || (act.LockMutex? && pc.AtGate?)
      || ((OnlyMovesWorker(act) || act.Spawn? || act.Return?) && act.w == w && w in s.workers)
  {
  }

  lemma {:induction false} NewRowKnown(s: State, act: Action)
    requires Enabled(s, act) && Inv(s) && act.SaveNew?
    ensures RowKnown(Next(s, act).jobs, Next(s, act).workers[act.w].pc)
  {
    assert act.id !in s.jobs;
  }

  lemma {:induction false} OwnRowKnown(s: State, act: Action)
    requires Enabled(s, act) && RowsKnown(s) && !act.SaveNew?
    requires OnlyMovesWorker(act) || act.Spawn? || act.Return?
    ensures RowKnown(Next(s, act).jobs, Next(s, act).workers[act.w].pc)
  {
    var s' := Next(s, act);
    StepKeepsRows(s, act);
    assert RowKnown(s.jobs, s.workers[act.w].pc);
    StillKnown(s.jobs, s'.jobs, s.workers[act.w].pc);
  }

  lemma {:induction false} StepKeepsKnown(s: State, act: Action)
    requires Enabled(s, act) && Inv(s) && RowsKnown(s)
    ensures RowsKnown(Next(s, act))
  {
    var s' := Next(s, act);
    StepKeepsRows(s, act);
    forall w | w in s'.workers ensures RowKnown(s'.jobs, s'.workers[w].pc) {
      StepMovesOne(s, act, w);
      if w in s.workers && s'.workers[w].pc == s.workers[w].pc {
        StillKnown(s.jobs, s'.jobs, s.workers[w].pc);
      } else if (OnlyMovesWorker(act) || act.Spawn? || act.Return?) && act.w == w {
        if act.SaveNew? {
          NewRowKnown(s, act);
        } else {
          OwnRowKnown(s, act);
        }
      }
    }
  }

  lemma {:induction false} RunKeepsKnown(states: seq<State>, acts: seq<Action>, k: nat)
    requires IsRun(states, acts) && Init(states[0]) && k < |states|
    ensures RowsKnown(states[k])
  {
    if k > 0 {
      RunKeepsKnown(states, acts, k - 1);
      RunKeepsInv(states, acts, k - 1);
      StepKeepsKnown(states[k - 1], acts[k - 1]);
    }
  }

  // ---------- from the creation to the final save ----------

  function Carried(pc: Pc): Option<JobId> {
    match pc
    case Spawning(id, _) => Some(id)
    case Executing(id, _) => Some(id)
    case Finalizing(id, _) => Some(id)
    case _ => None
  }

  lemma {:induction false} StepCarries(s: State, act: Action, w: WorkerId)
    requires Enabled(s, act) && w in Next(s, act).workers && Carried(Next(s, act).workers[w].pc).Some?
    ensures w in s.workers
    ensures Carried(s.workers[w].pc) == Carried(Next(s, act).workers[w].pc)
      || (act.SaveNew? && act.w == w && act.save == Stored && Carried(Next(s, act).workers[w].pc) == Some(act.id))
  {
    StepMovesOne(s, act, w);
  }

  lemma {:induction false} StepFinalizes(s: State, act: Action, w: WorkerId)
    requires Enabled(s, act) && w in Next(s, act).workers && Next(s, act).workers[w].pc.Finalizing?
    ensures w in s.workers
    ensures s.workers[w].pc == Next(s, act).workers[w].pc
      || (act.Execute? && act.w == w && At(s, w) && s.workers[w].pc.Executing?)
  {
    StepMovesOne(s, act, w);
  }

  ghost predicate Carries(s: State, w: WorkerId, id: JobId) {
    w in s.workers && Carried(s.workers[w].pc) == Some(id)
  }

  ghost predicate Finalizes(s: State, w: WorkerId, pc: Pc) {
    w in s.workers && s.workers[w].pc == pc && pc.Finalizing?
  }

  /** What led to the states of a worker with a job, one step back. */
  ghost predicate Traced(states: seq<State>, acts: seq<Action>, w: WorkerId) {
    && |states| == |acts| + 1
    && (forall k: nat, id :: k < |states| && Carries(states[k], w, id) ==>
          k > 0 && (Carries(states[k - 1], w, id) || (acts[k - 1].SaveNew? && acts[k - 1].w == w
                    && acts[k - 1].save == Stored && acts[k - 1].id == id)))
    && (forall k: nat, pc :: k < |states| && Finalizes(states[k], w, pc) ==>
          k > 0 && (Finalizes(states[k - 1], w, pc) || (acts[k - 1].Execute? && acts[k - 1].w == w
                    && At(states[k - 1], w) && states[k - 1].workers[w].pc.Executing?)))
  }

  lemma {:induction false} CarriesBack(states: seq<State>, acts: seq<Action>, k: nat, w: WorkerId, id: JobId)
    requires IsRun(states, acts) && Init(states[0]) && k < |states| && Carries(states[k], w, id)
    ensures k > 0 && (Carries(states[k - 1], w, id)
      || (acts[k - 1].SaveNew? && acts[k - 1].w == w && acts[k - 1].save == Stored && acts[k - 1].id == id))
  {
    assert states[k - 1 + 1] == Next(states[k - 1], acts[k - 1]);
    StepCarries(states[k - 1], acts[k - 1], w);
  }

  lemma {:induction false} FinalizesBack(states: seq<State>, acts: seq<Action>, k: nat, w: WorkerId, pc: Pc)
    requires IsRun(states, acts) && Init(states[0]) && k < |states| && Finalizes(states[k], w, pc)
    ensures k > 0 && (Finalizes(states[k - 1], w, pc)
      || (acts[k - 1].Execute? && acts[k - 1].w == w && At(states[k - 1], w)
          && states[k - 1].workers[w].pc.Executing?))
  {
    assert states[k - 1 + 1] == Next(states[k - 1], acts[k - 1]);
    StepFinalizes(states[k - 1], acts[k - 1], w);
  }

  lemma {:induction false} RunIsTraced(states: seq<State>, acts: seq<Action>, w: WorkerId)
    requires IsRun(states, acts) && Init(states[0])
    ensures Traced(states, acts, w)
  {
    forall k: nat, id | k < |states| && Carries(states[k], w, id)
      ensures k > 0 && (Carries(states[k - 1], w, id)
        || (acts[k - 1].SaveNew? && acts[k - 1].w == w && acts[k - 1].save == Stored && acts[k - 1].id == id))
    {
      CarriesBack(states, acts, k, w, id);
    }
    forall k: nat, pc | k < |states| && Finalizes(states[k], w, pc)
      ensures k > 0 && (Finalizes(states[k - 1], w, pc)
        || (acts[k - 1].Execute? && acts[k - 1].w == w && At(states[k - 1], w)
            && states[k - 1].workers[w].pc.Executing?))
    {
      FinalizesBack(states, acts, k, w, pc);
    }
  }

  /** A worker carries the job it created itself. */
  lemma {:induction false} CreatedBefore(
    states: seq<State>, acts: seq<Action>, k: nat, w: WorkerId, id: JobId) returns (i: nat)
    requires Traced(states, acts, w) && k < |states| && Carries(states[k], w, id)
    ensures i < k && acts[i].SaveNew? && acts[i].w == w && acts[i].save == Stored && acts[i].id == id
  {
    if Carries(states[k - 1], w, id) {
      i := CreatedBefore(states, acts, k - 1, w, id);
    } else {
      i := k - 1;
    }
  }

  /** A worker that is about to save a result has executed its batch. */
  lemma {:induction false} ExecutedBefore(
    states: seq<State>, acts: seq<Action>, k: nat, w: WorkerId, pc: Pc) returns (j: nat)
    requires Traced(states, acts, w) && k < |states| && Finalizes(states[k], w, pc)
    ensures j < k && acts[j].Execute? && acts[j].w == w && At(states[j], w) && states[j].workers[w].pc.Executing?
    ensures Finalizes(states[j + 1], w, pc)
  {
    if Finalizes(states[k - 1], w, pc) {
      j := ExecutedBefore(states, acts, k - 1, w, pc);
    } else {
      j := k - 1;
    }
  }

  // ---------- what is recorded ----------

  /** The row records how the execution ended, and when. */
  ghost predicate Records(row: Job, outcome: ExecOutcome, cancelled: bool, at: int) {
    && row.finishedAt == Some(at)
    && (row.status == Succeeded <==> outcome.Succeeds?)
    && (row.status == BatchJobEntity.Interrupted <==> outcome.Errs? && cancelled)
    && (row.status == Failed <==> outcome.Errs? && !cancelled)
    && (outcome.Succeeds? ==> row.message == "")
    && (outcome.Errs? ==> IsReason(row.message, outcome.message))
    && (outcome.Errs? && !cancelled ==> row.message != "" && !Blank(outcome.message))
  }

  /** What an execution leads to: a failure without a reason that is not blank is not saved. */
  lemma {:induction false} ExecutionConcludes(s: State, act: Action)
    requires Enabled(s, act) && act.Execute? && Inv(s)
    ensures Next(s, act).jobs == s.jobs
    ensures var pc, pc' := s.workers[act.w].pc, Next(s, act).workers[act.w].pc;
      if act.outcome.Errs? && !Proc(s, act.w).cancelled && Blank(act.outcome.message) then pc'.Releasing?
      else
        && pc'.Finalizing? && pc'.id == pc.id && SameJob(pc'.job, pc.job)
        && Records(pc'.job, act.outcome, Proc(s, act.w).cancelled, act.now)
  {
    assert CarriesSoundJobs(s.workers[act.w].pc, s.usedIds);
    if act.outcome.Errs? {
      NormalizedIsReason(act.outcome.message);
    }
  }

  lemma {:induction false} FinalSaveStores(s: State, act: Action)
    requires Enabled(s, act) && act.SaveFinal? && act.save != NotStored && RowsKnown(s)
    ensures var pc := s.workers[act.w].pc;
      && pc.id in s.jobs && pc.id in Next(s, act).jobs
      && SameJob(Next(s, act).jobs[pc.id], s.jobs[pc.id])
      && Next(s, act).jobs[pc.id] == s.jobs[pc.id].(
           status := pc.job.status, finishedAt := pc.job.finishedAt, message := pc.job.message)
      && forall id :: id != pc.id ==>
           (id in Next(s, act).jobs <==> id in s.jobs) && (id in s.jobs ==> Next(s, act).jobs[id] == s.jobs[id])
  {
    assert RowKnown(s.jobs, s.workers[act.w].pc);
  }

  /** A final save that is stored, acknowledged or not, records an execution of the same worker of a
      job that it created: its end, its instant, and nothing else of the row or of other rows. */
  lemma {:induction false} FinalSaveRecords(states: seq<State>, acts: seq<Action>, k: nat) returns (i: nat, j: nat)
    requires IsRun(states, acts) && Init(states[0]) && k < |acts|
    requires acts[k].SaveFinal? && acts[k].save != NotStored
    ensures i < k && j < k && acts[i].SaveNew? && acts[i].w == acts[k].w && acts[i].save == Stored
    ensures acts[j].Execute? && acts[j].w == acts[k].w && At(states[j], acts[j].w)
    ensures Carried(states[j].workers[acts[j].w].pc) == Some(acts[i].id)
    ensures var id := acts[i].id;
      && id in states[k].jobs && id in states[k + 1].jobs
      && SameJob(states[k + 1].jobs[id], states[k].jobs[id])
      && Records(states[k + 1].jobs[id], acts[j].outcome, Proc(states[j], acts[j].w).cancelled, acts[j].now)
      && forall other :: other != id ==>
           (other in states[k + 1].jobs <==> other in states[k].jobs)
           && (other in states[k].jobs ==> states[k + 1].jobs[other] == states[k].jobs[other])
  {
    var w := acts[k].w;
    var pc := states[k].workers[w].pc;
    RunIsTraced(states, acts, w);
    i := CreatedBefore(states, acts, k, w, pc.id);
    j := ExecutedBefore(states, acts, k, w, pc);
    RunKeepsInv(states, acts, j);
    ExecutionConcludes(states[j], acts[j]);
    RunKeepsKnown(states, acts, k);
    FinalSaveStores(states[k], acts[k]);
  }

  /** A row appears only as a running job of the worker that creates it. */
  lemma {:induction false} RowsAppearRunning(states: seq<State>, acts: seq<Action>, k: nat, id: JobId)
    requires IsRun(states, acts) && Init(states[0]) && k < |acts|
    requires id !in states[k].jobs && id in states[k + 1].jobs
    ensures acts[k].SaveNew? && acts[k].id == id && acts[k].w in states[k].workers
    ensures var trigger := states[k].workers[acts[k].w].trigger;
      states[k + 1].jobs[id]
      == Job(trigger, if trigger.Admin? then acts[k].requester else None, Running, acts[k].now, None, "")
  {
    RunKeepsKnown(states, acts, k);
    NewRowIs(states[k], acts[k], id);
  }

  lemma {:induction false} NewRowIs(s: State, act: Action, id: JobId)
    requires Enabled(s, act) && RowsKnown(s) && id !in s.jobs && id in Next(s, act).jobs
    ensures act.SaveNew? && act.id == id && act.w in s.workers
    ensures var trigger := s.workers[act.w].trigger;
      Next(s, act).jobs[id]
      == Job(trigger, if trigger.Admin? then act.requester else None, Running, act.now, None, "")
  {
  }

  /** A row that stops running was saved by its own worker, or was found by another one that
      interrupts it; nothing else ends it. */
  lemma {:induction false} RowsEnd(states: seq<State>, acts: seq<Action>, k: nat, id: JobId)
    requires IsRun(states, acts) && Init(states[0]) && k < |acts|
    requires id in states[k].jobs && states[k].jobs[id].IsRunning()
    requires id in states[k + 1].jobs && states[k + 1].jobs[id] != states[k].jobs[id]
    ensures acts[k].SaveFinal? || acts[k].InterruptOrphan?
    ensures acts[k].SaveFinal? ==>
      acts[k].save != NotStored && acts[k].w in states[k].workers
      && Carried(states[k].workers[acts[k].w].pc) == Some(id)
    ensures acts[k].InterruptOrphan? ==>
      states[k + 1].jobs[id] == states[k].jobs[id].(
        status := BatchJobEntity.Interrupted, finishedAt := Some(acts[k].now), message := "")
  {
    RunKeepsInv(states, acts, k);
    if acts[k].InterruptOrphan? || acts[k].SaveNew? {
      assert CarriesSoundJobs(states[k].workers[acts[k].w].pc, states[k].usedIds);
    }
  }

  /** What becomes SUCCEEDED or FAILED in a run stems from an execution, by the worker that created
      it, that ended so. */
  lemma {:induction false} ResultsStemFromExecutions(states: seq<State>, acts: seq<Action>, k: nat, id: JobId)
    returns (i: nat, j: nat)
    requires IsRun(states, acts) && Init(states[0]) && k < |acts|
    requires id in states[k].jobs && states[k].jobs[id].IsRunning() && id in states[k + 1].jobs
    requires states[k + 1].jobs[id].status == Succeeded || states[k + 1].jobs[id].status == Failed
    ensures i < k && acts[i].SaveNew? && acts[i].id == id && acts[i].w == acts[k].w
    ensures j < k && acts[j].Execute? && acts[j].w == acts[k].w && At(states[j], acts[j].w)
    ensures Carried(states[j].workers[acts[j].w].pc) == Some(id)
    ensures acts[k].SaveFinal?
    ensures if states[k + 1].jobs[id].status == Succeeded then acts[j].outcome.Succeeds?
            else acts[j].outcome.Errs? && !Proc(states[j], acts[j].w).cancelled
    ensures states[k + 1].jobs[id].finishedAt == Some(acts[j].now)
  {
    RowsEnd(states, acts, k, id);
    i, j := FinalSaveRecords(states, acts, k);
    RunKeepsKnown(states, acts, k);
    FinalSaveStores(states[k], acts[k]);
  }
}
