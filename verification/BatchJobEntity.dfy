/** One run of the chart statistics batch, as recorded in the job table. */
module BatchJobEntity {
  import opened Common

  const MESSAGE_MAX_LENGTH := 1000

  datatype Status = Running | Succeeded | Failed | Interrupted

  datatype Trigger = Cli | Admin

  datatype JobError = InvalidJob | AlreadyFinished

  datatype Job = Job(
    trigger: Trigger,
    requester: Option<int>,
    status: Status,
    startedAt: int,
    finishedAt: Option<int>,
    message: string)
  {
    predicate IsRunning() { status == Running }

    /** A job is running exactly while it has no finishing time. */
    predicate Consistent() { IsRunning() <==> finishedAt == None }
  }

  function StatusFromName(name: string): Option<Status> {
    if name == "RUNNING" then Some(Running)
    else if name == "SUCCEEDED" then Some(Succeeded)
    else if name == "FAILED" then Some(Failed)
    else if name == "INTERRUPTED" then Some(Interrupted)
    else None
  }

  function TriggerFromName(name: string): Option<Trigger> {
    if name == "CLI" then Some(Cli) else if name == "ADMIN" then Some(Admin) else None
  }

  function Started(trigger: Trigger, requester: Option<int>, at: int): Job {
    Job(trigger, requester, Running, at, None, "")
  }

  /** Restores a stored job; rows whose status and finishing time disagree are refused. */
  function Reconstruct(
    trigger: string, requester: Option<int>, status: string, startedAt: int,
    finishedAt: Option<int>, message: string): (r: Result<Job, JobError>)
    ensures r.Ok? ==> r.value.Consistent()
    ensures r.Ok? <==>
      && trigger in {"CLI", "ADMIN"} && status in {"RUNNING", "SUCCEEDED", "FAILED", "INTERRUPTED"}
      && (status == "RUNNING" <==> finishedAt.None?)
    ensures r.Ok? ==>
      && (r.value.trigger == Cli <==> trigger == "CLI") && (r.value.trigger == Admin <==> trigger == "ADMIN")
      && (r.value.status == Running <==> status == "RUNNING")
      && (r.value.status == Succeeded <==> status == "SUCCEEDED")
      && (r.value.status == Failed <==> status == "FAILED")
      && (r.value.status == Interrupted <==> status == "INTERRUPTED")
      && r.value.requester == requester && r.value.startedAt == startedAt
      && r.value.finishedAt == finishedAt && r.value.message == message
  {
    match (TriggerFromName(trigger), StatusFromName(status))
    case (Some(t), Some(st)) =>
      if (st == Running) != finishedAt.None? then Err(InvalidJob)
      else Ok(Job(t, requester, st, startedAt, finishedAt, message))
    case _ => Err(InvalidJob)
  }

  // ---------- the reason text ----------

  predicate IsSpace(c: char) {
    var code := c as int;
    || 9 <= code <= 13 || code == 32 || code == 0x85 || code == 0xA0 || code == 0x1680
    || 0x2000 <= code <= 0x200A || code == 0x2028 || code == 0x2029 || code == 0x202F
    || code == 0x205F || code == 0x3000
  }

  function TrimLeft(s: string): string {
    if s != "" && IsSpace(s[0]) then TrimLeft(s[1..]) else s
  }

  function TrimRight(s: string): string {
    if s != "" && IsSpace(s[|s| - 1]) then TrimRight(s[..|s| - 1]) else s
  }

  function Normalize(message: string): string {
    var trimmed := TrimRight(TrimLeft(message));
    if |trimmed| > MESSAGE_MAX_LENGTH then trimmed[..MESSAGE_MAX_LENGTH] else trimmed
  }

  // ---------- finishing ----------

  function Finished(job: Job, status: Status, message: string, at: int): Job {
    job.(status := status, message := message, finishedAt := Some(at))
  }

  function CompleteError(job: Job): Option<JobError> {
    if job.IsRunning() then None else Some(AlreadyFinished)
  }

  function FailError(job: Job, message: string): Option<JobError> {
    if Normalize(message) == "" then Some(InvalidJob)
    else if job.IsRunning() then None else Some(AlreadyFinished)
  }

  class ChartStatsBatchJob {
    const trigger: Trigger
    const requester: Option<int>
    var status: Status
    const startedAt: int
    var finishedAt: Option<int>
    var message: string

    constructor (job: Job)
      ensures Value() == job
    {
      trigger := job.trigger;
      requester := job.requester;
      status := job.status;
      startedAt := job.startedAt;
      finishedAt := job.finishedAt;
      message := job.message;
    }

    function Value(): Job
      reads this
    {
      Job(trigger, requester, status, startedAt, finishedAt, message)
    }

    /** A finished job stays as it is, whatever is asked of it afterwards. */
    method Finish(status: Status, message: string, at: int) returns (error: Option<JobError>)
      modifies this
      ensures error == CompleteError(old(Value()))
      ensures error.None? <==> old(this.status) == Running
      ensures Value() == if error.None?
                         then old(Value()).(status := status, message := message, finishedAt := Some(at))
                         else old(Value())
      ensures old(Value()).Consistent() && status != Running ==> Value().Consistent()
    {
      if this.status != Running {
        return Some(AlreadyFinished);
      }
      this.status := status;
      this.message := message;
      this.finishedAt := Some(at);
      return None;
    }

    method Complete(at: int) returns (error: Option<JobError>)
      modifies this
      ensures error == CompleteError(old(Value()))
      ensures Value() == if error.None?
                         then old(Value()).(status := Succeeded, message := "", finishedAt := Some(at))
                         else old(Value())
    {
      error := Finish(Succeeded, "", at);
    }

    method Fail(message: string, at: int) returns (error: Option<JobError>)
      modifies this
      ensures error == FailError(old(Value()), message)
      ensures Value() == if error.None?
                         then old(Value()).(status := Failed, message := Normalize(message), finishedAt := Some(at))
                         else old(Value())
    {
      var reason := Normalize(message);
      if reason == "" {
        return Some(InvalidJob);
      }
      error := Finish(Failed, reason, at);
    }

    method Interrupt(message: string, at: int) returns (error: Option<JobError>)
      modifies this
      ensures error == CompleteError(old(Value()))
      ensures Value() == if error.None?
                         then old(Value()).(
                           status := Interrupted, message := Normalize(message), finishedAt := Some(at))
                         else old(Value())
    {
      error := Finish(Interrupted, Normalize(message), at);
    }
  }
}
