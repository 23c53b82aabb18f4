/**
 Durable jobs: the life cycle with its retry budget, as atomic steps, and what every run of steps keeps.
 */
module JobLedger {
  import opened Prelude

  type JobId = string
  type Runner = string
  type Time = int

  datatype JobStatus = Queued | Running | Succeeded | Failed | Cancelled | TimedOut

  /** What identifies the logical job behind an idempotency key. */
  datatype Origin = Origin(kind: string, source: Option<string>, schedule: Option<string>)

  datatype Job = Job(
    origin: Origin,
    status: JobStatus,
    runner: Option<Runner>,
    maxAttempts: int,
    attempts: nat,
    availableAt: Option<Time>,
    notified: bool)

  type Jobs = map<JobId, Job>

  datatype JobOp =
    | CreateJob(id: JobId, origin: Origin, maxAttempts: int, availableAt: Option<Time>)
    | CreateJobOnce(id: JobId, origin: Origin, maxAttempts: int, availableAt: Option<Time>)
    | ClaimJob(id: JobId, runner: Runner, now: Time)
    | MarkSucceeded(id: JobId, runner: Runner)
    | MarkFailed(id: JobId, runner: Runner, retry: bool)
    | MarkTimedOut(id: JobId, runner: Runner)
    | CancelJob(id: JobId)
    | RecoverInterrupted(source: Option<string>, kind: Option<string>)
    | MarkNotified(id: JobId)

  datatype JobReply =
    | Ok | Existing | NotClaimed
    | DuplicateId | InvalidArgument | KeyCollision | NotFound | WrongState | NotOwner

  predicate IsTerminal(status: JobStatus) {
    status in {Succeeded, Failed, Cancelled, TimedOut}
  }

  predicate Runnable(job: Job, now: Time) {
    job.status == Queued && (job.availableAt.Some? ==> job.availableAt.value <= now)
  }

  function NewJob(origin: Origin, maxAttempts: int, availableAt: Option<Time>): Job {
    Job(origin, Queued, None, maxAttempts, 0, availableAt, false)
  }

  /** `_require_running_owner`. */
  function OwnerReply(jobs: Jobs, id: JobId, runner: Runner): JobReply {
    if id !in jobs then NotFound
    else if jobs[id].status != Running then WrongState
    else if jobs[id].runner != Some(runner) then NotOwner
    else Ok
  }

  /** A running job whose attempt ends without success: back to the queue while the budget lasts. */
  function Released(job: Job, retry: bool): Job {
    if retry && job.attempts < job.maxAttempts then job.(status := Queued, runner := None)
    else job.(status := Failed)
  }

  predicate Selected(job: Job, source: Option<string>, kind: Option<string>) {
    && job.status == Running
    && (source.Some? ==> job.origin.source == source)
    && (kind.Some? ==> job.origin.kind == kind.value)
  }

  function Apply(jobs: Jobs, op: JobOp): (Jobs, JobReply) {
    match op
    case CreateJob(id, origin, maxAttempts, availableAt) =>
      if origin.kind == "" || maxAttempts < 1 then (jobs, InvalidArgument)
      else if id in jobs then (jobs, DuplicateId)
      else (jobs[id := NewJob(origin, maxAttempts, availableAt)], Ok)
    case CreateJobOnce(id, origin, maxAttempts, availableAt) =>
      if id == "" || origin.kind == "" || maxAttempts < 1 then (jobs, InvalidArgument)
      else if id !in jobs then (jobs[id := NewJob(origin, maxAttempts, availableAt)], Ok)
      else if jobs[id].origin != origin then (jobs, KeyCollision)
      else (jobs, Existing)
    case ClaimJob(id, runner, now) =>
      if runner == "" then (jobs, InvalidArgument)
      else if id !in jobs then (jobs, NotFound)
      else if !Runnable(jobs[id], now) then (jobs, NotClaimed)
      else (jobs[id := jobs[id].(status := Running, runner := Some(runner), attempts := jobs[id].attempts + 1)], Ok)
    case MarkSucceeded(id, runner) =>
      var reply := OwnerReply(jobs, id, runner);
      (if reply == Ok then jobs[id := jobs[id].(status := Succeeded)] else jobs, reply)
    case MarkFailed(id, runner, retry) =>
      var reply := OwnerReply(jobs, id, runner);
      (if reply == Ok then jobs[id := Released(jobs[id], retry)] else jobs, reply)
    case MarkTimedOut(id, runner) =>
      var reply := OwnerReply(jobs, id, runner);
      (if reply == Ok then jobs[id := jobs[id].(status := TimedOut)] else jobs, reply)
    case CancelJob(id) =>
      if id !in jobs then (jobs, NotFound)
      else if IsTerminal(jobs[id].status) then (jobs, Existing)
      else (jobs[id := jobs[id].(status := Cancelled)], Ok)
    case RecoverInterrupted(source, kind) =>
      (map id | id in jobs :: if Selected(jobs[id], source, kind) then Released(jobs[id], true) else jobs[id], Ok)
    case MarkNotified(id) =>
      if id !in jobs then (jobs, NotFound)
      else if !IsTerminal(jobs[id].status) then (jobs, WrongState)
      else (jobs[id := jobs[id].(notified := true)], Ok)
  }

  function Replay(ops: seq<JobOp>): Jobs
    decreases |ops|
  {
    if ops == [] then map[] else Apply(Replay(ops[..|ops| - 1]), ops[|ops| - 1]).0
  }

  // ---------------------------------------------------------------- the retry budget

  predicate IsClaimOf(jobs: Jobs, op: JobOp, id: JobId) {
    op.ClaimJob? && op.id == id && Apply(jobs, op).1 == Ok
  }

  /** How many claims of the job succeed along the run. */
  function Claims(ops: seq<JobOp>, id: JobId): nat
    decreases |ops|
  {
    if ops == [] then 0
    else
      var front := ops[..|ops| - 1];
      Claims(front, id) + (if IsClaimOf(Replay(front), ops[|ops| - 1], id) then 1 else 0)
  }

  /** The runner of the latest successful claim. */
  function LastClaimer(ops: seq<JobOp>, id: JobId): Option<Runner>
    decreases |ops|
  {
    if ops == [] then None
    else
      var front := ops[..|ops| - 1];
      var op := ops[|ops| - 1];
      if IsClaimOf(Replay(front), op, id) then Some(op.runner) else LastClaimer(front, id)
  }

  ghost predicate JobInv(job: Job) {
    && job.maxAttempts >= 1
    && job.attempts <= job.maxAttempts
    && (job.status == Queued ==> job.attempts < job.maxAttempts && job.runner.None?)
    && (job.status == Running ==> job.attempts >= 1 && job.runner.Some?)
  }

  ghost predicate Tracks(jobs: Jobs, id: JobId, claims: nat, claimer: Option<Runner>) {
    if id in jobs then
      JobInv(jobs[id]) && jobs[id].attempts == claims && (jobs[id].status == Running ==> jobs[id].runner == claimer)
    else claims == 0
  }

  lemma TrackStep(jobs: Jobs, op: JobOp, id: JobId, claims: nat, claimer: Option<Runner>)
    requires Tracks(jobs, id, claims, claimer)
    ensures var claim := IsClaimOf(jobs, op, id);
      Tracks(Apply(jobs, op).0, id, if claim then claims + 1 else claims, if claim then Some(op.runner) else claimer)
  {
  }

  lemma {:induction false} Tracked(ops: seq<JobOp>, id: JobId)
    ensures Tracks(Replay(ops), id, Claims(ops, id), LastClaimer(ops, id))
    decreases |ops|
  {
    if ops != [] {
      var front := ops[..|ops| - 1];
      Tracked(front, id);
      TrackStep(Replay(front), ops[|ops| - 1], id, Claims(front, id), LastClaimer(front, id));
    }
  }

  /**
   The retry budget holds over every run although claiming never tests it: the attempt counter is the
   number of successful claims, it never passes the limit, and a queued job always has budget left.
   */
  lemma RetryBudget(ops: seq<JobOp>, id: JobId)
    requires id in Replay(ops)
    ensures var job := Replay(ops)[id];
      && job.attempts == Claims(ops, id) <= job.maxAttempts
      && (job.status == Queued ==> Claims(ops, id) < job.maxAttempts)
  {
    Tracked(ops, id);
  }

  /** Only the runner of the latest claim can finish a running job; everyone else changes nothing. */
  lemma OnlyCurrentRunnerFinishes(ops: seq<JobOp>, op: JobOp)
    requires op.MarkSucceeded? || op.MarkFailed? || op.MarkTimedOut?
    ensures var (jobs, reply) := Apply(Replay(ops), op);
      && (reply == Ok ==> LastClaimer(ops, op.id) == Some(op.runner))
      && (reply != Ok ==> jobs == Replay(ops))
  {
    Tracked(ops, op.id);
  }

  lemma TerminalStep(jobs: Jobs, op: JobOp, id: JobId)
    requires id in jobs && IsTerminal(jobs[id].status)
    ensures id in Apply(jobs, op).0 && !IsClaimOf(jobs, op, id)
    ensures Apply(jobs, op).0[id].(notified := false) == jobs[id].(notified := false)
  {
  }

  /** Terminal states absorb: whatever follows, the status, the runner and the counter stay. */
  lemma {:induction false} TerminalAbsorbs(ops: seq<JobOp>, more: seq<JobOp>, id: JobId)
    requires id in Replay(ops) && IsTerminal(Replay(ops)[id].status)
    ensures id in Replay(ops + more)
    ensures Replay(ops + more)[id].(notified := false) == Replay(ops)[id].(notified := false)
    ensures Claims(ops + more, id) == Claims(ops, id)
    decreases |more|
  {
    if more == [] {
      assert ops + more == ops;
    } else {
      var front := more[..|more| - 1];
      TerminalAbsorbs(ops, front, id);
      assert (ops + more)[..|ops + more| - 1] == ops + front;
      assert (ops + more)[|ops + more| - 1] == more[|more| - 1];
      TerminalStep(Replay(ops + front), more[|more| - 1], id);
    }
  }

  /** Recovery decides every interrupted job: requeued with budget left, failed without. */
  lemma RecoveryLeavesNoneRunning(ops: seq<JobOp>, id: JobId)
    requires id in Replay(ops) && Replay(ops)[id].status == Running
    ensures var job := Apply(Replay(ops), RecoverInterrupted(None, None)).0[id];
      job.status == if Claims(ops, id) < job.maxAttempts then Queued else Failed
  {
    Tracked(ops, id);
  }
}
