/** What each step does to the jobs table, when it is refused, and how the last accepted step decides a job's status. */
module JobEffects {
  import opened Prelude
  import opened JobLedger

  ghost predicate OnlyJob(jobs: Jobs, jobs': Jobs, id: JobId) {
    jobs'.Keys == jobs.Keys && forall other :: other in jobs && other != id ==> jobs'[other] == jobs[other]
  }

  /** A job nobody has run yet. */
  ghost predicate IsNew(job: Job, origin: Origin, maxAttempts: int, availableAt: Option<Time>) {
    && job.origin == origin && job.maxAttempts == maxAttempts && job.availableAt == availableAt
    && job.status == Queued && job.runner.None? && job.attempts == 0 && !job.notified
  }

  ghost predicate Adds(jobs: Jobs, jobs': Jobs, id: JobId) {
    id !in jobs && jobs'.Keys == jobs.Keys + {id} && forall other :: other in jobs ==> jobs'[other] == jobs[other]
  }

  // ---------------------------------------------------------------- creation and claim

  lemma CreateEffect(jobs: Jobs, id: JobId, origin: Origin, maxAttempts: int, availableAt: Option<Time>)
    ensures var (jobs', reply) := Apply(jobs, CreateJob(id, origin, maxAttempts, availableAt));
      && (reply == InvalidArgument <==> origin.kind == "" || maxAttempts < 1)
      && (reply == DuplicateId <==> origin.kind != "" && maxAttempts >= 1 && id in jobs)
      && (reply in {Ok, InvalidArgument, DuplicateId})
      && (if reply == Ok then Adds(jobs, jobs', id) && IsNew(jobs'[id], origin, maxAttempts, availableAt) else jobs' == jobs)
  {
  }

  /** The same logical job again is found, whatever its limits now; another one under its id is refused. */
  lemma CreateOnceEffect(jobs: Jobs, id: JobId, origin: Origin, maxAttempts: int, availableAt: Option<Time>)
    ensures var (jobs', reply) := Apply(jobs, CreateJobOnce(id, origin, maxAttempts, availableAt));
      && (reply == InvalidArgument <==> id == "" || origin.kind == "" || maxAttempts < 1)
      && (reply != InvalidArgument ==>
            reply == if id !in jobs then Ok
              else if jobs[id].origin.kind == origin.kind && jobs[id].origin.source == origin.source
                      && jobs[id].origin.schedule == origin.schedule then Existing
              else KeyCollision)
      && (if reply == Ok then Adds(jobs, jobs', id) && IsNew(jobs'[id], origin, maxAttempts, availableAt) else jobs' == jobs)
  {
  }

  lemma ClaimEffect(jobs: Jobs, id: JobId, runner: Runner, now: Time)
    ensures var (jobs', reply) := Apply(jobs, ClaimJob(id, runner, now));
      && (reply == InvalidArgument <==> runner == "")
      && (reply == NotFound <==> runner != "" && id !in jobs)
      && (reply == Ok <==>
            && runner != "" && id in jobs && jobs[id].status == Queued
            && (jobs[id].availableAt.None? || jobs[id].availableAt.value <= now))
      && (reply in {InvalidArgument, NotFound, NotClaimed, Ok})
      && (reply != Ok ==> jobs' == jobs)
      && (reply == Ok ==>
            && OnlyJob(jobs, jobs', id)
            && jobs'[id] == jobs[id].(status := Running, runner := Some(runner), attempts := jobs[id].attempts + 1))
  {
  }

  // ---------------------------------------------------------------- the end of an attempt

  ghost predicate Runs(jobs: Jobs, id: JobId, runner: Runner) {
    id in jobs && jobs[id].status == Running && jobs[id].runner == Some(runner)
  }

  ghost predicate Ends(op: JobOp) {
    op.MarkSucceeded? || op.MarkFailed? || op.MarkTimedOut?
  }

  /** Only its runner ends an attempt, and what it reports is what becomes of the job. */
  lemma EndEffect(jobs: Jobs, op: JobOp)
    requires Ends(op)
    ensures var (jobs', reply) := Apply(jobs, op);
      && reply == (if op.id !in jobs then NotFound
                   else if jobs[op.id].status != Running then WrongState
                   else if jobs[op.id].runner != Some(op.runner) then NotOwner
                   else Ok)
      && (reply != Ok ==> jobs' == jobs)
      && (reply == Ok ==>
            && Runs(jobs, op.id, op.runner) && OnlyJob(jobs, jobs', op.id)
            && jobs'[op.id].status == (match op
                 case MarkSucceeded(_, _) => Succeeded
                 case MarkTimedOut(_, _) => TimedOut
                 case MarkFailed(_, _, retry) =>
                   if retry && jobs[op.id].attempts < jobs[op.id].maxAttempts then Queued else Failed
                 case _ => Running)
            && jobs'[op.id].runner == (if jobs'[op.id].status == Queued then None else Some(op.runner))
            && jobs'[op.id].(status := Running, runner := Some(op.runner)) == jobs[op.id])
  {
  }

  predicate IsOpen(job: Job) {
    job.status.Queued? || job.status.Running?
  }

  lemma CancelEffect(jobs: Jobs, id: JobId)
    ensures var (jobs', reply) := Apply(jobs, CancelJob(id));
      && reply == (if id !in jobs then NotFound else if IsOpen(jobs[id]) then Ok else Existing)
      && (reply != Ok ==> jobs' == jobs)
      && (reply == Ok ==> OnlyJob(jobs, jobs', id) && jobs'[id] == jobs[id].(status := Cancelled))
  {
  }

  lemma NotifyEffect(jobs: Jobs, id: JobId)
    ensures var (jobs', reply) := Apply(jobs, MarkNotified(id));
      && reply == (if id !in jobs then NotFound else if IsOpen(jobs[id]) then WrongState else Ok)
      && (reply != Ok ==> jobs' == jobs)
      && (reply == Ok ==> OnlyJob(jobs, jobs', id) && jobs'[id] == jobs[id].(notified := true))
  {
  }

  /** A running job of the given source and kind; a filter that is not given lets every job through. */
  ghost predicate Interrupted(job: Job, source: Option<string>, kind: Option<string>) {
    && job.status == Running
    && (source.None? || job.origin.source == source)
    && (kind.None? || job.origin.kind == kind.value)
  }

  /** Recovery requeues what has budget left, fails the rest, and leaves every other job alone. */
  lemma RecoverEffect(jobs: Jobs, source: Option<string>, kind: Option<string>, id: JobId)
    ensures var jobs' := Apply(jobs, RecoverInterrupted(source, kind)).0;
      && jobs'.Keys == jobs.Keys
      && (id in jobs ==>
            jobs'[id] ==
              if !Interrupted(jobs[id], source, kind) then jobs[id]
              else if jobs[id].attempts < jobs[id].maxAttempts then jobs[id].(status := Queued, runner := None)
              else jobs[id].(status := Failed))
  {
  }

  // ---------------------------------------------------------------- the last step decides

  ghost predicate Moves(jobs: Jobs, op: JobOp, id: JobId) {
    match op
    case RecoverInterrupted(source, kind) => id in jobs && Interrupted(jobs[id], source, kind)
    case MarkNotified(_) => false
    case _ => op.id == id && Apply(jobs, op).1 == Ok
  }

  /** The latest step of the run that the job took part in. */
  ghost function LastMove(ops: seq<JobOp>, id: JobId): Option<JobOp>
    decreases |ops|
  {
    if ops == [] then None
    else
      var front, op := ops[..|ops| - 1], ops[|ops| - 1];
      if Moves(Replay(front), op, id) then Some(op) else LastMove(front, id)
  }

  /** The status such a step leaves, with `claims` attempts made out of `limit`. */
  ghost function StatusFrom(move: JobOp, claims: nat, limit: int): JobStatus {
    match move
    case ClaimJob(_, _, _) => Running
    case MarkSucceeded(_, _) => Succeeded
    case MarkTimedOut(_, _) => TimedOut
    case MarkFailed(_, _, retry) => if retry && claims < limit then Queued else Failed
    case RecoverInterrupted(_, _) => if claims < limit then Queued else Failed
    case CancelJob(_) => Cancelled
    case _ => Queued
  }

  ghost predicate MovedBy(jobs: Jobs, id: JobId, move: Option<JobOp>) {
    if id in jobs then move.Some? && jobs[id].status == StatusFrom(move.value, jobs[id].attempts, jobs[id].maxAttempts)
    else move.None?
  }

  lemma MoveStep(jobs: Jobs, op: JobOp, id: JobId, move: Option<JobOp>)
    requires MovedBy(jobs, id, move)
    ensures MovedBy(Apply(jobs, op).0, id, if Moves(jobs, op, id) then Some(op) else move)
  {
  }

  lemma {:induction false} MovesDecide(ops: seq<JobOp>, id: JobId)
    ensures MovedBy(Replay(ops), id, LastMove(ops, id))
    decreases |ops|
  {
    if ops != [] {
      var front := ops[..|ops| - 1];
      MovesDecide(front, id);
      MoveStep(Replay(front), ops[|ops| - 1], id, LastMove(front, id));
    }
  }

  /**
   Over every run, refused steps included: a job is in the table exactly if a step made it, and its status is the one
   its last accepted step stands for. It has succeeded only by a success report, it has timed out only by a timeout,
   and a failure reported without retry is never requeued.
   */
  lemma StatusIsLastMove(ops: seq<JobOp>, id: JobId)
    ensures id in Replay(ops) <==> LastMove(ops, id).Some?
    ensures id in Replay(ops) ==>
      Replay(ops)[id].status == StatusFrom(LastMove(ops, id).value, Claims(ops, id), Replay(ops)[id].maxAttempts)
  {
    MovesDecide(ops, id);
    Tracked(ops, id);
  }
}
