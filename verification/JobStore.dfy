/** `JobStore`: the jobs table updated in place, one write transaction per method. */
module JobStores {
  import opened Prelude
  import opened JobLedger

  class JobStore {
    var jobs: Jobs
    ghost var history: seq<JobOp>

    constructor ()
      ensures Valid() && jobs == map[] && history == []
    {
      jobs, history := map[], [];
    }

    ghost predicate Valid()
      reads this
    {
      jobs == Replay(history)
    }

    twostate predicate Performed(op: JobOp, reply: JobReply)
      reads this
    {
      && Valid()
      && (jobs, reply) == Apply(old(jobs), op)
      && history == old(history) + [op]
    }

    method Create(id: JobId, origin: Origin, maxAttempts: int, availableAt: Option<Time>) returns (reply: JobReply)
      requires Valid()
      modifies this
      ensures Performed(CreateJob(id, origin, maxAttempts, availableAt), reply)
    {
      history := history + [CreateJob(id, origin, maxAttempts, availableAt)];
      if origin.kind == "" || maxAttempts < 1 { return InvalidArgument; }
      if id in jobs { return DuplicateId; }
      jobs := jobs[id := NewJob(origin, maxAttempts, availableAt)];
      return Ok;
    }

    /** Insert-or-ignore, then compare: the id is an idempotency key for one logical job. */
    method CreateOnce(id: JobId, origin: Origin, maxAttempts: int, availableAt: Option<Time>) returns (reply: JobReply)
      requires Valid()
      modifies this
      ensures Performed(CreateJobOnce(id, origin, maxAttempts, availableAt), reply)
    {
      history := history + [CreateJobOnce(id, origin, maxAttempts, availableAt)];
      if id == "" || origin.kind == "" || maxAttempts < 1 { return InvalidArgument; }
      var created := id !in jobs;
      if created {
        jobs := jobs[id := NewJob(origin, maxAttempts, availableAt)];
        return Ok;
      }
      var row := jobs[id].origin;
      if row.kind != origin.kind || row.source != origin.source || row.schedule != origin.schedule {
        return KeyCollision;
      }
      return Existing;
    }

    method Claim(id: JobId, runner: Runner, now: Time) returns (reply: JobReply)
      requires Valid()
      modifies this
      ensures Performed(ClaimJob(id, runner, now), reply)
    {
      history := history + [ClaimJob(id, runner, now)];
      if runner == "" { return InvalidArgument; }
      if id !in jobs { return NotFound; }
      var row := jobs[id];
      if row.status != Queued { return NotClaimed; }
      if row.availableAt.Some? && row.availableAt.value > now { return NotClaimed; }
      jobs := jobs[id := row.(status := Running, runner := Some(runner), attempts := row.attempts + 1)];
      return Ok;
    }

    method Fail(id: JobId, runner: Runner, retry: bool) returns (reply: JobReply)
      requires Valid()
      modifies this
      ensures Performed(MarkFailed(id, runner, retry), reply)
    {
      history := history + [MarkFailed(id, runner, retry)];
      reply := OwnerReply(jobs, id, runner);
      if reply != Ok { return; }
      var row := jobs[id];
      var mayRetry := retry && row.attempts < row.maxAttempts;
      jobs := jobs[id := if mayRetry then row.(status := Queued, runner := None) else row.(status := Failed)];
    }

    /** Success and timeout end the attempt for good. */
    method Finish(id: JobId, runner: Runner, timedOut: bool) returns (reply: JobReply)
      requires Valid()
      modifies this
      ensures Performed(if timedOut then MarkTimedOut(id, runner) else MarkSucceeded(id, runner), reply)
    {
      history := history + [if timedOut then MarkTimedOut(id, runner) else MarkSucceeded(id, runner)];
      reply := OwnerReply(jobs, id, runner);
      if reply == Ok {
        jobs := jobs[id := jobs[id].(status := if timedOut then TimedOut else Succeeded)];
      }
    }

    method Cancel(id: JobId) returns (reply: JobReply)
      requires Valid()
      modifies this
      ensures Performed(CancelJob(id), reply)
    {
      history := history + [CancelJob(id)];
      if id !in jobs { return NotFound; }
      if IsTerminal(jobs[id].status) { return Existing; }
      jobs := jobs[id := jobs[id].(status := Cancelled)];
      return Ok;
    }

    /** One pass over the interrupted rows. */
    method Recover(source: Option<string>, kind: Option<string>) returns (recovered: set<JobId>)
      requires Valid()
      modifies this
      ensures Performed(RecoverInterrupted(source, kind), Ok)
      ensures recovered == set id | id in old(jobs) && Selected(old(jobs)[id], source, kind)
    {
      history := history + [RecoverInterrupted(source, kind)];
      recovered := set id | id in jobs && Selected(jobs[id], source, kind);
      var todo := recovered;
      while todo != {}
        invariant todo <= recovered && jobs.Keys == old(jobs).Keys
        invariant forall id :: id in jobs ==>
          jobs[id] == if id in recovered - todo then Released(old(jobs)[id], true) else old(jobs)[id]
        invariant history == old(history) + [RecoverInterrupted(source, kind)]
        decreases todo
      {
        var id :| id in todo;
        todo := todo - {id};
        if jobs[id].attempts < jobs[id].maxAttempts {
          jobs := jobs[id := jobs[id].(status := Queued, runner := None)];
        } else {
          jobs := jobs[id := jobs[id].(status := Failed)];
        }
      }
      assert jobs == Apply(old(jobs), RecoverInterrupted(source, kind)).0;
    }
  }
}
