/**
 `TaskStore`: the table updated in place, one write transaction per method. `history` records the
 steps taken, so every theorem about runs applies to every reachable store.
 */
module TaskStores {
  import opened Prelude
  import opened TaskLedger

  class TaskStore {
    const defaultLeaseSeconds: int
    var rows: Ledger
    ghost var history: seq<TaskOp>

    /** The store refuses to be built with a default lease that is not positive. */
    constructor (defaultLeaseSeconds: int)
      requires defaultLeaseSeconds > 0
      ensures Valid() && rows == map[] && history == []
    {
      this.defaultLeaseSeconds := defaultLeaseSeconds;
      rows, history := map[], [];
    }

    ghost predicate Valid()
      reads this
    {
      defaultLeaseSeconds > 0 && rows == Replay(map[], history)
    }

    function LeaseSeconds(requested: Option<int>): int {
      if requested.None? then defaultLeaseSeconds else requested.value
    }

    /** The reply and the new table are those of `op`, which the history now records. */
    twostate predicate Performed(op: TaskOp, reply: TaskReply)
      reads this
    {
      && Valid()
      && (rows, reply) == Apply(old(rows), op)
      && history == old(history) + [op]
    }

    method CreateTask(id: TaskId, blockedBy: seq<TaskId>, worktree: Option<string>) returns (reply: TaskReply)
      requires Valid()
      modifies this
      ensures Performed(Create(id, blockedBy, worktree), reply)
    {
      history := history + [Create(id, blockedBy, worktree)];
      if id in rows { return DuplicateId; }
      rows := rows[id := Row(Pending, None, Elements(blockedBy), None, worktree)];
      return Ok;
    }

    /** `_dependency_problems`: one pass over the dependencies, sorted into two lists. */
    method DependencyProblems(id: TaskId) returns (blocked: set<TaskId>, missing: set<TaskId>)
      requires id in rows
      ensures blocked == Blocked(rows, id) && missing == Missing(rows, id)
    {
      blocked, missing := {}, {};
      var todo := rows[id].blockedBy;
      while todo != {}
        invariant todo <= rows[id].blockedBy
        invariant blocked == Blocked(rows, id) - todo
        invariant missing == Missing(rows, id) - todo
        decreases todo
      {
        var d :| d in todo;
        todo := todo - {d};
        if d !in rows {
          missing := missing + {d};
        } else if rows[d].status != Completed {
          blocked := blocked + {d};
        }
      }
    }

    method CanStartTask(id: TaskId) returns (can: bool)
      ensures can == CanStart(rows, id)
    {
      if id !in rows { return false; }
      if rows[id].status != Pending { return false; }
      var blocked, missing := DependencyProblems(id);
      return blocked == {} && missing == {};
    }

    method ClaimTask(id: TaskId, owner: Worker, leaseSeconds: Option<int>, now: Time) returns (reply: TaskReply)
      requires Valid()
      modifies this
      ensures Performed(Claim(id, owner, now, LeaseSeconds(leaseSeconds)), reply)
    {
      var seconds := LeaseSeconds(leaseSeconds);
      history := history + [Claim(id, owner, now, seconds)];
      if seconds <= 0 { return InvalidLease; }
      var leaseUntil := Deadline(now, seconds);
      if id !in rows { return NotFound; }
      if rows[id].status == InProgress && Expired(rows[id].leaseUntil, now) {
        rows := rows[id := Released(rows[id])];
      }
      var row := rows[id];
      if row.status != Pending { return WrongStatus(row.status); }
      if row.owner.Some? { return AlreadyOwned; }
      var blocked, missing := DependencyProblems(id);
      if blocked != {} || missing != {} { return Unsatisfied(blocked, missing); }
      rows := rows[id := row.(status := InProgress, owner := Some(owner), leaseUntil := Some(leaseUntil))];
      return Ok;
    }

    method HeartbeatTask(id: TaskId, owner: Worker, leaseSeconds: Option<int>, now: Time) returns (reply: TaskReply)
      requires Valid()
      modifies this
      ensures Performed(Heartbeat(id, owner, now, LeaseSeconds(leaseSeconds)), reply)
    {
      var seconds := LeaseSeconds(leaseSeconds);
      history := history + [Heartbeat(id, owner, now, seconds)];
      if seconds <= 0 { return InvalidLease; }
      if id !in rows { return NotFound; }
      var row := rows[id];
      if row.status != InProgress { return WrongStatus(row.status); }
      if row.owner != Some(owner) { return NotOwner; }
      if Expired(row.leaseUntil, now) { return LeaseExpired; }
      rows := rows[id := row.(leaseUntil := Some(Deadline(now, seconds)))];
      return Ok;
    }

    method RecoverExpiredTasks(now: Time) returns (reply: TaskReply)
      requires Valid()
      modifies this
      ensures Performed(Recover(now), reply)
      ensures rows.Keys == old(rows).Keys && forall id :: id in rows ==>
        rows[id] == if id in ExpiredTasks(old(rows), now)
          then old(rows)[id].(status := Pending, owner := None, leaseUntil := None) else old(rows)[id]
    {
      history := history + [Recover(now)];
      var ids := set id | id in rows && rows[id].status == InProgress && Expired(rows[id].leaseUntil, now);
      assert ids == ExpiredTasks(rows, now);
      var todo := ids;
      while todo != {}
        invariant todo <= ids && rows == Recovered(old(rows), ids - todo)
        invariant history == old(history) + [Recover(now)]
        decreases todo
      {
        var id :| id in todo;
        todo := todo - {id};
        rows := rows[id := Released(rows[id])];
      }
      return RecoveredTasks(ids);
    }

    method CompleteTask(id: TaskId, owner: Worker, now: Time) returns (reply: TaskReply)
      requires Valid()
      modifies this
      ensures Performed(Complete(id, owner, now), reply)
    {
      history := history + [Complete(id, owner, now)];
      if id !in rows { return NotFound; }
      var row := rows[id];
      if row.status != InProgress { return WrongStatus(row.status); }
      if row.owner != Some(owner) { return NotOwner; }
      if Expired(row.leaseUntil, now) { return LeaseExpired; }
      rows := rows[id := row.(status := Completed, leaseUntil := None)];
      return Ok;
    }

    method UpdateTaskWorktree(id: TaskId, worktree: Option<string>) returns (reply: TaskReply)
      requires Valid()
      modifies this
      ensures Performed(UpdateWorktree(id, worktree), reply)
    {
      history := history + [UpdateWorktree(id, worktree)];
      if id !in rows { return NotFound; }
      rows := rows[id := rows[id].(worktree := worktree)];
      return Ok;
    }
  }
}
