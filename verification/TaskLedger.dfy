/**
 The durable task table and its lease protocol as atomic steps. Each write transaction of the store
 is one step; the clock reading it took beforehand is an argument, so stamps need not follow commit order.
 */
module TaskLedger {
  import opened Prelude

  type TaskId = string
  type Worker = string
  /** Microseconds since a fixed instant. */
  type Time = int

  const SECOND: int := 1_000_000

  datatype TaskStatus = Pending | InProgress | Completed | Failed | Cancelled

  datatype Row = Row(
    status: TaskStatus,
    owner: Option<Worker>,
    blockedBy: set<TaskId>,
    leaseUntil: Option<Time>,
    worktree: Option<string>)

  type Ledger = map<TaskId, Row>

  /** `leaseSeconds` is the caller's value, or the store's default when the caller gave none. */
  datatype TaskOp =
    | Create(id: TaskId, blockedBy: seq<TaskId>, worktree: Option<string>)
    | Claim(id: TaskId, owner: Worker, now: Time, leaseSeconds: int)
    | Heartbeat(id: TaskId, owner: Worker, now: Time, leaseSeconds: int)
    | Recover(now: Time)
    | Complete(id: TaskId, owner: Worker, now: Time)
    | UpdateWorktree(id: TaskId, worktree: Option<string>)
    /** The benchmark's fault injection: a task in progress fails under its owner. */
    | InjectFailure(id: TaskId)

  datatype TaskReply =
    | Ok
    | RecoveredTasks(ids: set<TaskId>)
    | DuplicateId
    | InvalidLease
    | NotFound
    | WrongStatus(status: TaskStatus)
    | AlreadyOwned
    | Unsatisfied(blocked: set<TaskId>, missing: set<TaskId>)
    | NotOwner
    | LeaseExpired

  // ---------------------------------------------------------------- queries

  predicate Expired(leaseUntil: Option<Time>, now: Time) {
    leaseUntil.Some? && leaseUntil.value <= now
  }

  function Deadline(now: Time, leaseSeconds: int): Time {
    now + leaseSeconds * SECOND
  }

  function Missing(db: Ledger, id: TaskId): set<TaskId>
    requires id in db
  {
    set d | d in db[id].blockedBy && d !in db
  }

  function Blocked(db: Ledger, id: TaskId): set<TaskId>
    requires id in db
  {
    set d | d in db[id].blockedBy && d in db && db[d].status != Completed
  }

  predicate Satisfied(db: Ledger, id: TaskId)
    requires id in db
  {
    Blocked(db, id) == {} && Missing(db, id) == {}
  }

  predicate CanStart(db: Ledger, id: TaskId) {
    id in db && db[id].status == Pending && Satisfied(db, id)
  }

  function ExpiredTasks(db: Ledger, now: Time): set<TaskId> {
    set id | id in db && db[id].status == InProgress && Expired(db[id].leaseUntil, now)
  }

  // ---------------------------------------------------------------- the steps

  function Released(row: Row): Row {
    row.(status := Pending, owner := None, leaseUntil := None)
  }

  function Recovered(db: Ledger, ids: set<TaskId>): (db': Ledger)
    ensures db'.Keys == db.Keys
  {
    map id | id in db :: if id in ids then Released(db[id]) else db[id]
  }

  /** `claim_task`: an expired lease is recovered first, and that recovery stays even if the claim is refused. */
  function ApplyClaim(db: Ledger, id: TaskId, owner: Worker, now: Time, leaseSeconds: int): (Ledger, TaskReply) {
    if leaseSeconds <= 0 then (db, InvalidLease)
    else if id !in db then (db, NotFound)
    else
      var db := if id in ExpiredTasks(db, now) then db[id := Released(db[id])] else db;
      if db[id].status != Pending then (db, WrongStatus(db[id].status))
      else if db[id].owner.Some? then (db, AlreadyOwned)
      else if !Satisfied(db, id) then (db, Unsatisfied(Blocked(db, id), Missing(db, id)))
      else
        (db[id := db[id].(status := InProgress, owner := Some(owner),
                          leaseUntil := Some(Deadline(now, leaseSeconds)))], Ok)
  }

  /** The checks that `heartbeat_task` and `complete_task` share. */
  function HolderReply(db: Ledger, id: TaskId, owner: Worker, now: Time): TaskReply {
    if id !in db then NotFound
    else if db[id].status != InProgress then WrongStatus(db[id].status)
    else if db[id].owner != Some(owner) then NotOwner
    else if Expired(db[id].leaseUntil, now) then LeaseExpired
    else Ok
  }

  function Apply(db: Ledger, op: TaskOp): (Ledger, TaskReply) {
    match op
    case Create(id, blockedBy, worktree) =>
      if id in db then (db, DuplicateId)
      else (db[id := Row(Pending, None, Elements(blockedBy), None, worktree)], Ok)
    case Claim(id, owner, now, seconds) => ApplyClaim(db, id, owner, now, seconds)
    case Heartbeat(id, owner, now, seconds) =>
      if seconds <= 0 then (db, InvalidLease)
      else
        var reply := HolderReply(db, id, owner, now);
        (if reply == Ok then db[id := db[id].(leaseUntil := Some(Deadline(now, seconds)))] else db, reply)
    case Recover(now) =>
      var ids := ExpiredTasks(db, now);
      (Recovered(db, ids), RecoveredTasks(ids))
    case Complete(id, owner, now) =>
      var reply := HolderReply(db, id, owner, now);
      (if reply == Ok then db[id := db[id].(status := Completed, leaseUntil := None)] else db, reply)
    case UpdateWorktree(id, worktree) =>
      if id !in db then (db, NotFound) else (db[id := db[id].(worktree := worktree)], Ok)
    case InjectFailure(id) =>
      if id !in db then (db, NotFound)
      else if db[id].status != InProgress then (db, WrongStatus(db[id].status))
      else (db[id := db[id].(status := Failed, leaseUntil := None)], Ok)
  }

  /** The table after a sequence of steps, refused ones included. */
  function Replay(db: Ledger, ops: seq<TaskOp>): Ledger
    decreases |ops|
  {
    if ops == [] then db
    else Apply(Replay(db, ops[..|ops| - 1]), ops[|ops| - 1]).0
  }
}
