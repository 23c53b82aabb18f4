/**
 Safety of the lease protocol over every run: dependency gates, fencing of stale workers,
 at-most-once completion, and disjoint tenures when the clock does not run backwards.
 */
module TaskTheorems {
  import opened Prelude
  import opened TaskLedger

  // ---------------------------------------------------------------- dependency closure

  ghost predicate RowInv(row: Row) {
    && (row.status == Pending ==> row.owner.None? && row.leaseUntil.None?)
    && (row.status == InProgress ==> row.owner.Some? && row.leaseUntil.Some?)
    && (row.status != InProgress ==> row.leaseUntil.None?)
    && row.status != Cancelled
  }

  ghost predicate Started(row: Row) {
    row.status in {InProgress, Completed, Failed}
  }

  ghost predicate LedgerInv(db: Ledger) {
    forall id :: id in db ==>
      && RowInv(db[id])
      && (Started(db[id]) ==> forall d :: d in db[id].blockedBy ==> d in db && db[d].status == Completed)
  }

  /** What any step may do to the table: rows stay, gates stay, completion is final. */
  ghost predicate Evolves(db: Ledger, db': Ledger) {
    forall id :: id in db ==>
      && id in db'
      && db'[id].blockedBy == db[id].blockedBy
      && (db[id].status == Completed ==> db'[id] == db[id].(worktree := db'[id].worktree))
      && (db[id].status == Failed ==> db'[id].status == Failed)
  }

  lemma ReleaseKeeps(db: Ledger, ids: set<TaskId>)
    requires LedgerInv(db) && forall id :: id in ids ==> id in db && db[id].status == InProgress
    ensures LedgerInv(Recovered(db, ids)) && Evolves(db, Recovered(db, ids))
  {
  }

  lemma ClaimKeeps(db: Ledger, id: TaskId, owner: Worker, now: Time, seconds: int)
    requires LedgerInv(db)
    ensures var db' := ApplyClaim(db, id, owner, now, seconds).0; LedgerInv(db') && Evolves(db, db')
  {
    if seconds > 0 && id in db {
      var db1 := if id in ExpiredTasks(db, now) then Recovered(db, {id}) else db;
      if id in ExpiredTasks(db, now) {
        assert db1 == db[id := Released(db[id])];
        ReleaseKeeps(db, {id});
      }
      if ApplyClaim(db, id, owner, now, seconds).1 == Ok {
        forall d | d in db1[id].blockedBy
          ensures d in db1 && db1[d].status == Completed
        {
          assert d !in Missing(db1, id) && d !in Blocked(db1, id);
        }
      }
    }
  }

  lemma CompleteKeeps(db: Ledger, op: TaskOp)
    requires LedgerInv(db) && op.Complete?
    ensures LedgerInv(Apply(db, op).0) && Evolves(db, Apply(db, op).0)
  {
  }

  lemma CreateKeeps(db: Ledger, op: TaskOp)
    requires LedgerInv(db) && op.Create?
    ensures LedgerInv(Apply(db, op).0) && Evolves(db, Apply(db, op).0)
  {
  }

  lemma FailureKeeps(db: Ledger, op: TaskOp)
    requires LedgerInv(db) && op.InjectFailure?
    ensures LedgerInv(Apply(db, op).0) && Evolves(db, Apply(db, op).0)
  {
  }

  lemma RowKeeps(db: Ledger, op: TaskOp)
    requires LedgerInv(db) && (op.Heartbeat? || op.UpdateWorktree?)
    ensures LedgerInv(Apply(db, op).0) && Evolves(db, Apply(db, op).0)
  {
  }

  lemma StepKeeps(db: Ledger, op: TaskOp)
    requires LedgerInv(db)
    ensures LedgerInv(Apply(db, op).0) && Evolves(db, Apply(db, op).0)
  {
    match op
    case Claim(id, owner, now, seconds) => ClaimKeeps(db, id, owner, now, seconds);
    case Recover(now) => ReleaseKeeps(db, ExpiredTasks(db, now));
    case Complete(_, _, _) => CompleteKeeps(db, op);
    case Create(_, _, _) => CreateKeeps(db, op);
    case InjectFailure(_) => FailureKeeps(db, op);
    case _ => RowKeeps(db, op);
  }

  lemma EvolvesTransitive(a: Ledger, b: Ledger, c: Ledger)
    requires Evolves(a, b) && Evolves(b, c)
    ensures Evolves(a, c)
  {
  }

  /** Over every run, a started task has all its dependencies present and completed. */
  lemma {:induction false} DependencyClosure(db: Ledger, ops: seq<TaskOp>)
    requires LedgerInv(db)
    ensures LedgerInv(Replay(db, ops)) && Evolves(db, Replay(db, ops))
    decreases |ops|
  {
    if ops != [] {
      var before := Replay(db, ops[..|ops| - 1]);
      DependencyClosure(db, ops[..|ops| - 1]);
      StepKeeps(before, ops[|ops| - 1]);
      EvolvesTransitive(db, before, Replay(db, ops));
    }
  }

  /** Once a lease has expired, re-claiming with a positive lease is never refused. */
  lemma ReclaimSucceeds(db: Ledger, id: TaskId, owner: Worker, now: Time, seconds: int)
    requires LedgerInv(db) && id in ExpiredTasks(db, now) && seconds > 0
    ensures Apply(db, Claim(id, owner, now, seconds)).1 == Ok
    ensures Apply(db, Claim(id, owner, now, seconds)).0[id].owner == Some(owner)
  {
    var db1 := db[id := Released(db[id])];
    assert Blocked(db1, id) == {} && Missing(db1, id) == {};
  }

  /** A claim succeeds exactly when the task could start, or its last holder's lease has run out. */
  lemma ClaimSucceedsIff(db: Ledger, id: TaskId, owner: Worker, now: Time, seconds: int)
    requires LedgerInv(db)
    ensures Apply(db, Claim(id, owner, now, seconds)).1 == Ok <==>
      seconds > 0 && (CanStart(db, id) || id in ExpiredTasks(db, now))
  {
    if seconds > 0 && id in ExpiredTasks(db, now) {
      ReclaimSucceeds(db, id, owner, now, seconds);
    }
  }

  // ---------------------------------------------------------------- tenures

  /** One worker's hold on a task: from its claim to the last deadline it was granted. */
  datatype Tenure = Tenure(owner: Worker, start: Time, until: Time)

  function Extended(ts: seq<Tenure>, until: Time): seq<Tenure> {
    if ts == [] then ts else ts[|ts| - 1 := ts[|ts| - 1].(until := until)]
  }

  /** A successful claim opens a tenure; a successful renewal moves the deadline of the latest one. */
  function TenureStep(db: Ledger, op: TaskOp, id: TaskId, ts: seq<Tenure>): seq<Tenure> {
    if Apply(db, op).1 != Ok then ts
    else match op
      case Claim(task, owner, now, seconds) =>
        if task == id then ts + [Tenure(owner, now, Deadline(now, seconds))] else ts
      case Heartbeat(task, owner, now, seconds) =>
        if task == id then Extended(ts, Deadline(now, seconds)) else ts
      case _ => ts
  }

  /** The successive tenures of a task in a run from the empty table. */
  function Tenures(ops: seq<TaskOp>, id: TaskId): seq<Tenure>
    decreases |ops|
  {
    if ops == [] then []
    else
      var front := ops[..|ops| - 1];
      TenureStep(Replay(map[], front), ops[|ops| - 1], id, Tenures(front, id))
  }

  function Completions(ops: seq<TaskOp>, id: TaskId): nat
    decreases |ops|
  {
    if ops == [] then 0
    else
      var front := ops[..|ops| - 1];
      var op := ops[|ops| - 1];
      Completions(front, id)
      + (if op.Complete? && op.id == id && Apply(Replay(map[], front), op).1 == Ok then 1 else 0)
  }

  /** The latest tenure of a task in progress is its row's owner and lease. */
  ghost predicate HeldByLast(db: Ledger, id: TaskId, ts: seq<Tenure>) {
    id in db && db[id].status == InProgress ==>
      ts != [] && db[id].owner == Some(ts[|ts| - 1].owner) && db[id].leaseUntil == Some(ts[|ts| - 1].until)
  }

  ghost predicate CountsCompletion(db: Ledger, id: TaskId, completions: nat) {
    completions == if id in db && db[id].status == Completed then 1 else 0
  }

  lemma HoldStep(db: Ledger, op: TaskOp, id: TaskId, ts: seq<Tenure>)
    requires LedgerInv(db) && HeldByLast(db, id, ts)
    ensures HeldByLast(Apply(db, op).0, id, TenureStep(db, op, id, ts))
  {
    match op
    case Claim(task, _, _, _) => if task != id {}
    case Heartbeat(task, _, _, _) => if task != id {}
    case Recover(_) =>
    case _ =>
  }

  lemma CompletionStep(db: Ledger, op: TaskOp, id: TaskId, n: nat)
    requires LedgerInv(db) && CountsCompletion(db, id, n)
    ensures CountsCompletion(Apply(db, op).0, id,
      if op.Complete? && op.id == id && Apply(db, op).1 == Ok then n + 1 else n)
  {
    match op
    case Claim(task, _, _, _) => if task != id {}
    case _ =>
  }

  lemma {:induction false} HistoryMatches(ops: seq<TaskOp>, id: TaskId)
    ensures LedgerInv(Replay(map[], ops))
    ensures HeldByLast(Replay(map[], ops), id, Tenures(ops, id))
    ensures CountsCompletion(Replay(map[], ops), id, Completions(ops, id))
    decreases |ops|
  {
    if ops != [] {
      var front := ops[..|ops| - 1];
      var db, op := Replay(map[], front), ops[|ops| - 1];
      HistoryMatches(front, id);
      StepKeeps(db, op);
      HoldStep(db, op, id, Tenures(front, id));
      CompletionStep(db, op, id, Completions(front, id));
    }
  }

  /** Each task completes at most once in any run. */
  lemma CompletesAtMostOnce(ops: seq<TaskOp>, id: TaskId)
    ensures Completions(ops, id) <= 1
  {
    HistoryMatches(ops, id);
  }

  lemma HolderIsLast(db: Ledger, id: TaskId, owner: Worker, now: Time, ts: seq<Tenure>)
    requires HeldByLast(db, id, ts) && HolderReply(db, id, owner, now) == Ok
    ensures ts != [] && ts[|ts| - 1].owner == owner && now < ts[|ts| - 1].until
  {
  }

  /**
   Fencing: a renewal or a completion that succeeds comes from the owner of the latest successful
   claim. A worker whose task another worker has re-claimed is refused and changes nothing.
   No assumption on the clock is needed.
   */
  lemma StaleWorkersAreFenced(ops: seq<TaskOp>, op: TaskOp)
    requires op.Heartbeat? || op.Complete?
    ensures var (db, reply) := Apply(Replay(map[], ops), op);
      var ts := Tenures(ops, op.id);
      && (reply == Ok ==> ts != [] && ts[|ts| - 1].owner == op.owner && op.now < ts[|ts| - 1].until)
      && (ts == [] || ts[|ts| - 1].owner != op.owner ==> reply != Ok && db == Replay(map[], ops))
  {
    var db := Replay(map[], ops);
    HistoryMatches(ops, op.id);
    if HolderReply(db, op.id, op.owner, op.now) == Ok {
      HolderIsLast(db, op.id, op.owner, op.now, Tenures(ops, op.id));
    }
  }

  // ---------------------------------------------------------------- disjoint tenures

  /** The clock reading of a step, for the steps that take one. */
  function Stamp(op: TaskOp): Option<Time> {
    match op
    case Claim(_, _, now, _) => Some(now)
    case Heartbeat(_, _, now, _) => Some(now)
    case Recover(now) => Some(now)
    case Complete(_, _, now) => Some(now)
    case _ => None
  }

  /** Clock readings do not decrease along the run, and none is later than `limit`. */
  ghost predicate Monotone(ops: seq<TaskOp>, limit: Time)
    decreases |ops|
  {
    ops == [] ||
    var stamp := Stamp(ops[|ops| - 1]);
    match stamp
    case None => Monotone(ops[..|ops| - 1], limit)
    case Some(now) => now <= limit && Monotone(ops[..|ops| - 1], now)
  }

  ghost predicate Disjoint(ts: seq<Tenure>) {
    && (forall i :: 0 <= i < |ts| ==> ts[i].start < ts[i].until)
    && (forall i, j :: 0 <= i < j < |ts| ==> ts[i].until <= ts[j].start)
  }

  /** Tenures so far are disjoint, and unless the task is held (or closed), all have run out by `limit`. */
  ghost predicate Lapsed(db: Ledger, id: TaskId, ts: seq<Tenure>, limit: Time) {
    && Disjoint(ts)
    && (forall i :: 0 <= i < |ts| ==> ts[i].start <= limit)
    && (id !in db ==> ts == [])
    && (id in db && db[id].status == Pending ==> forall i :: 0 <= i < |ts| ==> ts[i].until <= limit)
  }

  lemma {:induction false} TenuresLapse(ops: seq<TaskOp>, id: TaskId, limit: Time)
    requires Monotone(ops, limit)
    ensures Lapsed(Replay(map[], ops), id, Tenures(ops, id), limit)
    decreases |ops|
  {
    if ops != [] {
      var front := ops[..|ops| - 1];
      var op := ops[|ops| - 1];
      var now := match Stamp(op) case None => limit case Some(t) => t;
      TenuresLapse(front, id, now);
      HistoryMatches(front, id);
      LapseStep(Replay(map[], front), op, id, Tenures(front, id), now);
    }
  }

  lemma LapseClaim(db: Ledger, id: TaskId, owner: Worker, now: Time, seconds: int, ts: seq<Tenure>)
    requires HeldByLast(db, id, ts) && Lapsed(db, id, ts, now)
    requires ApplyClaim(db, id, owner, now, seconds).1 == Ok
    ensures Disjoint(ts + [Tenure(owner, now, Deadline(now, seconds))])
  {
    assert db[id].status == Pending || id in ExpiredTasks(db, now);
    assert ts != [] && db[id].status == InProgress ==> ts[|ts| - 1].until <= now;
    forall i | 0 <= i < |ts|
      ensures ts[i].until <= now
    {
      if i < |ts| - 1 && db[id].status == InProgress {
        assert ts[i].until <= ts[|ts| - 1].start;
      }
    }
  }

  lemma LapseHeartbeat(ts: seq<Tenure>, now: Time, seconds: int)
    requires Disjoint(ts) && seconds > 0 && forall i :: 0 <= i < |ts| ==> ts[i].start <= now
    ensures Disjoint(Extended(ts, Deadline(now, seconds)))
    ensures forall i :: 0 <= i < |ts| ==> Extended(ts, Deadline(now, seconds))[i].start <= now
  {
  }

  lemma LapseClaimStep(db: Ledger, task: TaskId, owner: Worker, now: Time, seconds: int, id: TaskId, ts: seq<Tenure>)
    requires LedgerInv(db) && HeldByLast(db, id, ts) && Lapsed(db, id, ts, now)
    ensures Lapsed(ApplyClaim(db, task, owner, now, seconds).0, id,
                   TenureStep(db, Claim(task, owner, now, seconds), id, ts), now)
  {
    if task == id && ApplyClaim(db, id, owner, now, seconds).1 == Ok {
      LapseClaim(db, id, owner, now, seconds, ts);
    } else {
      assert TenureStep(db, Claim(task, owner, now, seconds), id, ts) == ts;
      LapsedUnlessReleased(db, ApplyClaim(db, task, owner, now, seconds).0, id, ts, now);
    }
  }

  lemma LapseHolderStep(db: Ledger, op: TaskOp, id: TaskId, ts: seq<Tenure>, now: Time)
    requires LedgerInv(db) && HeldByLast(db, id, ts) && Lapsed(db, id, ts, now)
    requires op.Heartbeat? && op.now == now
    ensures Lapsed(Apply(db, op).0, id, TenureStep(db, op, id, ts), now)
  {
    if op.id == id && Apply(db, op).1 == Ok {
      LapseHeartbeat(ts, now, op.leaseSeconds);
    } else {
      assert TenureStep(db, op, id, ts) == ts;
    }
  }

  lemma LapseOtherStep(db: Ledger, op: TaskOp, id: TaskId, ts: seq<Tenure>, now: Time)
    requires LedgerInv(db) && HeldByLast(db, id, ts) && Lapsed(db, id, ts, now)
    requires !op.Claim? && !op.Heartbeat? && !op.Recover?
    ensures Lapsed(Apply(db, op).0, id, TenureStep(db, op, id, ts), now)
  {
    assert TenureStep(db, op, id, ts) == ts;
  }

  lemma LapseStep(db: Ledger, op: TaskOp, id: TaskId, ts: seq<Tenure>, now: Time)
    requires LedgerInv(db) && HeldByLast(db, id, ts) && Lapsed(db, id, ts, now)
    requires Stamp(op).Some? ==> Stamp(op).value == now
    ensures Lapsed(Apply(db, op).0, id, TenureStep(db, op, id, ts), now)
  {
    match op
    case Claim(task, owner, _, seconds) => LapseClaimStep(db, task, owner, now, seconds, id, ts);
    case Heartbeat(_, _, _, _) => LapseHolderStep(db, op, id, ts, now);
    case Recover(_) => LapsedUnlessReleased(db, Apply(db, op).0, id, ts, now);
    case _ => LapseOtherStep(db, op, id, ts, now);
  }

  lemma LapsedUnlessReleased(db: Ledger, db': Ledger, id: TaskId, ts: seq<Tenure>, now: Time)
    requires LedgerInv(db) && HeldByLast(db, id, ts) && Lapsed(db, id, ts, now)
    requires db'.Keys == db.Keys
    requires id in db && db'[id].status == Pending && db[id].status != Pending ==> id in ExpiredTasks(db, now)
    ensures Lapsed(db', id, ts, now)
  {
    if id in ExpiredTasks(db, now) {
      forall i | 0 <= i < |ts|
        ensures ts[i].until <= now
      {
        if i < |ts| - 1 {
          assert ts[i].until <= ts[|ts| - 1].start;
        }
      }
    }
  }

  /** With a clock that never runs backwards, successive tenures of one task never overlap. */
  lemma TenuresAreDisjoint(ops: seq<TaskOp>, id: TaskId, limit: Time)
    requires Monotone(ops, limit)
    ensures Disjoint(Tenures(ops, id))
  {
    TenuresLapse(ops, id, limit);
  }

  // ---------------------------------------------------------------- counting completions

  function CompletedIn(db: Ledger, ids: set<TaskId>): set<TaskId> {
    set id | id in ids && id in db && db[id].status == Completed
  }

  predicate CompletesOneOf(db: Ledger, op: TaskOp, ids: set<TaskId>) {
    op.Complete? && op.id in ids && Apply(db, op).1 == Ok
  }

  /** How many completions of these tasks succeed along the run. */
  function SuccessfulCompletions(db: Ledger, ops: seq<TaskOp>, ids: set<TaskId>): nat
    decreases |ops|
  {
    if ops == [] then 0
    else
      var front := ops[..|ops| - 1];
      SuccessfulCompletions(db, front, ids)
      + (if CompletesOneOf(Replay(db, front), ops[|ops| - 1], ids) then 1 else 0)
  }

  lemma CompletedStep(db: Ledger, op: TaskOp, ids: set<TaskId>)
    requires LedgerInv(db)
    ensures CompletedIn(Apply(db, op).0, ids) ==
      CompletedIn(db, ids) + (if CompletesOneOf(db, op, ids) then {op.id} else {})
    ensures CompletesOneOf(db, op, ids) ==> op.id !in CompletedIn(db, ids)
  {
    match op
    case Claim(_, _, _, _) =>
    case Recover(_) =>
    case _ =>
  }

  /** Conservation: the completed tasks of a set are those completed before plus one per successful completion. */
  lemma {:induction false} CompletionsAreCounted(db: Ledger, ops: seq<TaskOp>, ids: set<TaskId>)
    requires LedgerInv(db)
    ensures |CompletedIn(Replay(db, ops), ids)| == |CompletedIn(db, ids)| + SuccessfulCompletions(db, ops, ids)
    decreases |ops|
  {
    if ops != [] {
      var front := ops[..|ops| - 1];
      CompletionsAreCounted(db, front, ids);
      DependencyClosure(db, front);
      CompletedStep(Replay(db, front), ops[|ops| - 1], ids);
    }
  }

  /** Finishing a set of unfinished tasks takes exactly one successful completion per task. */
  lemma FinishingTakesOneCompletionEach(db: Ledger, ops: seq<TaskOp>, ids: set<TaskId>)
    requires LedgerInv(db) && CompletedIn(db, ids) == {} && CompletedIn(Replay(db, ops), ids) == ids
    ensures SuccessfulCompletions(db, ops, ids) == |ids|
  {
    CompletionsAreCounted(db, ops, ids);
  }
}
