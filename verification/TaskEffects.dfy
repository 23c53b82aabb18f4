/**
 What each step of the lease protocol does to the rows of the table, when it is refused, and how long a lease that
 was asked for lasts.
 */
module TaskEffects {
  import opened Prelude
  import opened TaskLedger
  import opened TaskTheorems

  /** Only the row of `id` may differ. */
  ghost predicate OnlyRow(db: Ledger, db': Ledger, id: TaskId) {
    db'.Keys == db.Keys && forall other :: other in db && other != id ==> db'[other] == db[other]
  }

  // ---------------------------------------------------------------- creation and updates

  /** A new task waits, unowned, on exactly the given ids; a taken id is refused and keeps its row. */
  lemma CreateEffect(db: Ledger, id: TaskId, blockedBy: seq<TaskId>, worktree: Option<string>)
    ensures var (db', reply) := Apply(db, Create(id, blockedBy, worktree));
      if id in db then db' == db && reply == DuplicateId
      else
        && reply == Ok && db'.Keys == db.Keys + {id} && (forall other :: other in db ==> db'[other] == db[other])
        && db'[id].status == Pending && db'[id].owner.None? && db'[id].leaseUntil.None?
        && db'[id].worktree == worktree && forall d :: d in db'[id].blockedBy <==> d in blockedBy
  {
  }

  lemma WorktreeEffect(db: Ledger, id: TaskId, worktree: Option<string>)
    ensures var (db', reply) := Apply(db, UpdateWorktree(id, worktree));
      if id !in db then db' == db && reply == NotFound
      else
        && reply == Ok && OnlyRow(db, db', id)
        && db'[id].worktree == worktree && db'[id].(worktree := db[id].worktree) == db[id]
  {
  }

  lemma FailureEffect(db: Ledger, id: TaskId)
    ensures var (db', reply) := Apply(db, InjectFailure(id));
      && (reply == Ok <==> id in db && db[id].status == InProgress)
      && (reply != Ok ==> db' == db)
      && (reply == Ok ==>
            && OnlyRow(db, db', id) && db'[id].status == Failed && db'[id].leaseUntil.None?
            && db'[id].(status := InProgress, leaseUntil := db[id].leaseUntil) == db[id])
  {
  }

  // ---------------------------------------------------------------- the lease

  ghost predicate HasLapsed(row: Row, now: Time) {
    row.status == InProgress && row.leaseUntil.Some? && row.leaseUntil.value <= now
  }

  ghost predicate HoldsLease(db: Ledger, id: TaskId, owner: Worker, now: Time) {
    id in db && db[id].status == InProgress && db[id].owner == Some(owner) && !HasLapsed(db[id], now)
  }

  /** The task is back in the pool; what it waits on and where it works stay. */
  ghost predicate Freed(row: Row, row': Row) {
    && row'.status == Pending && row'.owner.None? && row'.leaseUntil.None?
    && row'.blockedBy == row.blockedBy && row'.worktree == row.worktree
  }

  /** A granted claim. */
  ghost predicate Granted(row: Row, row': Row, owner: Worker, until: Time) {
    && row'.status == InProgress && row'.owner == Some(owner) && row'.leaseUntil == Some(until)
    && row'.blockedBy == row.blockedBy && row'.worktree == row.worktree
  }

  /**
   Recovery frees every task in progress whose lease has ended, reports exactly these, and leaves every other row
   alone. Recovering again at the same moment finds nothing.
   */
  lemma RecoverEffect(db: Ledger, now: Time)
    ensures var (db', reply) := Apply(db, Recover(now));
      && db'.Keys == db.Keys
      && (forall id :: id in db && HasLapsed(db[id], now) ==> Freed(db[id], db'[id]))
      && (forall id :: id in db && !HasLapsed(db[id], now) ==> db'[id] == db[id])
      && reply.RecoveredTasks? && (forall id :: id in reply.ids <==> id in db && HasLapsed(db[id], now))
      && ExpiredTasks(db', now) == {}
  {
  }

  /** In a table that the protocol has kept, every recovered task can be started at once. */
  lemma RecoveredCanStart(db: Ledger, now: Time, id: TaskId)
    requires LedgerInv(db) && id in ExpiredTasks(db, now)
    ensures CanStart(Apply(db, Recover(now)).0, id)
  {
    var db' := Apply(db, Recover(now)).0;
    RecoverEffect(db, now);
    forall d | d in db'[id].blockedBy
      ensures d in db' && db'[d].status == Completed
    {
      assert d in db && db[d].status == Completed && !HasLapsed(db[d], now);
    }
  }

  /**
   A claim grants the whole lease and touches one row. A refused claim changes nothing, except that it frees the
   task if its lease had ended. Without a positive lease it does nothing at all.
   */
  lemma ClaimEffect(db: Ledger, id: TaskId, owner: Worker, now: Time, seconds: int)
    ensures var (db', reply) := Apply(db, Claim(id, owner, now, seconds));
      && (reply == InvalidLease <==> seconds <= 0)
      && (reply == NotFound <==> seconds > 0 && id !in db)
      && (reply in {InvalidLease, NotFound} ==> db' == db)
      && OnlyRow(db, db', id)
      && (reply == Ok ==> id in db && Granted(db[id], db'[id], owner, now + seconds * 1_000_000))
      && (reply != Ok && seconds > 0 && id in db ==>
            if HasLapsed(db[id], now) then Freed(db[id], db'[id]) else db' == db)
  {
  }

  /** Why a claim of a task whose lease has not ended is refused, in the order of the checks. */
  lemma ClaimRefusal(db: Ledger, id: TaskId, owner: Worker, now: Time, seconds: int)
    requires seconds > 0 && id in db && !HasLapsed(db[id], now)
    ensures var reply := Apply(db, Claim(id, owner, now, seconds)).1;
      if db[id].status != Pending then reply == WrongStatus(db[id].status)
      else if db[id].owner.Some? then reply == AlreadyOwned
      else if exists d :: d in db[id].blockedBy && (d !in db || db[d].status != Completed) then
        && reply.Unsatisfied?
        && (forall d :: d in reply.missing <==> d in db[id].blockedBy && d !in db)
        && (forall d :: d in reply.blocked <==> d in db[id].blockedBy && d in db && db[d].status != Completed)
      else reply == Ok
  {
    var row := db[id];
    assert id !in ExpiredTasks(db, now);
    if d :| d in row.blockedBy && (d !in db || db[d].status != Completed) {
      assert d in Missing(db, id) || d in Blocked(db, id);
    }
  }

  /** Only the holder of a live lease completes: the row keeps its owner and everything else but the lease. */
  lemma CompleteEffect(db: Ledger, id: TaskId, owner: Worker, now: Time)
    ensures var (db', reply) := Apply(db, Complete(id, owner, now));
      && (reply == Ok <==> HoldsLease(db, id, owner, now))
      && (reply != Ok ==> db' == db)
      && (reply == Ok ==>
            && OnlyRow(db, db', id) && db'[id].status == Completed && db'[id].leaseUntil.None?
            && db'[id].owner == Some(owner) && db'[id].blockedBy == db[id].blockedBy && db'[id].worktree == db[id].worktree)
  {
  }

  /** A heartbeat replaces the lease by one counted from its own reading of the clock. */
  lemma HeartbeatEffect(db: Ledger, id: TaskId, owner: Worker, now: Time, seconds: int)
    ensures var (db', reply) := Apply(db, Heartbeat(id, owner, now, seconds));
      && (reply == Ok <==> seconds > 0 && HoldsLease(db, id, owner, now))
      && (reply != Ok ==> db' == db)
      && (reply == Ok ==>
            OnlyRow(db, db', id) && Granted(db[id], db'[id], owner, now + seconds * 1_000_000))
  {
  }

  /** What a worker that does not hold the lease is told. */
  lemma HolderRefusal(db: Ledger, op: TaskOp)
    requires op.Complete? || (op.Heartbeat? && op.leaseSeconds > 0)
    ensures var reply := Apply(db, op).1;
      if op.id !in db then reply == NotFound
      else if db[op.id].status != InProgress then reply == WrongStatus(db[op.id].status)
      else if db[op.id].owner != Some(op.owner) then reply == NotOwner
      else if HasLapsed(db[op.id], op.now) then reply == LeaseExpired
      else reply == Ok
  {
  }

  /**
   A lease lasts as long as was asked for, whether a claim or a heartbeat got it: until then the worker can complete
   the task, nobody else can claim it and recovery passes it by; from then on the converse of all three holds.
   */
  lemma LeaseLasts(db: Ledger, grant: TaskOp, rival: Worker, t: Time, seconds: int)
    requires LedgerInv(db) && (grant.Claim? || grant.Heartbeat?) && Apply(db, grant).1 == Ok && seconds > 0
    ensures var db' := Apply(db, grant).0;
      var live := t < grant.now + grant.leaseSeconds * 1_000_000;
      && (Apply(db', Complete(grant.id, grant.owner, t)).1 == Ok <==> live)
      && (Apply(db', Claim(grant.id, rival, t, seconds)).1 == Ok <==> !live)
      && (Apply(db', Recover(t)).0[grant.id].status == Pending <==> !live)
      && (live ==> Apply(db', Recover(t)).0[grant.id] == db'[grant.id])
  {
    StepKeeps(db, grant);
    ClaimSucceedsIff(Apply(db, grant).0, grant.id, rival, t, seconds);
  }
}
