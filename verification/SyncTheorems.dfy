/**
 What one sync against an unchanging table achieves, exactly when it raises, and why a materialized
 method can always make progress.
 */
module SyncTheorems {
  import opened Prelude
  import opened StepPlans
  import opened WorkflowModel
  import opened WorkflowTheorems
  import opened OrchestrationModel
  import opened Agreement
  import opened SyncAgreement
  import T = TaskLedger
  import TT = TaskTheorems

  // ---------------------------------------------------------------- step against task

  ghost predicate BoundStep(m: Method, b: Binding, db: T.Ledger, s: StepId) {
    s in b.tasks && b.tasks[s] in db && StepIndex(m.steps, s).Some?
  }

  ghost predicate Broken(b: Binding, db: T.Ledger, s: StepId) {
    s in b.tasks && b.tasks[s] in db && db[b.tasks[s]].status in {T.Failed, T.Cancelled}
  }

  /** The task is ahead of its step, so sync has a transition to make. */
  ghost predicate Lags(m: Method, b: Binding, db: T.Ledger, s: StepId) {
    && BoundStep(m, b, db, s)
    && var status := db[b.tasks[s]].status;
       || (StatusOf(m.steps, s) == StepPending && status in {T.InProgress, T.Completed})
       || (StatusOf(m.steps, s) == StepInProgress && status == T.Completed)
  }

  /** Step and task tell the same story; a recovered task may stand behind a step in progress. */
  ghost predicate Agrees(m: Method, b: Binding, db: T.Ledger, s: StepId) {
    && BoundStep(m, b, db, s)
    && var status := db[b.tasks[s]].status;
       && (StatusOf(m.steps, s) == StepCompleted <==> status == T.Completed)
       && (StatusOf(m.steps, s) == StepPending ==> status == T.Pending)
       && status !in {T.Failed, T.Cancelled}
  }

  ghost predicate CaughtUp(m: Method, b: Binding, db: T.Ledger, k: nat)
    requires k <= |b.order|
  {
    forall j :: 0 <= j < k ==> Agrees(m, b, db, b.order[j])
  }

  /** The loop cannot get past this step. */
  ghost predicate Obstructed(m: Method, active: bool, b: Binding, db: T.Ledger, s: StepId) {
    || s !in b.tasks
    || (!active && (Broken(b, db, s) || Lags(m, b, db, s)))
    || (m.teammate.None? && Lags(m, b, db, s))
  }

  ghost predicate Stops(active: bool, b: Binding, db: T.Ledger, s: StepId) {
    active && Broken(b, db, s)
  }

  /** The first step, from `k` on, that decides the loop's fate is one it cannot pass. */
  ghost predicate HitsObstruction(m: Method, active: bool, b: Binding, db: T.Ledger, k: nat) {
    exists i :: k <= i < |b.order| && Obstructed(m, active, b, db, b.order[i])
      && forall j :: k <= j < i ==> !Stops(active, b, db, b.order[j])
  }

  // ---------------------------------------------------------------- one turn of the loop

  /** The dependencies of a step whose task has started are completed steps. */
  lemma StartedDependencies(m: Method, b: Binding, db: T.Ledger, k: nat, i: nat)
    requires Syncing(m, b, db) && TT.LedgerInv(db) && k < |b.order| && CaughtUp(m, b, db, k)
    requires i < |m.steps| && m.steps[i].id == b.order[k]
    requires b.order[k] in b.tasks && TT.Started(db[b.tasks[b.order[k]]])
    ensures DependenciesKnown(m.steps, i) && DependenciesCompleted(m.steps, i)
  {
    var s := b.order[k];
    GraphOfSteps(m.steps, i);
    var g := GraphOf(PlanOf(m.steps));
    forall d | d in m.steps[i].dependsOn
      ensures StepIndex(m.steps, d).Some? && StatusOf(m.steps, d) == StepCompleted
    {
      assert d in g[s] && d in b.order[..k];
      var j :| 0 <= j < k && b.order[j] == d;
      assert Agrees(m, b, db, b.order[j]);
      assert b.tasks[d] in TaskSet(b.tasks, g[s]);
    }
  }

  lemma OtherStepsKeep(m: Method, m': Method, i: nat, s: StepId)
    requires Unique(Ids(PlanOf(m.steps))) && i < |m.steps| && OnlyStatus(m, m', i)
    requires PlanOf(m'.steps) == PlanOf(m.steps) && s in GraphOf(PlanOf(m.steps)) && s != m.steps[i].id
    ensures StepIndex(m.steps, s).Some? && StepIndex(m'.steps, s) == StepIndex(m.steps, s)
    ensures StatusOf(m'.steps, s) == StatusOf(m.steps, s)
  {
    var j := StepInGraph(m.steps, s);
    IndexOfStep(m'.steps, j);
  }

  /** The status a step moves to when its task reads `status`. */
  function CaughtStatus(step: StepStatus, status: T.TaskStatus): StepStatus {
    if status == T.Completed then StepCompleted
    else if status == T.InProgress && step == StepPending then StepInProgress
    else step
  }

  /** Started when the task has started, completed when it is completed. */
  lemma SyncOneResult(m: Method, active: bool, i: nat, status: T.TaskStatus)
    requires MethodInv(m) && m.stage == Proving && !m.revisionPending && Unique(Ids(PlanOf(m.steps)))
    requires i < |m.steps| && StepIndex(m.steps, m.steps[i].id) == Some(i) && status !in {T.Failed, T.Cancelled}
    requires status in {T.InProgress, T.Completed} ==>
      DependenciesKnown(m.steps, i) && DependenciesCompleted(m.steps, i)
    ensures var (m', reply) := SyncOne(m, active, m.steps[i].id, status);
      var lags := (m.steps[i].status == StepPending && status in {T.InProgress, T.Completed})
               || (m.steps[i].status == StepInProgress && status == T.Completed);
      && OnlyStatus(m, m', i)
      && (reply == Accepted <==> !lags || (active && m.teammate.Some?))
      && (reply == Accepted ==> m'.steps[i].status == CaughtStatus(m.steps[i].status, status))
  {
    var started := WithStatus(m, i, StepInProgress);
    StatusKeepsPlan(m, i, StepInProgress);
    IndexOfStep(started.steps, i);
    assert WithStatus(started, i, StepCompleted).steps == WithStatus(m, i, StepCompleted).steps;
    assert m.steps[i].status != StepPending ==> m.teammate.Some?;
    assert m.steps[i].status != StepFailed;
  }

  /** `m'` differs from `m` at most in the status of step `s`. */
  ghost predicate SameBut(m: Method, m': Method, order: seq<StepId>, s: StepId) {
    && m'.teammate == m.teammate
    && forall t :: t in order && t != s ==>
         StepIndex(m.steps, t).Some? && StepIndex(m'.steps, t).Some? && StatusOf(m'.steps, t) == StatusOf(m.steps, t)
  }

  lemma StatusKeepsOthers(m: Method, m': Method, i: nat, order: seq<StepId>)
    requires Unique(Ids(PlanOf(m.steps))) && i < |m.steps| && OnlyStatus(m, m', i)
    requires PlanOf(m'.steps) == PlanOf(m.steps) && Elements(order) == GraphOf(PlanOf(m.steps)).Keys
    ensures SameBut(m, m', order, m.steps[i].id)
  {
    forall t | t in order && t != m.steps[i].id
      ensures StepIndex(m'.steps, t) == StepIndex(m.steps, t) && StepIndex(m.steps, t).Some?
      ensures StatusOf(m'.steps, t) == StatusOf(m.steps, t)
    {
      assert t in Elements(order);
      OtherStepsKeep(m, m', i, t);
    }
  }

  lemma TurnKeepsOthers(m: Method, active: bool, b: Binding, db: T.Ledger, s: StepId)
    requires Syncing(m, b, db) && s in b.order && s in b.tasks
    ensures StepIndex(m.steps, s).Some?
    ensures SameBut(m, SyncOne(m, active, s, db[b.tasks[s]].status).0, b.order, s)
  {
    assert s in Elements(b.order);
    var i := StepInGraph(m.steps, s);
    var status := db[b.tasks[s]].status;
    SyncOneMoves(m, active, i, status);
    StatusKeepsOthers(m, SyncOne(m, active, s, status).0, i, b.order);
  }

  /** What a turn on step `order[k]` does, given that everything before it is caught up. */
  lemma TurnFacts(m: Method, active: bool, b: Binding, db: T.Ledger, k: nat) returns (i: nat)
    requires Syncing(m, b, db) && TT.LedgerInv(db) && k < |b.order| && CaughtUp(m, b, db, k)
    requires b.order[k] in b.tasks && !Broken(b, db, b.order[k])
    ensures i < |m.steps| && m.steps[i].id == b.order[k] && StepIndex(m.steps, b.order[k]) == Some(i)
    ensures var (m', reply) := SyncOne(m, active, b.order[k], db[b.tasks[b.order[k]]].status);
      && StepIndex(m'.steps, b.order[k]) == Some(i) && i < |m'.steps|
      && (reply == Accepted <==> !Lags(m, b, db, b.order[k]) || (active && m.teammate.Some?))
      && (reply == Accepted ==>
            m'.steps[i].status == CaughtStatus(m.steps[i].status, db[b.tasks[b.order[k]]].status))
  {
    var s := b.order[k];
    assert s in Elements(b.order);
    i := StepInGraph(m.steps, s);
    var status := db[b.tasks[s]].status;
    if status in {T.InProgress, T.Completed} {
      StartedDependencies(m, b, db, k, i);
    }
    SyncOneResult(m, active, i, status);
    SyncOneMoves(m, active, i, status);
    IndexOfStep(SyncOne(m, active, s, status).0.steps, i);
  }

  /** A turn past an unobstructed, unbroken step succeeds and catches that step up. */
  lemma TurnCatchesUp(m: Method, active: bool, b: Binding, db: T.Ledger, k: nat)
    requires Syncing(m, b, db) && TT.LedgerInv(db) && k < |b.order| && CaughtUp(m, b, db, k)
    requires b.order[k] in b.tasks && !Broken(b, db, b.order[k])
    ensures StepIndex(m.steps, b.order[k]).Some?
    ensures var (m', reply) := SyncOne(m, active, b.order[k], db[b.tasks[b.order[k]]].status);
      && (reply == Accepted <==> !Obstructed(m, active, b, db, b.order[k]))
      && (reply == Accepted ==> Agrees(m', b, db, b.order[k]))
  {
    var i := TurnFacts(m, active, b, db, k);
    BackedStep(m, b, db, i);
  }

  lemma CaughtUpExtends(m: Method, m': Method, b: Binding, db: T.Ledger, k: nat)
    requires k < |b.order| && Unique(b.order) && CaughtUp(m, b, db, k)
    requires SameBut(m, m', b.order, b.order[k]) && Agrees(m', b, db, b.order[k])
    ensures CaughtUp(m', b, db, k + 1)
  {
    forall j | 0 <= j < k
      ensures Agrees(m', b, db, b.order[j])
    {
      assert Agrees(m, b, db, b.order[j]) && b.order[j] != b.order[k];
    }
  }

  lemma ObstructionsKeep(m: Method, m': Method, active: bool, b: Binding, db: T.Ledger, k: nat)
    requires k < |b.order| && Unique(b.order) && SameBut(m, m', b.order, b.order[k])
    requires !Obstructed(m, active, b, db, b.order[k]) && !Stops(active, b, db, b.order[k])
    ensures HitsObstruction(m, active, b, db, k) <==> HitsObstruction(m', active, b, db, k + 1)
  {
    forall i | k < i < |b.order|
      ensures Obstructed(m', active, b, db, b.order[i]) <==> Obstructed(m, active, b, db, b.order[i])
    {
      assert b.order[i] in b.order && b.order[i] != b.order[k];
    }
    if HitsObstruction(m, active, b, db, k) {
      var i :| k <= i < |b.order| && Obstructed(m, active, b, db, b.order[i])
        && forall j :: k <= j < i ==> !Stops(active, b, db, b.order[j]);
      assert k + 1 <= i && Obstructed(m', active, b, db, b.order[i]);
    }
    if HitsObstruction(m', active, b, db, k + 1) {
      var i :| k + 1 <= i < |b.order| && Obstructed(m', active, b, db, b.order[i])
        && forall j :: k + 1 <= j < i ==> !Stops(active, b, db, b.order[j]);
      assert Obstructed(m, active, b, db, b.order[i]);
    }
  }

  lemma BackedStep(m: Method, b: Binding, db: T.Ledger, i: nat)
    requires Syncing(m, b, db) && i < |m.steps| && m.steps[i].id in b.tasks
    ensures m.steps[i].status == StepCompleted ==> db[b.tasks[m.steps[i].id]].status == T.Completed
  {
  }

  // ---------------------------------------------------------------- the whole loop

  /** One unrolling of the loop against an unchanging table. */
  lemma LoopTurn(m: Method, active: bool, b: Binding, db: T.Ledger, k: nat)
    requires k < |b.order| && b.order[k] in b.tasks && b.tasks[b.order[k]] in db
    requires StepIndex(m.steps, b.order[k]).Some? && !Broken(b, db, b.order[k])
    ensures var (next, reply) := SyncOne(m, active, b.order[k], db[b.tasks[b.order[k]]].status);
      SyncLoop(m, active, b.order[k..], b.tasks, db, [])
      == if reply == Accepted then SyncLoop(next, active, b.order[k + 1..], b.tasks, db, []) else (next, db, SyncError)
  {
    assert b.order[k..][0] == b.order[k] && b.order[k..][1..] == b.order[k + 1..];
  }

  /** A step without a task, or with a failed one, ends the loop. */
  lemma LoopEnds(m: Method, active: bool, b: Binding, db: T.Ledger, k: nat)
    requires m.stage == Proving && k < |b.order| && StepIndex(m.steps, b.order[k]).Some?
    requires b.order[k] !in b.tasks || Broken(b, db, b.order[k])
    ensures var (m', db', flow) := SyncLoop(m, active, b.order[k..], b.tasks, db, []);
      && db' == db
      && flow == (if Stops(active, b, db, b.order[k]) then TaskFailed else SyncError)
      && (flow == SyncError <==> HitsObstruction(m, active, b, db, k))
  {
    assert b.order[k..][0] == b.order[k];
    assert Stops(active, b, db, b.order[k]) || Obstructed(m, active, b, db, b.order[k]);
  }

  lemma ObstructionHere(m: Method, active: bool, b: Binding, db: T.Ledger, k: nat)
    requires k < |b.order| && Obstructed(m, active, b, db, b.order[k])
    ensures HitsObstruction(m, active, b, db, k)
  {
  }

  lemma SnapshotTurn(m: Method, active: bool, b: Binding, db: T.Ledger, k: nat)
    requires Syncing(m, b, db) && TT.LedgerInv(db) && k < |b.order| && CaughtUp(m, b, db, k)
    requires b.order[k] in b.tasks && !Broken(b, db, b.order[k])
    ensures b.tasks[b.order[k]] in db && StepIndex(m.steps, b.order[k]).Some?
    ensures var (next, reply) := SyncOne(m, active, b.order[k], db[b.tasks[b.order[k]]].status);
      && SyncLoop(m, active, b.order[k..], b.tasks, db, [])
         == (if reply == Accepted then SyncLoop(next, active, b.order[k + 1..], b.tasks, db, []) else (next, db, SyncError))
      && (if reply == Accepted then
            && Syncing(next, b, db) && CaughtUp(next, b, db, k + 1)
            && (HitsObstruction(m, active, b, db, k) <==> HitsObstruction(next, active, b, db, k + 1))
          else HitsObstruction(m, active, b, db, k))
  {
    var s := b.order[k];
    TurnCatchesUp(m, active, b, db, k);
    SyncOneKeeps(m, active, s, b, db);
    LoopTurn(m, active, b, db, k);
    var (next, reply) := SyncOne(m, active, s, db[b.tasks[s]].status);
    if reply == Accepted {
      TurnKeepsOthers(m, active, b, db, s);
      CaughtUpExtends(m, next, b, db, k);
      ObstructionsKeep(m, next, active, b, db, k);
    } else {
      ObstructionHere(m, active, b, db, k);
    }
  }

  /** How a loop from step `k` ends. */
  ghost predicate SnapshotEnd(end: (Method, T.Ledger, Flow), hits: bool, active: bool, b: Binding, db: T.Ledger, k: nat) {
    && end.1 == db
    && (end.2 == SyncError <==> hits)
    && (end.2 == TaskFailed ==> exists i :: k <= i < |b.order| && Stops(active, b, db, b.order[i]))
    && (end.2 == Finished ==> CaughtUp(end.0, b, db, |b.order|))
  }

  lemma EndCarries(end: (Method, T.Ledger, Flow), hits: bool, active: bool, b: Binding, db: T.Ledger, k: nat)
    requires SnapshotEnd(end, hits, active, b, db, k + 1)
    ensures SnapshotEnd(end, hits, active, b, db, k)
  {
  }

  /** No step is left, or the next one ends the loop. */
  lemma SnapshotStops(m: Method, active: bool, b: Binding, db: T.Ledger, k: nat)
    requires Syncing(m, b, db) && k <= |b.order| && CaughtUp(m, b, db, k)
    requires k < |b.order| ==> b.order[k] !in b.tasks || Broken(b, db, b.order[k])
    ensures SnapshotEnd(SyncLoop(m, active, b.order[k..], b.tasks, db, []), HitsObstruction(m, active, b, db, k),
                        active, b, db, k)
  {
    if k < |b.order| {
      assert b.order[k] in Elements(b.order);
      var i := StepInGraph(m.steps, b.order[k]);
      LoopEnds(m, active, b, db, k);
    }
  }

  lemma {:induction false} SnapshotLoop(m: Method, active: bool, b: Binding, db: T.Ledger, k: nat)
    requires Syncing(m, b, db) && TT.LedgerInv(db) && k <= |b.order| && CaughtUp(m, b, db, k)
    ensures SnapshotEnd(SyncLoop(m, active, b.order[k..], b.tasks, db, []), HitsObstruction(m, active, b, db, k),
                        active, b, db, k)
    decreases |b.order| - k
  {
    if k == |b.order| || b.order[k] !in b.tasks || Broken(b, db, b.order[k]) {
      SnapshotStops(m, active, b, db, k);
    } else {
      SnapshotTurn(m, active, b, db, k);
      var (next, reply) := SyncOne(m, active, b.order[k], db[b.tasks[b.order[k]]].status);
      if reply == Accepted {
        SnapshotLoop(next, active, b, db, k + 1);
        EndCarries(SyncLoop(next, active, b.order[k + 1..], b.tasks, db, []), HitsObstruction(next, active, b, db, k + 1),
                   active, b, db, k);
      }
    }
  }

  // ---------------------------------------------------------------- the theorem about one sync

  ghost predicate InProof(slot: Slot) {
    slot.binding.Some? && slot.m.stage == Proving && !slot.m.revisionPending
  }

  ghost predicate Materialized(slot: Slot) {
    slot.binding.Some? && slot.binding.value.tasks.Keys == Elements(slot.binding.value.order)
  }

  ghost predicate AllTasksCompleted(b: Binding, db: T.Ledger) {
    forall s :: s in b.tasks ==> b.tasks[s] in db && db[b.tasks[s]].status == T.Completed
  }

  /** Why a sync of a method in proof raises. */
  ghost predicate SyncBlocked(slot: Slot, active: bool, db: T.Ledger)
    requires slot.binding.Some?
  {
    || HitsObstruction(slot.m, active, slot.binding.value, db, 0)
    || (!active && AllStepsCompleted(slot.m))
  }

  lemma CaughtUpAgrees(m: Method, b: Binding, db: T.Ledger)
    requires CaughtUp(m, b, db, |b.order|) && b.tasks.Keys <= Elements(b.order)
    ensures b.tasks.Keys == Elements(b.order)
    ensures forall s :: s in b.tasks ==> Agrees(m, b, db, s)
  {
    forall s | s in Elements(b.order)
      ensures Agrees(m, b, db, s)
    {
      var j :| 0 <= j < |b.order| && b.order[j] == s;
      assert Agrees(m, b, db, b.order[j]);
    }
  }

  lemma CompletedTogether(m: Method, b: Binding, db: T.Ledger)
    requires Unique(Ids(PlanOf(m.steps))) && m.steps != []
    requires b.tasks.Keys == GraphOf(PlanOf(m.steps)).Keys
    requires forall s :: s in b.tasks ==> Agrees(m, b, db, s)
    ensures AllStepsCompleted(m) <==> AllTasksCompleted(b, db)
  {
    forall i | 0 <= i < |m.steps|
      ensures m.steps[i].id in b.tasks && StepIndex(m.steps, m.steps[i].id) == Some(i)
    {
      GraphOfSteps(m.steps, i);
      IndexOfStep(m.steps, i);
    }
    if AllTasksCompleted(b, db) {
      forall i | 0 <= i < |m.steps|
        ensures m.steps[i].status == StepCompleted
      {
        assert Agrees(m, b, db, m.steps[i].id);
      }
    }
    if AllStepsCompleted(m) {
      forall s | s in b.tasks
        ensures db[b.tasks[s]].status == T.Completed
      {
        assert Agrees(m, b, db, s) && StatusOf(m.steps, s) == StepCompleted;
      }
    }
  }

  lemma CaughtUpEverywhere(m: Method, b: Binding, db: T.Ledger)
    requires Syncing(m, b, db) && CaughtUp(m, b, db, |b.order|)
    ensures b.tasks.Keys == Elements(b.order)
    ensures forall s :: s in b.tasks ==> Agrees(m, b, db, s)
    ensures AllStepsCompleted(m) <==> AllTasksCompleted(b, db)
  {
    CaughtUpAgrees(m, b, db);
    assert PlanOf(m.steps) != [];
    CompletedTogether(m, b, db);
  }

  lemma SettledAgrees(m: Method, active: bool, b: Binding, db: T.Ledger)
    requires Syncing(m, b, db) && CaughtUp(m, b, db, |b.order|)
    ensures var (settled, outcome) := Settle(m, active, Finished);
      && (outcome == Raised <==> !active && AllStepsCompleted(m))
      && (forall s :: s in b.tasks ==> Agrees(settled, b, db, s))
      && (outcome == Returned ==>
            settled.stage == if AllTasksCompleted(b, db) then StructuralVerify else Proving)
  {
    CaughtUpEverywhere(m, b, db);
    assert Settle(m, active, Finished).0.steps == m.steps;
    forall s | s in b.tasks
      ensures Agrees(Settle(m, active, Finished).0, b, db, s)
    {
      assert Agrees(m, b, db, s);
    }
  }

  /** While the run is not active the loop changes no step, whatever it reads. */
  lemma {:induction false} InactiveLoop(m: Method, order: seq<StepId>, tasks: map<StepId, T.TaskId>, db: T.Ledger,
                                        gaps: Gaps)
    ensures SyncLoop(m, false, order, tasks, db, gaps).0 == m
    decreases |order|
  {
    if order != [] && order[0] in tasks {
      var now := AfterGap(db, gaps);
      if tasks[order[0]] in now && StepIndex(m.steps, order[0]).Some? {
        InactiveLoop(m, order[1..], tasks, now, Rest(gaps));
      }
    }
  }

  /** What the loop left when it ran to its end is settled in agreement. */
  lemma SnapshotSettles(m: Method, active: bool, b: Binding, db: T.Ledger)
    requires Syncing(m, b, db) && TT.LedgerInv(db)
    requires var (m', db', flow) := SyncLoop(m, active, b.order, b.tasks, db, []);
      db' == db && (flow == Finished ==> CaughtUp(m', b, db, |b.order|))
    ensures var (m', _, flow) := SyncLoop(m, active, b.order, b.tasks, db, []);
      var (settled, outcome) := Settle(m', active, Finished);
      && (!active ==> m' == m)
      && (flow == TaskFailed ==> m'.stage == MethodFailed)
      && (flow == Finished ==>
            && (outcome == Raised <==> !active && AllStepsCompleted(m'))
            && b.tasks.Keys == Elements(b.order)
            && (forall s :: s in b.tasks ==> Agrees(settled, b, db, s))
            && (outcome == Returned ==>
                  settled.stage == if AllTasksCompleted(b, db) then StructuralVerify else Proving))
  {
    SyncLoopKeeps(m, active, b.order, b, db, []);
    var (m', _, flow) := SyncLoop(m, active, b.order, b.tasks, db, []);
    if !active {
      InactiveLoop(m, b.order, b.tasks, db, []);
    }
    if flow == Finished {
      CaughtUpEverywhere(m', b, db);
      SettledAgrees(m', active, b, db);
    }
  }

  /**
   One sync against the table as it stands. It raises exactly when it meets an obstruction; it fails
   the method only on a failed task; otherwise steps and tasks agree afterwards, and the method is in
   structural verification exactly when every task is completed.
   */
  lemma SnapshotSync(slot: Slot, active: bool, db: T.Ledger)
    requires SlotInv(slot, db) && TT.LedgerInv(db) && InProof(slot)
    ensures var (slot', db', outcome) := Sync(slot, active, db, []);
      var b := slot.binding.value;
      && db' == db
      && (outcome == Raised <==> SyncBlocked(slot, active, db))
      && (outcome == Returned && slot'.m.stage == MethodFailed ==> exists s :: Broken(b, db, s))
      && (outcome == Returned && slot'.m.stage != MethodFailed ==>
            && Materialized(slot)
            && (forall s :: s in b.tasks ==> Agrees(slot'.m, b, db, s))
            && slot'.m.stage == if AllTasksCompleted(b, db) then StructuralVerify else Proving)
  {
    var b := slot.binding.value;
    assert b.order[0..] == b.order;
    SnapshotLoop(slot.m, active, b, db, 0);
    SnapshotSettles(slot.m, active, b, db);
  }

  /** Activated in full, and the run still active: an undisturbed sync never raises, whatever workers did before. */
  lemma UndisturbedSyncReturns(slot: Slot, db: T.Ledger)
    requires SlotInv(slot, db) && TT.LedgerInv(db) && InProof(slot)
    requires Materialized(slot) && slot.m.teammate.Some?
    ensures Sync(slot, true, db, []).2 == Returned
  {
    SnapshotSync(slot, true, db);
    var b := slot.binding.value;
    assert forall i :: 0 <= i < |b.order| ==> b.order[i] in Elements(b.order);
  }

  ghost predicate TaskStarted(b: Binding, db: T.Ledger, s: StepId) {
    s in b.tasks && b.tasks[s] in db && db[b.tasks[s]].status in {T.InProgress, T.Completed}
  }

  lemma UnstaffedStep(slot: Slot, db: T.Ledger, s: StepId)
    requires SlotInv(slot, db) && InProof(slot) && Materialized(slot) && slot.m.teammate.None?
    requires s in slot.binding.value.order
    ensures Obstructed(slot.m, true, slot.binding.value, db, s) <==> TaskStarted(slot.binding.value, db, s)
  {
    assert s in Elements(slot.binding.value.order);
    var k := StepInGraph(slot.m.steps, s);
    assert slot.m.steps[k].status == StepPending;
  }

  /**
   Where the promise fails: activation that created every task but could not prepare the worktree
   leaves the method without a teammate. Then sync raises exactly when some task has started and no
   failed task stands before it in the order.
   */
  lemma UnstaffedSyncRaisesIff(slot: Slot, db: T.Ledger)
    requires SlotInv(slot, db) && TT.LedgerInv(db) && InProof(slot)
    requires Materialized(slot) && slot.m.teammate.None?
    ensures var b := slot.binding.value;
      Sync(slot, true, db, []).2 == Raised <==>
      (exists i :: 0 <= i < |b.order| && TaskStarted(b, db, b.order[i])
        && (forall j :: 0 <= j < i ==> !Broken(b, db, b.order[j])))
  {
    SnapshotSync(slot, true, db);
    var b := slot.binding.value;
    forall i | 0 <= i < |b.order|
      ensures Obstructed(slot.m, true, b, db, b.order[i]) <==> TaskStarted(b, db, b.order[i])
      ensures Stops(true, b, db, b.order[i]) <==> Broken(b, db, b.order[i])
    {
      UnstaffedStep(slot, db, b.order[i]);
    }
  }

  // ---------------------------------------------------------------- progress

  /** The first unfinished task in dependency order, with all tasks before it completed. */
  lemma FirstUnfinished(b: Binding, db: T.Ledger) returns (k: nat)
    requires b.tasks.Keys == Elements(b.order) && !AllTasksCompleted(b, db)
    requires forall s :: s in b.tasks ==> b.tasks[s] in db
    ensures k < |b.order| && b.order[k] in b.tasks && db[b.tasks[b.order[k]]].status != T.Completed
    ensures forall j :: 0 <= j < k ==> b.order[j] in b.tasks && db[b.tasks[b.order[j]]].status == T.Completed
  {
    var s :| s in b.tasks && db[b.tasks[s]].status != T.Completed;
    assert s in Elements(b.order);
    k := 0;
    while db[b.tasks[b.order[k]]].status == T.Completed
      invariant k < |b.order| && b.order[k] in b.tasks
      invariant forall j :: 0 <= j < k ==> b.order[j] in b.tasks && db[b.tasks[b.order[j]]].status == T.Completed
      decreases |b.order| - k
    {
      assert b.order[|b.order| - 1] in Elements(b.order);
      if k == |b.order| - 1 {
        var j :| 0 <= j < |b.order| && b.order[j] == s;
        assert false;
      }
      assert b.order[k + 1] in Elements(b.order);
      k := k + 1;
    }
  }

  /**
   No deadlock: while some task of a materialized method is unfinished and none is in progress or
   failed, one of its pending tasks can start, and any worker's claim of it succeeds.
   */
  lemma NoDeadlock(slot: Slot, db: T.Ledger) returns (s: StepId)
    requires SlotInv(slot, db) && TT.LedgerInv(db) && InProof(slot) && Materialized(slot)
    requires !AllTasksCompleted(slot.binding.value, db)
    requires forall s :: s in slot.binding.value.tasks ==>
      db[slot.binding.value.tasks[s]].status in {T.Pending, T.Completed}
    ensures s in slot.binding.value.tasks && T.CanStart(db, slot.binding.value.tasks[s])
    ensures forall owner, now, seconds :: seconds > 0 ==>
      T.Apply(db, T.Claim(slot.binding.value.tasks[s], owner, now, seconds)).1 == T.Ok
  {
    var b := slot.binding.value;
    var k := FirstUnfinished(b, db);
    s := b.order[k];
    var task := b.tasks[s];
    var g := GraphOf(PlanOf(slot.m.steps));
    forall t | t in db[task].blockedBy
      ensures t in db && db[t].status == T.Completed
    {
      var d :| d in g[s] && d in b.tasks && b.tasks[d] == t;
      assert d in b.order[..k];
      var j :| 0 <= j < k && b.order[j] == d;
    }
    assert T.Blocked(db, task) == {} && T.Missing(db, task) == {};
    forall owner, now, seconds | seconds > 0
      ensures T.Apply(db, T.Claim(task, owner, now, seconds)).1 == T.Ok
    {
      TT.ClaimSucceedsIff(db, task, owner, now, seconds);
    }
  }

  /**
   When workers can do no more (nothing claimable, nothing in progress, nothing failed), every task is
   completed, and the next sync moves the method to structural verification.
   */
  lemma ExhaustedScheduleVerifies(slot: Slot, db: T.Ledger)
    requires SlotInv(slot, db) && TT.LedgerInv(db) && InProof(slot) && Materialized(slot) && slot.m.teammate.Some?
    requires forall s :: s in slot.binding.value.tasks ==>
      var task := slot.binding.value.tasks[s];
      db[task].status in {T.Pending, T.Completed} && !T.CanStart(db, task)
    ensures AllTasksCompleted(slot.binding.value, db)
    ensures Sync(slot, true, db, []).2 == Returned && Sync(slot, true, db, []).0.m.stage == StructuralVerify
  {
    if !AllTasksCompleted(slot.binding.value, db) {
      var s := NoDeadlock(slot, db);
    }
    UndisturbedSyncReturns(slot, db);
    SnapshotSync(slot, true, db);
    var failed := Sync(slot, true, db, []).0.m.stage == MethodFailed;
    assert !failed;
  }

  function StageAfterRevision(task: T.TaskStatus): MethodStage {
    match task
    case Completed => StructuralVerify
    case Failed => MethodFailed
    case Cancelled => MethodFailed
    case _ => Proving
  }

  /**
   A pending revision: sync raises exactly when its task was never created, or when the run is not active
   and the task has ended.
   */
  lemma RevisionSyncRaisesIff(slot: Slot, active: bool, db: T.Ledger)
    requires SlotInv(slot, db) && slot.m.revisionPending
    ensures var task := slot.binding.value.revisionTask;
      var (slot', _, outcome) := Sync(slot, active, db, []);
      && (outcome == Raised <==>
            task.None? || (!active && db[task.value].status in {T.Failed, T.Cancelled, T.Completed}))
      && (outcome == Returned ==> slot'.m.stage == StageAfterRevision(db[task.value].status))
  {
    RevisionSync(slot, active, db);
    if slot.binding.value.revisionTask.Some? {
      BoundRevision(slot, active, db);
    }
  }

  lemma RevisionSync(slot: Slot, active: bool, db: T.Ledger)
    requires SlotInv(slot, db) && slot.m.revisionPending
    ensures slot.m.stage == Proving && slot.binding.Some?
    ensures slot.binding.value.revisionTask.Some? ==> slot.binding.value.revisionTask.value in db
    ensures Sync(slot, active, db, []) == SyncRevision(slot, active, db, [])
    ensures slot.binding.value.revisionTask.None? ==> SyncRevision(slot, active, db, []) == (slot, db, Raised)
  {
  }

  lemma BoundRevision(slot: Slot, active: bool, db: T.Ledger)
    requires slot.m.stage == Proving && slot.m.revisionPending && slot.binding.Some?
    requires slot.binding.value.revisionTask.Some? && slot.binding.value.revisionTask.value in db
    ensures var (slot', _, outcome) := SyncRevision(slot, active, db, []);
      var status := db[slot.binding.value.revisionTask.value].status;
      && (outcome == Raised <==> !active && status in {T.Failed, T.Cancelled, T.Completed})
      && (outcome == Returned ==> slot'.m.stage == StageAfterRevision(status))
  {
  }
}
