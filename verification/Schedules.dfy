/**
 Whole schedules of worker steps over the tasks of one method: every maximal schedule without failures
 finishes, after exactly one completion per step of the plan.
 */
module Schedules {
  import opened Prelude
  import opened StepPlans
  import opened WorkflowModel
  import opened OrchestrationModel
  import opened Agreement
  import opened SyncTheorems
  import T = TaskLedger
  import TT = TaskTheorems

  ghost predicate FailureFree(ops: seq<T.TaskOp>) {
    forall i :: 0 <= i < |ops| ==> !ops[i].InjectFailure?
  }

  ghost predicate NoneFailed(db: T.Ledger, ids: set<T.TaskId>) {
    forall id :: id in ids ==> id in db && db[id].status != T.Failed
  }

  lemma StepFailsNone(db: T.Ledger, op: T.TaskOp, ids: set<T.TaskId>)
    requires NoneFailed(db, ids) && !op.InjectFailure?
    ensures NoneFailed(T.Apply(db, op).0, ids)
  {
    match op
    case Claim(_, _, _, _) =>
    case Recover(_) =>
    case _ =>
  }

  /** Only a failure makes a task fail; an expired lease never does. */
  lemma {:induction false} ScheduleFailsNone(db: T.Ledger, ops: seq<T.TaskOp>, ids: set<T.TaskId>)
    requires NoneFailed(db, ids) && FailureFree(ops)
    ensures NoneFailed(T.Replay(db, ops), ids)
    decreases |ops|
  {
    if ops != [] {
      ScheduleFailsNone(db, ops[..|ops| - 1], ids);
      StepFailsNone(T.Replay(db, ops[..|ops| - 1]), ops[|ops| - 1], ids);
    }
  }

  /** Workers can do nothing more: no task is held, and none could be claimed. */
  ghost predicate Stuck(db: T.Ledger, ids: set<T.TaskId>) {
    forall id :: id in ids ==> id in db && db[id].status != T.InProgress && !T.CanStart(db, id)
  }

  // ---------------------------------------------------------------- one task per step

  ghost predicate Injective(tasks: map<StepId, T.TaskId>) {
    forall s, t :: s in tasks && t in tasks && tasks[s] == tasks[t] ==> s == t
  }

  lemma WithoutStep(tasks: map<StepId, T.TaskId>, s: StepId)
    requires Injective(tasks) && s in tasks
    ensures (tasks - {s}).Keys == tasks.Keys - {s} && (tasks - {s}).Values == tasks.Values - {tasks[s]}
    ensures Injective(tasks - {s})
  {
    var rest := tasks - {s};
    forall id
      ensures id in rest.Values <==> id in tasks.Values && id != tasks[s]
    {
      if id in tasks.Values && id != tasks[s] {
        var t :| t in tasks && tasks[t] == id;
        assert t in rest && rest[t] == id;
      }
    }
  }

  lemma {:induction false} DistinctValues(tasks: map<StepId, T.TaskId>)
    requires Injective(tasks)
    ensures |tasks.Values| == |tasks.Keys|
    decreases |tasks|
  {
    if tasks == map[] {
      assert tasks.Values == {} && tasks.Keys == {};
    } else {
      var s :| s in tasks;
      WithoutStep(tasks, s);
      DistinctValues(tasks - {s});
      assert tasks[s] in tasks.Values;
    }
  }

  lemma OneTaskPerStep(slot: Slot, db: T.Ledger)
    requires SlotInv(slot, db) && InProof(slot) && Materialized(slot)
    ensures |slot.binding.value.tasks.Values| == |slot.m.steps|
    ensures forall id :: id in slot.binding.value.tasks.Values ==> id in db
  {
    var b := slot.binding.value;
    var plan := PlanOf(slot.m.steps);
    DistinctValues(b.tasks);
    CardinalityDecidesUniqueness(Ids(plan));
    assert GraphOf(plan).Keys == Elements(Ids(plan)) && Elements(b.order) == GraphOf(plan).Keys;
  }

  // ---------------------------------------------------------------- maximal schedules

  lemma StuckTask(db: T.Ledger, ids: set<T.TaskId>, id: T.TaskId)
    requires TT.LedgerInv(db) && Stuck(db, ids) && NoneFailed(db, ids) && id in ids
    ensures id in db && db[id].status in {T.Pending, T.Completed} && !T.CanStart(db, id)
  {
  }

  lemma AllCompletedIn(b: Binding, db: T.Ledger)
    requires AllTasksCompleted(b, db)
    ensures TT.CompletedIn(db, b.tasks.Values) == b.tasks.Values
  {
  }

  lemma StuckIsFinished(slot: Slot, db: T.Ledger)
    requires SlotInv(slot, db) && TT.LedgerInv(db) && InProof(slot) && Materialized(slot) && slot.m.teammate.Some?
    requires Stuck(db, slot.binding.value.tasks.Values) && NoneFailed(db, slot.binding.value.tasks.Values)
    ensures TT.CompletedIn(db, slot.binding.value.tasks.Values) == slot.binding.value.tasks.Values
    ensures AllTasksCompleted(slot.binding.value, db)
    ensures Sync(slot, true, db, []).2 == Returned && Sync(slot, true, db, []).0.m.stage == StructuralVerify
  {
    var tasks := slot.binding.value.tasks;
    forall s | s in tasks
      ensures db[tasks[s]].status in {T.Pending, T.Completed} && !T.CanStart(db, tasks[s])
    {
      StuckTask(db, tasks.Values, tasks[s]);
    }
    ExhaustedScheduleVerifies(slot, db);
    AllCompletedIn(slot.binding.value, db);
  }

  /**
   A method in proof, fully activated, none of its tasks completed or failed. Whatever workers do without
   failing a task, once they can do no more every task is completed, exactly as many completions have
   succeeded as the plan has steps, and the next sync moves the method to structural verification.
   */
  lemma MaximalScheduleFinishes(slot: Slot, db: T.Ledger, ops: seq<T.TaskOp>)
    requires SlotInv(slot, db) && TT.LedgerInv(db) && InProof(slot) && Materialized(slot) && slot.m.teammate.Some?
    requires var ids := slot.binding.value.tasks.Values;
      && TT.CompletedIn(db, ids) == {} && NoneFailed(db, ids)
      && FailureFree(ops) && Stuck(T.Replay(db, ops), ids)
    ensures var db' := T.Replay(db, ops);
      && AllTasksCompleted(slot.binding.value, db')
      && TT.SuccessfulCompletions(db, ops, slot.binding.value.tasks.Values) == |slot.m.steps|
      && Sync(slot, true, db', []).2 == Returned && Sync(slot, true, db', []).0.m.stage == StructuralVerify
  {
    var ids, db' := slot.binding.value.tasks.Values, T.Replay(db, ops);
    TT.DependencyClosure(db, ops);
    WorkersKeep(slot, db, db');
    ScheduleFailsNone(db, ops, ids);
    StuckIsFinished(slot, db');
    TT.FinishingTakesOneCompletionEach(db, ops, ids);
    OneTaskPerStep(slot, db);
  }
}
