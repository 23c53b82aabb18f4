/**
 The agreement between a method's proof steps and their durable tasks, which no worker can break. Every
 orchestrator call keeps it too, whatever workers do to the table before, between and inside the calls.
 */
module Agreement {
  import opened Prelude
  import opened StepPlans
  import opened WorkflowModel
  import opened WorkflowTheorems
  import opened OrchestrationModel
  import T = TaskLedger
  import TT = TaskTheorems

  // ---------------------------------------------------------------- the invariant

  function TaskSet(tasks: map<StepId, T.TaskId>, deps: seq<StepId>): set<T.TaskId> {
    set d | d in deps && d in tasks :: tasks[d]
  }

  /**
   The bound part of the plan and the stored dependency graph are isomorphic: tasks are distinct, and
   each is blocked by exactly the tasks of its step's dependencies.
   */
  ghost predicate Mirrors(g: Graph, tasks: map<StepId, T.TaskId>, db: T.Ledger) {
    && tasks.Keys <= g.Keys
    && (forall s, d :: s in tasks && d in g[s] ==> d in tasks)
    && (forall s, t :: s in tasks && t in tasks && tasks[s] == tasks[t] ==> s == t)
    && (forall s :: s in tasks ==> tasks[s] in db && db[tasks[s]].blockedBy == TaskSet(tasks, g[s]))
  }

  /** A started step has a task; a completed step has a completed task. */
  ghost predicate StepsBacked(steps: seq<ProofStep>, tasks: map<StepId, T.TaskId>, db: T.Ledger) {
    && (forall i :: 0 <= i < |steps| && steps[i].status != StepPending ==>
          steps[i].id in tasks && tasks[steps[i].id] in db)
    && (forall i :: 0 <= i < |steps| && steps[i].status == StepCompleted ==>
          steps[i].id in tasks && tasks[steps[i].id] in db && db[tasks[steps[i].id]].status == T.Completed)
  }

  ghost predicate Bound(m: Method, b: Binding, db: T.Ledger)
    requires WellFormedPlan(PlanOf(m.steps))
  {
    && IsTopological(GraphOf(PlanOf(m.steps)), b.order)
    && Mirrors(GraphOf(PlanOf(m.steps)), b.tasks, db)
    && StepsBacked(m.steps, b.tasks, db)
  }

  /** A task that may still be unfinished without being lost: the method is waiting on it. */
  ghost predicate Awaited(m: Method, b: Binding, task: T.TaskId) {
    || (m.stage == Proving && !m.revisionPending && task in b.tasks.Values)
    || (m.revisionPending && b.revisionTask == Some(task))
  }

  ghost predicate NoOrphans(m: Method, b: Binding, issued: set<T.TaskId>, db: T.Ledger) {
    m.stage !in {MethodFailed, Abandoned} ==>
      forall t :: t in issued && t in db ==> db[t].status == T.Completed || Awaited(m, b, t)
  }

  ghost predicate SlotInv(slot: Slot, db: T.Ledger) {
    && MethodInv(slot.m)
    && slot.issued <= db.Keys
    && (slot.binding.None? ==> slot.m.stage == Decomposition && slot.issued == {})
    && (slot.binding.Some? ==>
          var b := slot.binding.value;
          && b.tasks.Values <= slot.issued
          && (b.revisionTask.Some? ==> b.revisionTask.value in slot.issued)
          && (b.revisionTask.Some? ==> slot.m.revisionPending || slot.m.stage in {MethodFailed, Abandoned})
          && (Planned(slot.m) ==> Bound(slot.m, b, db))
          && NoOrphans(slot.m, b, slot.issued, db))
  }

  // ---------------------------------------------------------------- steps of the workers

  /** Nothing a worker does to the table breaks the agreement. */
  lemma WorkersKeep(slot: Slot, db: T.Ledger, db': T.Ledger)
    requires SlotInv(slot, db) && TT.Evolves(db, db')
    ensures SlotInv(slot, db')
  {
    if slot.binding.Some? && Planned(slot.m) {
      BoundKeeps(slot.m, slot.binding.value, db, db');
    }
  }

  lemma MirrorsKeeps(g: Graph, tasks: map<StepId, T.TaskId>, db: T.Ledger, db': T.Ledger)
    requires Mirrors(g, tasks, db) && TT.Evolves(db, db')
    ensures Mirrors(g, tasks, db')
  {
  }

  lemma BoundKeeps(m: Method, b: Binding, db: T.Ledger, db': T.Ledger)
    requires WellFormedPlan(PlanOf(m.steps)) && Bound(m, b, db) && TT.Evolves(db, db')
    ensures Bound(m, b, db')
  {
    MirrorsKeeps(GraphOf(PlanOf(m.steps)), b.tasks, db, db');
  }

  lemma GapKeeps(db: T.Ledger, gaps: Gaps)
    requires TT.LedgerInv(db)
    ensures TT.LedgerInv(AfterGap(db, gaps)) && TT.Evolves(db, AfterGap(db, gaps))
  {
    if gaps != [] {
      TT.DependencyClosure(db, gaps[0]);
    }
  }

  // ---------------------------------------------------------------- steps and their ids

  lemma IndexOfStep(steps: seq<ProofStep>, i: nat)
    requires Unique(Ids(PlanOf(steps))) && i < |steps|
    ensures StepIndex(steps, steps[i].id) == Some(i)
  {
    match StepIndex(steps, steps[i].id)
    case Some(k) => UniqueStepIds(steps, i, k);
  }

  lemma GraphOfSteps(steps: seq<ProofStep>, i: nat)
    requires Unique(Ids(PlanOf(steps))) && i < |steps|
    ensures steps[i].id in GraphOf(PlanOf(steps)) && GraphOf(PlanOf(steps))[steps[i].id] == steps[i].dependsOn
  {
    assert PlanOf(steps)[i].id == steps[i].id;
  }

  lemma StepInGraph(steps: seq<ProofStep>, id: StepId) returns (i: nat)
    requires Unique(Ids(PlanOf(steps))) && id in GraphOf(PlanOf(steps))
    ensures StepIndex(steps, id) == Some(i) && i < |steps| && steps[i].id == id
    ensures GraphOf(PlanOf(steps))[id] == steps[i].dependsOn
  {
    assert id in Ids(PlanOf(steps));
    i :| 0 <= i < |steps| && Ids(PlanOf(steps))[i] == id;
    IndexOfStep(steps, i);
    GraphOfSteps(steps, i);
  }
}
