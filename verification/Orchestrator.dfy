/**
 `ResearchWorkflowOrchestrator`: activation, sync and regulation over live objects. Each call refines
 its model in OrchestrationModel, taken without interleaved worker steps.
 */
module Orchestrator {
  import opened Prelude
  import opened StepPlans
  import opened WorkflowModel
  import opened WorkflowCoordinator
  import opened OrchestrationModel
  import T = TaskLedger
  import opened TaskStores

  class MethodExecutionBinding {
    var planGeneration: nat
    var stepTaskIds: map<StepId, T.TaskId>
    var stepOrder: seq<StepId>
    var revisionTaskId: Option<T.TaskId>

    constructor ()
      ensures View() == Binding(0, map[], [], None)
    {
      planGeneration, stepTaskIds, stepOrder, revisionTaskId := 0, map[], [], None;
    }

    ghost function View(): Binding
      reads this
    {
      Binding(planGeneration, stepTaskIds, stepOrder, revisionTaskId)
    }
  }

  /** One turn of the model's loop, on a table nobody else touches; `None` goes on. */
  ghost function SyncTurn(m: Method, active: bool, step: StepId, tasks: map<StepId, T.TaskId>, db: T.Ledger)
    : (Method, Option<Flow>)
  {
    if step !in tasks || tasks[step] !in db || StepIndex(m.steps, step).None? then (m, Some(SyncError))
    else if db[tasks[step]].status in {T.Failed, T.Cancelled} then
      var (failed, reply) := OnActive(m, active, FailMethod);
      (failed, Some(if reply == Accepted then TaskFailed else SyncError))
    else
      var (next, reply) := SyncOne(m, active, step, db[tasks[step]].status);
      (next, if reply == Accepted then None else Some(SyncError))
  }

  lemma LoopStep(m: Method, active: bool, order: seq<StepId>, tasks: map<StepId, T.TaskId>, db: T.Ledger, i: nat)
    requires i < |order|
    ensures var (next, stop) := SyncTurn(m, active, order[i], tasks, db);
      SyncLoop(m, active, order[i..], tasks, db, [])
      == if stop.Some? then (next, db, stop.value) else SyncLoop(next, active, order[i + 1..], tasks, db, [])
  {
    assert order[i..][0] == order[i] && order[i..][1..] == order[i + 1..];
  }

  lemma PlanAccepted(m: Method, active: bool, plan: seq<StepPlan>)
    requires OnActive(m, active, SetPlan(plan)).1 == Accepted
    ensures WellFormedPlan(plan) && PlanOf(OnActive(m, active, SetPlan(plan)).0.steps) == plan
  {
  }

  class ResearchWorkflowOrchestrator {
    const workflow: ResearchWorkflowCoordinator
    const tasks: TaskStore

    constructor (workflow: ResearchWorkflowCoordinator, tasks: TaskStore)
      ensures this.workflow == workflow && this.tasks == tasks
    {
      this.workflow, this.tasks := workflow, tasks;
    }

    ghost predicate Ready(run: ResearchRun, id: MethodId)
      reads run, tasks
    {
      run.Valid() && tasks.Valid() && 1 <= id <= |run.methods|
    }

    /** A method of the run, with its binding, as the model sees it. */
    ghost function SlotView(run: ResearchRun, id: MethodId, binding: MethodExecutionBinding,
                            issued: set<T.TaskId>): Slot
      requires 1 <= id <= |run.methods|
      reads run, run.methods, binding
    {
      Slot(run.methods[id - 1].View(), Some(binding.View()), issued)
    }

    /** A coordinator call on one method, seen at that method. */
    method Call(run: ResearchRun, id: MethodId, op: MethodOp) returns (reply: Reply)
      requires run.Valid() && 1 <= id <= |run.methods|
      modifies run.methods[id - 1]
      ensures (run.methods[id - 1].View(), reply)
        == OnActive(old(run.methods[id - 1].View()), run.stage == MethodsActive, op)
    {
      ghost var before := run.View();
      reply := workflow.OnActiveMethod(run, id, op);
      assert run.methods[id - 1].View() == MethodOf(run.View(), id);
      assert before.methods[id - 1] == old(run.methods[id - 1].View());
    }

    /** The body of the sync loop for one step. */
    method SyncStep(run: ResearchRun, id: MethodId, step: StepId, status: T.TaskStatus) returns (reply: Reply)
      requires run.Valid() && 1 <= id <= |run.methods|
      requires StepIndex(run.methods[id - 1].steps, step).Some?
      modifies run.methods[id - 1]
      ensures (run.methods[id - 1].View(), reply)
        == SyncOne(old(run.methods[id - 1].View()), run.stage == MethodsActive, step, status)
    {
      var m := run.methods[id - 1];
      if status == T.InProgress {
        if StatusOf(m.steps, step) == StepPending {
          reply := Call(run, id, StartStep(step));
          return;
        }
      }
      if status == T.Completed {
        if StatusOf(m.steps, step) == StepPending {
          reply := Call(run, id, StartStep(step));
          if reply != Accepted { return; }
          reply := Call(run, id, CompleteStep(step));
          return;
        }
        if StatusOf(m.steps, step) == StepInProgress {
          reply := Call(run, id, CompleteStep(step));
          return;
        }
      }
      return Accepted;
    }

    /** The body of the loop, for one step and its task as the table stands. */
    method SyncBoundStep(run: ResearchRun, id: MethodId, step: StepId, stepTaskIds: map<StepId, T.TaskId>)
      returns (stop: Option<Flow>)
      requires Ready(run, id)
      modifies run.methods[id - 1]
      ensures (run.methods[id - 1].View(), stop)
        == SyncTurn(old(run.methods[id - 1].View()), run.stage == MethodsActive, step, stepTaskIds, tasks.rows)
    {
      if step !in stepTaskIds { return Some(SyncError); }
      var task := stepTaskIds[step];
      if task !in tasks.rows { return Some(SyncError); }
      if StepIndex(run.methods[id - 1].steps, step).None? { return Some(SyncError); }
      var status := tasks.rows[task].status;
      if status in {T.Failed, T.Cancelled} {
        var reply := Call(run, id, FailMethod);
        return Some(if reply == Accepted then TaskFailed else SyncError);
      }
      var reply := SyncStep(run, id, step, status);
      return if reply == Accepted then None else Some(SyncError);
    }

    /** The loop of `sync_method`: every step against its task as the table stands. */
    method SyncSteps(run: ResearchRun, id: MethodId, binding: MethodExecutionBinding) returns (flow: Flow)
      requires Ready(run, id)
      modifies run.methods[id - 1]
      ensures (run.methods[id - 1].View(), tasks.rows, flow)
        == SyncLoop(old(run.methods[id - 1].View()), run.stage == MethodsActive, binding.stepOrder,
                    binding.stepTaskIds, tasks.rows, [])
    {
      var m := run.methods[id - 1];
      var order := binding.stepOrder;
      ghost var whole := SyncLoop(m.View(), run.stage == MethodsActive, order, binding.stepTaskIds, tasks.rows, []);
      assert order[0..] == order;
      for i := 0 to |order|
        invariant whole == SyncLoop(m.View(), run.stage == MethodsActive, order[i..], binding.stepTaskIds, tasks.rows, [])
      {
        LoopStep(m.View(), run.stage == MethodsActive, order, binding.stepTaskIds, tasks.rows, i);
        var stop := SyncBoundStep(run, id, order[i], binding.stepTaskIds);
        if stop.Some? {
          return stop.value;
        }
      }
      return Finished;
    }

    method SyncRevisionTask(run: ResearchRun, id: MethodId, binding: MethodExecutionBinding,
                            ghost issued: set<T.TaskId>) returns (outcome: Outcome)
      requires Ready(run, id)
      modifies run.methods[id - 1], binding
      ensures (SlotView(run, id, binding, issued), tasks.rows, outcome)
        == SyncRevision(old(SlotView(run, id, binding, issued)), run.stage == MethodsActive, tasks.rows, [])
    {
      if binding.revisionTaskId.None? { return Raised; }
      var task := binding.revisionTaskId.value;
      if task !in tasks.rows { return Raised; }
      var status := tasks.rows[task].status;
      if status in {T.Failed, T.Cancelled} {
        var reply := Call(run, id, FailMethod);
        return if reply == Accepted then Returned else Raised;
      }
      if status == T.Completed {
        var reply := Call(run, id, CompleteRevision);
        if reply != Accepted { return Raised; }
        binding.revisionTaskId := None;
      }
      return Returned;
    }

    method SyncMethod(run: ResearchRun, id: MethodId, binding: MethodExecutionBinding,
                      ghost issued: set<T.TaskId>) returns (outcome: Outcome)
      requires Ready(run, id)
      modifies run.methods[id - 1], binding
      ensures (SlotView(run, id, binding, issued), tasks.rows, outcome)
        == Sync(old(SlotView(run, id, binding, issued)), run.stage == MethodsActive, tasks.rows, [])
      ensures old(run.methods[id - 1].stage) != Proving && !old(run.methods[id - 1].revisionPending) ==>
        outcome == Returned && SlotView(run, id, binding, issued) == old(SlotView(run, id, binding, issued))
    {
      var m := run.methods[id - 1];
      if m.stage in {MethodFailed, Abandoned, MethodCompleted} { return Returned; }
      if m.revisionPending {
        outcome := SyncRevisionTask(run, id, binding, issued);
        return;
      }
      if m.stage != Proving { return Returned; }
      var flow := SyncSteps(run, id, binding);
      if flow == SyncError { return Raised; }
      if flow == TaskFailed || m.steps == [] || !AllCompleted(m.steps) { return Returned; }
      var reply := Call(run, id, SubmitStructural);
      return if reply == Accepted then Returned else Raised;
    }

    /** The creation loop of `activate_method`: one durable task per step, dependencies first. */
    method MaterializeSteps(m: MethodAttempt, binding: MethodExecutionBinding, ids: seq<T.TaskId>)
      returns (outcome: Outcome)
      requires tasks.Valid() && binding.stepTaskIds == map[]
      modifies binding`stepTaskIds, tasks
      ensures tasks.Valid()
      ensures (binding.stepTaskIds, tasks.rows, outcome)
        == Materialize(m.steps, binding.stepOrder, ids, map[], old(tasks.rows), [])
    {
      var order := binding.stepOrder;
      assert order[0..] == order && ids[0..] == ids;
      var i := 0;
      while i < |order|
        invariant 0 <= i <= |order| && i <= |ids| && tasks.Valid()
        invariant Materialize(m.steps, order, ids, map[], old(tasks.rows), [])
          == Materialize(m.steps, order[i..], ids[i..], binding.stepTaskIds, tasks.rows, [])
      {
        assert order[i..][0] == order[i] && order[i..][1..] == order[i + 1..];
        var found := StepIndex(m.steps, order[i]);
        if found.None? || i == |ids| { return Raised; }
        assert ids[i..][0] == ids[i] && ids[i..][1..] == ids[i + 1..];
        var deps := m.steps[found.value].dependsOn;
        if exists d :: d in deps && d !in binding.stepTaskIds { return Raised; }
        var reply := tasks.CreateTask(ids[i], TaskSeq(binding.stepTaskIds, deps), None);
        if reply != T.Ok { return Raised; }
        binding.stepTaskIds := binding.stepTaskIds[order[i] := ids[i]];
        i := i + 1;
      }
      return Returned;
    }

    /** A new plan generation: no tasks yet, and an order to create them in. */
    method NewGeneration(m: MethodAttempt, binding: MethodExecutionBinding)
      requires WellFormedPlan(PlanOf(m.steps))
      modifies binding
      ensures binding.View() == Binding(old(binding.planGeneration) + 1, map[], binding.stepOrder, None)
      ensures IsTopological(GraphOf(PlanOf(m.steps)), binding.stepOrder)
    {
      binding.planGeneration := binding.planGeneration + 1;
      binding.stepTaskIds := map[];
      binding.revisionTaskId := None;
      binding.stepOrder := TopologicalStepIds(PlanOf(m.steps));
    }

    /** The plan is adopted, or nothing changes. */
    method PlanMethod(run: ResearchRun, id: MethodId, binding: MethodExecutionBinding, plan: seq<StepPlan>)
      returns (reply: Reply)
      requires Ready(run, id)
      modifies run.methods[id - 1], binding
      ensures (run.methods[id - 1].View(), reply)
        == OnActive(old(run.methods[id - 1].View()), run.stage == MethodsActive, SetPlan(plan))
      ensures binding.View() ==
        if reply == Accepted then Binding(old(binding.planGeneration) + 1, map[], binding.stepOrder, None)
        else old(binding.View())
      ensures reply == Accepted ==> WellFormedPlan(plan) && IsTopological(GraphOf(plan), binding.stepOrder)
    {
      reply := Call(run, id, SetPlan(plan));
      if reply == Accepted {
        PlanAccepted(old(run.methods[id - 1].View()), run.stage == MethodsActive, plan);
        NewGeneration(run.methods[id - 1], binding);
      }
    }

    /** After planning: durable tasks, the worktree, and only then the teammate. */
    method EquipMethod(run: ResearchRun, id: MethodId, binding: MethodExecutionBinding, prover: string,
                       worktreeReady: bool, ids: seq<T.TaskId>, ghost issued: set<T.TaskId>)
      returns (outcome: Outcome, ghost issued': set<T.TaskId>)
      requires Ready(run, id) && binding.stepTaskIds == map[] && binding.revisionTaskId.None?
      modifies run.methods[id - 1], binding`stepTaskIds, tasks
      ensures tasks.Valid()
      ensures (SlotView(run, id, binding, issued'), tasks.rows, outcome)
        == Equip(old(run.methods[id - 1].View()), run.stage == MethodsActive, binding.planGeneration, issued,
                 binding.stepOrder, prover, worktreeReady, ids, old(tasks.rows), [])
    {
      outcome := MaterializeSteps(run.methods[id - 1], binding, ids);
      issued' := issued + binding.stepTaskIds.Values;
      if outcome == Raised || !worktreeReady { return Raised, issued'; }
      var staffed := Call(run, id, AssignTeammate(prover));
      outcome := if staffed == Accepted then Returned else Raised;
    }

    /** `activate_method`: the plan, its order, then its equipment. */
    method ActivateMethod(run: ResearchRun, id: MethodId, binding: MethodExecutionBinding, plan: seq<StepPlan>,
                          prover: string, worktreeReady: bool, ids: seq<T.TaskId>, ghost issued: set<T.TaskId>)
      returns (outcome: Outcome, ghost issued': set<T.TaskId>)
      requires Ready(run, id)
      modifies run.methods[id - 1], binding, tasks
      ensures tasks.Valid()
      ensures (SlotView(run, id, binding, issued'), tasks.rows, outcome)
        == Activate(old(SlotView(run, id, binding, issued)), run.stage == MethodsActive, plan, binding.stepOrder,
                    prover, worktreeReady, ids, old(tasks.rows), [])
      ensures outcome == Returned ==> WellFormedPlan(plan) && IsTopological(GraphOf(plan), binding.stepOrder)
      ensures run.methods[id - 1].teammate == if outcome == Returned then Some(prover) else old(run.methods[id - 1].teammate)
    {
      ghost var before := SlotView(run, id, binding, issued);
      var planned := PlanMethod(run, id, binding, plan);
      if planned != Accepted { return Raised, issued; }
      outcome, issued' := EquipMethod(run, id, binding, prover, worktreeReady, ids, issued);
    }

    method RecordRegulatorAction(run: ResearchRun, id: MethodId, binding: MethodExecutionBinding,
                                 action: Option<RegulatorAction>, ids: seq<T.TaskId>, ghost issued: set<T.TaskId>)
      returns (outcome: Outcome, ghost issued': set<T.TaskId>)
      requires Ready(run, id)
      modifies run.methods[id - 1], binding, tasks
      ensures tasks.Valid()
      ensures (SlotView(run, id, binding, issued'), tasks.rows, outcome)
        == RecordRegulation(old(SlotView(run, id, binding, issued)), run.stage == MethodsActive, action, ids,
                            old(tasks.rows), [])
    {
      issued' := issued;
      var recorded := Call(run, id, Regulate(action));
      if recorded != Accepted { return Raised, issued; }
      if action.value == ReviseProof {
        if ids == [] { return Raised, issued; }
        var reply := tasks.CreateTask(ids[0], [], None);
        if reply != T.Ok { return Raised, issued; }
        binding.revisionTaskId := Some(ids[0]);
        return Returned, issued + {ids[0]};
      }
      binding.stepTaskIds := map[];
      binding.stepOrder := [];
      binding.revisionTaskId := None;
      return Returned, issued;
    }
  }
}
