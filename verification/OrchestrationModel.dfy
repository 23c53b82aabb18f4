/**
 The orchestrator: it binds the workflow state machine to durable tasks. Calls are functions over a
 method's slot (its state, its execution binding, the tasks issued for it) and the task table.
 Workers may act on the table before every table access a call makes; those steps are its `gaps`.
 */
module OrchestrationModel {
  import opened Prelude
  import opened StepPlans
  import opened WorkflowModel
  import T = TaskLedger

  type RunId = string

  datatype Binding = Binding(
    generation: nat,
    tasks: map<StepId, T.TaskId>,
    order: seq<StepId>,
    revisionTask: Option<T.TaskId>)

  /** `issued` is history: every task the orchestrator ever created for the method. */
  datatype Slot = Slot(m: Method, binding: Option<Binding>, issued: set<T.TaskId>)

  datatype Outcome = Returned | Raised

  type Gaps = seq<seq<T.TaskOp>>

  function AfterGap(db: T.Ledger, gaps: Gaps): T.Ledger {
    if gaps == [] then db else T.Replay(db, gaps[0])
  }

  function Rest(gaps: Gaps): Gaps {
    if gaps == [] then [] else gaps[1..]
  }

  /** Every coordinator call on a method is refused while the run's methods are not active. */
  ghost function OnActive(m: Method, active: bool, op: MethodOp): (Method, Reply) {
    if active then ApplyMethod(m, op) else (m, IllegalTransition)
  }

  // ---------------------------------------------------------------- activation

  function TaskSeq(tasks: map<StepId, T.TaskId>, deps: seq<StepId>): (r: seq<T.TaskId>)
    requires forall d :: d in deps ==> d in tasks
    ensures |r| == |deps|
    ensures forall i :: 0 <= i < |r| ==> r[i] == tasks[deps[i]]
  {
    seq(|deps|, i requires 0 <= i < |deps| => tasks[deps[i]])
  }

  /**
   Creates one task per step in the given order. A creation raises when its id is taken; running out
   of ids stands for a creation that raised for any other reason.
   */
  function Materialize(steps: seq<ProofStep>, order: seq<StepId>, ids: seq<T.TaskId>,
                       tasks: map<StepId, T.TaskId>, db: T.Ledger, gaps: Gaps)
    : (map<StepId, T.TaskId>, T.Ledger, Outcome)
    decreases |order|
  {
    if order == [] then (tasks, db, Returned)
    else
      var now := AfterGap(db, gaps);
      var found := StepIndex(steps, order[0]);
      if found.None? || ids == [] then (tasks, now, Raised)
      else
        var deps := steps[found.value].dependsOn;
        if exists d :: d in deps && d !in tasks then (tasks, now, Raised)
        else
          var (next, reply) := T.Apply(now, T.Create(ids[0], TaskSeq(tasks, deps), None));
          if reply != T.Ok then (tasks, now, Raised)
          else Materialize(steps, order[1..], ids[1..], tasks[order[0] := ids[0]], next, Rest(gaps))
  }

  /** The part of activation after the plan was accepted: tasks, worktree, teammate. */
  ghost function Equip(planned: Method, active: bool, generation: nat, issued: set<T.TaskId>, order: seq<StepId>,
                       prover: string, worktree: bool, ids: seq<T.TaskId>, db: T.Ledger, gaps: Gaps)
    : (Slot, T.Ledger, Outcome)
  {
    var (tasks, db', outcome) := Materialize(planned.steps, order, ids, map[], db, gaps);
    var bound := Slot(planned, Some(Binding(generation, tasks, order, None)), issued + tasks.Values);
    if outcome == Raised || !worktree then (bound, db', Raised)
    else
      var (staffed, reply) := OnActive(planned, active, AssignTeammate(prover));
      (bound.(m := staffed), db', if reply == Accepted then Returned else Raised)
  }

  /** The number of the method's current plan, 0 before its first. */
  function Generation(slot: Slot): nat {
    if slot.binding.Some? then slot.binding.value.generation else 0
  }

  /** `activate_method`; `worktree` tells whether the method's worktree could be prepared. */
  ghost function Activate(slot: Slot, active: bool, plan: seq<StepPlan>, order: seq<StepId>, prover: string,
                          worktree: bool, ids: seq<T.TaskId>, db: T.Ledger, gaps: Gaps)
    : (Slot, T.Ledger, Outcome)
  {
    var (planned, reply) := OnActive(slot.m, active, SetPlan(plan));
    if reply != Accepted then (slot, db, Raised)
    else
      Equip(planned, active, Generation(slot) + 1, slot.issued, order, prover, worktree, ids, db, gaps)
  }

  // ---------------------------------------------------------------- sync

  datatype Flow = Finished | TaskFailed | SyncError

  /** What the loop does with one step, given the task status it read. */
  ghost function SyncOne(m: Method, active: bool, id: StepId, status: T.TaskStatus): (Method, Reply)
    requires StepIndex(m.steps, id).Some?
  {
    if status in {T.InProgress, T.Completed} && StatusOf(m.steps, id) == StepPending then
      var (started, reply) := OnActive(m, active, StartStep(id));
      if reply != Accepted || status == T.InProgress then (started, reply)
      else OnActive(started, active, CompleteStep(id))
    else if status == T.Completed && StatusOf(m.steps, id) == StepInProgress then
      OnActive(m, active, CompleteStep(id))
    else (m, Accepted)
  }

  ghost function SyncLoop(m: Method, active: bool, order: seq<StepId>, tasks: map<StepId, T.TaskId>,
                          db: T.Ledger, gaps: Gaps)
    : (Method, T.Ledger, Flow)
    decreases |order|
  {
    if order == [] then (m, db, Finished)
    else if order[0] !in tasks then (m, db, SyncError)
    else
      var now := AfterGap(db, gaps);
      var task := tasks[order[0]];
      if task !in now || StepIndex(m.steps, order[0]).None? then (m, now, SyncError)
      else if now[task].status in {T.Failed, T.Cancelled} then
        var (failed, reply) := OnActive(m, active, FailMethod);
        (failed, now, if reply == Accepted then TaskFailed else SyncError)
      else
        var (next, reply) := SyncOne(m, active, order[0], now[task].status);
        if reply != Accepted then (next, now, SyncError)
        else SyncLoop(next, active, order[1..], tasks, now, Rest(gaps))
  }

  ghost function SyncRevision(slot: Slot, active: bool, db: T.Ledger, gaps: Gaps): (Slot, T.Ledger, Outcome)
    requires slot.binding.Some?
  {
    var b := slot.binding.value;
    if b.revisionTask.None? then (slot, db, Raised)
    else
      var now := AfterGap(db, gaps);
      var task := b.revisionTask.value;
      if task !in now then (slot, now, Raised)
      else if now[task].status in {T.Failed, T.Cancelled} then
        var (failed, reply) := OnActive(slot.m, active, FailMethod);
        (slot.(m := failed), now, if reply == Accepted then Returned else Raised)
      else if now[task].status == T.Completed then
        var (done, reply) := OnActive(slot.m, active, CompleteRevision);
        if reply != Accepted then (slot, now, Raised)
        else (slot.(m := done, binding := Some(b.(revisionTask := None))), now, Returned)
      else (slot, now, Returned)
  }

  /** After the loop: a method whose steps are all completed goes to structural verification. */
  ghost function Settle(m: Method, active: bool, flow: Flow): (Method, Outcome) {
    if flow == SyncError then (m, Raised)
    else if flow == TaskFailed || !AllStepsCompleted(m) then (m, Returned)
    else
      var (submitted, reply) := OnActive(m, active, SubmitStructural);
      (submitted, if reply == Accepted then Returned else Raised)
  }

  ghost function SyncProving(slot: Slot, active: bool, db: T.Ledger, gaps: Gaps): (Slot, T.Ledger, Outcome)
    requires slot.binding.Some?
  {
    var b := slot.binding.value;
    var (m, db', flow) := SyncLoop(slot.m, active, b.order, b.tasks, db, gaps);
    var (settled, outcome) := Settle(m, active, flow);
    (slot.(m := settled), db', outcome)
  }

  /** `sync_method`: the table is read once per step, so workers may act between two reads. */
  ghost function Sync(slot: Slot, active: bool, db: T.Ledger, gaps: Gaps): (Slot, T.Ledger, Outcome) {
    if slot.binding.None? then (slot, db, Raised)
    else if Terminal(slot.m.stage) then (slot, db, Returned)
    else if slot.m.revisionPending then SyncRevision(slot, active, db, gaps)
    else if slot.m.stage != Proving then (slot, db, Returned)
    else SyncProving(slot, active, db, gaps)
  }

  // ---------------------------------------------------------------- verdicts and regulation

  /** A verdict reaches the coordinator first; a missing binding is noticed only afterwards. */
  ghost function RecordVerdict(slot: Slot, active: bool, op: MethodOp): (Slot, Outcome)
    requires op.StructuralVerdict? || op.DetailedVerdict?
  {
    var (m, reply) := OnActive(slot.m, active, op);
    (slot.(m := m), if reply == Accepted && slot.binding.Some? then Returned else Raised)
  }

  ghost function RecordRegulation(slot: Slot, active: bool, action: Option<RegulatorAction>, ids: seq<T.TaskId>,
                                  db: T.Ledger, gaps: Gaps)
    : (Slot, T.Ledger, Outcome)
  {
    var (m, reply) := OnActive(slot.m, active, Regulate(action));
    var moved := slot.(m := m);
    if reply != Accepted || slot.binding.None? then (moved, db, Raised)
    else
      var b := slot.binding.value;
      if action.value != ReviseProof then
        (moved.(binding := Some(b.(tasks := map[], order := [], revisionTask := None))), db, Returned)
      else
        var now := AfterGap(db, gaps);
        if ids == [] then (moved, now, Raised)
        else
          var (next, made) := T.Apply(now, T.Create(ids[0], [], None));
          if made != T.Ok then (moved, now, Raised)
          else
            (Slot(m, Some(b.(revisionTask := Some(ids[0]))), slot.issued + {ids[0]}), next, Returned)
  }
}
