/** Why activation keeps the agreement, however it ends, and when it gets all its tasks. */
module ActivationAgreement {
  import opened Prelude
  import opened StepPlans
  import opened WorkflowModel
  import opened WorkflowTheorems
  import opened OrchestrationModel
  import opened Agreement
  import T = TaskLedger
  import TT = TaskTheorems

  // ---------------------------------------------------------------- materialization

  /** The stored graph grows with the binding: what `Materialize` has done after part of the order. */
  ghost predicate Progress(g: Graph, order: seq<StepId>, k: nat, tasks: map<StepId, T.TaskId>, db: T.Ledger)
    requires k <= |order|
  {
    tasks.Keys == Elements(order[..k]) && Mirrors(g, tasks, db)
  }

  lemma DependenciesBound(g: Graph, order: seq<StepId>, k: nat, tasks: map<StepId, T.TaskId>, db: T.Ledger)
    requires IsTopological(g, order) && k < |order| && Progress(g, order, k, tasks, db)
    ensures forall d :: d in g[order[k]] ==> d in tasks
  {
    assert forall d :: d in g[order[k]] ==> d in Elements(order[..k]);
  }

  lemma SameTasks(tasks: map<StepId, T.TaskId>, deps: seq<StepId>)
    requires forall d :: d in deps ==> d in tasks
    ensures Elements(TaskSeq(tasks, deps)) == TaskSet(tasks, deps)
  {
    var blockers := TaskSeq(tasks, deps);
    forall x | x in Elements(blockers)
      ensures x in TaskSet(tasks, deps)
    {
      var i :| 0 <= i < |blockers| && blockers[i] == x;
      assert deps[i] in tasks && tasks[deps[i]] == x;
    }
    forall x | x in TaskSet(tasks, deps)
      ensures x in Elements(blockers)
    {
      var d :| d in deps && d in tasks && tasks[d] == x;
      var i :| 0 <= i < |deps| && deps[i] == d;
      assert blockers[i] == x;
    }
  }

  /** The tasks created earlier do not see the new one. */
  lemma EarlierTasksKeep(g: Graph, tasks: map<StepId, T.TaskId>, s: StepId, id: T.TaskId, db: T.Ledger, next: T.Ledger)
    requires Mirrors(g, tasks, db) && s !in tasks && id !in db && next.Keys == db.Keys + {id}
    requires forall t :: t in db ==> next[t] == db[t]
    ensures forall t :: t in tasks ==>
      tasks[t] in next && next[tasks[t]].blockedBy == TaskSet(tasks[s := id], g[t])
  {
    forall t | t in tasks
      ensures tasks[t] in next && next[tasks[t]].blockedBy == TaskSet(tasks[s := id], g[t])
    {
      assert TaskSet(tasks[s := id], g[t]) == TaskSet(tasks, g[t]);
    }
  }

  lemma NextOfOrder(order: seq<StepId>, k: nat)
    requires Unique(order) && k < |order|
    ensures order[k] !in Elements(order[..k]) && Elements(order[..k + 1]) == Elements(order[..k]) + {order[k]}
  {
    assert order[..k + 1] == order[..k] + [order[k]];
    ElementsConcat(order[..k], [order[k]]);
  }

  lemma MaterializeOne(g: Graph, order: seq<StepId>, k: nat, tasks: map<StepId, T.TaskId>, db: T.Ledger, id: T.TaskId)
    requires IsTopological(g, order) && k < |order| && Progress(g, order, k, tasks, db)
    requires id !in db && forall d :: d in g[order[k]] ==> d in tasks
    ensures var (next, _) := T.Apply(db, T.Create(id, TaskSeq(tasks, g[order[k]]), None));
      Progress(g, order, k + 1, tasks[order[k] := id], next)
  {
    var s := order[k];
    var deps := g[s];
    var tasks' := tasks[s := id];
    var next := T.Apply(db, T.Create(id, TaskSeq(tasks, deps), None)).0;
    NextOfOrder(order, k);
    assert tasks'.Keys == Elements(order[..k + 1]);
    assert TaskSet(tasks', deps) == TaskSet(tasks, deps);
    SameTasks(tasks, deps);
    assert next[id].blockedBy == TaskSet(tasks', deps);
    EarlierTasksKeep(g, tasks, s, id, db, next);
  }

  /** The state that remains to be materialized after the first step of `order`. */
  lemma MaterializeUnrolls(steps: seq<ProofStep>, order: seq<StepId>, i: nat, ids: seq<T.TaskId>,
                           tasks: map<StepId, T.TaskId>, db: T.Ledger, gaps: Gaps)
    requires order != [] && StepIndex(steps, order[0]) == Some(i) && i < |steps|
    requires forall d :: d in steps[i].dependsOn ==> d in tasks
    ensures var now := AfterGap(db, gaps);
      if ids == [] || ids[0] in now then Materialize(steps, order, ids, tasks, db, gaps) == (tasks, now, Raised)
      else
        Materialize(steps, order, ids, tasks, db, gaps)
        == Materialize(steps, order[1..], ids[1..], tasks[order[0] := ids[0]],
                       T.Apply(now, T.Create(ids[0], TaskSeq(tasks, steps[i].dependsOn), None)).0, Rest(gaps))
  {
  }

  /** Before a turn workers may act; the step's dependencies are bound all the same. */
  lemma BeforeTurn(steps: seq<ProofStep>, order: seq<StepId>, k: nat, tasks: map<StepId, T.TaskId>, db: T.Ledger, gaps: Gaps)
    returns (i: nat)
    requires WellFormedPlan(PlanOf(steps)) && IsTopological(GraphOf(PlanOf(steps)), order) && k < |order|
    requires Progress(GraphOf(PlanOf(steps)), order, k, tasks, db) && TT.LedgerInv(db)
    ensures var now := AfterGap(db, gaps);
      TT.LedgerInv(now) && TT.Evolves(db, now) && Progress(GraphOf(PlanOf(steps)), order, k, tasks, now)
    ensures StepIndex(steps, order[k]) == Some(i) && i < |steps| && GraphOf(PlanOf(steps))[order[k]] == steps[i].dependsOn
    ensures forall d :: d in steps[i].dependsOn ==> d in tasks
  {
    GapKeeps(db, gaps);
    MirrorsKeeps(GraphOf(PlanOf(steps)), tasks, db, AfterGap(db, gaps));
    i := StepInGraph(steps, order[k]);
    DependenciesBound(GraphOf(PlanOf(steps)), order, k, tasks, AfterGap(db, gaps));
  }

  /** One turn of the loop: its task is created, and the mirror has grown by it. */
  lemma MaterializeTurn(steps: seq<ProofStep>, order: seq<StepId>, k: nat, i: nat, id: T.TaskId,
                        tasks: map<StepId, T.TaskId>, db: T.Ledger)
    requires WellFormedPlan(PlanOf(steps)) && IsTopological(GraphOf(PlanOf(steps)), order) && k < |order|
    requires i < |steps| && GraphOf(PlanOf(steps))[order[k]] == steps[i].dependsOn
    requires Progress(GraphOf(PlanOf(steps)), order, k, tasks, db) && TT.LedgerInv(db) && id !in db
    requires forall d :: d in steps[i].dependsOn ==> d in tasks
    ensures var next := T.Apply(db, T.Create(id, TaskSeq(tasks, steps[i].dependsOn), None)).0;
      && Progress(GraphOf(PlanOf(steps)), order, k + 1, tasks[order[k] := id], next)
      && TT.LedgerInv(next) && TT.Evolves(db, next)
  {
    MaterializeOne(GraphOf(PlanOf(steps)), order, k, tasks, db, id);
    TT.StepKeeps(db, T.Create(id, TaskSeq(tasks, steps[i].dependsOn), None));
  }

  lemma {:induction false} MaterializeKeeps(steps: seq<ProofStep>, order: seq<StepId>, k: nat, ids: seq<T.TaskId>,
                                            tasks: map<StepId, T.TaskId>, db: T.Ledger, gaps: Gaps)
    requires WellFormedPlan(PlanOf(steps)) && IsTopological(GraphOf(PlanOf(steps)), order) && k <= |order|
    requires Progress(GraphOf(PlanOf(steps)), order, k, tasks, db) && TT.LedgerInv(db)
    ensures var (tasks', db', outcome) := Materialize(steps, order[k..], ids, tasks, db, gaps);
      && TT.LedgerInv(db') && TT.Evolves(db, db')
      && Mirrors(GraphOf(PlanOf(steps)), tasks', db')
      && (outcome == Returned ==> tasks'.Keys == GraphOf(PlanOf(steps)).Keys)
    decreases |order| - k
  {
    if k == |order| {
      assert order[..k] == order;
    } else {
      var rest := order[k..];
      assert rest[0] == order[k] && rest[1..] == order[k + 1..];
      var now := AfterGap(db, gaps);
      var i := BeforeTurn(steps, order, k, tasks, db, gaps);
      MaterializeUnrolls(steps, rest, i, ids, tasks, db, gaps);
      if ids != [] && ids[0] !in now {
        var next := T.Apply(now, T.Create(ids[0], TaskSeq(tasks, steps[i].dependsOn), None)).0;
        MaterializeTurn(steps, order, k, i, ids[0], tasks, now);
        MaterializeKeeps(steps, order, k + 1, ids[1..], tasks[order[k] := ids[0]], next, Rest(gaps));
        TT.EvolvesTransitive(db, now, next);
        TT.EvolvesTransitive(db, next, Materialize(steps, rest, ids, tasks, db, gaps).1);
      }
    }
  }

  // ---------------------------------------------------------------- when activation gets its tasks

  /** Ids that no task has. */
  ghost predicate Fresh(ids: seq<T.TaskId>, db: T.Ledger) {
    Unique(ids) && forall i :: 0 <= i < |ids| ==> ids[i] !in db
  }

  /** The steps of others that fall between the creations do not take the ids. */
  ghost predicate Spared(ids: seq<T.TaskId>, gaps: Gaps) {
    forall g :: 0 <= g < |gaps| ==> SparedBy(ids, gaps[g])
  }

  ghost predicate SparedBy(ids: seq<T.TaskId>, ops: seq<T.TaskOp>) {
    forall i :: 0 <= i < |ops| && ops[i].Create? ==> ops[i].id !in ids
  }

  lemma {:induction false} ReplayKeepsFresh(ids: seq<T.TaskId>, db: T.Ledger, ops: seq<T.TaskOp>)
    requires Fresh(ids, db) && SparedBy(ids, ops)
    ensures Fresh(ids, T.Replay(db, ops))
    decreases |ops|
  {
    if ops != [] {
      ReplayKeepsFresh(ids, db, ops[..|ops| - 1]);
      assert forall i :: 0 <= i < |ids| ==> ids[i] in ids;
    }
  }

  lemma GapKeepsFresh(ids: seq<T.TaskId>, db: T.Ledger, gaps: Gaps)
    requires Fresh(ids, db) && Spared(ids, gaps)
    ensures Fresh(ids, AfterGap(db, gaps)) && Spared(ids, Rest(gaps))
  {
    if gaps != [] {
      ReplayKeepsFresh(ids, db, gaps[0]);
    }
  }

  lemma RestFresh(ids: seq<T.TaskId>, db: T.Ledger, blockedBy: seq<T.TaskId>, gaps: Gaps)
    requires ids != [] && Fresh(ids, db) && Spared(ids, gaps)
    ensures Fresh(ids[1..], T.Apply(db, T.Create(ids[0], blockedBy, None)).0) && Spared(ids[1..], gaps)
  {
    assert forall id :: id in ids[1..] ==> id in ids;
    forall g | 0 <= g < |gaps|
      ensures SparedBy(ids[1..], gaps[g])
    {
      assert SparedBy(ids, gaps[g]);
    }
  }

  /**
   Given fresh ids, materialization returns exactly when there are enough of them: no step is missing
   and no dependency lookup fails, whatever workers do in between.
   */
  lemma {:induction false} MaterializeReturnsIff(steps: seq<ProofStep>, order: seq<StepId>, k: nat, ids: seq<T.TaskId>,
                                                 tasks: map<StepId, T.TaskId>, db: T.Ledger, gaps: Gaps)
    requires WellFormedPlan(PlanOf(steps)) && IsTopological(GraphOf(PlanOf(steps)), order) && k <= |order|
    requires Progress(GraphOf(PlanOf(steps)), order, k, tasks, db) && TT.LedgerInv(db)
    requires Fresh(ids, db) && Spared(ids, gaps)
    ensures Materialize(steps, order[k..], ids, tasks, db, gaps).2 == Returned <==> |ids| >= |order| - k
    decreases |order| - k
  {
    if k < |order| {
      var rest := order[k..];
      assert rest[0] == order[k] && rest[1..] == order[k + 1..];
      var now := AfterGap(db, gaps);
      var i := BeforeTurn(steps, order, k, tasks, db, gaps);
      MaterializeUnrolls(steps, rest, i, ids, tasks, db, gaps);
      GapKeepsFresh(ids, db, gaps);
      if ids != [] {
        var blockers := TaskSeq(tasks, steps[i].dependsOn);
        var next := T.Apply(now, T.Create(ids[0], blockers, None)).0;
        MaterializeTurn(steps, order, k, i, ids[0], tasks, now);
        RestFresh(ids, now, blockers, Rest(gaps));
        MaterializeReturnsIff(steps, order, k + 1, ids[1..], tasks[order[k] := ids[0]], next, Rest(gaps));
      }
    }
  }

  /** A freshly planned method with tasks for some or all of its steps, staffed or not. */
  lemma EquippedSlot(planned: Method, generation: nat, issued: set<T.TaskId>, order: seq<StepId>,
                     tasks: map<StepId, T.TaskId>, was: T.Ledger, db: T.Ledger)
    requires MethodInv(planned) && planned.stage == Proving && !planned.revisionPending
    requires forall i :: 0 <= i < |planned.steps| ==> planned.steps[i].status == StepPending
    requires IsTopological(GraphOf(PlanOf(planned.steps)), order) && Mirrors(GraphOf(PlanOf(planned.steps)), tasks, db)
    requires issued <= was.Keys && TT.Evolves(was, db)
    requires forall t :: t in issued ==> was[t].status == T.Completed
    ensures SlotInv(Slot(planned, Some(Binding(generation, tasks, order, None)), issued + tasks.Values), db)
  {
    assert tasks.Values <= db.Keys;
    assert StepsBacked(planned.steps, tasks, db);
  }

  lemma StaffedSlot(slot: Slot, active: bool, prover: string, db: T.Ledger)
    requires SlotInv(slot, db) && slot.binding.Some?
    ensures SlotInv(slot.(m := OnActive(slot.m, active, AssignTeammate(prover)).0), db)
  {
    MethodOpKeeps(slot.m, AssignTeammate(prover));
  }

  /** A method in decomposition has no task that is not completed. */
  lemma SettledBefore(slot: Slot, db: T.Ledger)
    requires SlotInv(slot, db) && slot.m.stage == Decomposition
    ensures forall t :: t in slot.issued ==> db[t].status == T.Completed
  {
  }

  lemma MaterializedFromNothing(steps: seq<ProofStep>, order: seq<StepId>, ids: seq<T.TaskId>, db: T.Ledger, gaps: Gaps)
    requires WellFormedPlan(PlanOf(steps)) && IsTopological(GraphOf(PlanOf(steps)), order) && TT.LedgerInv(db)
    ensures var (tasks, db', _) := Materialize(steps, order, ids, map[], db, gaps);
      Mirrors(GraphOf(PlanOf(steps)), tasks, db') && TT.LedgerInv(db') && TT.Evolves(db, db')
  {
    assert order[..0] == [] && order[0..] == order;
    MaterializeKeeps(steps, order, 0, ids, map[], db, gaps);
  }

  /** Materialization from nothing, and then the teammate. */
  lemma EquipKeeps(planned: Method, active: bool, generation: nat, issued: set<T.TaskId>, order: seq<StepId>,
                   prover: string, worktree: bool, ids: seq<T.TaskId>, db: T.Ledger, gaps: Gaps)
    requires MethodInv(planned) && planned.stage == Proving && !planned.revisionPending
    requires forall i :: 0 <= i < |planned.steps| ==> planned.steps[i].status == StepPending
    requires WellFormedPlan(PlanOf(planned.steps)) && IsTopological(GraphOf(PlanOf(planned.steps)), order)
    requires issued <= db.Keys && (forall t :: t in issued ==> db[t].status == T.Completed) && TT.LedgerInv(db)
    ensures var (slot', db', _) := Equip(planned, active, generation, issued, order, prover, worktree, ids, db, gaps);
      SlotInv(slot', db') && TT.LedgerInv(db') && TT.Evolves(db, db')
  {
    MaterializedFromNothing(planned.steps, order, ids, db, gaps);
    var (tasks, db', outcome) := Materialize(planned.steps, order, ids, map[], db, gaps);
    EquippedSlot(planned, generation, issued, order, tasks, db, db');
    StaffedSlot(Slot(planned, Some(Binding(generation, tasks, order, None)), issued + tasks.Values), active, prover, db');
  }

  /** Activation, complete or cut short, leaves steps and tasks in agreement. */
  lemma ActivateKeeps(slot: Slot, active: bool, plan: seq<StepPlan>, order: seq<StepId>, prover: string,
                      worktree: bool, ids: seq<T.TaskId>, db: T.Ledger, gaps: Gaps)
    requires SlotInv(slot, db) && TT.LedgerInv(db)
    requires WellFormedPlan(plan) ==> IsTopological(GraphOf(plan), order)
    ensures var (slot', db', _) := Activate(slot, active, plan, order, prover, worktree, ids, db, gaps);
      SlotInv(slot', db') && TT.LedgerInv(db') && TT.Evolves(db, db')
  {
    var (planned, reply) := OnActive(slot.m, active, SetPlan(plan));
    if reply == Accepted {
      MethodOpKeeps(slot.m, SetPlan(plan));
      SettledBefore(slot, db);
      assert PlanOf(planned.steps) == plan;
      EquipKeeps(planned, active, Generation(slot) + 1, slot.issued, order, prover, worktree, ids, db, gaps);
    }
  }
}
