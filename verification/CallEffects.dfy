/**
 What activation, verdicts and regulation do to a method, field by field, and what every reachable method owes to
 which of these calls.
 */
module CallEffects {
  import opened Prelude
  import opened StepPlans
  import opened WorkflowModel
  import opened OrchestrationModel
  import opened ActivationAgreement
  import T = TaskLedger

  // ---------------------------------------------------------------- activation

  /** The first `n` steps of the order have the first `n` ids. */
  ghost predicate Numbered(tasks: map<StepId, T.TaskId>, order: seq<StepId>, ids: seq<T.TaskId>, n: nat) {
    && n <= |order| && n <= |ids|
    && tasks.Keys == Elements(order[..n])
    && forall i :: 0 <= i < n ==> order[i] in tasks && tasks[order[i]] == ids[i]
  }

  lemma NumberNext(tasks: map<StepId, T.TaskId>, order: seq<StepId>, ids: seq<T.TaskId>, n: nat)
    requires Unique(order) && Numbered(tasks, order, ids, n) && n < |order| && n < |ids|
    ensures Numbered(tasks[order[n] := ids[n]], order, ids, n + 1)
  {
    NextOfOrder(order, n);
  }

  /** Something keeps the next task from being created. */
  ghost predicate Stuck(steps: seq<ProofStep>, s: StepId, ids: seq<T.TaskId>, k: nat, tasks: map<StepId, T.TaskId>,
                        now: T.Ledger)
  {
    || StepIndex(steps, s).None?
    || (exists d :: d in steps[StepIndex(steps, s).value].dependsOn && d !in tasks)
    || k >= |ids| || ids[k] in now
  }

  lemma StuckRaises(steps: seq<ProofStep>, order: seq<StepId>, k: nat, ids: seq<T.TaskId>,
                    tasks: map<StepId, T.TaskId>, db: T.Ledger, gaps: Gaps)
    requires k < |order| && k <= |ids| && Stuck(steps, order[k], ids, k, tasks, AfterGap(db, gaps))
    ensures Materialize(steps, order[k..], ids[k..], tasks, db, gaps) == (tasks, AfterGap(db, gaps), Raised)
  {
    assert order[k..][0] == order[k];
    assert k < |ids| ==> ids[k..][0] == ids[k];
  }

  lemma CreationGoesOn(steps: seq<ProofStep>, order: seq<StepId>, k: nat, ids: seq<T.TaskId>,
                       tasks: map<StepId, T.TaskId>, db: T.Ledger, gaps: Gaps) returns (next: T.Ledger)
    requires k < |order| && k <= |ids| && !Stuck(steps, order[k], ids, k, tasks, AfterGap(db, gaps))
    ensures Materialize(steps, order[k..], ids[k..], tasks, db, gaps)
      == Materialize(steps, order[k + 1..], ids[k + 1..], tasks[order[k] := ids[k]], next, Rest(gaps))
  {
    var i := StepIndex(steps, order[k]).value;
    assert order[k..][0] == order[k] && order[k..][1..] == order[k + 1..];
    assert ids[k..][0] == ids[k] && ids[k..][1..] == ids[k + 1..];
    next := T.Apply(AfterGap(db, gaps), T.Create(ids[k], TaskSeq(tasks, steps[i].dependsOn), None)).0;
    MaterializeUnrolls(steps, order[k..], i, ids[k..], tasks, db, gaps);
  }

  /** Materialization gives the ids out in order, until it is done or a creation raises. */
  lemma {:induction false} MaterializeNumbers(steps: seq<ProofStep>, order: seq<StepId>, k: nat, ids: seq<T.TaskId>,
                                              tasks: map<StepId, T.TaskId>, db: T.Ledger, gaps: Gaps) returns (n: nat)
    requires Unique(order) && Numbered(tasks, order, ids, k)
    ensures k <= n
    ensures var (tasks', _, outcome) := Materialize(steps, order[k..], ids[k..], tasks, db, gaps);
      Numbered(tasks', order, ids, n) && (outcome == Returned <==> n == |order|)
    decreases |order| - k
  {
    n := k;
    if k < |order| {
      if Stuck(steps, order[k], ids, k, tasks, AfterGap(db, gaps)) {
        StuckRaises(steps, order, k, ids, tasks, db, gaps);
      } else {
        var next := CreationGoesOn(steps, order, k, ids, tasks, db, gaps);
        NumberNext(tasks, order, ids, k);
        n := MaterializeNumbers(steps, order, k + 1, ids, tasks[order[k] := ids[k]], next, Rest(gaps));
      }
    }
  }

  ghost predicate Accepts(slot: Slot, active: bool, plan: seq<StepPlan>) {
    active && slot.m.stage == Decomposition && WellFormedPlan(plan)
  }

  /** The method a plan was accepted for: in proof, every step pending, nothing else changed but its old results. */
  ghost predicate PlannedWith(m: Method, m': Method, plan: seq<StepPlan>) {
    && PlanOf(m'.steps) == plan
    && (forall i :: 0 <= i < |m'.steps| ==> m'.steps[i].status == StepPending)
    && m'.stage == Proving && !m'.revisionPending
    && m'.structural.None? && m'.detailed.None? && m'.action.None?
    && m'.name == m.name && m'.proofRevisions == m.proofRevisions
    && m'.planRevisions == m.planRevisions && m'.rewrites == m.rewrites
  }

  /** A binding of the next generation, with tasks for the first `n` steps. */
  ghost predicate BoundAnew(slot: Slot, slot': Slot, order: seq<StepId>, ids: seq<T.TaskId>, n: nat) {
    && slot'.binding.Some?
    && var b := slot'.binding.value;
       && b.generation == Generation(slot) + 1
       && b.order == order
       && b.revisionTask.None?
       && Numbered(b.tasks, order, ids, n)
       && slot'.issued == slot.issued + b.tasks.Values
  }

  lemma EquipEffect(slot: Slot, planned: Method, active: bool, order: seq<StepId>, prover: string, worktree: bool,
                    ids: seq<T.TaskId>, db: T.Ledger, gaps: Gaps) returns (n: nat)
    requires Unique(order) && active
    ensures var (slot', _, outcome) :=
        Equip(planned, active, Generation(slot) + 1, slot.issued, order, prover, worktree, ids, db, gaps);
      && BoundAnew(slot, slot', order, ids, n)
      && (outcome == Returned <==> n == |order| && worktree && prover != "")
      && slot'.m == if outcome == Returned then planned.(teammate := Some(prover)) else planned
  {
    assert order[0..] == order && ids[0..] == ids && order[..0] == [];
    n := MaterializeNumbers(planned.steps, order, 0, ids, map[], db, gaps);
  }

  lemma PlanAccepted(m: Method, plan: seq<StepPlan>)
    requires m.stage == Decomposition && WellFormedPlan(plan)
    ensures var (planned, reply) := ApplyMethod(m, SetPlan(plan));
      && reply == Accepted && planned.teammate == m.teammate
      && PlannedWith(m, planned, plan) && forall name :: PlannedWith(m, planned.(teammate := Some(name)), plan)
  {
  }

  /** What an activation that the coordinator accepts makes of the method. */
  ghost predicate Activated(slot: Slot, slot': Slot, outcome: Outcome, plan: seq<StepPlan>, order: seq<StepId>,
                            prover: string, worktree: bool, ids: seq<T.TaskId>, n: nat)
  {
    && PlannedWith(slot.m, slot'.m, plan)
    && slot'.m.teammate == (if outcome == Returned then Some(prover) else slot.m.teammate)
    && BoundAnew(slot, slot', order, ids, n)
    && (outcome == Returned <==> n == |order| && worktree && prover != "")
  }

  lemma AcceptedEffect(slot: Slot, plan: seq<StepPlan>, order: seq<StepId>, prover: string, worktree: bool,
                       ids: seq<T.TaskId>, db: T.Ledger, gaps: Gaps) returns (n: nat)
    requires Accepts(slot, true, plan) && Unique(order)
    ensures var (slot', _, outcome) := Activate(slot, true, plan, order, prover, worktree, ids, db, gaps);
      Activated(slot, slot', outcome, plan, order, prover, worktree, ids, n)
  {
    PlanAccepted(slot.m, plan);
    var planned := ApplyMethod(slot.m, SetPlan(plan)).0;
    n := EquipEffect(slot, planned, true, order, prover, worktree, ids, db, gaps);
  }

  /**
   For every slot and every gap: an activation that the method's stage, the run or the plan forbids changes nothing.
   Any other binds the plan in a new generation, with tasks for the first `n` steps of the order. It returns exactly
   when all steps have tasks, the worktree is there and the prover has a name; then, and only then, the prover is
   the method's teammate.
   */
  lemma ActivationEffect(slot: Slot, active: bool, plan: seq<StepPlan>, order: seq<StepId>, prover: string,
                         worktree: bool, ids: seq<T.TaskId>, db: T.Ledger, gaps: Gaps) returns (n: nat)
    requires WellFormedPlan(plan) ==> IsTopological(GraphOf(plan), order)
    ensures var (slot', db', outcome) := Activate(slot, active, plan, order, prover, worktree, ids, db, gaps);
      if Accepts(slot, active, plan) then Activated(slot, slot', outcome, plan, order, prover, worktree, ids, n)
      else slot' == slot && db' == db && outcome == Raised
  {
    n := 0;
    if Accepts(slot, active, plan) {
      n := AcceptedEffect(slot, plan, order, prover, worktree, ids, db, gaps);
    }
  }

  // ---------------------------------------------------------------- verdicts and regulation

  ghost predicate Judges(slot: Slot, active: bool, op: MethodOp) {
    && active
    && match op
       case StructuralVerdict(verdict) => slot.m.stage == StructuralVerify && verdict.Some?
       case DetailedVerdict(verdict) => slot.m.stage == DetailedVerify && verdict.Some?
       case _ => false
  }

  /** A verdict counts in its own stage only: `Done` passes the method on, `Continue` sends it to regulation. */
  lemma VerdictEffect(slot: Slot, active: bool, op: MethodOp)
    requires op.StructuralVerdict? || op.DetailedVerdict?
    ensures var (slot', outcome) := RecordVerdict(slot, active, op);
      && (outcome == Returned <==> Judges(slot, active, op) && slot.binding.Some?)
      && slot'.binding == slot.binding && slot'.issued == slot.issued
      && slot'.m ==
         if !Judges(slot, active, op) then slot.m
         else match op
           case StructuralVerdict(verdict) =>
             slot.m.(structural := verdict, stage := if verdict == Some(Done) then DetailedVerify else Regulation)
           case DetailedVerdict(verdict) =>
             slot.m.(detailed := verdict, stage := if verdict == Some(Done) then MethodCompleted else Regulation)
           case _ => slot.m
  {
  }

  ghost predicate Regulates(slot: Slot, active: bool, action: Option<RegulatorAction>) {
    active && slot.m.stage == Regulation && action.Some?
  }

  /** Starting over: the plan and its tasks are let go, and a rewrite is counted as one. */
  lemma ReplanEffect(slot: Slot, action: RegulatorAction, ids: seq<T.TaskId>, db: T.Ledger, gaps: Gaps)
    requires slot.m.stage == Regulation && action != ReviseProof
    ensures var (slot', db', outcome) := RecordRegulation(slot, true, Some(action), ids, db, gaps);
      && db' == db && slot'.issued == slot.issued
      && (outcome == Returned <==> slot.binding.Some?)
      && slot'.m == slot.m.(
           stage := Decomposition, steps := [], structural := None, detailed := None, action := Some(action),
           revisionPending := false, planRevisions := slot.m.planRevisions + 1,
           rewrites := slot.m.rewrites + if action == Rewrite then 1 else 0)
      && slot'.binding ==
         if slot.binding.None? then None
         else Some(slot.binding.value.(tasks := map[], order := [], revisionTask := None))
  {
  }

  /** Revising the proof: the steps stay, and one new task without blockers stands for the revision. */
  lemma ReviseEffect(slot: Slot, ids: seq<T.TaskId>, db: T.Ledger, gaps: Gaps)
    requires slot.m.stage == Regulation && slot.binding.Some?
    ensures var now := AfterGap(db, gaps);
      var (slot', db', outcome) := RecordRegulation(slot, true, Some(ReviseProof), ids, db, gaps);
      && slot'.m == slot.m.(
           stage := Proving, structural := None, detailed := None, action := Some(ReviseProof),
           revisionPending := true, proofRevisions := slot.m.proofRevisions + 1)
      && (outcome == Returned <==> ids != [] && ids[0] !in now)
      && (outcome == Raised ==> db' == now && slot'.binding == slot.binding && slot'.issued == slot.issued)
      && (outcome == Returned ==>
            && db' == now[ids[0] := T.Row(T.Pending, None, {}, None, None)]
            && slot'.binding == Some(slot.binding.value.(revisionTask := Some(ids[0])))
            && slot'.issued == slot.issued + {ids[0]})
  {
    assert Elements<T.TaskId>([]) == {};
  }
}
