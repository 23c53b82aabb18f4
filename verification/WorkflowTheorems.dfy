/**
 What every sequence of coordinator calls keeps: verification before summary, dependency-closed
 progress, and the conservation law that ties verdicts to revision counters.
 */
module WorkflowTheorems {
  import opened Prelude
  import opened StepPlans
  import opened WorkflowModel

  // ---------------------------------------------------------------- one method

  /** A step that has started has all its dependencies completed. */
  ghost predicate DependencyClosed(steps: seq<ProofStep>) {
    forall i, j :: 0 <= i < |steps| && 0 <= j < |steps|
      && steps[i].status != StepPending && steps[j].id in steps[i].dependsOn
      ==> steps[j].status == StepCompleted
  }

  ghost predicate NoFailedStep(steps: seq<ProofStep>) {
    forall i :: 0 <= i < |steps| ==> steps[i].status != StepFailed
  }

  ghost predicate Planned(m: Method) {
    m.stage in {Proving, StructuralVerify, DetailedVerify, Regulation, MethodCompleted}
  }

  ghost predicate MethodInv(m: Method) {
    && (Planned(m) ==> WellFormedPlan(PlanOf(m.steps)) && DependencyClosed(m.steps) && NoFailedStep(m.steps))
    && (Planned(m) && m.stage != Proving ==> AllStepsCompleted(m))
    && (m.stage == Decomposition ==> m.steps == [])
    && (m.revisionPending ==> m.stage == Proving && AllStepsCompleted(m))
    && (m.stage in {Proving, StructuralVerify, Decomposition} ==> m.structural.None? && m.detailed.None?)
    && (m.stage == DetailedVerify ==> m.structural == Some(Done) && m.detailed.None?)
    && (m.stage == Regulation ==>
          m.structural == Some(Continue) || (m.structural == Some(Done) && m.detailed == Some(Continue)))
    && (m.stage == MethodCompleted ==> m.structural == Some(Done) && m.detailed == Some(Done))
    && ((exists i :: 0 <= i < |m.steps| && m.steps[i].status != StepPending) ==> m.teammate.Some?)
    && m.rewrites <= m.planRevisions
  }

  lemma UniqueStepIds(steps: seq<ProofStep>, i: nat, j: nat)
    requires Unique(Ids(PlanOf(steps)))
    requires i < |steps| && j < |steps| && steps[i].id == steps[j].id
    ensures i == j
  {
    assert Ids(PlanOf(steps))[i] == Ids(PlanOf(steps))[j];
  }

  lemma StatusKeepsPlan(m: Method, i: nat, status: StepStatus)
    requires i < |m.steps|
    ensures PlanOf(WithStatus(m, i, status).steps) == PlanOf(m.steps)
  {
  }

  /** A step that may start has completed dependencies, and nothing that started depends on it. */
  lemma StartStaysClosed(m: Method, i: nat)
    requires i < |m.steps| && Unique(Ids(PlanOf(m.steps))) && DependencyClosed(m.steps)
    requires m.steps[i].status == StepPending
    requires DependenciesKnown(m.steps, i) && DependenciesCompleted(m.steps, i)
    ensures DependencyClosed(WithStatus(m, i, StepInProgress).steps)
  {
    forall j | 0 <= j < |m.steps| && m.steps[j].id in m.steps[i].dependsOn
      ensures m.steps[j].status == StepCompleted && j != i
    {
      var k := StepIndex(m.steps, m.steps[j].id).value;
      UniqueStepIds(m.steps, j, k);
    }
  }

  lemma StartKeeps(m: Method, id: StepId)
    requires MethodInv(m)
    ensures MethodInv(ApplyStartStep(m, id).0)
  {
    if ApplyStartStep(m, id).1 == Accepted {
      var i := StepIndex(m.steps, id).value;
      StatusKeepsPlan(m, i, StepInProgress);
      StartStaysClosed(m, i);
    }
  }

  lemma CompleteKeeps(m: Method, id: StepId)
    requires MethodInv(m)
    ensures MethodInv(ApplyCompleteStep(m, id).0)
  {
    var (m', reply) := ApplyCompleteStep(m, id);
    if reply == Accepted {
      var i := StepIndex(m.steps, id).value;
      StatusKeepsPlan(m, i, StepCompleted);
      assert m.steps[i].status == StepInProgress;
      assert DependencyClosed(m'.steps);
      assert NoFailedStep(m'.steps);
    }
  }

  lemma SetPlanKeeps(m: Method, plan: seq<StepPlan>)
    requires MethodInv(m)
    ensures MethodInv(ApplyMethod(m, SetPlan(plan)).0)
  {
    if m.stage == Decomposition && WellFormedPlan(plan) {
      assert PlanOf(FreshSteps(plan)) == plan;
    }
  }

  lemma ReviseProofKeeps(m: Method)
    requires MethodInv(m) && m.stage == Regulation
    ensures MethodInv(ApplyRegulate(m, ReviseProof))
  {
    assert ApplyRegulate(m, ReviseProof).steps == m.steps;
  }

  lemma ReplanKeeps(m: Method, action: RegulatorAction)
    requires MethodInv(m) && action != ReviseProof
    ensures MethodInv(ApplyRegulate(m, action))
  {
    assert ApplyRegulate(m, action).steps == [];
  }

  lemma RegulateKeeps(m: Method, action: Option<RegulatorAction>)
    requires MethodInv(m)
    ensures MethodInv(ApplyMethod(m, Regulate(action)).0)
  {
    if m.stage == Regulation && action.Some? {
      if action.value == ReviseProof {
        ReviseProofKeeps(m);
      } else {
        ReplanKeeps(m, action.value);
      }
    }
  }

  /** The calls that move a method on without touching its steps. */
  lemma StageOpKeeps(m: Method, op: MethodOp)
    requires MethodInv(m) && !op.StartStep? && !op.CompleteStep? && !op.SetPlan? && !op.Regulate?
    ensures MethodInv(ApplyMethod(m, op).0)
  {
    assert ApplyMethod(m, op).0.steps == m.steps;
  }

  lemma MethodOpKeeps(m: Method, op: MethodOp)
    requires MethodInv(m)
    ensures MethodInv(ApplyMethod(m, op).0)
  {
    match op
    case StartStep(id) => StartKeeps(m, id);
    case CompleteStep(id) => CompleteKeeps(m, id);
    case SetPlan(plan) => SetPlanKeeps(m, plan);
    case Regulate(action) => RegulateKeeps(m, action);
    case _ => StageOpKeeps(m, op);
  }

  // ---------------------------------------------------------------- one run

  ghost predicate FullyVerified(m: Method) {
    && m.stage == MethodCompleted
    && AllStepsCompleted(m)
    && WellFormedPlan(PlanOf(m.steps))
    && m.structural == Some(Done) && m.detailed == Some(Done)
    && !m.revisionPending
  }

  ghost predicate RunInv(run: Run) {
    && (forall i :: 0 <= i < |run.methods| ==> MethodInv(run.methods[i]))
    && (run.stage in {LiteratureSurvey, DirectProof, RunFailed} ==> run.methods == [])
    && (run.stage in {LiteratureSurvey, DirectProof, RunFailed, MethodsActive} ==> run.selected == [])
    && (run.stage == Summary ==> run.selected != [])
    && (run.stage == RunCompleted ==> run.selected != [] || run.methods == [])
    && (forall id :: id in run.selected ==> Known(run, id) && FullyVerified(MethodOf(run, id)))
    && (run.artifact.Some? <==> run.stage == RunCompleted)
  }

  lemma OpKeeps(run: Run, op: RunOp)
    requires RunInv(run)
    ensures RunInv(Apply(run, op).0)
  {
    match op
    case OnMethod(id, mop) =>
      if run.stage == MethodsActive && Known(run, id) {
        MethodOpKeeps(MethodOf(run, id), mop);
      }
    case CompleteSurvey(difficulty, proposals) =>
      assert forall p: Proposal :: MethodInv(NewMethod(p.name));
    case BeginSummary(ids) =>
      var chosen := Distinct(ids);
      forall id | SelectionReply(run, chosen) == Accepted && id in chosen
        ensures Known(run, id) && FullyVerified(MethodOf(run, id))
      {
        assert MethodInv(MethodOf(run, id));
      }
    case _ =>
  }

  /**
   Verified before summary, over every sequence of calls: a summarized or completed run rests on
   methods whose steps are all completed and whose two verdicts are both `Done`.
   */
  lemma {:induction false} VerifiedBeforeSummary(ops: seq<RunOp>)
    ensures RunInv(After(ops))
  {
    if ops != [] {
      VerifiedBeforeSummary(ops[..|ops| - 1]);
      OpKeeps(After(ops[..|ops| - 1]), ops[|ops| - 1]);
    }
  }

  /** A completed run stays what it is, and a summary never changes its methods. */
  lemma SummaryIsFinal(run: Run, op: RunOp)
    requires RunInv(run) && run.stage in {Summary, RunCompleted}
    ensures Apply(run, op).0.methods == run.methods && Apply(run, op).0.selected == run.selected
    ensures run.stage == RunCompleted ==> Apply(run, op) == (run, IllegalTransition)
  {
  }

  // ---------------------------------------------------------------- conservation of verdicts

  /** How many `Continue` verdicts the calls recorded for the method. */
  ghost function Continues(ops: seq<RunOp>, id: MethodId): nat
    decreases |ops|
  {
    if ops == [] then 0
    else
      var front := ops[..|ops| - 1];
      Continues(front, id) + (if IsContinue(After(front), ops[|ops| - 1], id) then 1 else 0)
  }

  ghost predicate IsContinue(run: Run, op: RunOp, id: MethodId) {
    && (op == OnMethod(id, StructuralVerdict(Some(Continue))) || op == OnMethod(id, DetailedVerdict(Some(Continue))))
    && Apply(run, op).1 == Accepted
  }

  /** Verdicts answered by a regulator action, plus the one still in regulation. */
  function Answered(m: Method): nat {
    m.proofRevisions + m.planRevisions + (if m.stage == Regulation then 1 else 0)
  }

  ghost predicate Balanced(m: Method, continues: nat) {
    if m.stage in {MethodFailed, Abandoned} then
      continues in {m.proofRevisions + m.planRevisions, m.proofRevisions + m.planRevisions + 1}
    else continues == Answered(m)
  }

  ghost predicate CountedAt(run: Run, id: MethodId, continues: nat) {
    if Known(run, id) then Balanced(MethodOf(run, id), continues) else continues == 0
  }

  lemma BalanceStep(m: Method, op: MethodOp, continues: nat)
    requires Balanced(m, continues)
    ensures var (m', reply) := ApplyMethod(m, op);
      Balanced(m', if op in {StructuralVerdict(Some(Continue)), DetailedVerdict(Some(Continue))} && reply == Accepted
                   then continues + 1 else continues)
  {
  }

  lemma CountStep(run: Run, op: RunOp, id: MethodId, continues: nat)
    requires RunInv(run) && CountedAt(run, id, continues)
    ensures CountedAt(Apply(run, op).0, id, continues + if IsContinue(run, op, id) then 1 else 0)
  {
    if op.OnMethod? {
      if op.id == id && run.stage == MethodsActive && Known(run, id) {
        BalanceStep(MethodOf(run, id), op.op, continues);
      }
    }
  }

  lemma {:induction false} ContinuesCounted(ops: seq<RunOp>, id: MethodId)
    ensures CountedAt(After(ops), id, Continues(ops, id))
    decreases |ops|
  {
    if ops != [] {
      var front := ops[..|ops| - 1];
      ContinuesCounted(front, id);
      VerifiedBeforeSummary(front);
      CountStep(After(front), ops[|ops| - 1], id, Continues(front, id));
    }
  }

  /**
   Conservation: every `Continue` verdict is answered by exactly one revision, except the one a
   method in regulation is waiting on; rewrites are plan revisions.
   */
  lemma VerdictsConserved(ops: seq<RunOp>, id: MethodId)
    ensures CountedAt(After(ops), id, Continues(ops, id))
    ensures Known(After(ops), id) ==> MethodOf(After(ops), id).rewrites <= MethodOf(After(ops), id).planRevisions
  {
    ContinuesCounted(ops, id);
    VerifiedBeforeSummary(ops);
  }
}
