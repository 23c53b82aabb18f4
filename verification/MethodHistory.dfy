/**
 What a method remembers: each of its fields is determined by the calls it accepted, and a call is accepted
 exactly when the method's stage, its steps and the argument allow it.
 */
module MethodHistory {
  import opened Prelude
  import opened StepPlans
  import opened WorkflowModel
  import opened WorkflowTheorems

  // ---------------------------------------------------------------- the accepted calls

  ghost predicate Accepts(run: Run, op: RunOp, id: MethodId) {
    op.OnMethod? && op.id == id && Apply(run, op).1 == Accepted
  }

  /** The calls the method accepted along a run, in order. */
  ghost function Calls(ops: seq<RunOp>, id: MethodId): seq<MethodOp>
    decreases |ops|
  {
    if ops == [] then []
    else
      var front, last := ops[..|ops| - 1], ops[|ops| - 1];
      Calls(front, id) + if Accepts(After(front), last, id) then [last.op] else []
  }

  // ---------------------------------------------------------------- what each field holds

  function CountOf(calls: seq<MethodOp>, action: RegulatorAction): nat {
    if calls == [] then 0
    else CountOf(calls[..|calls| - 1], action) + if calls[|calls| - 1] == Regulate(Some(action)) then 1 else 0
  }

  function LastTeammate(calls: seq<MethodOp>): Option<string> {
    if calls == [] then None
    else
      match calls[|calls| - 1]
      case AssignTeammate(name) => Some(name)
      case _ => LastTeammate(calls[..|calls| - 1])
  }

  predicate Replans(op: MethodOp) {
    op == Regulate(Some(RevisePlan)) || op == Regulate(Some(Rewrite))
  }

  function CurrentPlan(calls: seq<MethodOp>): seq<StepPlan> {
    if calls == [] then []
    else if Replans(calls[|calls| - 1]) then []
    else
      match calls[|calls| - 1]
      case SetPlan(plan) => plan
      case _ => CurrentPlan(calls[..|calls| - 1])
  }

  /** The last thing that happened to the step under the current plan. */
  function StatusIn(calls: seq<MethodOp>, step: StepId): StepStatus {
    if calls == [] then StepPending
    else
      match calls[|calls| - 1]
      case SetPlan(_) => StepPending
      case StartStep(id) => if id == step then StepInProgress else StatusIn(calls[..|calls| - 1], step)
      case CompleteStep(id) => if id == step then StepCompleted else StatusIn(calls[..|calls| - 1], step)
      case _ => StatusIn(calls[..|calls| - 1], step)
  }

  /** Verdicts last until the regulator acts or a new plan comes. */
  function LastStructural(calls: seq<MethodOp>): Option<Verdict> {
    if calls == [] then None
    else
      match calls[|calls| - 1]
      case StructuralVerdict(verdict) => verdict
      case SetPlan(_) => None
      case Regulate(_) => None
      case _ => LastStructural(calls[..|calls| - 1])
  }

  function LastDetailed(calls: seq<MethodOp>): Option<Verdict> {
    if calls == [] then None
    else
      match calls[|calls| - 1]
      case DetailedVerdict(verdict) => verdict
      case SetPlan(_) => None
      case Regulate(_) => None
      case _ => LastDetailed(calls[..|calls| - 1])
  }

  function LastAction(calls: seq<MethodOp>): Option<RegulatorAction> {
    if calls == [] then None
    else
      match calls[|calls| - 1]
      case Regulate(action) => action
      case SetPlan(_) => None
      case _ => LastAction(calls[..|calls| - 1])
  }

  /** The stage is where the last call that moves the method put it. */
  function StageAfter(calls: seq<MethodOp>): MethodStage {
    if calls == [] then Decomposition
    else
      match calls[|calls| - 1]
      case SetPlan(_) => Proving
      case SubmitStructural => StructuralVerify
      case CompleteRevision => StructuralVerify
      case StructuralVerdict(verdict) => if verdict == Some(Done) then DetailedVerify else Regulation
      case DetailedVerdict(verdict) => if verdict == Some(Done) then MethodCompleted else Regulation
      case Regulate(action) => if action == Some(ReviseProof) then Proving else Decomposition
      case FailMethod => MethodFailed
      case AbandonMethod => Abandoned
      case _ => StageAfter(calls[..|calls| - 1])
  }

  /** A proof revision was asked for and has neither been finished nor been given up. */
  predicate UnderRevision(calls: seq<MethodOp>) {
    if calls == [] then false
    else
      match calls[|calls| - 1]
      case Regulate(action) => action == Some(ReviseProof)
      case CompleteRevision => false
      case FailMethod => false
      case AbandonMethod => false
      case _ => UnderRevision(calls[..|calls| - 1])
  }

  ghost predicate CountsActions(m: Method, calls: seq<MethodOp>) {
    && m.proofRevisions == CountOf(calls, ReviseProof)
    && m.planRevisions == CountOf(calls, RevisePlan) + CountOf(calls, Rewrite)
    && m.rewrites == CountOf(calls, Rewrite)
  }

  ghost predicate RemembersSteps(m: Method, calls: seq<MethodOp>) {
    && PlanOf(m.steps) == CurrentPlan(calls)
    && forall i :: 0 <= i < |m.steps| ==> m.steps[i].status == StatusIn(calls, m.steps[i].id)
  }

  ghost predicate RemembersVerdicts(m: Method, calls: seq<MethodOp>) {
    && m.structural == LastStructural(calls)
    && m.detailed == LastDetailed(calls)
    && m.action == LastAction(calls)
  }

  ghost predicate RemembersStage(m: Method, calls: seq<MethodOp>) {
    && m.stage == StageAfter(calls)
    && m.revisionPending == UnderRevision(calls)
    && m.teammate == LastTeammate(calls)
  }

  ghost predicate Remembers(m: Method, calls: seq<MethodOp>) {
    CountsActions(m, calls) && RemembersSteps(m, calls) && RemembersVerdicts(m, calls) && RemembersStage(m, calls)
  }

  // ---------------------------------------------------------------- one call

  lemma CountExtends(calls: seq<MethodOp>, op: MethodOp, action: RegulatorAction)
    ensures CountOf(calls + [op], action) == CountOf(calls, action) + if op == Regulate(Some(action)) then 1 else 0
  {
    assert (calls + [op])[..|calls|] == calls;
  }

  lemma CountRegulation(m: Method, action: RegulatorAction, calls: seq<MethodOp>)
    requires CountsActions(m, calls)
    ensures CountsActions(ApplyRegulate(m, action), calls + [Regulate(Some(action))])
  {
    CountExtends(calls, Regulate(Some(action)), ReviseProof);
    CountExtends(calls, Regulate(Some(action)), RevisePlan);
    CountExtends(calls, Regulate(Some(action)), Rewrite);
  }

  lemma OtherCallCounts(m: Method, op: MethodOp, calls: seq<MethodOp>)
    requires CountsActions(m, calls) && !op.Regulate?
    ensures CountsActions(ApplyMethod(m, op).0, calls + [op])
  {
    assert (calls + [op])[..|calls|] == calls;
  }

  lemma CountStep(m: Method, op: MethodOp, calls: seq<MethodOp>)
    requires CountsActions(m, calls) && ApplyMethod(m, op).1 == Accepted
    ensures CountsActions(ApplyMethod(m, op).0, calls + [op])
  {
    if op.Regulate? {
      CountRegulation(m, op.action.value, calls);
    } else {
      OtherCallCounts(m, op, calls);
    }
  }

  lemma VerdictStep(m: Method, op: MethodOp, calls: seq<MethodOp>)
    requires RemembersVerdicts(m, calls) && ApplyMethod(m, op).1 == Accepted
    ensures RemembersVerdicts(ApplyMethod(m, op).0, calls + [op])
  {
    assert (calls + [op])[..|calls|] == calls;
  }

  lemma StageStep(m: Method, op: MethodOp, calls: seq<MethodOp>)
    requires m.revisionPending ==> m.stage == Proving
    requires RemembersStage(m, calls) && ApplyMethod(m, op).1 == Accepted
    ensures RemembersStage(ApplyMethod(m, op).0, calls + [op])
  {
    assert (calls + [op])[..|calls|] == calls;
  }

  lemma StatusStep(m: Method, id: StepId, op: MethodOp, calls: seq<MethodOp>)
    requires RemembersSteps(m, calls) && Unique(Ids(PlanOf(m.steps)))
    requires op == StartStep(id) || op == CompleteStep(id)
    requires ApplyMethod(m, op).1 == Accepted
    ensures RemembersSteps(ApplyMethod(m, op).0, calls + [op])
  {
    assert (calls + [op])[..|calls|] == calls;
    var k := StepIndex(m.steps, id).value;
    StatusKeepsPlan(m, k, if op.StartStep? then StepInProgress else StepCompleted);
    forall i | 0 <= i < |m.steps| && m.steps[i].id == id
      ensures i == k
    {
      UniqueStepIds(m.steps, i, k);
    }
  }

  lemma PlanStep(m: Method, plan: seq<StepPlan>, calls: seq<MethodOp>)
    requires ApplyMethod(m, SetPlan(plan)).1 == Accepted
    ensures RemembersSteps(ApplyMethod(m, SetPlan(plan)).0, calls + [SetPlan(plan)])
  {
    assert PlanOf(FreshSteps(plan)) == plan;
  }

  lemma RegulateStep(m: Method, action: RegulatorAction, calls: seq<MethodOp>)
    requires RemembersSteps(m, calls)
    ensures RemembersSteps(ApplyRegulate(m, action), calls + [Regulate(Some(action))])
  {
    assert (calls + [Regulate(Some(action))])[..|calls|] == calls;
    if action != ReviseProof {
      assert PlanOf(ApplyRegulate(m, action).steps) == [];
    }
  }

  lemma OtherStep(m: Method, op: MethodOp, calls: seq<MethodOp>)
    requires !op.SetPlan? && !op.Regulate? && !op.StartStep? && !op.CompleteStep?
    requires RemembersSteps(m, calls)
    ensures RemembersSteps(ApplyMethod(m, op).0, calls + [op])
  {
    assert (calls + [op])[..|calls|] == calls;
    assert ApplyMethod(m, op).0.steps == m.steps;
    assert CurrentPlan(calls + [op]) == CurrentPlan(calls);
  }

  lemma StepsStep(m: Method, op: MethodOp, calls: seq<MethodOp>)
    requires MethodInv(m) && RemembersSteps(m, calls) && ApplyMethod(m, op).1 == Accepted
    ensures RemembersSteps(ApplyMethod(m, op).0, calls + [op])
  {
    match op
    case StartStep(id) => StatusStep(m, id, op, calls);
    case CompleteStep(id) => StatusStep(m, id, op, calls);
    case SetPlan(plan) => PlanStep(m, plan, calls);
    case Regulate(action) => RegulateStep(m, action.value, calls);
    case _ => OtherStep(m, op, calls);
  }

  lemma RefusedCall(m: Method, op: MethodOp)
    ensures ApplyMethod(m, op).1 != Accepted ==> ApplyMethod(m, op).0 == m
  {
  }

  // ---------------------------------------------------------------- over every run

  ghost predicate RemembersAll(run: Run, id: MethodId, calls: seq<MethodOp>) {
    if Known(run, id) then Remembers(MethodOf(run, id), calls) else calls == []
  }

  lemma RunStep(run: Run, op: RunOp, id: MethodId, calls: seq<MethodOp>)
    requires RunInv(run) && RemembersAll(run, id, calls)
    ensures RemembersAll(Apply(run, op).0, id, calls + if Accepts(run, op, id) then [op.op] else [])
  {
    if op.OnMethod? && op.id == id && run.stage == MethodsActive && Known(run, id) {
      var m := MethodOf(run, id);
      RefusedCall(m, op.op);
      if Accepts(run, op, id) {
        CountStep(m, op.op, calls);
        VerdictStep(m, op.op, calls);
        StageStep(m, op.op, calls);
        StepsStep(m, op.op, calls);
      } else {
        assert calls + [] == calls;
      }
    } else {
      assert calls + [] == calls && !Accepts(run, op, id);
      OtherCallsStay(run, op, id);
    }
  }

  lemma OtherCallsStay(run: Run, op: RunOp, id: MethodId)
    requires RunInv(run) && !(op.OnMethod? && op.id == id && run.stage == MethodsActive && Known(run, id))
    ensures Known(run, id) ==> Known(Apply(run, op).0, id) && MethodOf(Apply(run, op).0, id) == MethodOf(run, id)
    ensures Known(Apply(run, op).0, id) && !Known(run, id) ==>
      exists name :: MethodOf(Apply(run, op).0, id) == NewMethod(name)
  {
    if Known(Apply(run, op).0, id) && !Known(run, id) {
      assert MethodOf(Apply(run, op).0, id) == NewMethod(op.proposals[id - 1].name);
    }
  }

  /**
   Over every run, refused calls included: the three counters are the accepted regulator actions of their kinds, the
   teammate is the last one assigned, the steps are those of the current plan with the status their last call gave
   them, and verdicts, action, stage and pending revision are those of the last calls that touch them.
   */
  lemma {:induction false} MethodIsItsHistory(ops: seq<RunOp>, id: MethodId)
    ensures RemembersAll(After(ops), id, Calls(ops, id))
    decreases |ops|
  {
    if ops != [] {
      var front := ops[..|ops| - 1];
      MethodIsItsHistory(front, id);
      VerifiedBeforeSummary(front);
      RunStep(After(front), ops[|ops| - 1], id, Calls(front, id));
    }
  }

  // ---------------------------------------------------------------- which call is accepted

  predicate IsStep(calls: seq<MethodOp>, id: StepId) {
    exists p :: p in CurrentPlan(calls) && p.id == id
  }

  predicate InStage(calls: seq<MethodOp>, op: MethodOp) {
    match op
    case AssignTeammate(_) => true
    case SetPlan(_) => StageAfter(calls) == Decomposition
    case StartStep(_) => StageAfter(calls) == Proving && !UnderRevision(calls) && LastTeammate(calls).Some?
    case CompleteStep(_) => StageAfter(calls) == Proving
    case SubmitStructural => StageAfter(calls) == Proving && !UnderRevision(calls)
    case StructuralVerdict(_) => StageAfter(calls) == StructuralVerify
    case DetailedVerdict(_) => StageAfter(calls) == DetailedVerify
    case Regulate(_) => StageAfter(calls) == Regulation
    case CompleteRevision => UnderRevision(calls)
    case FailMethod => StageAfter(calls) !in {MethodCompleted, MethodFailed, Abandoned}
    case AbandonMethod => StageAfter(calls) !in {MethodCompleted, MethodFailed, Abandoned}
  }

  predicate DependenciesDone(calls: seq<MethodOp>, id: StepId) {
    forall p, d :: p in CurrentPlan(calls) && p.id == id && d in p.dependsOn ==> StatusIn(calls, d) == StepCompleted
  }

  ghost predicate Sensible(calls: seq<MethodOp>, op: MethodOp) {
    match op
    case AssignTeammate(name) => name != ""
    case SetPlan(plan) => WellFormedPlan(plan)
    case StartStep(id) => IsStep(calls, id)
    case CompleteStep(id) => IsStep(calls, id)
    case StructuralVerdict(verdict) => verdict.Some?
    case DetailedVerdict(verdict) => verdict.Some?
    case Regulate(action) => action.Some?
    case _ => true
  }

  predicate Ready(calls: seq<MethodOp>, op: MethodOp) {
    match op
    case StartStep(id) => StatusIn(calls, id) == StepPending && DependenciesDone(calls, id)
    case CompleteStep(id) => StatusIn(calls, id) == StepInProgress
    case SubmitStructural => forall p :: p in CurrentPlan(calls) ==> StatusIn(calls, p.id) == StepCompleted
    case _ => true
  }

  ghost function Answer(calls: seq<MethodOp>, op: MethodOp): Reply {
    if !InStage(calls, op) then IllegalTransition
    else if !Sensible(calls, op) then InvalidInput
    else if !Ready(calls, op) then IllegalTransition
    else Accepted
  }

  /** A step, seen from the method and from its history. */
  lemma StepInHistory(m: Method, calls: seq<MethodOp>, id: StepId)
    requires RemembersSteps(m, calls)
    ensures StepIndex(m.steps, id).Some? <==> IsStep(calls, id)
    ensures StepIndex(m.steps, id).Some? ==> StatusOf(m.steps, id) == StatusIn(calls, id)
  {
    if k :| StepIndex(m.steps, id) == Some(k) {
      assert CurrentPlan(calls)[k].id == id;
    }
  }

  lemma KnownDependency(m: Method, k: nat, d: StepId)
    requires WellFormedPlan(PlanOf(m.steps)) && k < |m.steps| && d in m.steps[k].dependsOn
    ensures StepIndex(m.steps, d).Some?
  {
    var plan := PlanOf(m.steps);
    assert plan[k] in plan && plan[k].id in GraphOf(plan);
    assert d in GraphOf(plan);
    var j :| 0 <= j < |plan| && plan[j].id == d;
    assert m.steps[j].id == d;
  }

  lemma DependenciesInHistory(m: Method, calls: seq<MethodOp>, k: nat)
    requires WellFormedPlan(PlanOf(m.steps)) && RemembersSteps(m, calls) && k < |m.steps|
    ensures DependenciesKnown(m.steps, k)
    ensures DependenciesCompleted(m.steps, k) <==>
      forall d :: d in m.steps[k].dependsOn ==> StatusIn(calls, d) == StepCompleted
  {
    forall d | d in m.steps[k].dependsOn
      ensures StepIndex(m.steps, d).Some? && StatusOf(m.steps, d) == StatusIn(calls, d)
    {
      KnownDependency(m, k, d);
    }
  }

  /** The coordinator's check of the dependencies, and what it amounts to in the history. */
  lemma DoneInHistory(m: Method, calls: seq<MethodOp>, k: nat)
    requires WellFormedPlan(PlanOf(m.steps)) && RemembersSteps(m, calls) && k < |m.steps|
    ensures DependenciesKnown(m.steps, k)
    ensures DependenciesCompleted(m.steps, k) <==> DependenciesDone(calls, m.steps[k].id)
  {
    DependenciesInHistory(m, calls, k);
    var plan := CurrentPlan(calls);
    forall p | p in plan && p.id == m.steps[k].id
      ensures p.dependsOn == m.steps[k].dependsOn
    {
      var i :| 0 <= i < |plan| && plan[i] == p;
      UniqueStepIds(m.steps, i, k);
    }
    assert plan[k] in plan && plan[k].id == m.steps[k].id;
  }

  lemma StartInProof(m: Method, calls: seq<MethodOp>, id: StepId)
    requires MethodInv(m) && RemembersSteps(m, calls)
    requires m.stage == Proving && m.teammate.Some? && !m.revisionPending
    ensures ApplyStartStep(m, id).1 ==
      if !IsStep(calls, id) then InvalidInput
      else if Ready(calls, StartStep(id)) then Accepted else IllegalTransition
  {
    StepInHistory(m, calls, id);
    if StepIndex(m.steps, id).Some? {
      DoneInHistory(m, calls, StepIndex(m.steps, id).value);
    }
  }

  lemma StartAnswered(m: Method, calls: seq<MethodOp>, id: StepId)
    requires MethodInv(m) && RemembersSteps(m, calls) && RemembersStage(m, calls)
    ensures ApplyStartStep(m, id).1 == Answer(calls, StartStep(id))
  {
    if InStage(calls, StartStep(id)) {
      StartInProof(m, calls, id);
    }
  }

  lemma CompleteAnswered(m: Method, calls: seq<MethodOp>, id: StepId)
    requires MethodInv(m) && RemembersSteps(m, calls) && RemembersStage(m, calls)
    ensures ApplyCompleteStep(m, id).1 == Answer(calls, CompleteStep(id))
  {
    if InStage(calls, CompleteStep(id)) {
      StepInHistory(m, calls, id);
    }
  }

  lemma SubmitAnswered(m: Method, calls: seq<MethodOp>)
    requires MethodInv(m) && RemembersSteps(m, calls) && RemembersStage(m, calls)
    ensures ApplyMethod(m, SubmitStructural).1 == Answer(calls, SubmitStructural)
  {
    if InStage(calls, SubmitStructural) {
      assert PlanOf(m.steps) != [];
      if Ready(calls, SubmitStructural) {
        forall i | 0 <= i < |m.steps| ensures m.steps[i].status == StepCompleted {
          assert CurrentPlan(calls)[i] in CurrentPlan(calls);
        }
      }
    }
  }

  lemma StageAnswered(m: Method, calls: seq<MethodOp>, op: MethodOp)
    requires !op.StartStep? && !op.CompleteStep? && !op.SubmitStructural?
    requires RemembersStage(m, calls) && (m.revisionPending ==> m.stage == Proving)
    ensures ApplyMethod(m, op).1 == Answer(calls, op)
  {
  }

  lemma MethodAnswers(m: Method, calls: seq<MethodOp>, op: MethodOp)
    requires MethodInv(m) && Remembers(m, calls)
    ensures ApplyMethod(m, op).1 == Answer(calls, op)
  {
    match op
    case StartStep(step) => StartAnswered(m, calls, step);
    case CompleteStep(step) => CompleteAnswered(m, calls, step);
    case SubmitStructural => SubmitAnswered(m, calls);
    case _ => StageAnswered(m, calls, op);
  }

  /**
   What the coordinator answers a method is a function of the calls the method has accepted so far, whatever run
   led there: `IllegalTransition` out of stage or too early, `InvalidInput` for an argument it cannot use.
   */
  lemma AnswersFollowHistory(ops: seq<RunOp>, id: MethodId, op: MethodOp)
    requires After(ops).stage == MethodsActive && Known(After(ops), id)
    ensures Apply(After(ops), OnMethod(id, op)).1 == Answer(Calls(ops, id), op)
  {
    MethodIsItsHistory(ops, id);
    VerifiedBeforeSummary(ops);
    MethodAnswers(MethodOf(After(ops), id), Calls(ops, id), op);
  }
}
