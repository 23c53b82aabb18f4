/**
 The hard state graph of a research run: run stages, method stages, proof-step states, and every
 coordinator transition as a function from a state and an operation to a new state and a reply.
 */
module WorkflowModel {
  import opened Prelude
  import opened StepPlans

  datatype Difficulty = Easy | Medium | Hard
  datatype ResearchStage = LiteratureSurvey | DirectProof | MethodsActive | Summary | RunCompleted | RunFailed
  datatype MethodStage =
    | Decomposition | Proving | StructuralVerify | DetailedVerify | Regulation
    | MethodCompleted | MethodFailed | Abandoned
  datatype StepStatus = StepPending | StepInProgress | StepCompleted | StepFailed
  datatype Verdict = Done | Continue
  datatype RegulatorAction = ReviseProof | RevisePlan | Rewrite

  datatype ProofStep = ProofStep(id: StepId, goal: string, dependsOn: seq<StepId>, status: StepStatus)

  datatype Method = Method(
    name: string,
    teammate: Option<string>,
    stage: MethodStage,
    steps: seq<ProofStep>,
    structural: Option<Verdict>,
    detailed: Option<Verdict>,
    action: Option<RegulatorAction>,
    revisionPending: bool,
    proofRevisions: nat,
    planRevisions: nat,
    rewrites: nat)

  /** A run's methods carry the ids 1, 2, ... in list order, as the survey numbers them. */
  type MethodId = nat

  datatype Run = Run(
    stage: ResearchStage,
    difficulty: Option<Difficulty>,
    methods: seq<Method>,
    selected: seq<MethodId>,
    artifact: Option<string>)

  /** The outcome of a call: success, or one of the two workflow exceptions. */
  datatype Reply = Accepted | IllegalTransition | InvalidInput

  /** A proposal after trimming; `folded` is its case-folded name, the uniqueness key. */
  datatype Proposal = Proposal(name: string, folded: string)

  /** Enumerated inputs arrive as text; `None` is text that names no member of the enumeration. */
  datatype MethodOp =
    | AssignTeammate(teammate: string)
    | SetPlan(plan: seq<StepPlan>)
    | StartStep(step: StepId)
    | CompleteStep(step: StepId)
    | SubmitStructural
    | StructuralVerdict(structural: Option<Verdict>)
    | DetailedVerdict(detailed: Option<Verdict>)
    | Regulate(action: Option<RegulatorAction>)
    | CompleteRevision
    | FailMethod
    | AbandonMethod

  datatype RunOp =
    | CompleteSurvey(difficulty: Option<Difficulty>, proposals: seq<Proposal>)
    | FailSurvey(knownStatus: bool)
    | CompleteDirectProof(artifact: string)
    | OnMethod(id: MethodId, op: MethodOp)
    | BeginSummary(ids: seq<MethodId>)
    | CompleteSummary(artifact: string)

  // ---------------------------------------------------------------- queries

  function FirstIndexFrom(steps: seq<ProofStep>, id: StepId, from: nat): (r: Option<nat>)
    requires from <= |steps|
    ensures r.Some? ==> from <= r.value < |steps| && steps[r.value].id == id
    ensures r.Some? ==> forall k :: from <= k < r.value ==> steps[k].id != id
    ensures r.None? ==> forall k :: from <= k < |steps| ==> steps[k].id != id
    decreases |steps| - from
  {
    if from == |steps| then None
    else if steps[from].id == id then Some(from)
    else FirstIndexFrom(steps, id, from + 1)
  }

  /** The first step with the given id, as `get_step` finds it. */
  function StepIndex(steps: seq<ProofStep>, id: StepId): (r: Option<nat>)
    ensures r.Some? ==> r.value < |steps| && steps[r.value].id == id
    ensures r.Some? ==> forall k :: 0 <= k < r.value ==> steps[k].id != id
    ensures r.None? ==> forall k :: 0 <= k < |steps| ==> steps[k].id != id
  {
    FirstIndexFrom(steps, id, 0)
  }

  function StatusOf(steps: seq<ProofStep>, id: StepId): StepStatus
    requires StepIndex(steps, id).Some?
  {
    steps[StepIndex(steps, id).value].status
  }

  predicate AllCompleted(steps: seq<ProofStep>) {
    forall i :: 0 <= i < |steps| ==> steps[i].status == StepCompleted
  }

  predicate AllStepsCompleted(m: Method) {
    m.steps != [] && AllCompleted(m.steps)
  }

  predicate Terminal(stage: MethodStage) {
    stage in {MethodCompleted, MethodFailed, Abandoned}
  }

  function PlanOf(steps: seq<ProofStep>): (plan: seq<StepPlan>)
    ensures |plan| == |steps|
    ensures forall i :: 0 <= i < |steps| ==> plan[i] == StepPlan(steps[i].id, steps[i].goal, steps[i].dependsOn)
  {
    seq(|steps|, i requires 0 <= i < |steps| => StepPlan(steps[i].id, steps[i].goal, steps[i].dependsOn))
  }

  function FreshSteps(plan: seq<StepPlan>): (steps: seq<ProofStep>)
    ensures |steps| == |plan| && PlanOf(steps) == plan
    ensures forall i :: 0 <= i < |steps| ==> steps[i].status == StepPending
  {
    seq(|plan|, i requires 0 <= i < |plan| =>
      ProofStep(plan[i].id, plan[i].goal, plan[i].dependsOn, StepPending))
  }

  // ---------------------------------------------------------------- transitions of one method

  function WithStatus(m: Method, i: nat, status: StepStatus): Method
    requires i < |m.steps|
  {
    m.(steps := m.steps[i := m.steps[i].(status := status)])
  }

  predicate DependenciesKnown(steps: seq<ProofStep>, i: nat)
    requires i < |steps|
  {
    forall d :: d in steps[i].dependsOn ==> StepIndex(steps, d).Some?
  }

  predicate DependenciesCompleted(steps: seq<ProofStep>, i: nat)
    requires i < |steps| && DependenciesKnown(steps, i)
  {
    forall d :: d in steps[i].dependsOn ==> StatusOf(steps, d) == StepCompleted
  }

  /** `start_step`, in the order of its checks. */
  function ApplyStartStep(m: Method, id: StepId): (Method, Reply) {
    if m.stage != Proving || m.teammate.None? || m.revisionPending then (m, IllegalTransition)
    else match StepIndex(m.steps, id)
      case None => (m, InvalidInput)
      case Some(i) =>
        if m.steps[i].status != StepPending then (m, IllegalTransition)
        else if !DependenciesKnown(m.steps, i) then (m, InvalidInput)
        else if !DependenciesCompleted(m.steps, i) then (m, IllegalTransition)
        else (WithStatus(m, i, StepInProgress), Accepted)
  }

  function ApplyCompleteStep(m: Method, id: StepId): (Method, Reply) {
    if m.stage != Proving then (m, IllegalTransition)
    else match StepIndex(m.steps, id)
      case None => (m, InvalidInput)
      case Some(i) =>
        if m.steps[i].status != StepInProgress then (m, IllegalTransition)
        else (WithStatus(m, i, StepCompleted), Accepted)
  }

  function ApplyRegulate(m: Method, action: RegulatorAction): Method {
    var cleared := m.(action := Some(action), structural := None, detailed := None);
    if action == ReviseProof then
      cleared.(proofRevisions := m.proofRevisions + 1, revisionPending := true, stage := Proving)
    else
      cleared.(planRevisions := m.planRevisions + 1,
               rewrites := if action == Rewrite then m.rewrites + 1 else m.rewrites,
               steps := [], revisionPending := false, stage := Decomposition)
  }

  ghost function ApplyMethod(m: Method, op: MethodOp): (Method, Reply) {
    match op
    case AssignTeammate(name) =>
      if name == "" then (m, InvalidInput) else (m.(teammate := Some(name)), Accepted)
    case SetPlan(plan) =>
      if m.stage != Decomposition then (m, IllegalTransition)
      else if !WellFormedPlan(plan) then (m, InvalidInput)
      else (m.(steps := FreshSteps(plan), stage := Proving, revisionPending := false,
               structural := None, detailed := None, action := None), Accepted)
    case StartStep(id) => ApplyStartStep(m, id)
    case CompleteStep(id) => ApplyCompleteStep(m, id)
    case SubmitStructural =>
      if m.stage != Proving || m.revisionPending || !AllStepsCompleted(m) then (m, IllegalTransition)
      else (m.(stage := StructuralVerify), Accepted)
    case StructuralVerdict(verdict) =>
      if m.stage != StructuralVerify then (m, IllegalTransition)
      else if verdict.None? then (m, InvalidInput)
      else (m.(structural := verdict,
               stage := if verdict.value == Done then DetailedVerify else Regulation), Accepted)
    case DetailedVerdict(verdict) =>
      if m.stage != DetailedVerify then (m, IllegalTransition)
      else if verdict.None? then (m, InvalidInput)
      else (m.(detailed := verdict,
               stage := if verdict.value == Done then MethodCompleted else Regulation), Accepted)
    case Regulate(action) =>
      if m.stage != Regulation then (m, IllegalTransition)
      else if action.None? then (m, InvalidInput)
      else (ApplyRegulate(m, action.value), Accepted)
    case CompleteRevision =>
      if m.stage != Proving || !m.revisionPending then (m, IllegalTransition)
      else (m.(revisionPending := false, stage := StructuralVerify), Accepted)
    case FailMethod =>
      if Terminal(m.stage) then (m, IllegalTransition)
      else (m.(stage := MethodFailed, revisionPending := false), Accepted)
    case AbandonMethod =>
      if Terminal(m.stage) then (m, IllegalTransition)
      else (m.(stage := Abandoned, revisionPending := false), Accepted)
  }

  // ---------------------------------------------------------------- transitions of a run

  const NEW_RUN := Run(LiteratureSurvey, None, [], [], None)

  function NewMethod(name: string): Method {
    Method(name, None, Decomposition, [], None, None, None, false, 0, 0, 0)
  }

  function NewMethods(proposals: seq<Proposal>): (ms: seq<Method>)
    ensures |ms| == |proposals|
    ensures forall i :: 0 <= i < |ms| ==> ms[i] == NewMethod(proposals[i].name)
  {
    seq(|proposals|, i requires 0 <= i < |proposals| => NewMethod(proposals[i].name))
  }

  function FoldedNames(proposals: seq<Proposal>): (names: seq<string>)
    ensures |names| == |proposals|
  {
    seq(|proposals|, i requires 0 <= i < |proposals| => proposals[i].folded)
  }

  predicate Known(run: Run, id: MethodId) {
    1 <= id <= |run.methods|
  }

  /** The method with the given id; defined for known ids. */
  function MethodOf(run: Run, id: MethodId): Method
    requires Known(run, id)
  {
    run.methods[id - 1]
  }

  function WithMethod(run: Run, id: MethodId, m: Method): Run
    requires Known(run, id)
  {
    run.(methods := run.methods[id - 1 := m])
  }

  /** The error of the first selected id that is unknown or not fully verified, if any. */
  function SelectionReply(run: Run, ids: seq<MethodId>): (r: Reply)
    ensures r == Accepted <==> forall id :: id in ids ==> Known(run, id) && MethodOf(run, id).stage == MethodCompleted
  {
    if ids == [] then Accepted
    else if !Known(run, ids[0]) then InvalidInput
    else if MethodOf(run, ids[0]).stage != MethodCompleted then IllegalTransition
    else SelectionReply(run, ids[1..])
  }

  /** `complete_literature_survey`: the difficulty is stored before the later checks can refuse. */
  function ApplySurvey(run: Run, difficulty: Option<Difficulty>, proposals: seq<Proposal>): (Run, Reply) {
    if run.stage != LiteratureSurvey then (run, IllegalTransition)
    else if difficulty.None? then (run, InvalidInput)
    else
      var marked := run.(difficulty := difficulty);
      if difficulty.value == Easy then
        if proposals != [] then (marked, InvalidInput)
        else (marked.(stage := DirectProof), Accepted)
      else if (exists p :: p in proposals && p.name == "") || proposals == [] || !Unique(FoldedNames(proposals)) then
        (marked, InvalidInput)
      else
        (marked.(methods := NewMethods(proposals), stage := MethodsActive), Accepted)
  }

  ghost function ApplyOnMethod(run: Run, id: MethodId, op: MethodOp): (Run, Reply) {
    if run.stage != MethodsActive then (run, IllegalTransition)
    else if !Known(run, id) then (run, InvalidInput)
    else
      var (m, reply) := ApplyMethod(MethodOf(run, id), op);
      (WithMethod(run, id, m), reply)
  }

  ghost function Apply(run: Run, op: RunOp): (Run, Reply) {
    match op
    case CompleteSurvey(difficulty, proposals) => ApplySurvey(run, difficulty, proposals)
    case FailSurvey(known) =>
      if run.stage != LiteratureSurvey then (run, IllegalTransition)
      else if !known then (run, InvalidInput)
      else (run.(stage := RunFailed), Accepted)
    case CompleteDirectProof(artifact) =>
      if run.stage != DirectProof then (run, IllegalTransition)
      else if artifact == "" then (run, InvalidInput)
      else (run.(artifact := Some(artifact), stage := RunCompleted), Accepted)
    case OnMethod(id, mop) => ApplyOnMethod(run, id, mop)
    case BeginSummary(ids) =>
      if run.stage != MethodsActive then (run, IllegalTransition)
      else if ids == [] then (run, InvalidInput)
      else
        var chosen := Distinct(ids);
        var reply := SelectionReply(run, chosen);
        if reply != Accepted then (run, reply)
        else (run.(selected := chosen, stage := Summary), Accepted)
    case CompleteSummary(artifact) =>
      if run.stage != Summary then (run, IllegalTransition)
      else if artifact == "" then (run, InvalidInput)
      else (run.(artifact := Some(artifact), stage := RunCompleted), Accepted)
  }

  /** The run reached from a new run by a sequence of coordinator calls, refused calls included. */
  ghost function After(ops: seq<RunOp>): Run
    decreases |ops|
  {
    if ops == [] then NEW_RUN
    else Apply(After(ops[..|ops| - 1]), ops[|ops| - 1]).0
  }
}
