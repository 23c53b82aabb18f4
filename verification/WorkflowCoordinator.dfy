/**
 `ResearchWorkflowCoordinator` over mutable runs and methods. Every call is tied to the transition
 it implements: the new state of the whole run and the reply.
 */
module WorkflowCoordinator {
  import opened Prelude
  import opened StepPlans
  import opened WorkflowModel

  class MethodAttempt {
    const name: string
    var teammate: Option<string>
    var stage: MethodStage
    var steps: seq<ProofStep>
    var structural: Option<Verdict>
    var detailed: Option<Verdict>
    var action: Option<RegulatorAction>
    var revisionPending: bool
    var proofRevisions: nat
    var planRevisions: nat
    var rewrites: nat

    constructor (name: string)
      ensures View() == NewMethod(name)
    {
      this.name := name;
      teammate, stage, steps := None, Decomposition, [];
      structural, detailed, action := None, None, None;
      revisionPending, proofRevisions, planRevisions, rewrites := false, 0, 0, 0;
    }

    ghost function View(): Method
      reads this
    {
      Method(name, teammate, stage, steps, structural, detailed, action, revisionPending,
             proofRevisions, planRevisions, rewrites)
    }

    // The part of each coordinator call that touches the method, after the run has been checked.

    method Assign(name: string) returns (reply: Reply)
      modifies this
      ensures (View(), reply) == ApplyMethod(old(View()), AssignTeammate(name))
      ensures reply == (if name == "" then InvalidInput else Accepted)
      ensures teammate == if reply == Accepted then Some(name) else old(teammate)
    {
      if name == "" { return InvalidInput; }
      teammate := Some(name);
      return Accepted;
    }

    method AdoptPlan(plan: seq<StepPlan>) returns (reply: Reply)
      modifies this
      ensures (View(), reply) == ApplyMethod(old(View()), SetPlan(plan))
    {
      if stage != Decomposition { return IllegalTransition; }
      var verdict := ValidateStepPlan(plan);
      if verdict != ValidPlan { return InvalidInput; }
      steps := FreshSteps(plan);
      stage := Proving;
      revisionPending := false;
      structural, detailed, action := None, None, None;
      return Accepted;
    }

    method Start(step: StepId) returns (reply: Reply)
      modifies this
      ensures (View(), reply) == ApplyMethod(old(View()), StartStep(step))
    {
      if stage != Proving { return IllegalTransition; }
      if teammate.None? { return IllegalTransition; }
      if revisionPending { return IllegalTransition; }
      var found := StepIndex(steps, step);
      if found.None? { return InvalidInput; }
      var i := found.value;
      if steps[i].status != StepPending { return IllegalTransition; }
      if !DependenciesKnown(steps, i) { return InvalidInput; }
      if !DependenciesCompleted(steps, i) { return IllegalTransition; }
      steps := steps[i := steps[i].(status := StepInProgress)];
      return Accepted;
    }

    method Finish(step: StepId) returns (reply: Reply)
      modifies this
      ensures (View(), reply) == ApplyMethod(old(View()), CompleteStep(step))
    {
      if stage != Proving { return IllegalTransition; }
      var found := StepIndex(steps, step);
      if found.None? { return InvalidInput; }
      var i := found.value;
      if steps[i].status != StepInProgress { return IllegalTransition; }
      steps := steps[i := steps[i].(status := StepCompleted)];
      return Accepted;
    }

    method Submit() returns (reply: Reply)
      modifies this
      ensures (View(), reply) == ApplyMethod(old(View()), SubmitStructural)
    {
      if stage != Proving { return IllegalTransition; }
      if revisionPending { return IllegalTransition; }
      if steps == [] || !AllCompleted(steps) { return IllegalTransition; }
      stage := StructuralVerify;
      return Accepted;
    }

    method RecordStructural(verdict: Option<Verdict>) returns (reply: Reply)
      modifies this
      ensures (View(), reply) == ApplyMethod(old(View()), StructuralVerdict(verdict))
    {
      if stage != StructuralVerify { return IllegalTransition; }
      if verdict.None? { return InvalidInput; }
      structural := verdict;
      stage := if verdict.value == Done then DetailedVerify else Regulation;
      return Accepted;
    }

    method RecordDetailed(verdict: Option<Verdict>) returns (reply: Reply)
      modifies this
      ensures (View(), reply) == ApplyMethod(old(View()), DetailedVerdict(verdict))
    {
      if stage != DetailedVerify { return IllegalTransition; }
      if verdict.None? { return InvalidInput; }
      detailed := verdict;
      stage := if verdict.value == Done then MethodCompleted else Regulation;
      return Accepted;
    }

    method RecordRegulator(choice: Option<RegulatorAction>) returns (reply: Reply)
      modifies this
      ensures (View(), reply) == ApplyMethod(old(View()), Regulate(choice))
      ensures reply == Accepted ==>
        && choice.Some? && action == choice
        && proofRevisions == old(proofRevisions) + (if choice.value == ReviseProof then 1 else 0)
        && planRevisions == old(planRevisions) + (if choice.value == ReviseProof then 0 else 1)
        && rewrites == old(rewrites) + if choice.value == Rewrite then 1 else 0
    {
      if stage != Regulation { return IllegalTransition; }
      if choice.None? { return InvalidInput; }
      action := choice;
      structural, detailed := None, None;
      if choice.value == ReviseProof {
        proofRevisions := proofRevisions + 1;
        revisionPending := true;
        stage := Proving;
        return Accepted;
      }
      planRevisions := planRevisions + 1;
      if choice.value == Rewrite {
        rewrites := rewrites + 1;
      }
      steps := [];
      revisionPending := false;
      stage := Decomposition;
      return Accepted;
    }

    method FinishRevision() returns (reply: Reply)
      modifies this
      ensures (View(), reply) == ApplyMethod(old(View()), CompleteRevision)
    {
      if stage != Proving { return IllegalTransition; }
      if !revisionPending { return IllegalTransition; }
      revisionPending := false;
      stage := StructuralVerify;
      return Accepted;
    }

    method Close(final: MethodStage) returns (reply: Reply)
      requires final in {MethodFailed, Abandoned}
      modifies this
      ensures (View(), reply) == ApplyMethod(old(View()), if final == MethodFailed then FailMethod else AbandonMethod)
    {
      if Terminal(stage) { return IllegalTransition; }
      stage := final;
      revisionPending := false;
      return Accepted;
    }
  }

  ghost function Views(methods: seq<MethodAttempt>): (views: seq<Method>)
    reads methods
    ensures |views| == |methods|
    ensures forall i :: 0 <= i < |views| ==> views[i] == methods[i].View()
  {
    if methods == [] then [] else [methods[0].View()] + Views(methods[1..])
  }

  class ResearchRun {
    var stage: ResearchStage
    var difficulty: Option<Difficulty>
    var methods: seq<MethodAttempt>
    var selected: seq<MethodId>
    var artifact: Option<string>

    constructor ()
      ensures Valid() && View() == NEW_RUN && methods == []
    {
      stage, difficulty, methods, selected, artifact := LiteratureSurvey, None, [], [], None;
    }

    ghost predicate Valid()
      reads this
    {
      Unique(methods)
    }

    ghost function View(): (run: Run)
      reads this, methods
    {
      Run(stage, difficulty, Views(methods), selected, artifact)
    }
  }

  /** A call that changed one method by its transition changed the run by the lifted transition. */
  lemma Lifted(before: Run, after: Run, id: MethodId, op: MethodOp, reply: Reply)
    requires before.stage == MethodsActive && Known(before, id)
    requires |after.methods| == |before.methods| && after.(methods := before.methods) == before
    requires forall i :: 0 <= i < |before.methods| && i != id - 1 ==> after.methods[i] == before.methods[i]
    requires (MethodOf(after, id), reply) == ApplyMethod(MethodOf(before, id), op)
    ensures (after, reply) == Apply(before, OnMethod(id, op))
  {
    assert after.methods == WithMethod(before, id, MethodOf(after, id)).methods;
  }

  lemma NoMethodChanged(before: Run, after: Run)
    requires |after.methods| == |before.methods|
    requires forall i :: 0 <= i < |before.methods| ==> after.methods[i] == before.methods[i]
    ensures after.methods == before.methods
  {
  }

  class ResearchWorkflowCoordinator {
    constructor () {}

    /** One fresh method per proposal, in order. */
    method NewAttempts(proposals: seq<Proposal>) returns (attempts: seq<MethodAttempt>)
      ensures Unique(attempts) && fresh(attempts) && Views(attempts) == NewMethods(proposals)
    {
      attempts := [];
      for i := 0 to |proposals|
        invariant |attempts| == i && Unique(attempts) && fresh(attempts)
        invariant forall k :: 0 <= k < i ==> attempts[k].View() == NewMethod(proposals[k].name)
      {
        var attempt := new MethodAttempt(proposals[i].name);
        attempts := attempts + [attempt];
      }
    }

    method CompleteLiteratureSurvey(run: ResearchRun, difficulty: Option<Difficulty>, proposals: seq<Proposal>)
      returns (reply: Reply)
      requires run.Valid()
      modifies run
      ensures run.Valid()
      ensures (run.View(), reply) == ApplySurvey(old(run.View()), difficulty, proposals)
    {
      if run.stage != LiteratureSurvey { return IllegalTransition; }
      if difficulty.None? { return InvalidInput; }
      run.difficulty := difficulty;
      NoMethodChanged(old(run.View()), run.View());
      if difficulty.value == Easy {
        if proposals != [] { return InvalidInput; }
        run.stage := DirectProof;
        NoMethodChanged(old(run.View()), run.View());
        return Accepted;
      }
      var names := FoldedNames(proposals);
      CardinalityDecidesUniqueness(names);
      if (exists p :: p in proposals && p.name == "") || proposals == [] || |names| != |Elements(names)| {
        return InvalidInput;
      }
      var attempts := NewAttempts(proposals);
      run.methods := attempts;
      run.stage := MethodsActive;
      return Accepted;
    }

    method FailLiteratureSurvey(run: ResearchRun, knownStatus: bool) returns (reply: Reply)
      requires run.Valid()
      modifies run
      ensures run.Valid() && run.methods == old(run.methods)
      ensures (run.View(), reply) == Apply(old(run.View()), FailSurvey(knownStatus))
    {
      if run.stage != LiteratureSurvey { return IllegalTransition; }
      if !knownStatus { return InvalidInput; }
      run.stage := RunFailed;
      NoMethodChanged(old(run.View()), run.View());
      return Accepted;
    }

    method CompleteDirectProofRun(run: ResearchRun, artifact: string) returns (reply: Reply)
      requires run.Valid()
      modifies run
      ensures run.Valid() && run.methods == old(run.methods)
      ensures (run.View(), reply) == Apply(old(run.View()), CompleteDirectProof(artifact))
    {
      if run.stage != DirectProof { return IllegalTransition; }
      if artifact == "" { return InvalidInput; }
      run.artifact := Some(artifact);
      run.stage := RunCompleted;
      NoMethodChanged(old(run.View()), run.View());
      return Accepted;
    }

    /** Every per-method call: `_method_for_active_run`, then the method's own transition. */
    method OnActiveMethod(run: ResearchRun, id: MethodId, op: MethodOp) returns (reply: Reply)
      requires run.Valid()
      modifies if 1 <= id <= |run.methods| then {run.methods[id - 1]} else {}
      ensures (run.View(), reply) == Apply(old(run.View()), OnMethod(id, op))
    {
      if run.stage != MethodsActive { return IllegalTransition; }
      if id < 1 || |run.methods| < id { return InvalidInput; }
      var m := run.methods[id - 1];
      reply := Dispatch(m, op);
      Lifted(old(run.View()), run.View(), id, op, reply);
    }

    method Dispatch(m: MethodAttempt, op: MethodOp) returns (reply: Reply)
      modifies m
      ensures (m.View(), reply) == ApplyMethod(old(m.View()), op)
    {
      match op
      case AssignTeammate(name) => reply := m.Assign(name);
      case SetPlan(plan) => reply := m.AdoptPlan(plan);
      case StartStep(step) => reply := m.Start(step);
      case CompleteStep(step) => reply := m.Finish(step);
      case SubmitStructural => reply := m.Submit();
      case StructuralVerdict(verdict) => reply := m.RecordStructural(verdict);
      case DetailedVerdict(verdict) => reply := m.RecordDetailed(verdict);
      case Regulate(action) => reply := m.RecordRegulator(action);
      case CompleteRevision => reply := m.FinishRevision();
      case FailMethod => reply := m.Close(MethodFailed);
      case AbandonMethod => reply := m.Close(Abandoned);
    }

    method BeginRunSummary(run: ResearchRun, ids: seq<MethodId>) returns (reply: Reply)
      requires run.Valid()
      modifies run
      ensures run.Valid() && run.methods == old(run.methods)
      ensures (run.View(), reply) == Apply(old(run.View()), BeginSummary(ids))
    {
      if run.stage != MethodsActive { return IllegalTransition; }
      var chosen := Distinct(ids);
      if chosen == [] { return InvalidInput; }
      ghost var view := run.View();
      for i := 0 to |chosen|
        invariant SelectionReply(view, chosen) == SelectionReply(view, chosen[i..])
      {
        var id := chosen[i];
        assert chosen[i..][0] == id && chosen[i..][1..] == chosen[i + 1..];
        if id < 1 || |run.methods| < id { return InvalidInput; }
        if run.methods[id - 1].stage != MethodCompleted { return IllegalTransition; }
      }
      run.selected := chosen;
      run.stage := Summary;
      NoMethodChanged(old(run.View()), run.View());
      return Accepted;
    }

    method CompleteRunSummary(run: ResearchRun, artifact: string) returns (reply: Reply)
      requires run.Valid()
      modifies run
      ensures run.Valid() && run.methods == old(run.methods)
      ensures (run.View(), reply) == Apply(old(run.View()), CompleteSummary(artifact))
    {
      if run.stage != Summary { return IllegalTransition; }
      if artifact == "" { return InvalidInput; }
      run.artifact := Some(artifact);
      run.stage := RunCompleted;
      NoMethodChanged(old(run.View()), run.View());
      return Accepted;
    }
  }
}
