/** What the calls on a whole run do: survey, direct proof and summary, and when they are refused. */
module RunEffects {
  import opened Prelude
  import opened WorkflowModel

  ghost predicate Surveyable(difficulty: Difficulty, proposals: seq<Proposal>) {
    if difficulty == Easy then proposals == []
    else
      && proposals != []
      && (forall i :: 0 <= i < |proposals| ==> proposals[i].name != "")
      && forall i, j :: 0 <= i < j < |proposals| ==> proposals[i].folded != proposals[j].folded
  }

  /**
   The survey ends once: an easy problem goes to a direct proof, any other to its methods, one for each proposal, in
   order, untouched and in decomposition. A difficulty that is known is stored even if the proposals are refused.
   */
  lemma SurveyEffect(run: Run, difficulty: Option<Difficulty>, proposals: seq<Proposal>)
    ensures var (run', reply) := Apply(run, CompleteSurvey(difficulty, proposals));
      if run.stage != LiteratureSurvey then run' == run && reply == IllegalTransition
      else if difficulty.None? then run' == run && reply == InvalidInput
      else if !Surveyable(difficulty.value, proposals) then
        reply == InvalidInput && run' == run.(difficulty := difficulty)
      else
        && reply == Accepted && run'.difficulty == difficulty
        && run'.selected == run.selected && run'.artifact == run.artifact
        && (difficulty == Some(Easy) ==> run'.stage == DirectProof && run'.methods == run.methods)
        && (difficulty != Some(Easy) ==>
              && run'.stage == MethodsActive && |run'.methods| == |proposals|
              && forall i :: 0 <= i < |proposals| ==>
                   run'.methods[i] == Method(proposals[i].name, None, Decomposition, [], None, None, None, false, 0, 0, 0))
  {
    var names := FoldedNames(proposals);
    assert forall i :: 0 <= i < |proposals| ==> names[i] == proposals[i].folded;
    assert Unique(names) <==> forall i, j :: 0 <= i < j < |proposals| ==> proposals[i].folded != proposals[j].folded;
    assert (exists p :: p in proposals && p.name == "") <==> exists i :: 0 <= i < |proposals| && proposals[i].name == "";
  }

  lemma FailSurveyEffect(run: Run, known: bool)
    ensures var (run', reply) := Apply(run, FailSurvey(known));
      && reply == (if run.stage != LiteratureSurvey then IllegalTransition else if known then Accepted else InvalidInput)
      && run' == if reply == Accepted then run.(stage := RunFailed) else run
  {
  }

  ghost predicate Selectable(run: Run, id: MethodId) {
    1 <= id <= |run.methods| && run.methods[id - 1].stage == MethodCompleted
  }

  /** The first id of the list that cannot be selected. */
  ghost predicate FirstRefused(run: Run, ids: seq<MethodId>, i: nat) {
    i < |ids| && !Selectable(run, ids[i]) && forall j :: 0 <= j < i ==> Selectable(run, ids[j])
  }

  lemma {:induction false} SelectionFindsFirst(run: Run, ids: seq<MethodId>, i: nat)
    requires FirstRefused(run, ids, i)
    ensures SelectionReply(run, ids) == if 1 <= ids[i] <= |run.methods| then IllegalTransition else InvalidInput
    decreases i
  {
    if i > 0 {
      assert Selectable(run, ids[0]);
      assert forall j :: 0 <= j < i - 1 ==> ids[1..][j] == ids[j + 1];
      SelectionFindsFirst(run, ids[1..], i - 1);
    }
  }

  lemma SelectionAccepts(run: Run, ids: seq<MethodId>)
    ensures SelectionReply(run, Distinct(ids)) == Accepted <==> forall i :: 0 <= i < |ids| ==> Selectable(run, ids[i])
  {
    assert forall id :: id in Distinct(ids) <==> id in Elements(Distinct(ids));
    assert forall id :: id in ids <==> id in Elements(ids);
    assert (forall i :: 0 <= i < |ids| ==> Selectable(run, ids[i])) <==> forall id :: id in ids ==> Selectable(run, id);
  }

  /**
   A summary begins on any non-empty choice of completed methods, and keeps each of them once, in the order they were
   first named. Anything else leaves the run alone.
   */
  lemma SummaryEffect(run: Run, ids: seq<MethodId>)
    ensures var (run', reply) := Apply(run, BeginSummary(ids));
      && (reply == Accepted <==>
            run.stage == MethodsActive && ids != [] && forall i :: 0 <= i < |ids| ==> Selectable(run, ids[i]))
      && (reply != Accepted ==> run' == run)
      && (run.stage != MethodsActive ==> reply == IllegalTransition)
      && (run.stage == MethodsActive && ids == [] ==> reply == InvalidInput)
      && (forall i: nat :: run.stage == MethodsActive && FirstRefused(run, Distinct(ids), i) ==>
            reply == if 1 <= Distinct(ids)[i] <= |run.methods| then IllegalTransition else InvalidInput)
      && (reply == Accepted ==>
            && run' == run.(stage := Summary, selected := run'.selected)
            && Unique(run'.selected) && Elements(run'.selected) == Elements(ids) && InOrderOf(ids, run'.selected))
  {
    SelectionAccepts(run, ids);
    DistinctKeepsOrder(ids);
    forall i: nat | FirstRefused(run, Distinct(ids), i)
      ensures SelectionReply(run, Distinct(ids)) ==
        if 1 <= Distinct(ids)[i] <= |run.methods| then IllegalTransition else InvalidInput
    {
      SelectionFindsFirst(run, Distinct(ids), i);
    }
  }

  /** A direct proof or a summary ends with its artifact, which must not be empty, and with nothing else changed. */
  lemma ArtifactEffect(run: Run, op: RunOp)
    requires op.CompleteDirectProof? || op.CompleteSummary?
    ensures var (run', reply) := Apply(run, op);
      && reply == (if run.stage != (if op.CompleteSummary? then Summary else DirectProof) then IllegalTransition
                   else if op.artifact == "" then InvalidInput else Accepted)
      && run' == if reply == Accepted then run.(stage := RunCompleted, artifact := Some(op.artifact)) else run
  {
  }

  /** A call on one method reaches that method of an active run, and no other. */
  lemma MethodCallEffect(run: Run, id: MethodId, op: MethodOp)
    ensures var (run', reply) := Apply(run, OnMethod(id, op));
      if run.stage != MethodsActive then run' == run && reply == IllegalTransition
      else if !(1 <= id <= |run.methods|) then run' == run && reply == InvalidInput
      else
        && reply == ApplyMethod(run.methods[id - 1], op).1
        && |run'.methods| == |run.methods| && run'.methods[id - 1] == ApplyMethod(run.methods[id - 1], op).0
        && (forall i :: 0 <= i < |run.methods| && i != id - 1 ==> run'.methods[i] == run.methods[i])
        && run' == run.(methods := run'.methods)
  {
  }
}
