/**
 Reachable trouble in an active run: a teammate, a task or a revision's task that is missing, each with a short
 run of the system that leads there and a sync that raises.
 */
module SystemWitnesses {
  import opened Prelude
  import opened StepPlans
  import opened WorkflowModel
  import opened OrchestrationModel
  import opened SystemRuns
  import T = TaskLedger

  // ---------------------------------------------------------------- following one method

  const RUN: RunId := "r"

  ghost predicate At(events: seq<Event>, key: Key, slot: Slot, db: T.Ledger, stage: ResearchStage) {
    && AllLegal(events) && KnownKey(Reached(events), key)
    && SlotOf(Reached(events), key) == slot && Reached(events).db == db && Reached(events).runs[key.run].stage == stage
  }

  lemma Extends(events: seq<Event>, e: Event)
    requires AllLegal(events) && Legal(e)
    ensures AllLegal(events + [e]) && Reached(events + [e]) == Step(Reached(events), e)
  {
    assert (events + [e])[..|events|] == events;
  }

  lemma CallMoves(events: seq<Event>, key: Key, slot: Slot, db: T.Ledger, e: Event)
    requires At(events, key, slot, db, MethodsActive) && Legal(e) && OnKey(e) && e.key == key
    requires slot.binding.Some? ==> CallMethod(slot, true, e, db).0.binding.Some?
    ensures At(events + [e], key, CallMethod(slot, true, e, db).0, CallMethod(slot, true, e, db).1, MethodsActive)
  {
    Extends(events, e);
    PutSlots(Reached(events), key, CallMethod(slot, true, e, db).0, CallMethod(slot, true, e, db).1, key);
  }

  lemma CallLeavesOthers(events: seq<Event>, key: Key, slot: Slot, db: T.Ledger, e: Event, other: Key, slot': Slot)
    requires At(events, key, slot, db, MethodsActive) && Legal(e) && OnKey(e) && e.key == key
    requires slot.binding.Some? ==> CallMethod(slot, true, e, db).0.binding.Some?
    requires other != key && At(events, other, slot', db, MethodsActive)
    ensures At(events + [e], other, slot', CallMethod(slot, true, e, db).1, MethodsActive)
  {
    Extends(events, e);
    PutSlots(Reached(events), key, CallMethod(slot, true, e, db).0, CallMethod(slot, true, e, db).1, other);
  }

  lemma WorkerMoves(events: seq<Event>, key: Key, slot: Slot, db: T.Ledger, stage: ResearchStage, op: T.TaskOp)
    requires At(events, key, slot, db, stage)
    ensures At(events + [Worker(op)], key, slot, T.Apply(db, op).0, stage)
  {
    Extends(events, Worker(op));
    TableSlots(Reached(events), T.Apply(db, op).0, key);
  }

  function ActiveRunOf(proposals: seq<Proposal>): Run {
    Run(MethodsActive, Some(Medium), NewMethods(proposals), [], None)
  }

  lemma SurveyAccepts(proposals: seq<Proposal>)
    requires proposals != [] && Unique(FoldedNames(proposals)) && forall p :: p in proposals ==> p.name != ""
    ensures ApplySurvey(NEW_RUN, Some(Medium), proposals) == (ActiveRunOf(proposals), Accepted)
  {
  }

  /** A medium problem with these methods, decomposition about to begin. */
  lemma Surveyed(proposals: seq<Proposal>) returns (events: seq<Event>)
    requires proposals != [] && Unique(FoldedNames(proposals)) && forall p :: p in proposals ==> p.name != ""
    ensures AllLegal(events) && Reached(events) == Sys(map[RUN := ActiveRunOf(proposals)], map[], map[], map[])
  {
    var survey := OnRun(RUN, CompleteSurvey(Some(Medium), proposals));
    SurveyAccepts(proposals);
    Extends([], StartRun(RUN));
    assert Reached([] + [StartRun(RUN)]) == Sys(map[RUN := NEW_RUN], map[], map[], map[]);
    Extends([] + [StartRun(RUN)], survey);
    events := [] + [StartRun(RUN)] + [survey];
  }

  lemma SurveyedMethod(events: seq<Event>, proposals: seq<Proposal>, i: nat)
    requires AllLegal(events) && Reached(events) == Sys(map[RUN := ActiveRunOf(proposals)], map[], map[], map[])
    requires i < |proposals|
    ensures At(events, Key(RUN, i + 1), Slot(NewMethod(proposals[i].name), None, {}), map[], MethodsActive)
  {
  }

  // ---------------------------------------------------------------- one method with one step

  const PLAN: seq<StepPlan> := [StepPlan("s", "goal", [])]

  lemma PlanIsWellFormed()
    ensures WellFormedPlan(PLAN) && IsTopological(GraphOf(PLAN), ["s"])
  {
    assert Ids(PLAN) == ["s"];
    assert GraphOf(PLAN).Keys == {"s"} && GraphOf(PLAN)["s"] == [] by {
      assert PLAN[0].id in GraphOf(PLAN);
    }
    assert Elements(["s"]) == {"s"};
    OrderedImpliesAcyclic(GraphOf(PLAN), ["s"]);
  }

  /** The method in proof, its one step in this state. */
  function InProofMethod(name: string, teammate: Option<string>, status: StepStatus): Method {
    Method(name, teammate, Proving, [ProofStep("s", "goal", [], status)], None, None, None, false, 0, 0, 0)
  }

  function BoundSlot(m: Method, task: T.TaskId): Slot {
    Slot(m, Some(Binding(1, map["s" := task], ["s"], None)), {task})
  }

  const OPEN_TASK := T.Row(T.Pending, None, {}, None, None)
  const HELD_TASK := T.Row(T.InProgress, Some("w"), {}, Some(60 * T.SECOND), None)
  const DONE_TASK := T.Row(T.Completed, Some("w"), {}, None, None)

  function Activation(key: Key, task: T.TaskId, worktree: bool): Event {
    ActivateMethod(key, PLAN, ["s"], "prover", worktree, [task], [])
  }

  lemma Materializes(steps: seq<ProofStep>, task: T.TaskId, db: T.Ledger)
    requires steps == [ProofStep("s", "goal", [], StepPending)] && task !in db
    ensures Materialize(steps, ["s"], [task], map[], db, []) == (map["s" := task], db[task := OPEN_TASK], Returned)
    ensures map["s" := task].Values == {task}
  {
    assert StepIndex(steps, "s") == Some(0);
    assert TaskSeq(map[], []) == [] && Elements<T.TaskId>([]) == {};
    assert ["s"][1..] == [] && [task][1..] == [];
    assert "s" in map["s" := task];
  }

  lemma Activates(name: string, task: T.TaskId, worktree: bool, db: T.Ledger)
    requires task !in db
    ensures Activate(Slot(NewMethod(name), None, {}), true, PLAN, ["s"], "prover", worktree, [task], db, [])
      == (BoundSlot(InProofMethod(name, if worktree then Some("prover") else None, StepPending), task),
          db[task := OPEN_TASK], if worktree then Returned else Raised)
  {
    PlanIsWellFormed();
    var planned := InProofMethod(name, None, StepPending);
    assert ApplyMethod(NewMethod(name), SetPlan(PLAN)) == (planned, Accepted) by {
      assert FreshSteps(PLAN) == planned.steps;
    }
    Materializes(planned.steps, task, db);
    assert {} + map["s" := task].Values == {task};
    assert Equip(planned, true, 1, {}, ["s"], "prover", worktree, [task], db, [])
      == (BoundSlot(InProofMethod(name, if worktree then Some("prover") else None, StepPending), task),
          db[task := OPEN_TASK], if worktree then Returned else Raised);
  }

  lemma Claims(db: T.Ledger, task: T.TaskId)
    requires task in db && db[task] == OPEN_TASK
    ensures T.Apply(db, T.Claim(task, "w", 0, 60)) == (db[task := HELD_TASK], T.Ok)
  {
    assert T.Blocked(db, task) == {} && T.Missing(db, task) == {};
  }

  lemma Completes(db: T.Ledger, task: T.TaskId)
    requires task in db && db[task] == HELD_TASK
    ensures T.Apply(db, T.Complete(task, "w", 1)) == (db[task := DONE_TASK], T.Ok)
  {
  }

  // ---------------------------------------------------------------- finding by finding

  /** A worktree failure, then a worker's claim: the next sync raises. */
  lemma UnstaffedSyncRaises() returns (events: seq<Event>, key: Key)
    ensures AllLegal(events) && KnownKey(Reached(events), key) && ActiveRun(Reached(events), key.run)
    ensures SlotOf(Reached(events), key).m.stage == Proving && SlotOf(Reached(events), key).m.teammate.None?
    ensures Sync(SlotOf(Reached(events), key), true, Reached(events).db, []).2 == Raised
  {
    key := Key(RUN, 1);
    var m := InProofMethod("m", None, StepPending);
    events := OneMethod();
    events := Activated(events, key, "m", "t", false, map[]);
    events := Claimed(events, key, BoundSlot(m, "t"), "t", map["t" := OPEN_TASK]);
    StartRefused(m, "t", map["t" := OPEN_TASK]["t" := HELD_TASK], true);
  }

  lemma Claimed(events: seq<Event>, key: Key, slot: Slot, task: T.TaskId, db: T.Ledger) returns (events': seq<Event>)
    requires At(events, key, slot, db, MethodsActive) && task in db && db[task] == OPEN_TASK
    ensures events' == events + [Worker(T.Claim(task, "w", 0, 60))]
    ensures At(events', key, slot, db[task := HELD_TASK], MethodsActive)
  {
    Claims(db, task);
    WorkerMoves(events, key, slot, db, MethodsActive, T.Claim(task, "w", 0, 60));
    events' := events + [Worker(T.Claim(task, "w", 0, 60))];
  }

  lemma OneMethod() returns (events: seq<Event>)
    ensures At(events, Key(RUN, 1), Slot(NewMethod("m"), None, {}), map[], MethodsActive)
  {
    var proposals := [Proposal("m", "m")];
    events := Surveyed(proposals);
    SurveyedMethod(events, proposals, 0);
  }

  lemma Activated(events: seq<Event>, key: Key, name: string, task: T.TaskId, worktree: bool, db: T.Ledger)
    returns (events': seq<Event>)
    requires At(events, key, Slot(NewMethod(name), None, {}), db, MethodsActive) && task !in db
    ensures events' == events + [Activation(key, task, worktree)]
    ensures At(events', key, BoundSlot(InProofMethod(name, if worktree then Some("prover") else None, StepPending), task),
               db[task := OPEN_TASK], MethodsActive)
  {
    PlanIsWellFormed();
    Activates(name, task, worktree, db);
    CallMoves(events, key, Slot(NewMethod(name), None, {}), db, Activation(key, task, worktree));
    events' := events + [Activation(key, task, worktree)];
  }

  /** The task has started, its step has not, and the coordinator will not start it. */
  lemma StartRefused(m: Method, task: T.TaskId, db: T.Ledger, active: bool)
    requires m.stage == Proving && m.steps == [ProofStep("s", "goal", [], StepPending)] && !m.revisionPending
    requires task in db && db[task].status in {T.InProgress, T.Completed} && (active ==> m.teammate.None?)
    ensures Sync(BoundSlot(m, task), active, db, []).2 == Raised
  {
    assert StepIndex(m.steps, "s") == Some(0);
  }

  /** A task creation fails inside the activation. */
  lemma MissingTaskSyncRaises() returns (events: seq<Event>, key: Key)
    ensures AllLegal(events) && KnownKey(Reached(events), key) && ActiveRun(Reached(events), key.run)
    ensures var slot := SlotOf(Reached(events), key);
      && slot.m.stage == Proving && !slot.m.revisionPending
      && slot.binding.Some? && Elements(slot.binding.value.order) != slot.binding.value.tasks.Keys
      && Sync(slot, true, Reached(events).db, []).2 == Raised
  {
    key := Key(RUN, 1);
    var activation := ActivateMethod(key, PLAN, ["s"], "prover", true, [], []);
    events := OneMethod();
    PlanIsWellFormed();
    HalfActivates("m");
    CallMoves(events, key, Slot(NewMethod("m"), None, {}), map[], activation);
    events := events + [activation];
    assert "s" in Elements(["s"]);
  }

  function HalfBound(name: string): Slot {
    Slot(InProofMethod(name, None, StepPending), Some(Binding(1, map[], ["s"], None)), {})
  }

  lemma HalfActivates(name: string)
    ensures Activate(Slot(NewMethod(name), None, {}), true, PLAN, ["s"], "prover", true, [], map[], [])
      == (HalfBound(name), map[], Raised)
  {
    PlanIsWellFormed();
    assert FreshSteps(PLAN) == InProofMethod(name, None, StepPending).steps;
    var none: map<StepId, T.TaskId> := map[];
    assert {} + none.Values == {};
  }

  // ---------------------------------------------------------------- a method that is verified, or revised

  function Verifying(name: string): Method {
    InProofMethod(name, Some("prover"), StepCompleted).(stage := StructuralVerify)
  }

  lemma SyncsToVerification(name: string, task: T.TaskId, db: T.Ledger)
    requires task in db && db[task].status == T.Completed
    ensures Sync(BoundSlot(InProofMethod(name, Some("prover"), StepPending), task), true, db, [])
         == (BoundSlot(Verifying(name), task), db, Returned)
  {
    var m := InProofMethod(name, Some("prover"), StepPending);
    var done := InProofMethod(name, Some("prover"), StepCompleted);
    assert StepIndex(m.steps, "s") == Some(0) && DependenciesKnown(m.steps, 0) && DependenciesCompleted(m.steps, 0);
    var started := WithStatus(m, 0, StepInProgress);
    assert started.steps == [ProofStep("s", "goal", [], StepInProgress)] && StepIndex(started.steps, "s") == Some(0);
    assert WithStatus(started, 0, StepCompleted) == done;
    assert SyncOne(m, true, "s", T.Completed) == (done, Accepted);
    assert ["s"][1..] == [];
    assert SyncLoop(m, true, ["s"], map["s" := task], db, []) == (done, db, Finished);
  }

  lemma Completed(events: seq<Event>, key: Key, slot: Slot, task: T.TaskId, db: T.Ledger) returns (events': seq<Event>)
    requires At(events, key, slot, db, MethodsActive) && task in db && db[task] == HELD_TASK
    ensures events' == events + [Worker(T.Complete(task, "w", 1))]
    ensures At(events', key, slot, db[task := DONE_TASK], MethodsActive)
  {
    Completes(db, task);
    WorkerMoves(events, key, slot, db, MethodsActive, T.Complete(task, "w", 1));
    events' := events + [Worker(T.Complete(task, "w", 1))];
  }

  /** A worker claims the task and completes it. */
  lemma Worked(events: seq<Event>, key: Key, slot: Slot, task: T.TaskId, db: T.Ledger) returns (events': seq<Event>)
    requires At(events, key, slot, db, MethodsActive) && task in db && db[task] == OPEN_TASK
    ensures At(events', key, slot, db[task := DONE_TASK], MethodsActive)
  {
    events' := Claimed(events, key, slot, task, db);
    events' := Completed(events', key, slot, task, db[task := HELD_TASK]);
    assert db[task := HELD_TASK][task := DONE_TASK] == db[task := DONE_TASK];
  }

  lemma Synced(events: seq<Event>, key: Key, name: string, task: T.TaskId, db: T.Ledger) returns (events': seq<Event>)
    requires task in db && db[task] == DONE_TASK
    requires At(events, key, BoundSlot(InProofMethod(name, Some("prover"), StepPending), task), db, MethodsActive)
    ensures At(events', key, BoundSlot(Verifying(name), task), db, MethodsActive)
  {
    SyncsToVerification(name, task, db);
    CallMoves(events, key, BoundSlot(InProofMethod(name, Some("prover"), StepPending), task), db, SyncMethod(key, []));
    events' := events + [SyncMethod(key, [])];
  }

  lemma ProvedBound(events: seq<Event>, key: Key, name: string, task: T.TaskId, db: T.Ledger)
    returns (events': seq<Event>)
    requires At(events, key, BoundSlot(InProofMethod(name, Some("prover"), StepPending), task), db, MethodsActive)
    requires task in db && db[task] == OPEN_TASK
    ensures At(events', key, BoundSlot(Verifying(name), task), db[task := DONE_TASK], MethodsActive)
  {
    events' := Worked(events, key, BoundSlot(InProofMethod(name, Some("prover"), StepPending), task), task, db);
    events' := Synced(events', key, name, task, db[task := DONE_TASK]);
  }

  lemma Overwrites(db: T.Ledger, task: T.TaskId)
    ensures task in db[task := OPEN_TASK] && db[task := OPEN_TASK][task] == OPEN_TASK
    ensures db[task := OPEN_TASK][task := DONE_TASK] == db[task := DONE_TASK]
  {
  }

  /** A method activated, proved by a worker and synced into verification. */
  lemma Proved(events: seq<Event>, key: Key, name: string, task: T.TaskId, db: T.Ledger) returns (events': seq<Event>)
    requires At(events, key, Slot(NewMethod(name), None, {}), db, MethodsActive) && task !in db
    ensures At(events', key, BoundSlot(Verifying(name), task), db[task := DONE_TASK], MethodsActive)
  {
    var activated := Activated(events, key, name, task, true, db);
    Overwrites(db, task);
    events' := ProvedBound(activated, key, name, task, db[task := OPEN_TASK]);
  }

  lemma Judged(events: seq<Event>, key: Key, m: Method, task: T.TaskId, db: T.Ledger, op: MethodOp)
    returns (events': seq<Event>)
    requires At(events, key, BoundSlot(m, task), db, MethodsActive) && (op.StructuralVerdict? || op.DetailedVerdict?)
    ensures events' == events + [RecordMethodVerdict(key, op)]
    ensures At(events', key, BoundSlot(ApplyMethod(m, op).0, task), db, MethodsActive)
  {
    CallMoves(events, key, BoundSlot(m, task), db, RecordMethodVerdict(key, op));
    events' := events + [RecordMethodVerdict(key, op)];
  }

  function Regulated(name: string): Method {
    Verifying(name).(stage := Regulation, structural := Some(Continue))
  }

  function Revising(name: string): Method {
    Verifying(name).(stage := Proving, action := Some(ReviseProof), proofRevisions := 1, revisionPending := true)
  }

  lemma RevisionTaskLost(name: string, task: T.TaskId, db: T.Ledger)
    ensures RecordRegulation(BoundSlot(Regulated(name), task), true, Some(ReviseProof), [], db, [])
         == (BoundSlot(Revising(name), task), db, Raised)
    ensures Sync(BoundSlot(Revising(name), task), true, db, []).2 == Raised
  {
  }

  lemma RevisionLost(events: seq<Event>, key: Key, name: string, task: T.TaskId, db: T.Ledger) returns (events': seq<Event>)
    requires At(events, key, BoundSlot(Regulated(name), task), db, MethodsActive)
    ensures At(events', key, BoundSlot(Revising(name), task), db, MethodsActive)
  {
    var revise := RegulateMethod(key, Some(ReviseProof), [], []);
    RevisionTaskLost(name, task, db);
    CallMoves(events, key, BoundSlot(Regulated(name), task), db, revise);
    events' := events + [revise];
  }

  /** A revision is asked for, and its task cannot be created. */
  lemma LostRevisionRaises() returns (events: seq<Event>, key: Key)
    ensures AllLegal(events) && KnownKey(Reached(events), key) && ActiveRun(Reached(events), key.run)
    ensures var slot := SlotOf(Reached(events), key);
      && slot.m.revisionPending && slot.m.stage == Proving
      && slot.binding.Some? && slot.binding.value.revisionTask.None?
    ensures Sync(SlotOf(Reached(events), key), true, Reached(events).db, []).2 == Raised
  {
    key := Key(RUN, 1);
    var db := map["t" := DONE_TASK];
    events := OneMethod();
    events := Proved(events, key, "m", "t", map[]);
    events := Judged(events, key, Verifying("m"), "t", db, StructuralVerdict(Some(Continue)));
    assert ApplyMethod(Verifying("m"), StructuralVerdict(Some(Continue))).0 == Regulated("m");
    events := RevisionLost(events, key, "m", "t", db);
    RevisionTaskLost("m", "t", db);
  }
}
