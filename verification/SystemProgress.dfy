/**
 Liveness of sync: in a run whose calls are given fresh task ids and worktrees, a sync of a bound method of
 an active run raises only by losing a race with the workers, and never when they leave it undisturbed.
 */
module SystemProgress {
  import opened Prelude
  import opened StepPlans
  import opened WorkflowModel
  import opened WorkflowTheorems
  import opened OrchestrationModel
  import opened Agreement
  import opened ActivationAgreement
  import opened SyncAgreement
  import opened SyncTheorems
  import opened InterleavedSync
  import opened SystemRuns
  import T = TaskLedger
  import TT = TaskTheorems

  /** Tasks and teammate in place whenever the method is in proof; a revision task whenever it is revising. */
  ghost predicate Equipped(slot: Slot) {
    && (InProof(slot) ==> Materialized(slot) && slot.m.teammate.Some?)
    && (slot.m.revisionPending ==> slot.binding.Some? && slot.binding.value.revisionTask.Some?)
  }

  /**
   What the event is given suffices: fresh ids for the tasks it wants, untouched by workers meanwhile,
   and for an activation a worktree and a prover.
   */
  ghost predicate Supplied(db: T.Ledger, event: Event) {
    match event
    case ActivateMethod(_, _, order, prover, worktree, ids, gaps) =>
      worktree && prover != "" && |ids| >= |order| && Fresh(ids, db) && Spared(ids, gaps)
    case RegulateMethod(_, action, ids, gaps) =>
      action == Some(ReviseProof) ==> ids != [] && Fresh(ids, db) && Spared(ids, gaps)
    case _ => true
  }

  ghost predicate Smooth(sys: Sys, event: Event) {
    Supplied(sys.db, event)
  }

  ghost predicate AllSmooth(events: seq<Event>)
    requires AllLegal(events)
    decreases |events|
  {
    events == [] ||
    (AllSmooth(events[..|events| - 1]) && Smooth(Reached(events[..|events| - 1]), events[|events| - 1]))
  }

  ghost predicate AllEquipped(sys: Sys) {
    forall key :: KnownKey(sys, key) ==> Equipped(SlotOf(sys, key))
  }

  lemma SyncOneTeammate(m: Method, active: bool, id: StepId, status: T.TaskStatus)
    requires StepIndex(m.steps, id).Some?
    ensures SyncOne(m, active, id, status).0.teammate == m.teammate
  {
  }

  lemma {:induction false} SyncLoopTeammate(m: Method, active: bool, order: seq<StepId>, tasks: map<StepId, T.TaskId>,
                                            db: T.Ledger, gaps: Gaps)
    ensures SyncLoop(m, active, order, tasks, db, gaps).0.teammate == m.teammate
    decreases |order|
  {
    if order != [] && order[0] in tasks {
      var now := AfterGap(db, gaps);
      if tasks[order[0]] in now && StepIndex(m.steps, order[0]).Some? {
        var next := SyncOne(m, active, order[0], now[tasks[order[0]]].status).0;
        SyncOneTeammate(m, active, order[0], now[tasks[order[0]]].status);
        SyncLoopTeammate(next, active, order[1..], tasks, now, Rest(gaps));
      }
    }
  }

  lemma FullMaterialization(steps: seq<ProofStep>, order: seq<StepId>, ids: seq<T.TaskId>, db: T.Ledger, gaps: Gaps)
    requires WellFormedPlan(PlanOf(steps)) && IsTopological(GraphOf(PlanOf(steps)), order) && TT.LedgerInv(db)
    ensures var (tasks, _, outcome) := Materialize(steps, order, ids, map[], db, gaps);
      outcome == Returned ==> tasks.Keys == Elements(order)
  {
    assert order[..0] == [] && order[0..] == order;
    MaterializeKeeps(steps, order, 0, ids, map[], db, gaps);
  }

  lemma ActivateEquips(slot: Slot, active: bool, plan: seq<StepPlan>, order: seq<StepId>, prover: string,
                       worktree: bool, ids: seq<T.TaskId>, db: T.Ledger, gaps: Gaps)
    requires TT.LedgerInv(db)
    requires WellFormedPlan(plan) ==> IsTopological(GraphOf(plan), order)
    ensures var (slot', _, outcome) := Activate(slot, active, plan, order, prover, worktree, ids, db, gaps);
      outcome == Returned ==> Equipped(slot')
  {
    var (planned, reply) := OnActive(slot.m, active, SetPlan(plan));
    if reply == Accepted {
      FullMaterialization(planned.steps, order, ids, db, gaps);
    }
  }

  lemma RevisionStaysEquipped(slot: Slot, active: bool, db: T.Ledger, gaps: Gaps)
    requires slot.m.revisionPending && slot.m.stage == Proving && slot.binding.Some?
    requires slot.binding.value.revisionTask.Some?
    ensures Equipped(SyncRevision(slot, active, db, gaps).0)
  {
  }

  lemma SettledStaysEquipped(slot: Slot, m: Method, active: bool, flow: Flow)
    requires Materialized(slot) && m.teammate.Some? && !m.revisionPending
    ensures Equipped(slot.(m := Settle(m, active, flow).0))
  {
  }

  lemma SyncStaysEquipped(slot: Slot, active: bool, db: T.Ledger, gaps: Gaps)
    requires SlotInv(slot, db) && TT.LedgerInv(db) && Equipped(slot)
    ensures Equipped(Sync(slot, active, db, gaps).0)
  {
    if InProof(slot) {
      var b := slot.binding.value;
      SyncLoopTeammate(slot.m, active, b.order, b.tasks, db, gaps);
      SyncLoopKeeps(slot.m, active, b.order, b, db, gaps);
      var (m, _, flow) := SyncLoop(slot.m, active, b.order, b.tasks, db, gaps);
      SettledStaysEquipped(slot, m, active, flow);
    } else if slot.m.revisionPending {
      RevisionStaysEquipped(slot, active, db, gaps);
    }
  }

  lemma VerdictStaysEquipped(slot: Slot, active: bool, op: MethodOp)
    requires MethodInv(slot.m) && Equipped(slot) && (op.StructuralVerdict? || op.DetailedVerdict?)
    ensures Equipped(RecordVerdict(slot, active, op).0)
  {
  }

  lemma SuppliedMaterialization(steps: seq<ProofStep>, order: seq<StepId>, ids: seq<T.TaskId>, db: T.Ledger, gaps: Gaps)
    requires WellFormedPlan(PlanOf(steps)) && IsTopological(GraphOf(PlanOf(steps)), order) && TT.LedgerInv(db)
    requires |ids| >= |order| && Fresh(ids, db) && Spared(ids, gaps)
    ensures Materialize(steps, order, ids, map[], db, gaps).2 == Returned
  {
    assert order[..0] == [] && order[0..] == order;
    MaterializeReturnsIff(steps, order, 0, ids, map[], db, gaps);
  }

  /** An accepted activation with such inputs returns. */
  lemma SuppliedActivation(slot: Slot, active: bool, plan: seq<StepPlan>, order: seq<StepId>, prover: string,
                           worktree: bool, ids: seq<T.TaskId>, db: T.Ledger, gaps: Gaps)
    requires TT.LedgerInv(db) && (WellFormedPlan(plan) ==> IsTopological(GraphOf(plan), order))
    requires worktree && prover != "" && |ids| >= |order| && Fresh(ids, db) && Spared(ids, gaps)
    ensures var (slot', _, outcome) := Activate(slot, active, plan, order, prover, worktree, ids, db, gaps);
      outcome == Returned || slot' == slot
  {
    var (planned, reply) := OnActive(slot.m, active, SetPlan(plan));
    if reply == Accepted {
      assert PlanOf(planned.steps) == plan;
      SuppliedMaterialization(planned.steps, order, ids, db, gaps);
    }
  }

  lemma SuppliedRegulation(slot: Slot, active: bool, action: Option<RegulatorAction>, ids: seq<T.TaskId>,
                           db: T.Ledger, gaps: Gaps)
    requires SlotInv(slot, db)
    requires action == Some(ReviseProof) ==> ids != [] && Fresh(ids, db) && Spared(ids, gaps)
    ensures var (slot', _, outcome) := RecordRegulation(slot, active, action, ids, db, gaps);
      outcome == Returned || slot' == slot
  {
    if action == Some(ReviseProof) {
      GapKeepsFresh(ids, db, gaps);
    }
  }

  lemma RegulationStaysEquipped(slot: Slot, active: bool, action: Option<RegulatorAction>, ids: seq<T.TaskId>,
                                db: T.Ledger, gaps: Gaps)
    requires Equipped(slot)
    requires var (slot', _, outcome) := RecordRegulation(slot, active, action, ids, db, gaps);
      outcome == Returned || slot' == slot
    ensures Equipped(RecordRegulation(slot, active, action, ids, db, gaps).0)
  {
  }

  lemma CallStaysEquipped(slot: Slot, active: bool, event: Event, db: T.Ledger)
    requires Legal(event) && OnKey(event) && SlotInv(slot, db) && TT.LedgerInv(db) && Equipped(slot)
    requires Supplied(db, event)
    ensures Equipped(CallMethod(slot, active, event, db).0)
  {
    match event
    case ActivateMethod(_, plan, order, prover, worktree, ids, gaps) =>
      SuppliedActivation(slot, active, plan, order, prover, worktree, ids, db, gaps);
      ActivateEquips(slot, active, plan, order, prover, worktree, ids, db, gaps);
    case SyncMethod(_, gaps) => SyncStaysEquipped(slot, active, db, gaps);
    case RegulateMethod(_, action, ids, gaps) =>
      SuppliedRegulation(slot, active, action, ids, db, gaps);
      RegulationStaysEquipped(slot, active, action, ids, db, gaps);
    case RecordMethodVerdict(_, op) => VerdictStaysEquipped(slot, active, op);
    case _ =>
  }

  lemma KeyStepStaysEquipped(sys: Sys, event: Event, k: Key)
    requires SysInv(sys) && Legal(event) && Smooth(sys, event) && AllEquipped(sys)
    requires OnKey(event) && KnownKey(sys, event.key) && KnownKey(sys, k)
    ensures Equipped(SlotOf(Step(sys, event), k))
  {
    var key := event.key;
    var active := ActiveRun(sys, key.run);
    CallKeeps(SlotOf(sys, key), active, event, sys.db);
    CallStaysEquipped(SlotOf(sys, key), active, event, sys.db);
    var (slot, db, _) := CallMethod(SlotOf(sys, key), active, event, sys.db);
    PutSlots(sys, key, slot, db, k);
  }

  lemma PutKnown(sys: Sys, event: Event, k: Key)
    requires SysInv(sys) && Legal(event) && OnKey(event) && KnownKey(sys, event.key)
    requires KnownKey(Step(sys, event), k)
    ensures KnownKey(sys, k)
  {
  }

  lemma RunCallStaysEquipped(sys: Sys, event: Event, k: Key)
    requires SysInv(sys) && Legal(event) && event.OnRun? && event.run in sys.runs
    requires AllEquipped(sys) && KnownKey(Step(sys, event), k)
    ensures Equipped(SlotOf(Step(sys, event), k))
  {
    RunCallSlots(sys, event.run, event.call, k);
  }

  lemma MethodStaysEquipped(sys: Sys, event: Event, k: Key)
    requires SysInv(sys) && Legal(event) && Smooth(sys, event) && AllEquipped(sys) && KnownKey(Step(sys, event), k)
    ensures Equipped(SlotOf(Step(sys, event), k))
  {
    if event.OnRun? && event.run in sys.runs {
      RunCallStaysEquipped(sys, event, k);
    } else if event.StartRun? {
      StartRunSlots(sys, event.run, k);
    } else if OnKey(event) && KnownKey(sys, event.key) {
      PutKnown(sys, event, k);
      KeyStepStaysEquipped(sys, event, k);
    } else {
      assert KnownKey(sys, k) && SlotOf(Step(sys, event), k) == SlotOf(sys, k);
    }
  }

  lemma StepStaysEquipped(sys: Sys, event: Event)
    requires SysInv(sys) && Legal(event) && Smooth(sys, event) && AllEquipped(sys)
    ensures AllEquipped(Step(sys, event))
  {
    forall k | KnownKey(Step(sys, event), k)
      ensures Equipped(SlotOf(Step(sys, event), k))
    {
      MethodStaysEquipped(sys, event, k);
    }
  }

  ghost predicate Syncable(sys: Sys, key: Key) {
    KnownKey(sys, key) && ActiveRun(sys, key.run) && SlotOf(sys, key).binding.Some?
  }

  lemma EquippedSyncs(slot: Slot, db: T.Ledger, gaps: Gaps)
    requires SlotInv(slot, db) && TT.LedgerInv(db) && Equipped(slot) && slot.binding.Some?
    ensures Sync(slot, true, db, gaps).2 == Raised <==> InProof(slot) && LosesRace(slot, db, gaps)
    ensures Quiet(gaps) ==> Sync(slot, true, db, gaps).2 == Returned
  {
    if InProof(slot) {
      EquippedSyncRaisesIff(slot, db, gaps);
      if Quiet(gaps) {
        QuietSyncReturns(slot, db, gaps);
      }
    } else if slot.m.revisionPending {
      GapKeeps(db, gaps);
    }
  }

  /**
   When every activation and revision is given fresh ids, and every activation its worktree, then whatever
   workers do between the reads of a sync, it raises exactly when it loses a race for a method in proof. It
   returns when no task is completed in between.
   */
  lemma {:induction false} SmoothSyncRaisesIff(events: seq<Event>, key: Key, gaps: Gaps)
    requires AllLegal(events) && AllSmooth(events)
    ensures AllEquipped(Reached(events))
    ensures Syncable(Reached(events), key) ==>
      var slot := SlotOf(Reached(events), key);
      var outcome := Sync(slot, true, Reached(events).db, gaps).2;
      && (outcome == Raised <==> InProof(slot) && LosesRace(slot, Reached(events).db, gaps))
      && (Quiet(gaps) ==> outcome == Returned)
    decreases |events|
  {
    var sys := Reached(events);
    AgreementEverywhere(events);
    if events != [] {
      var front := events[..|events| - 1];
      SmoothSyncRaisesIff(front, key, gaps);
      AgreementEverywhere(front);
      StepStaysEquipped(Reached(front), events[|events| - 1]);
    }
    if Syncable(sys, key) {
      EquippedSyncs(SlotOf(sys, key), sys.db, gaps);
    }
  }
}
