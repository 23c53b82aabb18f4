/** Why sync, verdicts and regulation keep the agreement. */
module SyncAgreement {
  import opened Prelude
  import opened StepPlans
  import opened WorkflowModel
  import opened WorkflowTheorems
  import opened OrchestrationModel
  import opened Agreement
  import T = TaskLedger
  import TT = TaskTheorems

  // ---------------------------------------------------------------- sync, with workers interleaved

  /** `m'` is `m` with the status of at most one step changed, nothing else. */
  ghost predicate OnlyStatus(m: Method, m': Method, i: nat)
    requires i < |m.steps|
  {
    m' == m || m' == WithStatus(m, i, StepInProgress) || m' == WithStatus(m, i, StepCompleted)
  }

  lemma SyncOneMoves(m: Method, active: bool, i: nat, status: T.TaskStatus)
    requires Unique(Ids(PlanOf(m.steps))) && i < |m.steps|
    ensures StepIndex(m.steps, m.steps[i].id) == Some(i)
    ensures var m' := SyncOne(m, active, m.steps[i].id, status).0;
      && OnlyStatus(m, m', i)
      && PlanOf(m'.steps) == PlanOf(m.steps)
      && (m'.steps[i].status == StepCompleted ==> m.steps[i].status == StepCompleted || status == T.Completed)
  {
    IndexOfStep(m.steps, i);
    StatusKeepsPlan(m, i, StepInProgress);
    StatusKeepsPlan(m, i, StepCompleted);
    var started := WithStatus(m, i, StepInProgress);
    IndexOfStep(started.steps, i);
    assert WithStatus(started, i, StepCompleted).steps == WithStatus(m, i, StepCompleted).steps;
  }

  lemma SyncOneInv(m: Method, active: bool, i: nat, status: T.TaskStatus)
    requires MethodInv(m) && Unique(Ids(PlanOf(m.steps))) && i < |m.steps|
    requires StepIndex(m.steps, m.steps[i].id).Some?
    ensures MethodInv(SyncOne(m, active, m.steps[i].id, status).0)
  {
    var id := m.steps[i].id;
    MethodOpKeeps(m, StartStep(id));
    MethodOpKeeps(m, CompleteStep(id));
    MethodOpKeeps(OnActive(m, active, StartStep(id)).0, CompleteStep(id));
  }

  lemma StatusKeepsBacked(steps: seq<ProofStep>, steps': seq<ProofStep>, i: nat, tasks: map<StepId, T.TaskId>,
                          db: T.Ledger)
    requires StepsBacked(steps, tasks, db) && i < |steps| == |steps'|
    requires steps'[i].id == steps[i].id && steps[i].id in tasks && tasks[steps[i].id] in db
    requires forall k :: 0 <= k < |steps| && k != i ==> steps'[k] == steps[k]
    requires steps'[i].status == StepCompleted ==>
      steps[i].status == StepCompleted || db[tasks[steps[i].id]].status == T.Completed
    ensures StepsBacked(steps', tasks, db)
  {
  }

  ghost predicate SameElsewhere(steps: seq<ProofStep>, steps': seq<ProofStep>, i: nat) {
    && i < |steps| == |steps'| && steps'[i].id == steps[i].id
    && forall k :: 0 <= k < |steps| && k != i ==> steps'[k] == steps[k]
  }

  lemma OnlyStatusElsewhere(m: Method, m': Method, i: nat)
    requires i < |m.steps| && OnlyStatus(m, m', i)
    ensures SameElsewhere(m.steps, m'.steps, i)
  {
  }

  lemma StatusKeepsBound(m: Method, m': Method, i: nat, b: Binding, db: T.Ledger)
    requires WellFormedPlan(PlanOf(m.steps)) && Bound(m, b, db)
    requires SameElsewhere(m.steps, m'.steps, i) && PlanOf(m'.steps) == PlanOf(m.steps)
    requires m.steps[i].id in b.tasks
    requires m'.steps[i].status == StepCompleted ==>
      m.steps[i].status == StepCompleted || db[b.tasks[m.steps[i].id]].status == T.Completed
    ensures Bound(m', b, db)
  {
    StatusKeepsBacked(m.steps, m'.steps, i, b.tasks, db);
  }

  ghost predicate Syncing(m: Method, b: Binding, db: T.Ledger) {
    && MethodInv(m) && m.stage == Proving && !m.revisionPending && Bound(m, b, db)
  }

  /** One turn of the loop, on the table as read. */
  lemma SyncOneKeeps(m: Method, active: bool, id: StepId, b: Binding, db: T.Ledger)
    requires Syncing(m, b, db) && id in b.tasks
    ensures StepIndex(m.steps, id).Some? && b.tasks[id] in db
    ensures Syncing(SyncOne(m, active, id, db[b.tasks[id]].status).0, b, db)
    ensures PlanOf(SyncOne(m, active, id, db[b.tasks[id]].status).0.steps) == PlanOf(m.steps)
  {
    var i := StepInGraph(m.steps, id);
    var status := db[b.tasks[id]].status;
    SyncOneMoves(m, active, i, status);
    SyncOneInv(m, active, i, status);
    OnlyStatusElsewhere(m, SyncOne(m, active, id, status).0, i);
    StatusKeepsBound(m, SyncOne(m, active, id, status).0, i, b, db);
  }

  lemma {:induction false} SyncLoopLedger(m: Method, active: bool, order: seq<StepId>, tasks: map<StepId, T.TaskId>,
                                          db: T.Ledger, gaps: Gaps)
    requires TT.LedgerInv(db)
    ensures var db' := SyncLoop(m, active, order, tasks, db, gaps).1; TT.LedgerInv(db') && TT.Evolves(db, db')
    decreases |order|
  {
    if order != [] && order[0] in tasks {
      var now := AfterGap(db, gaps);
      GapKeeps(db, gaps);
      var task := tasks[order[0]];
      if task in now && StepIndex(m.steps, order[0]).Some? && now[task].status !in {T.Failed, T.Cancelled} {
        var next := SyncOne(m, active, order[0], now[task].status).0;
        SyncLoopLedger(next, active, order[1..], tasks, now, Rest(gaps));
        TT.EvolvesTransitive(db, now, SyncLoop(next, active, order[1..], tasks, now, Rest(gaps)).1);
      }
    }
  }

  lemma FailKeeps(m: Method, active: bool)
    requires MethodInv(m) && m.stage == Proving
    ensures var (failed, reply) := OnActive(m, active, FailMethod);
      MethodInv(failed) && (if reply == Accepted then failed.stage == MethodFailed else failed == m)
  {
    MethodOpKeeps(m, FailMethod);
  }

  lemma GapKeepsSyncing(m: Method, b: Binding, db: T.Ledger, gaps: Gaps)
    requires Syncing(m, b, db) && TT.LedgerInv(db)
    ensures Syncing(m, b, AfterGap(db, gaps)) && TT.LedgerInv(AfterGap(db, gaps))
  {
    GapKeeps(db, gaps);
    BoundKeeps(m, b, db, AfterGap(db, gaps));
  }

  /** The loop keeps the agreement however it ends: finished, on a failed task, or by raising. */
  lemma {:induction false} SyncLoopKeeps(m: Method, active: bool, order: seq<StepId>, b: Binding,
                                         db: T.Ledger, gaps: Gaps)
    requires Syncing(m, b, db) && TT.LedgerInv(db)
    ensures var (m', db', flow) := SyncLoop(m, active, order, b.tasks, db, gaps);
      if flow == TaskFailed then MethodInv(m') && m'.stage == MethodFailed else Syncing(m', b, db')
    decreases |order|
  {
    if order != [] && order[0] in b.tasks {
      var now := AfterGap(db, gaps);
      GapKeepsSyncing(m, b, db, gaps);
      SyncOneKeeps(m, active, order[0], b, now);
      var status := now[b.tasks[order[0]]].status;
      if status in {T.Failed, T.Cancelled} {
        FailKeeps(m, active);
      } else {
        var (next, reply) := SyncOne(m, active, order[0], status);
        if reply == Accepted {
          SyncLoopKeeps(next, active, order[1..], b, now, Rest(gaps));
        }
      }
    }
  }

  lemma AllBackedDone(m: Method, b: Binding, issued: set<T.TaskId>, db: T.Ledger)
    requires WellFormedPlan(PlanOf(m.steps)) && Bound(m, b, db) && AllCompleted(m.steps)
    requires b.tasks.Values <= issued
    ensures forall t :: t in b.tasks.Values ==> t in db && db[t].status == T.Completed
  {
    forall t | t in b.tasks.Values
      ensures t in db && db[t].status == T.Completed
    {
      var s :| s in b.tasks && b.tasks[s] == t;
      var i := StepInGraph(m.steps, s);
    }
  }

  lemma OrphansKeep(m: Method, b: Binding, issued: set<T.TaskId>, db: T.Ledger, db': T.Ledger)
    requires NoOrphans(m, b, issued, db) && TT.Evolves(db, db') && issued <= db.Keys
    ensures NoOrphans(m, b, issued, db')
  {
  }

  /** A failed method owes nothing to the table. */
  lemma FailedSlot(slot: Slot, m: Method, db: T.Ledger)
    requires SlotInv(slot, db) && slot.binding.Some? && MethodInv(m) && m.stage == MethodFailed
    ensures SlotInv(slot.(m := m), db)
  {
  }

  lemma RevisedSlot(slot: Slot, db: T.Ledger)
    requires SlotInv(slot, db) && slot.binding.Some? && slot.m.revisionPending
    requires slot.binding.value.revisionTask.Some? && db[slot.binding.value.revisionTask.value].status == T.Completed
    ensures var b := slot.binding.value;
      SlotInv(slot.(m := ApplyMethod(slot.m, CompleteRevision).0, binding := Some(b.(revisionTask := None))), db)
  {
    MethodOpKeeps(slot.m, CompleteRevision);
    var b := slot.binding.value;
    assert Bound(ApplyMethod(slot.m, CompleteRevision).0, b.(revisionTask := None), db);
  }

  lemma FailedSync(slot: Slot, active: bool, db: T.Ledger)
    requires SlotInv(slot, db) && slot.binding.Some?
    ensures SlotInv(slot.(m := OnActive(slot.m, active, FailMethod).0), db)
  {
    if active && !Terminal(slot.m.stage) {
      MethodOpKeeps(slot.m, FailMethod);
      FailedSlot(slot, ApplyMethod(slot.m, FailMethod).0, db);
    } else {
      assert slot.(m := OnActive(slot.m, active, FailMethod).0) == slot;
    }
  }

  lemma SyncRevisionKeeps(slot: Slot, active: bool, db: T.Ledger, gaps: Gaps)
    requires SlotInv(slot, db) && TT.LedgerInv(db) && slot.binding.Some? && slot.m.revisionPending
    ensures var (slot', db', _) := SyncRevision(slot, active, db, gaps);
      SlotInv(slot', db') && TT.LedgerInv(db') && TT.Evolves(db, db')
  {
    var b := slot.binding.value;
    if b.revisionTask.Some? {
      var now := AfterGap(db, gaps);
      GapKeeps(db, gaps);
      WorkersKeep(slot, db, now);
      var status := now[b.revisionTask.value].status;
      if status in {T.Failed, T.Cancelled} {
        FailedSync(slot, active, now);
      } else if active && status == T.Completed {
        RevisedSlot(slot, now);
      }
    }
  }

  lemma SyncingSlot(slot: Slot, m: Method, db: T.Ledger, db': T.Ledger)
    requires SlotInv(slot, db) && slot.binding.Some? && TT.Evolves(db, db')
    requires slot.m.stage == Proving && !slot.m.revisionPending && Syncing(m, slot.binding.value, db')
    ensures SlotInv(slot.(m := m), db')
  {
    OrphansKeep(slot.m, slot.binding.value, slot.issued, db, db');
  }

  lemma SubmittedSlot(slot: Slot, db: T.Ledger)
    requires SlotInv(slot, db) && slot.binding.Some? && Syncing(slot.m, slot.binding.value, db)
    requires AllStepsCompleted(slot.m)
    ensures ApplyMethod(slot.m, SubmitStructural).1 == Accepted
    ensures SlotInv(slot.(m := ApplyMethod(slot.m, SubmitStructural).0), db)
  {
    MethodOpKeeps(slot.m, SubmitStructural);
    AllBackedDone(slot.m, slot.binding.value, slot.issued, db);
  }

  lemma SettleKeeps(slot: Slot, m: Method, active: bool, flow: Flow, db: T.Ledger)
    requires SlotInv(slot.(m := m), db) && slot.binding.Some?
    requires flow != TaskFailed ==> Syncing(m, slot.binding.value, db)
    ensures SlotInv(slot.(m := Settle(m, active, flow).0), db)
  {
    if active && flow == Finished && AllStepsCompleted(m) {
      SubmittedSlot(slot.(m := m), db);
      assert Settle(m, active, flow).0 == ApplyMethod(m, SubmitStructural).0;
    } else {
      assert Settle(m, active, flow).0 == m;
    }
  }

  lemma SyncProvingKeeps(slot: Slot, active: bool, db: T.Ledger, gaps: Gaps)
    requires SlotInv(slot, db) && TT.LedgerInv(db)
    requires slot.binding.Some? && slot.m.stage == Proving && !slot.m.revisionPending
    ensures var (slot', db', _) := SyncProving(slot, active, db, gaps);
      SlotInv(slot', db') && TT.LedgerInv(db') && TT.Evolves(db, db')
  {
    var b := slot.binding.value;
    var (m, db', flow) := SyncLoop(slot.m, active, b.order, b.tasks, db, gaps);
    SyncLoopKeeps(slot.m, active, b.order, b, db, gaps);
    SyncLoopLedger(slot.m, active, b.order, b.tasks, db, gaps);
    if flow == TaskFailed {
      WorkersKeep(slot, db, db');
      FailedSlot(slot, m, db');
    } else {
      SyncingSlot(slot, m, db, db');
    }
    SettleKeeps(slot, m, active, flow, db');
  }

  /** Sync, with any worker steps between its reads and whether or not it raises, keeps the agreement. */
  lemma SyncKeeps(slot: Slot, active: bool, db: T.Ledger, gaps: Gaps)
    requires SlotInv(slot, db) && TT.LedgerInv(db)
    ensures var (slot', db', _) := Sync(slot, active, db, gaps);
      SlotInv(slot', db') && TT.LedgerInv(db') && TT.Evolves(db, db')
  {
    if slot.binding.Some? && slot.m.stage == Proving {
      if slot.m.revisionPending {
        SyncRevisionKeeps(slot, active, db, gaps);
      } else {
        SyncProvingKeeps(slot, active, db, gaps);
      }
    }
  }

  // ---------------------------------------------------------------- verdicts and regulation

  lemma VerdictKeeps(slot: Slot, active: bool, op: MethodOp, db: T.Ledger)
    requires SlotInv(slot, db) && (op.StructuralVerdict? || op.DetailedVerdict?)
    ensures SlotInv(RecordVerdict(slot, active, op).0, db)
    ensures RecordVerdict(slot, active, op).1 == Raised <==> OnActive(slot.m, active, op).1 != Accepted
  {
    MethodOpKeeps(slot.m, op);
  }

  /** Starting over leaves no task behind: in regulation all of them are completed. */
  lemma ReplannedSlot(slot: Slot, action: RegulatorAction, db: T.Ledger)
    requires SlotInv(slot, db) && slot.binding.Some? && slot.m.stage == Regulation && action != ReviseProof
    ensures var b := slot.binding.value.(tasks := map[], order := [], revisionTask := None);
      SlotInv(slot.(m := ApplyRegulate(slot.m, action), binding := Some(b)), db)
  {
    MethodOpKeeps(slot.m, Regulate(Some(action)));
  }

  lemma RevisingSlot(slot: Slot, db: T.Ledger)
    requires SlotInv(slot, db) && slot.binding.Some? && slot.m.stage == Regulation
    ensures SlotInv(slot.(m := ApplyRegulate(slot.m, ReviseProof)), db)
  {
    MethodOpKeeps(slot.m, Regulate(Some(ReviseProof)));
    assert Bound(ApplyRegulate(slot.m, ReviseProof), slot.binding.value, db);
  }

  lemma RevisionTaskSlot(slot: Slot, id: T.TaskId, db: T.Ledger)
    requires SlotInv(slot, db) && slot.binding.Some? && slot.m.revisionPending && id !in db
    requires slot.binding.value.revisionTask.None?
    ensures var next := T.Apply(db, T.Create(id, [], None)).0;
      SlotInv(Slot(slot.m, Some(slot.binding.value.(revisionTask := Some(id))), slot.issued + {id}), next)
  {
    var next := T.Apply(db, T.Create(id, [], None)).0;
    assert Bound(slot.m, slot.binding.value, next) by {
      MirrorsKeeps(GraphOf(PlanOf(slot.m.steps)), slot.binding.value.tasks, db, next);
    }
    assert Bound(slot.m, slot.binding.value.(revisionTask := Some(id)), next);
  }

  lemma ReviseKeeps(slot: Slot, ids: seq<T.TaskId>, db: T.Ledger, gaps: Gaps)
    requires SlotInv(slot, db) && TT.LedgerInv(db) && slot.binding.Some? && slot.m.stage == Regulation
    ensures var (slot', db', outcome) := RecordRegulation(slot, true, Some(ReviseProof), ids, db, gaps);
      && SlotInv(slot', db') && TT.LedgerInv(db') && TT.Evolves(db, db')
      && (outcome == Returned ==> slot'.binding.Some? && slot'.binding.value.revisionTask.Some?)
  {
    var now := AfterGap(db, gaps);
    var revising := slot.(m := ApplyRegulate(slot.m, ReviseProof));
    GapKeeps(db, gaps);
    WorkersKeep(slot, db, now);
    RevisingSlot(slot, now);
    if ids != [] && ids[0] !in now {
      var op := T.Create(ids[0], [], None);
      TT.StepKeeps(now, op);
      TT.EvolvesTransitive(db, now, T.Apply(now, op).0);
      RevisionTaskSlot(revising, ids[0], now);
    } else {
      assert RecordRegulation(slot, true, Some(ReviseProof), ids, db, gaps) == (revising, now, Raised);
    }
  }

  lemma ReplanKeeps(slot: Slot, action: RegulatorAction, ids: seq<T.TaskId>, db: T.Ledger, gaps: Gaps)
    requires SlotInv(slot, db) && slot.binding.Some? && slot.m.stage == Regulation && action != ReviseProof
    ensures var (slot', db', _) := RecordRegulation(slot, true, Some(action), ids, db, gaps);
      SlotInv(slot', db') && db' == db && !slot'.m.revisionPending
  {
    var b := slot.binding.value.(tasks := map[], order := [], revisionTask := None);
    assert RecordRegulation(slot, true, Some(action), ids, db, gaps)
           == (slot.(m := ApplyRegulate(slot.m, action), binding := Some(b)), db, Returned);
    ReplannedSlot(slot, action, db);
  }

  lemma RefusedRegulation(slot: Slot, active: bool, action: Option<RegulatorAction>, ids: seq<T.TaskId>,
                          db: T.Ledger, gaps: Gaps)
    requires SlotInv(slot, db) && !(active && slot.m.stage == Regulation && action.Some?)
    ensures RecordRegulation(slot, active, action, ids, db, gaps) == (slot, db, Raised)
  {
  }

  lemma RegulationKeeps(slot: Slot, active: bool, action: Option<RegulatorAction>, ids: seq<T.TaskId>,
                        db: T.Ledger, gaps: Gaps)
    requires SlotInv(slot, db) && TT.LedgerInv(db)
    ensures var (slot', db', outcome) := RecordRegulation(slot, active, action, ids, db, gaps);
      && SlotInv(slot', db') && TT.LedgerInv(db') && TT.Evolves(db, db')
      && (outcome == Returned && slot'.m.revisionPending ==> slot'.binding.value.revisionTask.Some?)
  {
    if !(active && slot.m.stage == Regulation && action.Some?) {
      RefusedRegulation(slot, active, action, ids, db, gaps);
    } else if action.value == ReviseProof {
      ReviseKeeps(slot, ids, db, gaps);
    } else {
      ReplanKeeps(slot, action.value, ids, db, gaps);
    }
  }
}
