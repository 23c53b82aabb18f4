/**
 What no later call repairs: a revision whose task was lost, and a method in proof that misses a task or its
 teammate. Without a restart both stay, except that a failed task may still fail the method.
 */
module Permanence {
  import opened Prelude
  import opened StepPlans
  import opened WorkflowModel
  import opened WorkflowTheorems
  import opened OrchestrationModel
  import opened Agreement
  import opened SyncAgreement
  import opened SyncTheorems
  import opened InterleavedSync
  import opened SystemRuns
  import opened SystemProgress
  import T = TaskLedger
  import TT = TaskTheorems

  // ---------------------------------------------------------------- runs and what follows them

  lemma SplitLast(events: seq<Event>, more: seq<Event>)
    requires more != []
    ensures events + more == events + more[..|more| - 1] + [more[|more| - 1]]
  {
  }

  lemma ReachedLast(front: seq<Event>, last: Event)
    requires AllLegal(front + [last])
    ensures AllLegal(front) && Legal(last) && Reached(front + [last]) == Step(Reached(front), last)
  {
    assert (front + [last])[..|front|] == front && (front + [last])[|front|] == last;
    assert forall i :: 0 <= i < |front| ==> front[i] == (front + [last])[i];
  }

  lemma AppendLast(events: seq<Event>, more: seq<Event>)
    requires more != [] && AllLegal(events + more)
    ensures AllLegal(events + more[..|more| - 1]) && Legal(more[|more| - 1])
    ensures Reached(events + more) == Step(Reached(events + more[..|more| - 1]), more[|more| - 1])
  {
    SplitLast(events, more);
    ReachedLast(events + more[..|more| - 1], more[|more| - 1]);
  }

  /** One step, seen from one method: a call on it, or nothing. */
  lemma SlotMoves(sys: Sys, event: Event, key: Key)
    requires SysInv(sys) && Legal(event) && KnownKey(sys, key)
    ensures KnownKey(Step(sys, event), key)
    ensures SlotOf(Step(sys, event), key) == if OnKey(event) && event.key == key
      then CallMethod(SlotOf(sys, key), ActiveRun(sys, key.run), event, sys.db).0 else SlotOf(sys, key)
  {
    if event.OnRun? && event.run in sys.runs {
      RunCallKnown(sys, event.run, event.call, key);
      RunCallSlots(sys, event.run, event.call, key);
    } else if event.StartRun? {
      StartRunSlots(sys, event.run, key);
    } else if OnKey(event) && KnownKey(sys, event.key) {
      CallMovesSlot(sys, event, key);
    } else {
      assert Step(sys, event).runs == sys.runs;
    }
  }

  lemma CallMovesSlot(sys: Sys, event: Event, key: Key)
    requires SysInv(sys) && Legal(event) && OnKey(event) && KnownKey(sys, event.key) && KnownKey(sys, key)
    ensures KnownKey(Step(sys, event), key)
    ensures SlotOf(Step(sys, event), key) == if event.key == key
      then CallMethod(SlotOf(sys, key), ActiveRun(sys, key.run), event, sys.db).0 else SlotOf(sys, key)
  {
    assert SlotInv(SlotOf(sys, event.key), sys.db);
    var (slot, db, _) := CallMethod(SlotOf(sys, event.key), ActiveRun(sys, event.key.run), event, sys.db);
    CallKeeps(SlotOf(sys, event.key), ActiveRun(sys, event.key.run), event, sys.db);
    PutSlots(sys, event.key, slot, db, key);
  }

  // ---------------------------------------------------------------- a lost revision

  ghost predicate LostRevision(slot: Slot) {
    slot.m.revisionPending && slot.m.stage == Proving && slot.binding.Some? && slot.binding.value.revisionTask.None?
  }

  lemma LostRevisionCall(slot: Slot, active: bool, event: Event, db: T.Ledger)
    requires LostRevision(slot) && Legal(event) && OnKey(event)
    ensures CallMethod(slot, active, event, db).0 == slot
    ensures event.SyncMethod? ==> CallMethod(slot, active, event, db).2 == Raised
  {
  }

  /** A revision without a task: the method never moves again, and every sync of it raises. */
  lemma {:induction false} LostRevisionIsForever(events: seq<Event>, more: seq<Event>, key: Key, gaps: Gaps)
    requires AllLegal(events) && AllLegal(events + more) && KnownKey(Reached(events), key)
    requires LostRevision(SlotOf(Reached(events), key))
    ensures KnownKey(Reached(events + more), key)
    ensures SlotOf(Reached(events + more), key) == SlotOf(Reached(events), key)
    ensures var sys := Reached(events + more);
      Sync(SlotOf(sys, key), ActiveRun(sys, key.run), sys.db, gaps).2 == Raised
    decreases |more|
  {
    if more == [] {
      assert events + more == events;
    } else {
      var front, last := more[..|more| - 1], more[|more| - 1];
      AppendLast(events, more);
      LostRevisionIsForever(events, front, key, gaps);
      AgreementEverywhere(events + front);
      var sys := Reached(events + front);
      SlotMoves(sys, last, key);
      if OnKey(last) {
        LostRevisionCall(SlotOf(sys, key), ActiveRun(sys, key.run), last, sys.db);
      }
    }
  }

  // ---------------------------------------------------------------- a method that misses something

  /** In proof without a task for some step, or without a teammate. */
  ghost predicate Crippled(slot: Slot) {
    InProof(slot) && (!Materialized(slot) || slot.m.teammate.None?)
  }

  ghost predicate CrippledOrFailed(slot: Slot) {
    slot.binding.Some? && (Crippled(slot) || slot.m.stage == MethodFailed)
  }

  lemma UnboundIsPending(m: Method, b: Binding, db: T.Ledger, s: StepId)
    requires Syncing(m, b, db) && s in Elements(b.order) && s !in b.tasks
    ensures !AllStepsCompleted(m)
  {
    var i := StepInGraph(m.steps, s);
    assert m.steps[i].status == StepPending;
  }

  /** A crippled method cannot have all its steps completed. */
  lemma CrippledIsUnfinished(m: Method, b: Binding, db: T.Ledger)
    requires Syncing(m, b, db) && (b.tasks.Keys != Elements(b.order) || m.teammate.None?)
    ensures !AllStepsCompleted(m)
  {
    if b.tasks.Keys != Elements(b.order) {
      var s :| s in Elements(b.order) && s !in b.tasks;
      UnboundIsPending(m, b, db, s);
    } else {
      assert PlanOf(m.steps) != [];
      assert m.steps[0].status == StepPending;
    }
  }

  lemma CrippledSettles(slot: Slot, m: Method, active: bool, flow: Flow)
    requires Crippled(slot) && m.teammate == slot.m.teammate
    requires if flow == TaskFailed then m.stage == MethodFailed
      else m.stage == Proving && !m.revisionPending && !AllStepsCompleted(m)
    ensures CrippledOrFailed(slot.(m := Settle(m, active, flow).0))
  {
  }

  lemma CrippledSync(slot: Slot, active: bool, db: T.Ledger, gaps: Gaps)
    requires SlotInv(slot, db) && TT.LedgerInv(db) && Crippled(slot)
    ensures CrippledOrFailed(Sync(slot, active, db, gaps).0)
  {
    var b := slot.binding.value;
    SyncOfProof(slot, active, db, gaps);
    SyncLoopKeeps(slot.m, active, b.order, b, db, gaps);
    SyncLoopTeammate(slot.m, active, b.order, b.tasks, db, gaps);
    var (m, db', flow) := SyncLoop(slot.m, active, b.order, b.tasks, db, gaps);
    if flow != TaskFailed {
      CrippledIsUnfinished(m, b, db');
    }
    CrippledSettles(slot, m, active, flow);
  }

  /** A call other than sync leaves it alone. */
  lemma CrippledStays(slot: Slot, active: bool, event: Event, db: T.Ledger)
    requires Legal(event) && OnKey(event) && !event.SyncMethod? && CrippledOrFailed(slot)
    ensures CallMethod(slot, active, event, db).0 == slot
  {
  }

  lemma FailedSyncStays(slot: Slot, active: bool, db: T.Ledger, gaps: Gaps)
    requires slot.binding.Some? && slot.m.stage == MethodFailed
    ensures Sync(slot, active, db, gaps).0 == slot
  {
  }

  lemma CrippledCall(slot: Slot, active: bool, event: Event, db: T.Ledger)
    requires Legal(event) && OnKey(event) && SlotInv(slot, db) && TT.LedgerInv(db) && CrippledOrFailed(slot)
    ensures CrippledOrFailed(CallMethod(slot, active, event, db).0)
  {
    if !event.SyncMethod? {
      CrippledStays(slot, active, event, db);
    } else if Crippled(slot) {
      CrippledSync(slot, active, db, event.gaps);
    } else {
      FailedSyncStays(slot, active, db, event.gaps);
    }
  }

  /** No call gives the method what it misses: it never reaches verification. */
  lemma {:induction false} CrippledIsForever(events: seq<Event>, more: seq<Event>, key: Key)
    requires AllLegal(events) && AllLegal(events + more) && KnownKey(Reached(events), key)
    requires CrippledOrFailed(SlotOf(Reached(events), key))
    ensures KnownKey(Reached(events + more), key) && CrippledOrFailed(SlotOf(Reached(events + more), key))
    decreases |more|
  {
    if more == [] {
      assert events + more == events;
    } else {
      var front, last := more[..|more| - 1], more[|more| - 1];
      AppendLast(events, more);
      CrippledIsForever(events, front, key);
      AgreementEverywhere(events + front);
      var sys := Reached(events + front);
      SlotMoves(sys, last, key);
      if OnKey(last) {
        assert SlotInv(SlotOf(sys, key), sys.db);
        CrippledCall(SlotOf(sys, key), ActiveRun(sys, key.run), last, sys.db);
      }
    }
  }

  lemma {:induction false} FinishedIsBound(m: Method, active: bool, order: seq<StepId>, tasks: map<StepId, T.TaskId>,
                                           db: T.Ledger, gaps: Gaps)
    ensures SyncLoop(m, active, order, tasks, db, gaps).2 == Finished ==> Elements(order) <= tasks.Keys
    decreases |order|
  {
    if order != [] && order[0] in tasks {
      var now := AfterGap(db, gaps);
      if tasks[order[0]] in now && StepIndex(m.steps, order[0]).Some? {
        var next := SyncOne(m, active, order[0], now[tasks[order[0]]].status).0;
        FinishedIsBound(next, active, order[1..], tasks, now, Rest(gaps));
        assert order == [order[0]] + order[1..];
      }
    }
  }

  lemma BoundInOrder(m: Method, b: Binding, db: T.Ledger)
    requires Syncing(m, b, db)
    ensures b.tasks.Keys <= Elements(b.order)
  {
  }

  /** A missing task lets no sync return, but for one that fails the method. */
  lemma MissingTaskRaises(slot: Slot, active: bool, db: T.Ledger, gaps: Gaps)
    requires SlotInv(slot, db) && TT.LedgerInv(db) && InProof(slot) && !Materialized(slot)
    ensures var (slot', _, outcome) := Sync(slot, active, db, gaps);
      outcome == Raised || slot'.m.stage == MethodFailed
  {
    var b := slot.binding.value;
    SyncLoopKeeps(slot.m, active, b.order, b, db, gaps);
    FinishedIsBound(slot.m, active, b.order, b.tasks, db, gaps);
    BoundInOrder(slot.m, b, db);
    SyncOfProof(slot, active, db, gaps);
  }

  // ---------------------------------------------------------------- a proof is never left finished

  /** A method in proof has a step that is not completed. */
  ghost predicate Unfinished(m: Method) {
    m.stage == Proving && !m.revisionPending ==> !AllStepsCompleted(m)
  }

  lemma RefusedIsPending(m: Method, i: nat, status: T.TaskStatus)
    requires m.stage == Proving && i < |m.steps| && StepIndex(m.steps, m.steps[i].id) == Some(i)
    requires Unique(Ids(PlanOf(m.steps)))
    requires SyncOne(m, true, m.steps[i].id, status).1 != Accepted
    ensures SyncOne(m, true, m.steps[i].id, status).0 == m && m.steps[i].status == StepPending
  {
    var started := WithStatus(m, i, StepInProgress);
    StatusKeepsPlan(m, i, StepInProgress);
    IndexOfStep(started.steps, i);
  }

  /** Where a loop raises in an active run, its step is not completed. */
  lemma {:induction false} RaisingLeavesWork(m: Method, b: Binding, db: T.Ledger, gaps: Gaps, k: nat)
    requires Syncing(m, b, db) && TT.LedgerInv(db) && k <= |b.order|
    ensures var (m', _, flow) := SyncLoop(m, true, b.order[k..], b.tasks, db, gaps);
      flow == SyncError ==> !AllStepsCompleted(m')
    decreases |b.order| - k
  {
    if k < |b.order| {
      var now := AfterGap(db, gaps);
      GapKeepsSyncing(m, b, db, gaps);
      StepIsThere(m, b, now, k);
      LoopHead(m, true, b, db, gaps, k);
      if b.order[k] !in b.tasks {
        assert b.order[k] in Elements(b.order);
        UnboundIsPending(m, b, now, b.order[k]);
      } else if !Broken(b, now, b.order[k]) {
        TurnLeavesWork(m, b, now, k);
        var (next, reply) := SyncOne(m, true, b.order[k], now[b.tasks[b.order[k]]].status);
        if reply == Accepted {
          RaisingLeavesWork(next, b, now, Rest(gaps), k + 1);
        }
      }
    }
  }

  lemma TurnLeavesWork(m: Method, b: Binding, now: T.Ledger, k: nat)
    requires Syncing(m, b, now) && k < |b.order| && b.order[k] in b.tasks
    ensures StepIndex(m.steps, b.order[k]).Some? && b.tasks[b.order[k]] in now
    ensures var (next, reply) := SyncOne(m, true, b.order[k], now[b.tasks[b.order[k]]].status);
      Syncing(next, b, now) && (reply != Accepted ==> !AllStepsCompleted(next))
  {
    StepIsThere(m, b, now, k);
    var i := StepIndex(m.steps, b.order[k]).value;
    SyncOneKeeps(m, true, b.order[k], b, now);
    if SyncOne(m, true, b.order[k], now[b.tasks[b.order[k]]].status).1 != Accepted {
      RefusedIsPending(m, i, now[b.tasks[b.order[k]]].status);
    }
  }

  lemma UnfinishedSettles(m: Method, active: bool, flow: Flow)
    requires flow == TaskFailed ==> m.stage == MethodFailed
    requires flow == SyncError ==> !AllStepsCompleted(m)
    requires flow == Finished && !active ==> !AllStepsCompleted(m)
    ensures Unfinished(Settle(m, active, flow).0)
  {
  }

  lemma SyncStaysUnfinished(slot: Slot, active: bool, db: T.Ledger, gaps: Gaps)
    requires SlotInv(slot, db) && TT.LedgerInv(db) && InProof(slot) && Unfinished(slot.m)
    ensures Unfinished(Sync(slot, active, db, gaps).0.m)
  {
    var b := slot.binding.value;
    assert b.order[0..] == b.order;
    SyncOfProof(slot, active, db, gaps);
    SyncLoopKeeps(slot.m, active, b.order, b, db, gaps);
    if active {
      RaisingLeavesWork(slot.m, b, db, gaps, 0);
    } else {
      InactiveLoop(slot.m, b.order, b.tasks, db, gaps);
    }
    var (m, _, flow) := SyncLoop(slot.m, active, b.order, b.tasks, db, gaps);
    UnfinishedSettles(m, active, flow);
  }

  lemma ActivationStaysUnfinished(slot: Slot, active: bool, event: Event, db: T.Ledger)
    requires event.ActivateMethod? && Legal(event) && Unfinished(slot.m)
    ensures Unfinished(CallMethod(slot, active, event, db).0.m)
  {
    var (planned, reply) := OnActive(slot.m, active, SetPlan(event.plan));
    if reply == Accepted {
      assert planned.steps[0].status == StepPending;
    }
  }

  /** A call that is not a sync of a method in proof enters a proof only with a fresh plan. */
  lemma OtherCallStaysUnfinished(slot: Slot, active: bool, event: Event, db: T.Ledger)
    requires Legal(event) && OnKey(event) && Unfinished(slot.m) && !(event.SyncMethod? && InProof(slot))
    requires slot.m.stage == Proving && !slot.m.revisionPending ==> slot.binding.Some?
    ensures Unfinished(CallMethod(slot, active, event, db).0.m)
  {
    if event.ActivateMethod? {
      ActivationStaysUnfinished(slot, active, event, db);
    }
  }

  lemma CallStaysUnfinished(slot: Slot, active: bool, event: Event, db: T.Ledger)
    requires Legal(event) && OnKey(event) && SlotInv(slot, db) && TT.LedgerInv(db) && Unfinished(slot.m)
    ensures Unfinished(CallMethod(slot, active, event, db).0.m)
  {
    if event.SyncMethod? && InProof(slot) {
      SyncStaysUnfinished(slot, active, db, event.gaps);
    } else {
      OtherCallStaysUnfinished(slot, active, event, db);
    }
  }

  lemma StepStaysUnfinished(sys: Sys, event: Event, key: Key)
    requires SysInv(sys) && Legal(event) && KnownKey(Step(sys, event), key)
    requires KnownKey(sys, key) ==> Unfinished(SlotOf(sys, key).m)
    ensures Unfinished(SlotOf(Step(sys, event), key).m)
  {
    if KnownKey(sys, key) {
      SlotMoves(sys, event, key);
      if OnKey(event) && event.key == key {
        assert SlotInv(SlotOf(sys, key), sys.db);
        CallStaysUnfinished(SlotOf(sys, key), ActiveRun(sys, key.run), event, sys.db);
      }
    } else {
      BornInDecomposition(sys, event, key);
    }
  }

  lemma BornInDecomposition(sys: Sys, event: Event, key: Key)
    requires SysInv(sys) && Legal(event) && KnownKey(Step(sys, event), key) && !KnownKey(sys, key)
    ensures SlotOf(Step(sys, event), key).m.stage == Decomposition
  {
    if event.OnRun? && event.run in sys.runs {
      RunCallSlots(sys, event.run, event.call, key);
    } else if event.StartRun? {
      StartRunSlots(sys, event.run, key);
    } else if OnKey(event) && KnownKey(sys, event.key) {
      PutKnown(sys, event, key);
    }
  }

  /** In every reachable state a method in proof has work left: its last completion takes it to verification. */
  lemma {:induction false} ProofIsUnfinished(events: seq<Event>, key: Key)
    requires AllLegal(events) && KnownKey(Reached(events), key)
    ensures Unfinished(SlotOf(Reached(events), key).m)
    decreases |events|
  {
    if events != [] {
      var front := events[..|events| - 1];
      AgreementEverywhere(front);
      if KnownKey(Reached(front), key) {
        ProofIsUnfinished(front, key);
      }
      StepStaysUnfinished(Reached(front), events[|events| - 1], key);
    }
  }
}
