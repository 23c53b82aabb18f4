/**
 The whole system: many runs with their methods and bindings, one task table, workers acting at any
 moment. Every theorem here is about every legal sequence of events.
 */
module SystemRuns {
  import opened Prelude
  import opened StepPlans
  import opened WorkflowModel
  import opened WorkflowTheorems
  import opened OrchestrationModel
  import opened Agreement
  import opened ActivationAgreement
  import opened SyncAgreement
  import opened SyncTheorems
  import T = TaskLedger
  import TT = TaskTheorems

  datatype Key = Key(run: RunId, id: MethodId)

  datatype Sys = Sys(
    runs: map<RunId, Run>,
    bindings: map<Key, Binding>,
    issued: map<Key, set<T.TaskId>>,
    db: T.Ledger)

  datatype Event =
    | Worker(op: T.TaskOp)
    | StartRun(run: RunId)
    | OnRun(run: RunId, call: RunOp)
    | ActivateMethod(key: Key, plan: seq<StepPlan>, order: seq<StepId>, prover: string, worktree: bool,
                     ids: seq<T.TaskId>, gaps: Gaps)
    | SyncMethod(key: Key, gaps: Gaps)
    | RecordMethodVerdict(key: Key, verdict: MethodOp)
    | RegulateMethod(key: Key, action: Option<RegulatorAction>, ids: seq<T.TaskId>, gaps: Gaps)

  /**
   The order an activation uses is one that the topological sort could return; run-level calls are
   those the orchestrator passes straight to the coordinator.
   */
  ghost predicate Legal(event: Event) {
    match event
    case ActivateMethod(_, plan, order, _, _, _, _) => WellFormedPlan(plan) ==> IsTopological(GraphOf(plan), order)
    case OnRun(_, op) => !op.OnMethod?
    case RecordMethodVerdict(_, op) => op.StructuralVerdict? || op.DetailedVerdict?
    case _ => true
  }

  const EMPTY_SYS := Sys(map[], map[], map[], map[])

  ghost predicate KnownKey(sys: Sys, key: Key) {
    key.run in sys.runs && Known(sys.runs[key.run], key.id)
  }

  ghost function SlotOf(sys: Sys, key: Key): Slot
    requires KnownKey(sys, key)
  {
    Slot(MethodOf(sys.runs[key.run], key.id),
         if key in sys.bindings then Some(sys.bindings[key]) else None,
         if key in sys.issued then sys.issued[key] else {})
  }

  ghost predicate ActiveRun(sys: Sys, run: RunId) {
    run in sys.runs && sys.runs[run].stage == MethodsActive
  }

  ghost function Put(sys: Sys, key: Key, slot: Slot, db: T.Ledger): Sys
    requires KnownKey(sys, key)
  {
    Sys(sys.runs[key.run := WithMethod(sys.runs[key.run], key.id, slot.m)],
        if slot.binding.Some? then sys.bindings[key := slot.binding.value] else sys.bindings,
        sys.issued[key := slot.issued],
        db)
  }

  /** What a call on one method does to its slot and to the table; unknown methods raise at once. */
  ghost function CallMethod(slot: Slot, active: bool, event: Event, db: T.Ledger): (Slot, T.Ledger, Outcome)
    requires Legal(event)
  {
    match event
    case ActivateMethod(_, plan, order, prover, worktree, ids, gaps) =>
      Activate(slot, active, plan, order, prover, worktree, ids, db, gaps)
    case SyncMethod(_, gaps) => Sync(slot, active, db, gaps)
    case RecordMethodVerdict(_, op) => var (s, outcome) := RecordVerdict(slot, active, op); (s, db, outcome)
    case RegulateMethod(_, action, ids, gaps) => RecordRegulation(slot, active, action, ids, db, gaps)
    case _ => (slot, db, Raised)
  }

  ghost predicate OnKey(event: Event) {
    event.ActivateMethod? || event.SyncMethod? || event.RecordMethodVerdict? || event.RegulateMethod?
  }

  ghost function Step(sys: Sys, event: Event): Sys
    requires Legal(event)
  {
    match event
    case Worker(op) => sys.(db := T.Apply(sys.db, op).0)
    case StartRun(run) => if run in sys.runs then sys else sys.(runs := sys.runs[run := NEW_RUN])
    case OnRun(run, op) =>
      if run in sys.runs then sys.(runs := sys.runs[run := WorkflowModel.Apply(sys.runs[run], op).0]) else sys
    case _ =>
      if !KnownKey(sys, event.key) then sys
      else
        var (slot, db, _) := CallMethod(SlotOf(sys, event.key), ActiveRun(sys, event.key.run), event, sys.db);
        Put(sys, event.key, slot, db)
  }

  ghost predicate AllLegal(events: seq<Event>) {
    forall i :: 0 <= i < |events| ==> Legal(events[i])
  }

  ghost function Reached(events: seq<Event>): Sys
    requires AllLegal(events)
    decreases |events|
  {
    if events == [] then EMPTY_SYS
    else Step(Reached(events[..|events| - 1]), events[|events| - 1])
  }

  // ---------------------------------------------------------------- the system invariant

  ghost predicate SysInv(sys: Sys) {
    && TT.LedgerInv(sys.db)
    && RunsInv(sys.runs)
    && Registered(sys)
    && SlotsInv(sys)
  }

  ghost predicate RunsInv(runs: map<RunId, Run>) {
    forall run :: run in runs ==> RunInv(runs[run])
  }

  ghost predicate Registered(sys: Sys) {
    forall key :: key in sys.bindings || key in sys.issued ==> KnownKey(sys, key)
  }

  ghost predicate SlotsInv(sys: Sys) {
    forall key :: KnownKey(sys, key) ==> SlotInv(SlotOf(sys, key), sys.db)
  }

  ghost predicate CallKept(slot: Slot, db: T.Ledger, slot': Slot, db': T.Ledger) {
    && SlotInv(slot', db') && TT.LedgerInv(db') && TT.Evolves(db, db')
    && (slot.binding.Some? ==> slot'.binding.Some?)
  }

  lemma ActivationKept(slot: Slot, active: bool, event: Event, db: T.Ledger)
    requires Legal(event) && event.ActivateMethod? && SlotInv(slot, db) && TT.LedgerInv(db)
    ensures var (slot', db', _) := CallMethod(slot, active, event, db); CallKept(slot, db, slot', db')
  {
    ActivateKeeps(slot, active, event.plan, event.order, event.prover, event.worktree, event.ids, db, event.gaps);
  }

  lemma CallKeeps(slot: Slot, active: bool, event: Event, db: T.Ledger)
    requires Legal(event) && OnKey(event) && SlotInv(slot, db) && TT.LedgerInv(db)
    ensures var (slot', db', _) := CallMethod(slot, active, event, db); CallKept(slot, db, slot', db')
  {
    match event
    case ActivateMethod(_, _, _, _, _, _, _) => ActivationKept(slot, active, event, db);
    case SyncMethod(_, gaps) => SyncKeeps(slot, active, db, gaps);
    case RecordMethodVerdict(_, op) => VerdictKeeps(slot, active, op, db);
    case RegulateMethod(_, action, ids, gaps) => RegulationKeeps(slot, active, action, ids, db, gaps);
    case _ =>
  }

  /** While a run is not active, no call changes its methods. */
  lemma InactiveCall(slot: Slot, event: Event, db: T.Ledger)
    requires Legal(event) && OnKey(event)
    ensures CallMethod(slot, false, event, db).0.m == slot.m
  {
    if event.SyncMethod? && slot.binding.Some? {
      InactiveLoop(slot.m, slot.binding.value.order, slot.binding.value.tasks, db, event.gaps);
    }
  }

  lemma RunKeeps(run: Run, id: MethodId, m: Method)
    requires RunInv(run) && Known(run, id) && MethodInv(m)
    requires run.stage == MethodsActive || m == MethodOf(run, id)
    ensures RunInv(WithMethod(run, id, m))
  {
    if run.stage != MethodsActive {
      assert WithMethod(run, id, m) == run;
    }
  }

  /** Writing one slot back leaves every other slot as it was. */
  lemma PutSlots(sys: Sys, key: Key, slot: Slot, db: T.Ledger, k: Key)
    requires KnownKey(sys, key) && (SlotOf(sys, key).binding.Some? ==> slot.binding.Some?)
    ensures KnownKey(Put(sys, key, slot, db), k) <==> KnownKey(sys, k)
    ensures KnownKey(sys, k) ==>
      SlotOf(Put(sys, key, slot, db), k) == if k == key then slot else SlotOf(sys, k)
  {
  }

  lemma PutSlotInv(sys: Sys, key: Key, slot: Slot, db: T.Ledger)
    requires SlotsInv(sys)
    requires KnownKey(sys, key) && (SlotOf(sys, key).binding.Some? ==> slot.binding.Some?)
    requires SlotInv(slot, db) && TT.Evolves(sys.db, db)
    ensures SlotsInv(Put(sys, key, slot, db))
  {
    forall k | KnownKey(Put(sys, key, slot, db), k)
      ensures SlotInv(SlotOf(Put(sys, key, slot, db), k), db)
    {
      PutSlots(sys, key, slot, db, k);
      if k != key {
        WorkersKeep(SlotOf(sys, k), sys.db, db);
      }
    }
  }

  lemma PutRunInv(sys: Sys, key: Key, slot: Slot, db: T.Ledger)
    requires RunsInv(sys.runs)
    requires KnownKey(sys, key) && MethodInv(slot.m)
    requires ActiveRun(sys, key.run) || slot.m == SlotOf(sys, key).m
    ensures RunsInv(Put(sys, key, slot, db).runs)
  {
    RunKeeps(sys.runs[key.run], key.id, slot.m);
  }

  lemma PutRegistered(sys: Sys, key: Key, slot: Slot, db: T.Ledger)
    requires Registered(sys)
    requires KnownKey(sys, key) && (SlotOf(sys, key).binding.Some? ==> slot.binding.Some?)
    ensures Registered(Put(sys, key, slot, db))
  {
    forall k | k in Put(sys, key, slot, db).bindings || k in Put(sys, key, slot, db).issued
      ensures KnownKey(Put(sys, key, slot, db), k)
    {
      PutSlots(sys, key, slot, db, k);
    }
  }

  lemma OnKeyKeeps(sys: Sys, event: Event)
    requires SysInv(sys) && Legal(event) && OnKey(event) && KnownKey(sys, event.key)
    ensures SysInv(Step(sys, event))
  {
    var key := event.key;
    var active := ActiveRun(sys, key.run);
    var (slot, db, _) := CallMethod(SlotOf(sys, key), active, event, sys.db);
    CallKeeps(SlotOf(sys, key), active, event, sys.db);
    if !active {
      InactiveCall(SlotOf(sys, key), event, sys.db);
    }
    PutSlotInv(sys, key, slot, db);
    PutRunInv(sys, key, slot, db);
    PutRegistered(sys, key, slot, db);
  }

  lemma FreshMethodSlot(name: string, db: T.Ledger)
    ensures SlotInv(Slot(NewMethod(name), None, {}), db)
  {
  }

  /** Only the survey, on a run without methods, changes a run's list of methods. */
  lemma RunCallSlots(sys: Sys, run: RunId, op: RunOp, k: Key)
    requires run in sys.runs && RunInv(sys.runs[run]) && !op.OnMethod?
    requires KnownKey(Step(sys, OnRun(run, op)), k)
    ensures KnownKey(sys, k) ==> SlotOf(Step(sys, OnRun(run, op)), k) == SlotOf(sys, k)
    ensures !KnownKey(sys, k) ==> exists name :: SlotOf(Step(sys, OnRun(run, op)), k).m == NewMethod(name)
  {
    if !KnownKey(sys, k) {
      assert SlotOf(Step(sys, OnRun(run, op)), k).m == NewMethod(op.proposals[k.id - 1].name);
    }
  }

  lemma RunCallKnown(sys: Sys, run: RunId, op: RunOp, k: Key)
    requires run in sys.runs && RunInv(sys.runs[run]) && !op.OnMethod? && KnownKey(sys, k)
    ensures KnownKey(Step(sys, OnRun(run, op)), k)
  {
  }

  lemma OnRunKeeps(sys: Sys, run: RunId, op: RunOp)
    requires SysInv(sys) && !op.OnMethod? && run in sys.runs
    ensures SysInv(Step(sys, OnRun(run, op)))
  {
    OpKeeps(sys.runs[run], op);
    var sys' := Step(sys, OnRun(run, op));
    forall k | KnownKey(sys', k)
      ensures SlotInv(SlotOf(sys', k), sys.db)
    {
      RunCallSlots(sys, run, op, k);
      if !KnownKey(sys, k) {
        var name :| SlotOf(sys', k).m == NewMethod(name);
        assert k !in sys.bindings && k !in sys.issued;
        FreshMethodSlot(name, sys.db);
      }
    }
    forall k | k in sys'.bindings || k in sys'.issued
      ensures KnownKey(sys', k)
    {
      RunCallKnown(sys, run, op, k);
    }
  }

  lemma SameSlotsKeep(sys: Sys, sys': Sys)
    requires SlotsInv(sys)
    requires forall k :: KnownKey(sys', k) ==> KnownKey(sys, k) && SlotOf(sys', k) == SlotOf(sys, k)
    requires TT.Evolves(sys.db, sys'.db)
    ensures SlotsInv(sys')
  {
    forall k | KnownKey(sys', k)
      ensures SlotInv(SlotOf(sys', k), sys'.db)
    {
      WorkersKeep(SlotOf(sys, k), sys.db, sys'.db);
    }
  }

  lemma TableSlots(sys: Sys, db: T.Ledger, k: Key)
    ensures KnownKey(sys.(db := db), k) <==> KnownKey(sys, k)
    ensures KnownKey(sys, k) ==> SlotOf(sys.(db := db), k) == SlotOf(sys, k)
  {
  }

  lemma TableKeeps(sys: Sys, db: T.Ledger)
    requires SysInv(sys) && TT.LedgerInv(db) && TT.Evolves(sys.db, db)
    ensures SysInv(sys.(db := db))
  {
    var sys' := sys.(db := db);
    forall k | KnownKey(sys', k)
      ensures KnownKey(sys, k) && SlotOf(sys', k) == SlotOf(sys, k)
    {
      TableSlots(sys, db, k);
    }
    SameSlotsKeep(sys, sys');
    forall k | k in sys'.bindings || k in sys'.issued
      ensures KnownKey(sys', k)
    {
      TableSlots(sys, db, k);
    }
  }

  lemma WorkerKeeps(sys: Sys, op: T.TaskOp)
    requires SysInv(sys)
    ensures SysInv(Step(sys, Worker(op)))
  {
    TT.StepKeeps(sys.db, op);
    TableKeeps(sys, T.Apply(sys.db, op).0);
  }

  lemma StartRunSlots(sys: Sys, run: RunId, k: Key)
    ensures KnownKey(Step(sys, StartRun(run)), k) <==> KnownKey(sys, k)
    ensures KnownKey(sys, k) ==> SlotOf(Step(sys, StartRun(run)), k) == SlotOf(sys, k)
  {
  }

  lemma StartRunSlotsInv(sys: Sys, run: RunId)
    requires SlotsInv(sys)
    ensures SlotsInv(Step(sys, StartRun(run)))
  {
    forall k | KnownKey(Step(sys, StartRun(run)), k)
      ensures SlotInv(SlotOf(Step(sys, StartRun(run)), k), sys.db)
    {
      StartRunSlots(sys, run, k);
    }
  }

  lemma StartRunRegistered(sys: Sys, run: RunId)
    requires Registered(sys)
    ensures Registered(Step(sys, StartRun(run)))
  {
    forall k | k in sys.bindings || k in sys.issued
      ensures KnownKey(Step(sys, StartRun(run)), k)
    {
      StartRunSlots(sys, run, k);
    }
  }

  lemma StartRunRuns(runs: map<RunId, Run>, run: RunId)
    requires RunsInv(runs)
    ensures RunsInv(if run in runs then runs else runs[run := NEW_RUN])
  {
    assert RunInv(NEW_RUN);
  }

  lemma StartRunKeeps(sys: Sys, run: RunId)
    requires SysInv(sys)
    ensures SysInv(Step(sys, StartRun(run)))
  {
    StartRunSlotsInv(sys, run);
    StartRunRegistered(sys, run);
    StartRunRuns(sys.runs, run);
  }

  lemma StepKeeps(sys: Sys, event: Event)
    requires SysInv(sys) && Legal(event)
    ensures SysInv(Step(sys, event))
  {
    match event
    case Worker(op) => WorkerKeeps(sys, op);
    case StartRun(run) => StartRunKeeps(sys, run);
    case OnRun(run, op) =>
      if run in sys.runs {
        OnRunKeeps(sys, run, op);
      }
    case _ =>
      if KnownKey(sys, event.key) {
        OnKeyKeeps(sys, event);
      }
  }

  /**
   The two state machines never disagree: after any events, with workers and lease recoveries
   interleaved anywhere, every method of every run agrees with its durable tasks.
   */
  lemma {:induction false} AgreementEverywhere(events: seq<Event>)
    requires AllLegal(events)
    ensures SysInv(Reached(events))
    decreases |events|
  {
    if events != [] {
      var front := events[..|events| - 1];
      AgreementEverywhere(front);
      StepKeeps(Reached(front), events[|events| - 1]);
    }
  }

  // ---------------------------------------------------------------- consequences for every run

  /** A completed step always has a completed task. */
  lemma CompletedStepsHaveCompletedTasks(events: seq<Event>, key: Key, i: nat)
    requires AllLegal(events) && KnownKey(Reached(events), key)
    requires var slot := SlotOf(Reached(events), key);
      Planned(slot.m) && i < |slot.m.steps| && slot.m.steps[i].status == StepCompleted
    ensures var sys := Reached(events);
      var slot := SlotOf(sys, key);
      && slot.binding.Some? && slot.m.steps[i].id in slot.binding.value.tasks
      && slot.binding.value.tasks[slot.m.steps[i].id] in sys.db
      && sys.db[slot.binding.value.tasks[slot.m.steps[i].id]].status == T.Completed
  {
    AgreementEverywhere(events);
    assert SlotInv(SlotOf(Reached(events), key), Reached(events).db);
  }

  /** No step starts early: whatever it depends on is completed, as a step and as a task. */
  lemma StartedStepsRestOnCompletedTasks(events: seq<Event>, key: Key, i: nat, j: nat)
    requires AllLegal(events) && KnownKey(Reached(events), key)
    requires var steps := SlotOf(Reached(events), key).m.steps;
      Planned(SlotOf(Reached(events), key).m) && i < |steps| && j < |steps|
      && steps[i].status != StepPending && steps[j].id in steps[i].dependsOn
    ensures var sys := Reached(events);
      var slot := SlotOf(sys, key);
      && slot.m.steps[j].status == StepCompleted
      && slot.binding.Some? && slot.m.steps[j].id in slot.binding.value.tasks
      && slot.binding.value.tasks[slot.m.steps[j].id] in sys.db
      && sys.db[slot.binding.value.tasks[slot.m.steps[j].id]].status == T.Completed
  {
    AgreementEverywhere(events);
    assert SlotInv(SlotOf(Reached(events), key), Reached(events).db);
    assert DependencyClosed(SlotOf(Reached(events), key).m.steps);
    CompletedStepsHaveCompletedTasks(events, key, j);
  }

  /**
   No orphaned work: while a method has not failed, every task ever issued for it, in any plan
   generation or revision, is completed, or is one the method is still waiting for.
   */
  lemma NoOrphanedWork(events: seq<Event>, key: Key, task: T.TaskId)
    requires AllLegal(events) && KnownKey(Reached(events), key)
    requires task in SlotOf(Reached(events), key).issued
    requires SlotOf(Reached(events), key).m.stage !in {MethodFailed, Abandoned}
    ensures var sys := Reached(events);
      var slot := SlotOf(sys, key);
      && slot.binding.Some? && task in sys.db
      && (sys.db[task].status == T.Completed || Awaited(slot.m, slot.binding.value, task))
  {
    AgreementEverywhere(events);
    assert SlotInv(SlotOf(Reached(events), key), Reached(events).db);
  }

  /** Whatever happened before, one sync of a fully activated method of an active run succeeds. */
  lemma NextSyncSucceeds(events: seq<Event>, key: Key)
    requires AllLegal(events) && KnownKey(Reached(events), key) && ActiveRun(Reached(events), key.run)
    requires var slot := SlotOf(Reached(events), key);
      InProof(slot) && Materialized(slot) && slot.m.teammate.Some?
    ensures Sync(SlotOf(Reached(events), key), true, Reached(events).db, []).2 == Returned
  {
    AgreementEverywhere(events);
    UndisturbedSyncReturns(SlotOf(Reached(events), key), Reached(events).db);
  }
}
