/**
 What a method of the running system remembers: its teammate, plan generation, plan, verdicts and counters are
 settled by the calls made on it so far, whatever syncs, workers and other methods did in between.
 */
module SystemHistory {
  import opened Prelude
  import opened StepPlans
  import opened WorkflowModel
  import opened OrchestrationModel
  import opened Agreement
  import opened SyncAgreement
  import opened SyncTheorems
  import opened SyncEffects
  import opened CallEffects
  import opened SystemRuns
  import opened SystemProgress
  import opened Permanence
  import T = TaskLedger
  import TT = TaskTheorems

  datatype Memory = Memory(
    teammate: Option<string>,
    generation: nat,
    plan: seq<StepPlan>,
    structural: Option<Verdict>,
    detailed: Option<Verdict>,
    action: Option<RegulatorAction>,
    proofRevisions: nat,
    planRevisions: nat,
    rewrites: nat)

  const NOTHING := Memory(None, 0, [], None, None, None, 0, 0, 0)

  function MemoryOf(slot: Slot): Memory {
    var m := slot.m;
    Memory(m.teammate, Generation(slot), PlanOf(m.steps), m.structural, m.detailed, m.action,
           m.proofRevisions, m.planRevisions, m.rewrites)
  }

  /** What a regulator's action adds to the memory. */
  function Regulated(was: Memory, action: RegulatorAction): Memory {
    var cleared := was.(structural := None, detailed := None, action := Some(action));
    match action
    case ReviseProof => cleared.(proofRevisions := was.proofRevisions + 1)
    case RevisePlan => cleared.(plan := [], planRevisions := was.planRevisions + 1)
    case Rewrite => cleared.(plan := [], planRevisions := was.planRevisions + 1, rewrites := was.rewrites + 1)
  }

  /** What a call on the method adds to its memory. A sync adds nothing. */
  ghost function Noted(was: Memory, slot: Slot, active: bool, event: Event, outcome: Outcome): Memory {
    match event
    case ActivateMethod(_, plan, _, prover, _, _, _) =>
      if !Accepts(slot, active, plan) then was
      else
        was.(generation := was.generation + 1, plan := plan, structural := None, detailed := None, action := None,
             teammate := if outcome == Returned then Some(prover) else was.teammate)
    case RecordMethodVerdict(_, op) =>
      if !Judges(slot, active, op) then was
      else if op.StructuralVerdict? then was.(structural := op.structural)
      else was.(detailed := op.detailed)
    case RegulateMethod(_, action, _, _) =>
      if Regulates(slot, active, action) then Regulated(was, action.value) else was
    case _ => was
  }

  ghost function MemoryAfter(events: seq<Event>, key: Key): Memory
    requires AllLegal(events)
    decreases |events|
  {
    if events == [] then NOTHING
    else
      var front, last := events[..|events| - 1], events[|events| - 1];
      var was, sys := MemoryAfter(front, key), Reached(front);
      if !OnKey(last) || last.key != key || !KnownKey(sys, key) then was
      else
        var slot, active := SlotOf(sys, key), ActiveRun(sys, key.run);
        Noted(was, slot, active, last, CallMethod(slot, active, last, sys.db).2)
  }

  // ---------------------------------------------------------------- one call

  lemma OnlyMovedMemory(slot: Slot, slot': Slot)
    requires PlanOf(slot'.m.steps) == PlanOf(slot.m.steps)
    requires slot' == slot.(m := slot.m.(steps := slot'.m.steps, stage := slot'.m.stage))
    ensures MemoryOf(slot') == MemoryOf(slot)
  {
  }

  lemma SyncMemory(slot: Slot, active: bool, db: T.Ledger, gaps: Gaps)
    requires SlotInv(slot, db) && TT.LedgerInv(db)
    ensures MemoryOf(Sync(slot, active, db, gaps).0) == MemoryOf(slot)
  {
    if InProof(slot) {
      var n := ProofSyncEffect(slot, active, db, gaps);
      OnlyMovedMemory(slot, Sync(slot, active, db, gaps).0);
    } else if slot.m.revisionPending && slot.binding.Some? && slot.binding.value.revisionTask.Some? {
      RevisionSyncEffect(slot, active, db, gaps);
    }
  }

  lemma ActivatedMemory(slot: Slot, slot': Slot, outcome: Outcome, event: Event, n: nat)
    requires event.ActivateMethod? && Accepts(slot, true, event.plan)
    requires Activated(slot, slot', outcome, event.plan, event.order, event.prover, event.worktree, event.ids, n)
    ensures MemoryOf(slot') == Noted(MemoryOf(slot), slot, true, event, outcome)
  {
  }

  lemma ActivationMemory(slot: Slot, active: bool, event: Event, db: T.Ledger)
    requires event.ActivateMethod? && Legal(event)
    ensures var (slot', _, outcome) := CallMethod(slot, active, event, db);
      MemoryOf(slot') == Noted(MemoryOf(slot), slot, active, event, outcome)
  {
    var n := ActivationEffect(slot, active, event.plan, event.order, event.prover, event.worktree, event.ids, db,
                              event.gaps);
    if Accepts(slot, active, event.plan) {
      var (slot', _, outcome) := CallMethod(slot, active, event, db);
      ActivatedMemory(slot, slot', outcome, event, n);
    }
  }

  lemma VerdictMemory(slot: Slot, active: bool, event: Event, db: T.Ledger)
    requires event.RecordMethodVerdict? && Legal(event)
    ensures var (slot', _, outcome) := CallMethod(slot, active, event, db);
      MemoryOf(slot') == Noted(MemoryOf(slot), slot, active, event, outcome)
  {
    VerdictEffect(slot, active, event.verdict);
  }

  lemma RegulationMemory(slot: Slot, active: bool, event: Event, db: T.Ledger)
    requires event.RegulateMethod? && Legal(event) && SlotInv(slot, db)
    ensures var (slot', _, outcome) := CallMethod(slot, active, event, db);
      MemoryOf(slot') == Noted(MemoryOf(slot), slot, active, event, outcome)
  {
    if !Regulates(slot, active, event.action) {
      RefusedRegulation(slot, active, event.action, event.ids, db, event.gaps);
    } else if event.action.value == ReviseProof {
      ReviseEffect(slot, event.ids, db, event.gaps);
      assert CallMethod(slot, active, event, db).0.m.steps == slot.m.steps;
    } else {
      ReplanEffect(slot, event.action.value, event.ids, db, event.gaps);
    }
  }

  lemma CallMemory(slot: Slot, active: bool, event: Event, db: T.Ledger)
    requires Legal(event) && OnKey(event) && SlotInv(slot, db) && TT.LedgerInv(db)
    ensures var (slot', _, outcome) := CallMethod(slot, active, event, db);
      MemoryOf(slot') == Noted(MemoryOf(slot), slot, active, event, outcome)
  {
    match event
    case ActivateMethod(_, _, _, _, _, _, _) => ActivationMemory(slot, active, event, db);
    case SyncMethod(_, gaps) => SyncMemory(slot, active, db, gaps);
    case RecordMethodVerdict(_, _) => VerdictMemory(slot, active, event, db);
    case RegulateMethod(_, _, _, _) => RegulationMemory(slot, active, event, db);
    case _ =>
  }

  // ---------------------------------------------------------------- every run

  ghost predicate RemembersAt(sys: Sys, key: Key, memory: Memory) {
    memory == if KnownKey(sys, key) then MemoryOf(SlotOf(sys, key)) else NOTHING
  }

  lemma BornKnowingNothing(sys: Sys, event: Event, key: Key)
    requires SysInv(sys) && Legal(event) && KnownKey(Step(sys, event), key) && !KnownKey(sys, key)
    ensures MemoryOf(SlotOf(Step(sys, event), key)) == NOTHING
  {
    assert key !in sys.bindings;
    if event.OnRun? && event.run in sys.runs {
      RunCallSlots(sys, event.run, event.call, key);
      assert PlanOf([]) == [];
    } else if event.StartRun? {
      StartRunSlots(sys, event.run, key);
    } else if OnKey(event) && KnownKey(sys, event.key) {
      PutKnown(sys, event, key);
    }
  }

  /** In every reachable state a method's memory is that of the calls made on it. */
  lemma {:induction false} MemoryIsHistory(events: seq<Event>, key: Key)
    requires AllLegal(events)
    ensures RemembersAt(Reached(events), key, MemoryAfter(events, key))
    decreases |events|
  {
    if events != [] {
      var front, last := events[..|events| - 1], events[|events| - 1];
      var sys := Reached(front);
      MemoryIsHistory(front, key);
      AgreementEverywhere(front);
      if KnownKey(sys, key) {
        SlotMoves(sys, last, key);
        if OnKey(last) && last.key == key {
          assert SlotInv(SlotOf(sys, key), sys.db);
          CallMemory(SlotOf(sys, key), ActiveRun(sys, key.run), last, sys.db);
        }
      } else if KnownKey(Step(sys, last), key) {
        BornKnowingNothing(sys, last, key);
      }
    }
  }

  // ---------------------------------------------------------------- who works on it

  /** The prover of the latest activation of the method that returned. */
  ghost function LatestProver(events: seq<Event>, key: Key): Option<string>
    requires AllLegal(events)
    decreases |events|
  {
    if events == [] then None
    else
      var front, last := events[..|events| - 1], events[|events| - 1];
      if last.ActivateMethod? && last.key == key && ActivationReturns(Reached(front), last) then Some(last.prover)
      else LatestProver(front, key)
  }

  ghost predicate ActivationReturns(sys: Sys, event: Event)
    requires Legal(event) && event.ActivateMethod?
  {
    && KnownKey(sys, event.key)
    && CallMethod(SlotOf(sys, event.key), ActiveRun(sys, event.key.run), event, sys.db).2 == Returned
  }

  lemma {:induction false} MemoryKnowsProver(events: seq<Event>, key: Key)
    requires AllLegal(events)
    ensures MemoryAfter(events, key).teammate == LatestProver(events, key)
    decreases |events|
  {
    if events != [] {
      var front, last := events[..|events| - 1], events[|events| - 1];
      MemoryKnowsProver(front, key);
      if last.ActivateMethod? && last.key == key && KnownKey(Reached(front), key) {
        var slot, active := SlotOf(Reached(front), key), ActiveRun(Reached(front), key.run);
        var n := ActivationEffect(slot, active, last.plan, last.order, last.prover, last.worktree, last.ids,
                                  Reached(front).db, last.gaps);
      }
    }
  }

  /** In every reachable state: a method's teammate is the prover of its latest activation that returned. */
  lemma TeammateIsLatestProver(events: seq<Event>, key: Key)
    requires AllLegal(events) && KnownKey(Reached(events), key)
    ensures SlotOf(Reached(events), key).m.teammate == LatestProver(events, key)
  {
    MemoryIsHistory(events, key);
    MemoryKnowsProver(events, key);
  }
}
