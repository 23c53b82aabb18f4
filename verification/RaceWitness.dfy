/** A reachable state of an active, fully equipped method whose sync loses a race with a worker. */
module RaceWitness {
  import opened Prelude
  import opened StepPlans
  import opened WorkflowModel
  import opened OrchestrationModel
  import opened Agreement
  import opened ActivationAgreement
  import opened SyncTheorems
  import opened InterleavedSync
  import opened SystemRuns
  import opened SystemWitnesses
  import T = TaskLedger
  import TT = TaskTheorems

  // ---------------------------------------------------------------- two steps, the second on the first

  function Chain(a: StepId, b: StepId): seq<StepPlan> {
    [StepPlan(a, "goal", []), StepPlan(b, "goal", [a])]
  }

  function ChainSteps(a: StepId, b: StepId): seq<ProofStep> {
    [ProofStep(a, "goal", [], StepPending), ProofStep(b, "goal", [a], StepPending)]
  }

  function ChainMethod(name: string, a: StepId, b: StepId): Method {
    Method(name, Some("prover"), Proving, ChainSteps(a, b), None, None, None, false, 0, 0, 0)
  }

  function ChainTasks(a: StepId, b: StepId, t: T.TaskId, u: T.TaskId): map<StepId, T.TaskId> {
    map[a := t][b := u]
  }

  function ChainSlot(name: string, a: StepId, b: StepId, t: T.TaskId, u: T.TaskId): Slot {
    var tasks := ChainTasks(a, b, t, u);
    Slot(ChainMethod(name, a, b), Some(Binding(1, tasks, [a, b], None)), tasks.Values)
  }

  /** The second task waits for the first. */
  function NextTask(t: T.TaskId): T.Row {
    T.Row(T.Pending, None, {t}, None, None)
  }

  lemma ChainGraph(a: StepId, b: StepId)
    requires a != b
    ensures Unique(Ids(Chain(a, b))) && GraphOf(Chain(a, b)).Keys == {a, b}
    ensures GraphOf(Chain(a, b))[a] == [] && GraphOf(Chain(a, b))[b] == [a]
  {
    var plan := Chain(a, b);
    assert Ids(plan) == [a, b] && Elements([a, b]) == {a, b};
    assert plan[0].id in GraphOf(plan) && plan[1].id in GraphOf(plan);
  }

  lemma ChainIsWellFormed(a: StepId, b: StepId)
    requires a != b
    ensures WellFormedPlan(Chain(a, b)) && IsTopological(GraphOf(Chain(a, b)), [a, b])
  {
    ChainGraph(a, b);
    assert Elements([a, b]) == {a, b};
    assert [a, b][..1] == [a];
    OrderedImpliesAcyclic(GraphOf(Chain(a, b)), [a, b]);
  }

  lemma ChainIndex(a: StepId, b: StepId)
    requires a != b
    ensures StepIndex(ChainSteps(a, b), a) == Some(0) && StepIndex(ChainSteps(a, b), b) == Some(1)
  {
    assert ChainSteps(a, b)[0].id == a && ChainSteps(a, b)[1].id == b;
  }

  lemma ChainMaterializes(a: StepId, b: StepId, t: T.TaskId, u: T.TaskId)
    requires a != b && t != u
    ensures Materialize(ChainSteps(a, b), [a, b], [t, u], map[], map[], [])
      == (ChainTasks(a, b, t, u), map[t := OPEN_TASK][u := NextTask(t)], Returned)
  {
    ChainIndex(a, b);
    MaterializeUnrolls(ChainSteps(a, b), [a, b], 0, [t, u], map[], map[], []);
    assert [a, b][1..] == [b] && [t, u][1..] == [u];
    assert TaskSeq(map[], []) == [] && Elements<T.TaskId>([]) == {};
    MaterializeUnrolls(ChainSteps(a, b), [b], 1, [u], map[a := t], map[t := OPEN_TASK], []);
    assert TaskSeq(map[a := t], [a]) == [t] && Elements([t]) == {t};
    assert [b][1..] == [] && [u][1..] == [];
  }

  lemma ChainPlanned(name: string, a: StepId, b: StepId)
    requires a != b
    ensures ApplyMethod(NewMethod(name), SetPlan(Chain(a, b))) == (ChainMethod(name, a, b).(teammate := None), Accepted)
  {
    ChainIsWellFormed(a, b);
    assert FreshSteps(Chain(a, b)) == ChainSteps(a, b);
  }

  lemma ChainActivates(name: string, a: StepId, b: StepId, t: T.TaskId, u: T.TaskId)
    requires a != b && t != u
    ensures Activate(Slot(NewMethod(name), None, {}), true, Chain(a, b), [a, b], "prover", true, [t, u], map[], [])
      == (ChainSlot(name, a, b, t, u), map[t := OPEN_TASK][u := NextTask(t)], Returned)
  {
    ChainPlanned(name, a, b);
    ChainMaterializes(a, b, t, u);
    assert {} + ChainTasks(a, b, t, u).Values == ChainTasks(a, b, t, u).Values;
  }

  // ---------------------------------------------------------------- the race

  /** Nothing before the first read; before the second, the first task is completed and the next is claimed. */
  function Race(t: T.TaskId, u: T.TaskId): Gaps {
    [[], [T.Complete(t, "w", 1), T.Claim(u, "w", 2, 60)]]
  }

  function Claimable(t: T.TaskId, u: T.TaskId): T.Ledger {
    map[t := HELD_TASK][u := NextTask(t)]
  }

  lemma ReplayTwo(db: T.Ledger, first: T.TaskOp, second: T.TaskOp)
    ensures T.Replay(db, [first, second]) == T.Apply(T.Apply(db, first).0, second).0
  {
    assert [first, second][..1] == [first] && [first][..0] == [];
    assert T.Replay(db, [first]) == T.Apply(db, first).0;
  }

  lemma RaceTables(t: T.TaskId, u: T.TaskId)
    requires t != u
    ensures TableAt(Claimable(t, u), Race(t, u), 0) == Claimable(t, u)
    ensures u in TableAt(Claimable(t, u), Race(t, u), 1)
      && TableAt(Claimable(t, u), Race(t, u), 1)[u].status == T.InProgress
  {
    var db, gaps := Claimable(t, u), Race(t, u);
    assert gaps[1..] == [gaps[1]] && AfterGap(db, gaps) == db;
    ReplayTwo(db, T.Complete(t, "w", 1), T.Claim(u, "w", 2, 60));
    var done := T.Apply(db, T.Complete(t, "w", 1)).0;
    assert done[t].status == T.Completed && done[u] == NextTask(t);
    assert T.Blocked(done, u) == {} && T.Missing(done, u) == {};
  }

  lemma ChainDepends(m: Method, a: StepId, b: StepId, binding: Binding)
    requires a != b && m.steps == ChainSteps(a, b) && binding.order == [a, b]
    ensures DependsOn(m, binding, 1, 0)
  {
    ChainGraph(a, b);
    assert PlanOf(m.steps) == Chain(a, b);
  }

  lemma ChainLoses(name: string, a: StepId, b: StepId, t: T.TaskId, u: T.TaskId)
    requires a != b && t != u
    ensures LosesRace(ChainSlot(name, a, b, t, u), Claimable(t, u), Race(t, u))
  {
    var m, binding := ChainMethod(name, a, b), ChainSlot(name, a, b, t, u).binding.value;
    RaceTables(t, u);
    ChainDepends(m, a, b, binding);
    ChainIndex(a, b);
    assert LeftBehind(m, binding, Claimable(t, u), Race(t, u), 0, 1, 0);
    assert Races(m, binding, Claimable(t, u), Race(t, u), 0, 1);
    assert NoFailureBefore(binding, Claimable(t, u), Race(t, u), 1);
  }

  // ---------------------------------------------------------------- a run that gets there

  lemma ActivatesTo(events: seq<Event>, key: Key, e: Event, slot: Slot, db: T.Ledger)
    requires At(events, key, Slot(NewMethod("m"), None, {}), map[], MethodsActive)
    requires Legal(e) && e.ActivateMethod? && e.key == key
    requires CallMethod(Slot(NewMethod("m"), None, {}), true, e, map[]) == (slot, db, Returned)
    ensures At(events + [e], key, slot, db, MethodsActive)
  {
    CallMoves(events, key, Slot(NewMethod("m"), None, {}), map[], e);
  }

  lemma ChainActivated(key: Key, a: StepId, b: StepId, t: T.TaskId, u: T.TaskId) returns (events: seq<Event>)
    requires key == Key(RUN, 1) && a != b && t != u
    ensures At(events, key, ChainSlot("m", a, b, t, u), map[t := OPEN_TASK][u := NextTask(t)], MethodsActive)
  {
    var activation := ActivateMethod(key, Chain(a, b), [a, b], "prover", true, [t, u], []);
    events := OneMethod();
    ChainIsWellFormed(a, b);
    ChainActivates("m", a, b, t, u);
    ActivatesTo(events, key, activation, ChainSlot("m", a, b, t, u), map[t := OPEN_TASK][u := NextTask(t)]);
    events := events + [activation];
  }

  lemma ChainClaimed(key: Key, a: StepId, b: StepId, t: T.TaskId, u: T.TaskId) returns (events: seq<Event>)
    requires key == Key(RUN, 1) && a != b && t != u
    ensures At(events, key, ChainSlot("m", a, b, t, u), Claimable(t, u), MethodsActive)
  {
    var db: T.Ledger := map[t := OPEN_TASK][u := NextTask(t)];
    events := ChainActivated(key, a, b, t, u);
    events := Claimed(events, key, ChainSlot("m", a, b, t, u), t, db);
    assert db[t := HELD_TASK] == Claimable(t, u);
  }

  lemma SlotHolds(events: seq<Event>, key: Key, slot: Slot, db: T.Ledger)
    requires At(events, key, slot, db, MethodsActive)
    ensures SlotInv(slot, db) && TT.LedgerInv(db)
  {
    AgreementEverywhere(events);
  }

  lemma ChainIsEquipped(a: StepId, b: StepId, t: T.TaskId, u: T.TaskId)
    ensures InProof(ChainSlot("m", a, b, t, u)) && Materialized(ChainSlot("m", a, b, t, u))
  {
    assert Elements([a, b]) == {a, b};
  }

  /**
   Everything in place and the run active: undisturbed the sync returns, and with two steps of a worker between
   its two reads it raises.
   */
  lemma RacingSyncRaises(a: StepId, b: StepId, t: T.TaskId, u: T.TaskId) returns (events: seq<Event>, key: Key)
    requires a != b && t != u
    ensures AllLegal(events) && KnownKey(Reached(events), key) && ActiveRun(Reached(events), key.run)
    ensures var slot := SlotOf(Reached(events), key);
      && InProof(slot) && Materialized(slot) && slot.m.teammate.Some?
      && Sync(slot, true, Reached(events).db, Race(t, u)).2 == Raised
      && Sync(slot, true, Reached(events).db, []).2 == Returned
  {
    key := Key(RUN, 1);
    var slot, db := ChainSlot("m", a, b, t, u), Claimable(t, u);
    events := ChainClaimed(key, a, b, t, u);
    SlotHolds(events, key, slot, db);
    ChainLoses("m", a, b, t, u);
    ChainIsEquipped(a, b, t, u);
    EquippedSyncRaisesIff(slot, db, Race(t, u));
    UndisturbedSyncReturns(slot, db);
  }
}
