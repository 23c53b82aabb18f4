/**
 Sync against a table that workers change between its reads: exactly when it raises. The loop loads one
 task at a time, so what it reads of two tasks may be true at two different moments.
 */
module InterleavedSync {
  import opened Prelude
  import opened StepPlans
  import opened WorkflowModel
  import opened WorkflowTheorems
  import opened OrchestrationModel
  import opened Agreement
  import opened SyncAgreement
  import opened SyncTheorems
  import T = TaskLedger
  import TT = TaskTheorems

  // ---------------------------------------------------------------- what the loop reads

  /** The table at the `n`-th read from here. */
  function TableAt(db: T.Ledger, gaps: Gaps, n: nat): T.Ledger
    decreases n
  {
    if n == 0 then AfterGap(db, gaps) else TableAt(AfterGap(db, gaps), Rest(gaps), n - 1)
  }

  ghost predicate ReadsCompleted(b: Binding, db: T.Ledger, s: StepId) {
    s in b.tasks && b.tasks[s] in db && db[b.tasks[s]].status == T.Completed
  }

  ghost predicate ReadsStarted(b: Binding, db: T.Ledger, s: StepId) {
    s in b.tasks && b.tasks[s] in db && db[b.tasks[s]].status in {T.InProgress, T.Completed}
  }

  /** The loop, now at step `k`, will take this dependency for unfinished when it comes to step `i`. */
  ghost predicate LeftBehind(m: Method, b: Binding, db: T.Ledger, gaps: Gaps, k: nat, i: nat, j: nat)
    requires i <= |b.order|
  {
    && j < i && StepIndex(m.steps, b.order[j]).Some? && StatusOf(m.steps, b.order[j]) != StepCompleted
    && (k <= j ==> !ReadsCompleted(b, TableAt(db, gaps, j - k), b.order[j]))
  }

  ghost predicate DependsOn(m: Method, b: Binding, i: nat, j: nat)
    requires i < |b.order|
  {
    && Unique(Ids(PlanOf(m.steps)))
    && var g := GraphOf(PlanOf(m.steps));
       j < i && b.order[i] in g && b.order[j] in g[b.order[i]]
  }

  /**
   The race: the task of a pending step is read as started, while a dependency of the step is neither
   completed already nor was read as completed before.
   */
  ghost predicate Races(m: Method, b: Binding, db: T.Ledger, gaps: Gaps, k: nat, i: nat)
    requires k <= i < |b.order|
  {
    && StepIndex(m.steps, b.order[i]).Some? && StatusOf(m.steps, b.order[i]) == StepPending
    && ReadsStarted(b, TableAt(db, gaps, i - k), b.order[i])
    && exists j: nat :: j < i && DependsOn(m, b, i, j) && LeftBehind(m, b, db, gaps, k, i, j)
  }

  ghost predicate RaisesAt(m: Method, active: bool, b: Binding, db: T.Ledger, gaps: Gaps, k: nat, i: nat)
    requires k <= i < |b.order|
  {
    Obstructed(m, active, b, TableAt(db, gaps, i - k), b.order[i]) || Races(m, b, db, gaps, k, i)
  }

  ghost predicate StopsAt(active: bool, b: Binding, db: T.Ledger, gaps: Gaps, k: nat, j: nat)
    requires k <= j < |b.order|
  {
    Stops(active, b, TableAt(db, gaps, j - k), b.order[j])
  }

  ghost predicate NoStopBefore(active: bool, b: Binding, db: T.Ledger, gaps: Gaps, k: nat, i: nat)
    requires i <= |b.order|
  {
    forall j: nat :: k <= j < i ==> !StopsAt(active, b, db, gaps, k, j)
  }

  /** Some step raises, and no failed task ends the loop before it. */
  ghost predicate LoopRaises(m: Method, active: bool, b: Binding, db: T.Ledger, gaps: Gaps, k: nat) {
    exists i: nat :: k <= i < |b.order| && RaisesAt(m, active, b, db, gaps, k, i) && NoStopBefore(active, b, db, gaps, k, i)
  }

  // ---------------------------------------------------------------- one turn

  lemma KnownDependencies(m: Method, i: nat)
    requires WellFormedPlan(PlanOf(m.steps)) && i < |m.steps|
    ensures DependenciesKnown(m.steps, i)
  {
    forall d | d in m.steps[i].dependsOn
      ensures StepIndex(m.steps, d).Some?
    {
      assert PlanOf(m.steps)[i].dependsOn == m.steps[i].dependsOn;
      assert d in GraphOf(PlanOf(m.steps)).Keys;
      var j := StepInGraph(m.steps, d);
    }
  }

  lemma SyncOneReply(m: Method, active: bool, i: nat, status: T.TaskStatus)
    requires MethodInv(m) && m.stage == Proving && !m.revisionPending && WellFormedPlan(PlanOf(m.steps))
    requires i < |m.steps| && StepIndex(m.steps, m.steps[i].id) == Some(i) && DependenciesKnown(m.steps, i)
    ensures var (m', reply) := SyncOne(m, active, m.steps[i].id, status);
      var starts := m.steps[i].status == StepPending && status in {T.InProgress, T.Completed};
      var ends := m.steps[i].status == StepInProgress && status == T.Completed;
      && (reply == Accepted <==>
            (starts || ends ==> active && m.teammate.Some?) && (starts ==> DependenciesCompleted(m.steps, i)))
      && (reply == Accepted ==> i < |m'.steps| && m'.steps[i].status == CaughtStatus(m.steps[i].status, status))
  {
    var started := WithStatus(m, i, StepInProgress);
    StatusKeepsPlan(m, i, StepInProgress);
    IndexOfStep(started.steps, i);
    assert m.steps[i].status != StepPending ==> m.teammate.Some?;
    assert m.steps[i].status != StepFailed;
  }

  ghost predicate DependenciesDone(m: Method, b: Binding, k: nat)
    requires k < |b.order|
  {
    forall j: nat :: j < k && DependsOn(m, b, k, j) ==>
      StepIndex(m.steps, b.order[j]).Some? && StatusOf(m.steps, b.order[j]) == StepCompleted
  }

  /** The dependencies of a step all stand before it in the order. */
  lemma DependenciesInOrder(m: Method, b: Binding, k: nat, i: nat)
    requires WellFormedPlan(PlanOf(m.steps)) && IsTopological(GraphOf(PlanOf(m.steps)), b.order)
    requires k < |b.order| && i < |m.steps| && m.steps[i].id == b.order[k]
    ensures DependenciesKnown(m.steps, i) && (DependenciesCompleted(m.steps, i) <==> DependenciesDone(m, b, k))
  {
    KnownDependencies(m, i);
    var g := GraphOf(PlanOf(m.steps));
    GraphOfSteps(m.steps, i);
    forall d | d in m.steps[i].dependsOn
      ensures exists j: nat :: j < k && b.order[j] == d && DependsOn(m, b, k, j)
    {
      var j := PositionBefore(g, b.order, k, d);
      assert DependsOn(m, b, k, j);
    }
  }

  lemma TurnIndex(m: Method, b: Binding, now: T.Ledger, k: nat) returns (i: nat)
    requires Syncing(m, b, now) && k < |b.order| && b.order[k] in b.tasks
    ensures i < |m.steps| && m.steps[i].id == b.order[k] && StepIndex(m.steps, b.order[k]) == Some(i)
    ensures DependenciesKnown(m.steps, i) && (DependenciesCompleted(m.steps, i) <==> DependenciesDone(m, b, k))
    ensures b.tasks[b.order[k]] in now
  {
    StepIsThere(m, b, now, k);
    i := StepIndex(m.steps, b.order[k]).value;
    DependenciesInOrder(m, b, k, i);
  }

  /** A turn on the table as read: when it is accepted, and what it does to the step. */
  lemma TurnReply(m: Method, active: bool, b: Binding, now: T.Ledger, k: nat) returns (i: nat)
    requires Syncing(m, b, now) && k < |b.order| && b.order[k] in b.tasks
    ensures i < |m.steps| && m.steps[i].id == b.order[k] && StepIndex(m.steps, b.order[k]) == Some(i)
    ensures b.tasks[b.order[k]] in now
    ensures var status := now[b.tasks[b.order[k]]].status;
      var (next, reply) := SyncOne(m, active, b.order[k], status);
      && (reply == Accepted <==>
            && (Lags(m, b, now, b.order[k]) ==> active && m.teammate.Some?)
            && (m.steps[i].status == StepPending && ReadsStarted(b, now, b.order[k]) ==> DependenciesDone(m, b, k)))
      && (reply == Accepted ==> i < |next.steps| && next.steps[i].status == CaughtStatus(m.steps[i].status, status))
  {
    i := TurnIndex(m, b, now, k);
    SyncOneReply(m, active, i, now[b.tasks[b.order[k]]].status);
  }

  lemma KnownBefore(m: Method, b: Binding, k: nat, j: nat)
    requires WellFormedPlan(PlanOf(m.steps)) && IsTopological(GraphOf(PlanOf(m.steps)), b.order)
    requires j < k < |b.order|
    ensures StepIndex(m.steps, b.order[j]).Some?
  {
    assert b.order[j] in Elements(b.order);
    var i := StepInGraph(m.steps, b.order[j]);
  }

  /** It is refused exactly in the cases named. */
  lemma TurnRaisesIff(m: Method, active: bool, b: Binding, db: T.Ledger, gaps: Gaps, k: nat) returns (i: nat)
    requires var now := AfterGap(db, gaps);
      Syncing(m, b, now) && k < |b.order| && b.order[k] in b.tasks && !Broken(b, now, b.order[k])
    ensures i < |m.steps| && m.steps[i].id == b.order[k] && StepIndex(m.steps, b.order[k]) == Some(i)
    ensures b.tasks[b.order[k]] in AfterGap(db, gaps)
    ensures var status := AfterGap(db, gaps)[b.tasks[b.order[k]]].status;
      var (next, reply) := SyncOne(m, active, b.order[k], status);
      && (reply == Accepted <==> !RaisesAt(m, active, b, db, gaps, k, k))
      && (reply == Accepted ==> i < |next.steps| && next.steps[i].status == CaughtStatus(m.steps[i].status, status))
  {
    i := TurnReply(m, active, b, AfterGap(db, gaps), k);
    forall j: nat | j < k && DependsOn(m, b, k, j)
      ensures StepIndex(m.steps, b.order[j]).Some?
    {
      KnownBefore(m, b, k, j);
    }
    RaceNow(m, b, db, gaps, k);
  }

  lemma RaceNow(m: Method, b: Binding, db: T.Ledger, gaps: Gaps, k: nat)
    requires k < |b.order|
    requires forall j: nat :: j < k && DependsOn(m, b, k, j) ==> StepIndex(m.steps, b.order[j]).Some?
    ensures Races(m, b, db, gaps, k, k) <==>
      && StepIndex(m.steps, b.order[k]).Some? && StatusOf(m.steps, b.order[k]) == StepPending
      && ReadsStarted(b, AfterGap(db, gaps), b.order[k])
      && !DependenciesDone(m, b, k)
  {
    forall j: nat | j < k && DependsOn(m, b, k, j)
      ensures LeftBehind(m, b, db, gaps, k, k, j) <==> StatusOf(m.steps, b.order[j]) != StepCompleted
    {
    }
  }

  // ---------------------------------------------------------------- from one turn to the next

  /** An accepted turn at step `k`, as far as the rest of the loop can tell. */
  ghost predicate Turned(m: Method, m': Method, b: Binding, now: T.Ledger, k: nat)
    requires k < |b.order|
  {
    && Unique(b.order) && PlanOf(m'.steps) == PlanOf(m.steps)
    && SameBut(m, m', b.order, b.order[k])
    && StepIndex(m.steps, b.order[k]).Some? && StepIndex(m'.steps, b.order[k]).Some?
    && (StatusOf(m'.steps, b.order[k]) == StepCompleted <==>
          StatusOf(m.steps, b.order[k]) == StepCompleted || ReadsCompleted(b, now, b.order[k]))
  }

  lemma LeftBehindShifts(m: Method, m': Method, b: Binding, db: T.Ledger, gaps: Gaps, k: nat, i: nat, j: nat)
    requires j < i < |b.order| && k < i && Turned(m, m', b, AfterGap(db, gaps), k)
    ensures LeftBehind(m, b, db, gaps, k, i, j) <==> LeftBehind(m', b, AfterGap(db, gaps), Rest(gaps), k + 1, i, j)
  {
    assert b.order[j] in b.order && (j != k ==> b.order[j] != b.order[k]);
  }

  lemma RacesShift(m: Method, m': Method, b: Binding, db: T.Ledger, gaps: Gaps, k: nat, i: nat)
    requires k < i < |b.order| && Turned(m, m', b, AfterGap(db, gaps), k)
    ensures Races(m, b, db, gaps, k, i) <==> Races(m', b, AfterGap(db, gaps), Rest(gaps), k + 1, i)
  {
    assert b.order[i] in b.order && b.order[i] != b.order[k];
    forall j: nat | j < i
      ensures DependsOn(m, b, i, j) && LeftBehind(m, b, db, gaps, k, i, j) <==>
        DependsOn(m', b, i, j) && LeftBehind(m', b, AfterGap(db, gaps), Rest(gaps), k + 1, i, j)
    {
      LeftBehindShifts(m, m', b, db, gaps, k, i, j);
    }
  }

  lemma RaisesShift(m: Method, m': Method, active: bool, b: Binding, db: T.Ledger, gaps: Gaps, k: nat, i: nat)
    requires k < i < |b.order| && Turned(m, m', b, AfterGap(db, gaps), k)
    ensures RaisesAt(m, active, b, db, gaps, k, i) <==>
      RaisesAt(m', active, b, AfterGap(db, gaps), Rest(gaps), k + 1, i)
  {
    RacesShift(m, m', b, db, gaps, k, i);
    assert b.order[i] in b.order && b.order[i] != b.order[k];
  }

  lemma StopsShift(active: bool, b: Binding, db: T.Ledger, gaps: Gaps, k: nat, next: nat, i: nat)
    requires k < next == k + 1 <= i <= |b.order| && !StopsAt(active, b, db, gaps, k, k)
    ensures NoStopBefore(active, b, db, gaps, k, i) <==>
      NoStopBefore(active, b, AfterGap(db, gaps), Rest(gaps), next, i)
  {
    if NoStopBefore(active, b, db, gaps, k, i) {
      forall j: nat | next <= j < i
        ensures !StopsAt(active, b, AfterGap(db, gaps), Rest(gaps), next, j)
      {
        assert !StopsAt(active, b, db, gaps, k, j);
      }
    }
    if NoStopBefore(active, b, AfterGap(db, gaps), Rest(gaps), next, i) {
      forall j: nat | k <= j < i
        ensures !StopsAt(active, b, db, gaps, k, j)
      {
        assert j > k ==> !StopsAt(active, b, AfterGap(db, gaps), Rest(gaps), next, j);
      }
    }
  }

  lemma LoopRaisesShifts(m: Method, m': Method, active: bool, b: Binding, db: T.Ledger, gaps: Gaps, k: nat)
    requires k < |b.order| && Turned(m, m', b, AfterGap(db, gaps), k)
    requires !RaisesAt(m, active, b, db, gaps, k, k) && !StopsAt(active, b, db, gaps, k, k)
    ensures LoopRaises(m, active, b, db, gaps, k) <==>
      LoopRaises(m', active, b, AfterGap(db, gaps), Rest(gaps), k + 1)
  {
    if LoopRaises(m, active, b, db, gaps, k) {
      var i: nat :| k <= i < |b.order| && RaisesAt(m, active, b, db, gaps, k, i) && NoStopBefore(active, b, db, gaps, k, i);
      RaisesShift(m, m', active, b, db, gaps, k, i);
      StopsShift(active, b, db, gaps, k, k + 1, i);
    }
    if LoopRaises(m', active, b, AfterGap(db, gaps), Rest(gaps), k + 1) {
      var i: nat :| k + 1 <= i < |b.order| && RaisesAt(m', active, b, AfterGap(db, gaps), Rest(gaps), k + 1, i)
        && NoStopBefore(active, b, AfterGap(db, gaps), Rest(gaps), k + 1, i);
      RaisesShift(m, m', active, b, db, gaps, k, i);
      StopsShift(active, b, db, gaps, k, k + 1, i);
    }
  }

  // ---------------------------------------------------------------- the whole loop

  lemma TurnTurns(m: Method, active: bool, b: Binding, db: T.Ledger, gaps: Gaps, k: nat)
    requires var now := AfterGap(db, gaps);
      Syncing(m, b, now) && k < |b.order| && b.order[k] in b.tasks && !Broken(b, now, b.order[k])
    ensures b.tasks[b.order[k]] in AfterGap(db, gaps) && StepIndex(m.steps, b.order[k]).Some?
    ensures var now := AfterGap(db, gaps);
      var (next, reply) := SyncOne(m, active, b.order[k], now[b.tasks[b.order[k]]].status);
      && (reply == Accepted <==> !RaisesAt(m, active, b, db, gaps, k, k))
      && (reply == Accepted ==> Syncing(next, b, now) && Turned(m, next, b, now, k))
  {
    var now := AfterGap(db, gaps);
    var i := TurnRaisesIff(m, active, b, db, gaps, k);
    SyncOneKeeps(m, active, b.order[k], b, now);
    TurnKeepsOthers(m, active, b, now, b.order[k]);
    if SyncOne(m, active, b.order[k], now[b.tasks[b.order[k]]].status).1 == Accepted {
      TurnCaught(m, active, b, now, k, i);
    }
  }

  lemma TurnCaught(m: Method, active: bool, b: Binding, now: T.Ledger, k: nat, i: nat)
    requires Syncing(m, b, now) && k < |b.order| && b.order[k] in b.tasks && !Broken(b, now, b.order[k])
    requires i < |m.steps| && m.steps[i].id == b.order[k] && StepIndex(m.steps, b.order[k]) == Some(i)
    requires b.tasks[b.order[k]] in now
    requires var status := now[b.tasks[b.order[k]]].status;
      var (next, reply) := SyncOne(m, active, b.order[k], status);
      reply == Accepted && i < |next.steps| && next.steps[i].status == CaughtStatus(m.steps[i].status, status)
    ensures var next := SyncOne(m, active, b.order[k], now[b.tasks[b.order[k]]].status).0;
      && StepIndex(next.steps, b.order[k]) == Some(i)
      && (StatusOf(next.steps, b.order[k]) == StepCompleted <==>
            StatusOf(m.steps, b.order[k]) == StepCompleted || ReadsCompleted(b, now, b.order[k]))
  {
    SyncOneMoves(m, active, i, now[b.tasks[b.order[k]]].status);
    IndexOfStep(SyncOne(m, active, b.order[k], now[b.tasks[b.order[k]]].status).0.steps, i);
  }

  lemma StepIsThere(m: Method, b: Binding, now: T.Ledger, k: nat)
    requires Syncing(m, b, now) && k < |b.order|
    ensures StepIndex(m.steps, b.order[k]).Some? && (b.order[k] in b.tasks ==> b.tasks[b.order[k]] in now)
  {
    assert b.order[k] in Elements(b.order);
    var i := StepInGraph(m.steps, b.order[k]);
  }

  /** One unrolling of the loop. */
  lemma LoopHead(m: Method, active: bool, b: Binding, db: T.Ledger, gaps: Gaps, k: nat)
    requires m.stage == Proving && k < |b.order| && StepIndex(m.steps, b.order[k]).Some?
    requires b.order[k] in b.tasks ==> b.tasks[b.order[k]] in AfterGap(db, gaps)
    ensures var now := AfterGap(db, gaps);
      var end := SyncLoop(m, active, b.order[k..], b.tasks, db, gaps);
      if b.order[k] !in b.tasks then end == (m, db, SyncError)
      else if Broken(b, now, b.order[k]) then
        end == (OnActive(m, active, FailMethod).0, now, if active then TaskFailed else SyncError)
      else
        var (next, reply) := SyncOne(m, active, b.order[k], now[b.tasks[b.order[k]]].status);
        if reply != Accepted then end == (next, now, SyncError)
        else end == SyncLoop(next, active, b.order[k + 1..], b.tasks, now, Rest(gaps))
  {
    assert b.order[k..][0] == b.order[k] && b.order[k..][1..] == b.order[k + 1..];
  }

  /** A missing or failed task decides the loop's fate here. */
  lemma DecidedHere(m: Method, active: bool, b: Binding, db: T.Ledger, gaps: Gaps, k: nat)
    requires k < |b.order|
    requires b.order[k] !in b.tasks || Broken(b, AfterGap(db, gaps), b.order[k])
    ensures LoopRaises(m, active, b, db, gaps, k) <==> b.order[k] !in b.tasks || !active
  {
    if b.order[k] !in b.tasks || !active {
      assert RaisesAt(m, active, b, db, gaps, k, k) && NoStopBefore(active, b, db, gaps, k, k);
    } else {
      assert StopsAt(active, b, db, gaps, k, k);
      assert !RaisesAt(m, active, b, db, gaps, k, k);
    }
  }

  lemma RefusedHere(m: Method, active: bool, b: Binding, db: T.Ledger, gaps: Gaps, k: nat)
    requires k < |b.order| && RaisesAt(m, active, b, db, gaps, k, k)
    ensures LoopRaises(m, active, b, db, gaps, k)
  {
    assert NoStopBefore(active, b, db, gaps, k, k);
  }

  /** A turn on a task that has not failed raises, or hands the question on. */
  lemma TurnDecides(m: Method, active: bool, b: Binding, db: T.Ledger, gaps: Gaps, k: nat)
    requires var now := AfterGap(db, gaps);
      Syncing(m, b, now) && k < |b.order| && b.order[k] in b.tasks && !Broken(b, now, b.order[k])
    ensures b.tasks[b.order[k]] in AfterGap(db, gaps) && StepIndex(m.steps, b.order[k]).Some?
    ensures var now := AfterGap(db, gaps);
      var next := SyncOne(m, active, b.order[k], now[b.tasks[b.order[k]]].status).0;
      var flow := SyncLoop(m, active, b.order[k..], b.tasks, db, gaps).2;
      if RaisesAt(m, active, b, db, gaps, k, k) then flow == SyncError && LoopRaises(m, active, b, db, gaps, k)
      else
        && Syncing(next, b, now) && flow == SyncLoop(next, active, b.order[k + 1..], b.tasks, now, Rest(gaps)).2
        && (LoopRaises(m, active, b, db, gaps, k) <==> LoopRaises(next, active, b, now, Rest(gaps), k + 1))
  {
    TurnTurns(m, active, b, db, gaps, k);
    LoopHead(m, active, b, db, gaps, k);
    if RaisesAt(m, active, b, db, gaps, k, k) {
      RefusedHere(m, active, b, db, gaps, k);
    } else {
      var now := AfterGap(db, gaps);
      LoopRaisesShifts(m, SyncOne(m, active, b.order[k], now[b.tasks[b.order[k]]].status).0, active, b, db, gaps, k);
    }
  }

  /** The loop raises exactly when it comes to such a step, whatever workers do between its reads. */
  lemma {:induction false} LoopRaisesIff(m: Method, active: bool, b: Binding, db: T.Ledger, gaps: Gaps, k: nat)
    requires Syncing(m, b, db) && TT.LedgerInv(db) && k <= |b.order|
    ensures SyncLoop(m, active, b.order[k..], b.tasks, db, gaps).2 == SyncError <==> LoopRaises(m, active, b, db, gaps, k)
    decreases |b.order| - k
  {
    if k < |b.order| {
      var now := AfterGap(db, gaps);
      GapKeepsSyncing(m, b, db, gaps);
      if b.order[k] !in b.tasks || Broken(b, now, b.order[k]) {
        StepIsThere(m, b, now, k);
        LoopHead(m, active, b, db, gaps, k);
        DecidedHere(m, active, b, db, gaps, k);
      } else {
        TurnDecides(m, active, b, db, gaps, k);
        if !RaisesAt(m, active, b, db, gaps, k, k) {
          var next := SyncOne(m, active, b.order[k], now[b.tasks[b.order[k]]].status).0;
          LoopRaisesIff(next, active, b, now, Rest(gaps), k + 1);
        }
      }
    }
  }

  // ---------------------------------------------------------------- the whole sync

  lemma SyncOfProof(slot: Slot, active: bool, db: T.Ledger, gaps: Gaps)
    requires InProof(slot)
    ensures var b := slot.binding.value;
      var (m, db', flow) := SyncLoop(slot.m, active, b.order, b.tasks, db, gaps);
      var (settled, outcome) := Settle(m, active, flow);
      Sync(slot, active, db, gaps) == (slot.(m := settled), db', outcome)
  {
  }

  /** A loop that fails the method does so in an active run. */
  lemma {:induction false} InactiveFlow(m: Method, order: seq<StepId>, tasks: map<StepId, T.TaskId>,
                                        db: T.Ledger, gaps: Gaps)
    ensures SyncLoop(m, false, order, tasks, db, gaps).2 != TaskFailed
    decreases |order|
  {
    if order != [] && order[0] in tasks {
      var now := AfterGap(db, gaps);
      if tasks[order[0]] in now && StepIndex(m.steps, order[0]).Some? {
        InactiveFlow(SyncOne(m, false, order[0], now[tasks[order[0]]].status).0, order[1..], tasks, now, Rest(gaps));
      }
    }
  }

  lemma InactiveFails(m: Method, active: bool, b: Binding, db: T.Ledger, gaps: Gaps)
    ensures SyncLoop(m, active, b.order, b.tasks, db, gaps).2 == TaskFailed ==> active
  {
    if !active {
      InactiveFlow(m, b.order, b.tasks, db, gaps);
    }
  }

  /**
   A sync of a method in proof, with any steps of workers between its reads, raises exactly when its loop
   does, or when an inactive run holds a method whose steps are all completed.
   */
  lemma InterleavedSyncRaisesIff(slot: Slot, active: bool, db: T.Ledger, gaps: Gaps)
    requires SlotInv(slot, db) && TT.LedgerInv(db) && InProof(slot)
    ensures Sync(slot, active, db, gaps).2 == Raised <==>
      LoopRaises(slot.m, active, slot.binding.value, db, gaps, 0) || (!active && AllStepsCompleted(slot.m))
  {
    var b := slot.binding.value;
    assert b.order[0..] == b.order;
    LoopRaisesIff(slot.m, active, b, db, gaps, 0);
    SyncLoopKeeps(slot.m, active, b.order, b, db, gaps);
    if !active {
      InactiveLoop(slot.m, b.order, b.tasks, db, gaps);
    }
    InactiveFails(slot.m, active, b, db, gaps);
  }

  ghost predicate NoFailureBefore(b: Binding, db: T.Ledger, gaps: Gaps, i: nat)
    requires i <= |b.order|
  {
    forall j: nat :: j < i ==> !Broken(b, TableAt(db, gaps, j), b.order[j])
  }

  ghost predicate LosesRace(slot: Slot, db: T.Ledger, gaps: Gaps)
    requires slot.binding.Some?
  {
    var b := slot.binding.value;
    exists i: nat :: i < |b.order| && Races(slot.m, b, db, gaps, 0, i) && NoFailureBefore(b, db, gaps, i)
  }

  lemma SameStops(b: Binding, db: T.Ledger, gaps: Gaps, i: nat)
    requires i <= |b.order|
    ensures NoStopBefore(true, b, db, gaps, 0, i) <==> NoFailureBefore(b, db, gaps, i)
  {
    forall j: nat | j < i
      ensures StopsAt(true, b, db, gaps, 0, j) <==> Broken(b, TableAt(db, gaps, j), b.order[j])
    {
    }
  }

  lemma OnlyRaces(m: Method, b: Binding, db: T.Ledger, gaps: Gaps, i: nat)
    requires b.tasks.Keys == Elements(b.order) && m.teammate.Some? && i < |b.order|
    ensures RaisesAt(m, true, b, db, gaps, 0, i) <==> Races(m, b, db, gaps, 0, i)
  {
    assert b.order[i] in Elements(b.order);
  }

  lemma EquippedLoopRaisesIff(slot: Slot, db: T.Ledger, gaps: Gaps)
    requires Materialized(slot) && slot.m.teammate.Some?
    ensures LoopRaises(slot.m, true, slot.binding.value, db, gaps, 0) <==> LosesRace(slot, db, gaps)
  {
    var m, b := slot.m, slot.binding.value;
    if LoopRaises(m, true, b, db, gaps, 0) {
      var i: nat :| i < |b.order| && RaisesAt(m, true, b, db, gaps, 0, i) && NoStopBefore(true, b, db, gaps, 0, i);
      OnlyRaces(m, b, db, gaps, i);
      SameStops(b, db, gaps, i);
    }
    if LosesRace(slot, db, gaps) {
      var i: nat :| i < |b.order| && Races(m, b, db, gaps, 0, i) && NoFailureBefore(b, db, gaps, i);
      OnlyRaces(m, b, db, gaps, i);
      SameStops(b, db, gaps, i);
    }
  }

  /**
   Activated in full, and the run active: a sync raises exactly when it loses a race. It reads the task of a
   pending step as started after it has read the task of one of the step's dependencies as unfinished.
   */
  lemma EquippedSyncRaisesIff(slot: Slot, db: T.Ledger, gaps: Gaps)
    requires SlotInv(slot, db) && TT.LedgerInv(db) && InProof(slot)
    requires Materialized(slot) && slot.m.teammate.Some?
    ensures Sync(slot, true, db, gaps).2 == Raised <==> LosesRace(slot, db, gaps)
  {
    InterleavedSyncRaisesIff(slot, true, db, gaps);
    EquippedLoopRaisesIff(slot, db, gaps);
  }

  // ---------------------------------------------------------------- only a completion makes it lose

  ghost predicate CompletesNothing(ops: seq<T.TaskOp>) {
    forall i :: 0 <= i < |ops| ==> !ops[i].Complete?
  }

  ghost predicate Quiet(gaps: Gaps) {
    forall g :: 0 <= g < |gaps| ==> CompletesNothing(gaps[g])
  }

  lemma {:induction false} ReplayCompletesNone(db: T.Ledger, ops: seq<T.TaskOp>, id: T.TaskId)
    requires CompletesNothing(ops) && id in db && db[id].status != T.Completed
    ensures id in T.Replay(db, ops) && T.Replay(db, ops)[id].status != T.Completed
    decreases |ops|
  {
    if ops != [] {
      ReplayCompletesNone(db, ops[..|ops| - 1], id);
    }
  }

  lemma {:induction false} QuietTable(db: T.Ledger, gaps: Gaps, n: nat, id: T.TaskId)
    requires Quiet(gaps) && id in db && db[id].status != T.Completed
    ensures id in TableAt(db, gaps, n) && TableAt(db, gaps, n)[id].status != T.Completed
    decreases n
  {
    if gaps != [] {
      ReplayCompletesNone(db, gaps[0], id);
    }
    if n > 0 {
      QuietTable(AfterGap(db, gaps), Rest(gaps), n - 1, id);
    }
  }

  lemma {:induction false} QuietTables(db: T.Ledger, gaps: Gaps, j: nat, i: nat, id: T.TaskId)
    requires Quiet(gaps) && j < i && id in TableAt(db, gaps, j) && TableAt(db, gaps, j)[id].status != T.Completed
    ensures id in TableAt(db, gaps, i) && TableAt(db, gaps, i)[id].status != T.Completed
    decreases j
  {
    if j == 0 {
      QuietTable(AfterGap(db, gaps), Rest(gaps), i - 1, id);
    } else {
      QuietTables(AfterGap(db, gaps), Rest(gaps), j - 1, i - 1, id);
    }
  }

  lemma {:induction false} TableKeepsSyncing(m: Method, b: Binding, db: T.Ledger, gaps: Gaps, n: nat)
    requires Syncing(m, b, db) && TT.LedgerInv(db)
    ensures Syncing(m, b, TableAt(db, gaps, n)) && TT.LedgerInv(TableAt(db, gaps, n))
    decreases n
  {
    GapKeepsSyncing(m, b, db, gaps);
    if n > 0 {
      TableKeepsSyncing(m, b, AfterGap(db, gaps), Rest(gaps), n - 1);
    }
  }

  /** Whatever a started task's step depends on has a completed task. */
  lemma StartedAfter(m: Method, b: Binding, now: T.Ledger, i: nat, j: nat)
    requires Syncing(m, b, now) && TT.LedgerInv(now) && j < i < |b.order| && DependsOn(m, b, i, j)
    requires ReadsStarted(b, now, b.order[i])
    ensures ReadsCompleted(b, now, b.order[j])
  {
    var g := GraphOf(PlanOf(m.steps));
    assert b.tasks[b.order[j]] in TaskSet(b.tasks, g[b.order[i]]);
  }

  lemma QuietHasNoRace(m: Method, b: Binding, db: T.Ledger, gaps: Gaps, i: nat)
    requires Syncing(m, b, db) && TT.LedgerInv(db) && i < |b.order| && Quiet(gaps)
    ensures !Races(m, b, db, gaps, 0, i)
  {
    if Races(m, b, db, gaps, 0, i) {
      var j: nat :| j < i && DependsOn(m, b, i, j) && LeftBehind(m, b, db, gaps, 0, i, j);
      TableKeepsSyncing(m, b, db, gaps, i);
      TableKeepsSyncing(m, b, db, gaps, j);
      StartedAfter(m, b, TableAt(db, gaps, i), i, j);
      QuietTables(db, gaps, j, i, b.tasks[b.order[j]]);
    }
  }

  /** While no task is completed between its reads, sync never raises, whatever else workers do. */
  lemma QuietSyncReturns(slot: Slot, db: T.Ledger, gaps: Gaps)
    requires SlotInv(slot, db) && TT.LedgerInv(db) && InProof(slot)
    requires Materialized(slot) && slot.m.teammate.Some? && Quiet(gaps)
    ensures Sync(slot, true, db, gaps).2 == Returned
  {
    EquippedSyncRaisesIff(slot, db, gaps);
    forall i: nat | i < |slot.binding.value.order|
      ensures !Races(slot.m, slot.binding.value, db, gaps, 0, i)
    {
      QuietHasNoRace(slot.m, slot.binding.value, db, gaps, i);
    }
  }
}
