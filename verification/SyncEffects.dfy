/**
 What a sync does to its method, with workers acting between any two of its reads: which steps it moves, when it
 fails the method, and that it leaves alone every method that is neither in proof nor under revision.
 */
module SyncEffects {
  import opened Prelude
  import opened StepPlans
  import opened WorkflowModel
  import opened WorkflowTheorems
  import opened OrchestrationModel
  import opened Agreement
  import opened SyncAgreement
  import opened SyncTheorems
  import opened InterleavedSync
  import T = TaskLedger
  import TT = TaskTheorems

  // ---------------------------------------------------------------- where the loop ends

  /** Step `i` now stands where its task was read to stand. */
  ghost predicate Follows(m: Method, m': Method, b: Binding, db: T.Ledger, gaps: Gaps, k: nat, i: nat)
    requires k <= i < |b.order|
  {
    var s, now := b.order[i], TableAt(db, gaps, i - k);
    && StepIndex(m.steps, s).Some? && StepIndex(m'.steps, s).Some?
    && s in b.tasks && b.tasks[s] in now
    && StatusOf(m'.steps, s) == CaughtStatus(StatusOf(m.steps, s), now[b.tasks[s]].status)
  }

  ghost predicate Stays(m: Method, m': Method, s: StepId) {
    StepIndex(m.steps, s).Some? && StepIndex(m'.steps, s).Some? && StatusOf(m'.steps, s) == StatusOf(m.steps, s)
  }

  /** Nothing stops the loop before step `n`, counting from step `k`. */
  ghost predicate RunsTo(m: Method, active: bool, b: Binding, db: T.Ledger, gaps: Gaps, k: nat, n: nat)
    requires n <= |b.order|
  {
    forall i: nat :: k <= i < n ==> !RaisesAt(m, active, b, db, gaps, k, i) && !StopsAt(active, b, db, gaps, k, i)
  }

  /** How a loop that gets to step `n` and no further ends. */
  ghost predicate EndsAt(m: Method, active: bool, b: Binding, db: T.Ledger, gaps: Gaps, k: nat, n: nat, flow: Flow)
    requires k <= n <= |b.order|
  {
    && RunsTo(m, active, b, db, gaps, k, n)
    && (flow == Finished <==> n == |b.order|)
    && (flow == TaskFailed <==> n < |b.order| && StopsAt(active, b, db, gaps, k, n))
    && (flow == SyncError ==> RaisesAt(m, active, b, db, gaps, k, n))
  }

  /** The steps between `k` and `n` follow their tasks, the others stay. */
  ghost predicate MovedTo(m: Method, m': Method, b: Binding, db: T.Ledger, gaps: Gaps, k: nat, n: nat)
    requires k <= n <= |b.order|
  {
    && (forall i: nat :: k <= i < n ==> Follows(m, m', b, db, gaps, k, i))
    && (forall i: nat :: i < k || n <= i < |b.order| ==> i < |b.order| ==> Stays(m, m', b.order[i]))
  }

  /** A turn that is refused changes nothing. */
  lemma RefusedTurn(m: Method, active: bool, i: nat, status: T.TaskStatus)
    requires m.stage == Proving && i < |m.steps| && Unique(Ids(PlanOf(m.steps)))
    ensures StepIndex(m.steps, m.steps[i].id) == Some(i)
    ensures SyncOne(m, active, m.steps[i].id, status).1 != Accepted ==>
      SyncOne(m, active, m.steps[i].id, status).0 == m && (active ==> m.steps[i].status == StepPending)
  {
    IndexOfStep(m.steps, i);
    var started := WithStatus(m, i, StepInProgress);
    StatusKeepsPlan(m, i, StepInProgress);
    IndexOfStep(started.steps, i);
  }

  /** The method after a loop: its steps have moved, and it has failed if the loop found a failed task. */
  ghost predicate OnlyMoved(m: Method, m': Method, flow: Flow) {
    && PlanOf(m'.steps) == PlanOf(m.steps)
    && m' == m.(steps := m'.steps, stage := if flow == TaskFailed then MethodFailed else m.stage)
  }

  ghost predicate LoopEnd(m: Method, active: bool, b: Binding, db: T.Ledger, gaps: Gaps, k: nat, n: nat,
                          end: (Method, T.Ledger, Flow))
    requires k <= n <= |b.order|
  {
    && EndsAt(m, active, b, db, gaps, k, n, end.2)
    && MovedTo(m, end.0, b, db, gaps, k, n)
    && OnlyMoved(m, end.0, end.2)
  }

  lemma StopEnds(m: Method, active: bool, b: Binding, db: T.Ledger, gaps: Gaps, k: nat)
    requires k < |b.order| && (b.order[k] !in b.tasks || Broken(b, AfterGap(db, gaps), b.order[k]))
    ensures EndsAt(m, active, b, db, gaps, k, k, if b.order[k] in b.tasks && active then TaskFailed else SyncError)
  {
  }

  lemma RefusalEnds(m: Method, active: bool, b: Binding, db: T.Ledger, gaps: Gaps, k: nat)
    requires k < |b.order| && !Broken(b, AfterGap(db, gaps), b.order[k]) && RaisesAt(m, active, b, db, gaps, k, k)
    ensures EndsAt(m, active, b, db, gaps, k, k, SyncError)
  {
  }

  lemma AllStay(m: Method, m': Method, b: Binding, db: T.Ledger, gaps: Gaps, k: nat)
    requires WellFormedPlan(PlanOf(m.steps)) && IsTopological(GraphOf(PlanOf(m.steps)), b.order)
    requires m'.steps == m.steps && k <= |b.order|
    ensures MovedTo(m, m', b, db, gaps, k, k)
  {
    forall i: nat | i < |b.order|
      ensures StepIndex(m.steps, b.order[i]).Some?
    {
      assert b.order[i] in Elements(b.order);
      var j := StepInGraph(m.steps, b.order[i]);
    }
  }

  lemma StopFacts(m: Method, active: bool, b: Binding, db: T.Ledger, gaps: Gaps, k: nat)
    requires Syncing(m, b, db) && TT.LedgerInv(db) && k < |b.order|
    requires b.order[k] !in b.tasks || Broken(b, AfterGap(db, gaps), b.order[k])
    ensures SyncLoop(m, active, b.order[k..], b.tasks, db, gaps)
      == if b.order[k] !in b.tasks then (m, db, SyncError)
         else (OnActive(m, active, FailMethod).0, AfterGap(db, gaps), if active then TaskFailed else SyncError)
  {
    GapKeepsSyncing(m, b, db, gaps);
    StepIsThere(m, b, AfterGap(db, gaps), k);
    LoopHead(m, active, b, db, gaps, k);
  }

  lemma RefusalFacts(m: Method, active: bool, b: Binding, db: T.Ledger, gaps: Gaps, k: nat)
    requires Syncing(m, b, db) && TT.LedgerInv(db) && k < |b.order|
    requires b.order[k] in b.tasks && !Broken(b, AfterGap(db, gaps), b.order[k])
    requires RaisesAt(m, active, b, db, gaps, k, k)
    ensures SyncLoop(m, active, b.order[k..], b.tasks, db, gaps) == (m, AfterGap(db, gaps), SyncError)
  {
    var now := AfterGap(db, gaps);
    GapKeepsSyncing(m, b, db, gaps);
    StepIsThere(m, b, now, k);
    LoopHead(m, active, b, db, gaps, k);
    TurnTurns(m, active, b, db, gaps, k);
    RefusedTurn(m, active, StepIndex(m.steps, b.order[k]).value, now[b.tasks[b.order[k]]].status);
  }

  lemma Unmoved(m: Method, m': Method, flow: Flow)
    requires m.stage == Proving && !m.revisionPending
    requires m' == if flow == TaskFailed then ApplyMethod(m, FailMethod).0 else m
    ensures OnlyMoved(m, m', flow) && m'.steps == m.steps
  {
  }

  lemma UnmovedEnd(m: Method, active: bool, b: Binding, db: T.Ledger, gaps: Gaps, k: nat, end: (Method, T.Ledger, Flow))
    requires Syncing(m, b, db) && k <= |b.order| && EndsAt(m, active, b, db, gaps, k, k, end.2)
    requires end.0 == if end.2 == TaskFailed then ApplyMethod(m, FailMethod).0 else m
    ensures LoopEnd(m, active, b, db, gaps, k, k, end)
  {
    Unmoved(m, end.0, end.2);
    AllStay(m, end.0, b, db, gaps, k);
  }

  lemma EndOnTask(m: Method, active: bool, b: Binding, db: T.Ledger, gaps: Gaps, k: nat)
    requires Syncing(m, b, db) && TT.LedgerInv(db) && k < |b.order|
    requires b.order[k] !in b.tasks || Broken(b, AfterGap(db, gaps), b.order[k])
    ensures LoopEnd(m, active, b, db, gaps, k, k, SyncLoop(m, active, b.order[k..], b.tasks, db, gaps))
  {
    StopFacts(m, active, b, db, gaps, k);
    StopEnds(m, active, b, db, gaps, k);
    UnmovedEnd(m, active, b, db, gaps, k, SyncLoop(m, active, b.order[k..], b.tasks, db, gaps));
  }

  lemma EndOnRefusal(m: Method, active: bool, b: Binding, db: T.Ledger, gaps: Gaps, k: nat)
    requires Syncing(m, b, db) && TT.LedgerInv(db) && k < |b.order|
    requires b.order[k] in b.tasks && !Broken(b, AfterGap(db, gaps), b.order[k])
    requires RaisesAt(m, active, b, db, gaps, k, k)
    ensures LoopEnd(m, active, b, db, gaps, k, k, SyncLoop(m, active, b.order[k..], b.tasks, db, gaps))
  {
    RefusalFacts(m, active, b, db, gaps, k);
    RefusalEnds(m, active, b, db, gaps, k);
    UnmovedEnd(m, active, b, db, gaps, k, (m, AfterGap(db, gaps), SyncError));
  }

  /** The loop ends at step `k`, on a task it misses, finds failed or has no use for. */
  lemma EndHere(m: Method, active: bool, b: Binding, db: T.Ledger, gaps: Gaps, k: nat)
    requires Syncing(m, b, db) && TT.LedgerInv(db) && k < |b.order|
    requires RaisesAt(m, active, b, db, gaps, k, k) || StopsAt(active, b, db, gaps, k, k)
    ensures LoopEnd(m, active, b, db, gaps, k, k, SyncLoop(m, active, b.order[k..], b.tasks, db, gaps))
  {
    if b.order[k] !in b.tasks || Broken(b, AfterGap(db, gaps), b.order[k]) {
      EndOnTask(m, active, b, db, gaps, k);
    } else {
      EndOnRefusal(m, active, b, db, gaps, k);
    }
  }

  // ---------------------------------------------------------------- from one step to the next

  lemma OnlyStatusMoves(m: Method, m': Method, i: nat)
    requires i < |m.steps| && OnlyStatus(m, m', i)
    ensures OnlyMoved(m, m', Finished)
  {
    StatusKeepsPlan(m, i, StepInProgress);
    StatusKeepsPlan(m, i, StepCompleted);
  }

  lemma TurnFollows(m: Method, active: bool, b: Binding, db: T.Ledger, gaps: Gaps, k: nat)
    requires var now := AfterGap(db, gaps);
      Syncing(m, b, now) && k < |b.order| && b.order[k] in b.tasks && !Broken(b, now, b.order[k])
    requires !RaisesAt(m, active, b, db, gaps, k, k)
    ensures b.tasks[b.order[k]] in AfterGap(db, gaps) && StepIndex(m.steps, b.order[k]).Some?
    ensures var next := SyncOne(m, active, b.order[k], AfterGap(db, gaps)[b.tasks[b.order[k]]].status).0;
      Follows(m, next, b, db, gaps, k, k) && OnlyMoved(m, next, Finished)
  {
    var now := AfterGap(db, gaps);
    var i := TurnRaisesIff(m, active, b, db, gaps, k);
    SyncOneMoves(m, active, i, now[b.tasks[b.order[k]]].status);
    var next := SyncOne(m, active, b.order[k], now[b.tasks[b.order[k]]].status).0;
    IndexOfStep(next.steps, i);
    OnlyStatusMoves(m, next, i);
  }

  /** A turn that goes through: the step follows its task, and only the steps of the method change. */
  lemma PassHere(m: Method, active: bool, b: Binding, db: T.Ledger, gaps: Gaps, k: nat) returns (next: Method)
    requires Syncing(m, b, db) && TT.LedgerInv(db) && k < |b.order|
    requires !RaisesAt(m, active, b, db, gaps, k, k) && !StopsAt(active, b, db, gaps, k, k)
    ensures Syncing(next, b, AfterGap(db, gaps)) && TT.LedgerInv(AfterGap(db, gaps))
    ensures SyncLoop(m, active, b.order[k..], b.tasks, db, gaps)
      == SyncLoop(next, active, b.order[k + 1..], b.tasks, AfterGap(db, gaps), Rest(gaps))
    ensures Turned(m, next, b, AfterGap(db, gaps), k) && Follows(m, next, b, db, gaps, k, k)
    ensures OnlyMoved(m, next, Finished)
  {
    var now := AfterGap(db, gaps);
    assert b.order[k] in b.tasks && !Broken(b, now, b.order[k]);
    GapKeepsSyncing(m, b, db, gaps);
    TurnTurns(m, active, b, db, gaps, k);
    LoopHead(m, active, b, db, gaps, k);
    TurnFollows(m, active, b, db, gaps, k);
    next := SyncOne(m, active, b.order[k], now[b.tasks[b.order[k]]].status).0;
  }

  lemma EndsShift(m: Method, next: Method, active: bool, b: Binding, db: T.Ledger, gaps: Gaps, k: nat, k': nat,
                  n: nat, flow: Flow)
    requires k < k' == k + 1 <= n <= |b.order| && Turned(m, next, b, AfterGap(db, gaps), k)
    requires !RaisesAt(m, active, b, db, gaps, k, k) && !StopsAt(active, b, db, gaps, k, k)
    requires EndsAt(next, active, b, AfterGap(db, gaps), Rest(gaps), k', n, flow)
    ensures EndsAt(m, active, b, db, gaps, k, n, flow)
  {
    forall i: nat | k < i < |b.order|
      ensures RaisesAt(m, active, b, db, gaps, k, i) <==>
        RaisesAt(next, active, b, AfterGap(db, gaps), Rest(gaps), k', i)
      ensures StopsAt(active, b, db, gaps, k, i) <==> StopsAt(active, b, AfterGap(db, gaps), Rest(gaps), k', i)
    {
      RaisesShift(m, next, active, b, db, gaps, k, i);
    }
  }

  lemma MovedShift(m: Method, next: Method, m': Method, b: Binding, db: T.Ledger, gaps: Gaps, k: nat, k': nat, n: nat)
    requires k < k' == k + 1 <= n <= |b.order| && Turned(m, next, b, AfterGap(db, gaps), k)
    requires Follows(m, next, b, db, gaps, k, k) && MovedTo(next, m', b, AfterGap(db, gaps), Rest(gaps), k', n)
    ensures MovedTo(m, m', b, db, gaps, k, n)
  {
    forall i: nat | i < |b.order| && i != k
      ensures Stays(m, next, b.order[i])
    {
      assert b.order[i] in b.order && b.order[i] != b.order[k];
    }
    forall i: nat | k <= i < n
      ensures Follows(m, m', b, db, gaps, k, i)
    {
      if i == k {
        assert Stays(next, m', b.order[k]);
      } else {
        assert Follows(next, m', b, AfterGap(db, gaps), Rest(gaps), k', i);
      }
    }
    forall i: nat | i < |b.order| && (i < k || n <= i)
      ensures Stays(m, m', b.order[i])
    {
      assert Stays(next, m', b.order[i]);
    }
  }

  lemma MovedTwice(m: Method, next: Method, m': Method, flow: Flow)
    requires OnlyMoved(m, next, Finished) && OnlyMoved(next, m', flow)
    ensures OnlyMoved(m, m', flow)
  {
  }

  lemma EndShifts(m: Method, next: Method, active: bool, b: Binding, db: T.Ledger, gaps: Gaps, k: nat, k': nat,
                  n: nat, end: (Method, T.Ledger, Flow))
    requires k < k' == k + 1 <= n <= |b.order| && Turned(m, next, b, AfterGap(db, gaps), k)
    requires !RaisesAt(m, active, b, db, gaps, k, k) && !StopsAt(active, b, db, gaps, k, k)
    requires Follows(m, next, b, db, gaps, k, k) && OnlyMoved(m, next, Finished)
    requires LoopEnd(next, active, b, AfterGap(db, gaps), Rest(gaps), k', n, end)
    ensures LoopEnd(m, active, b, db, gaps, k, n, end)
  {
    EndsShift(m, next, active, b, db, gaps, k, k', n, end.2);
    MovedShift(m, next, end.0, b, db, gaps, k, k', n);
    MovedTwice(m, next, end.0, end.2);
  }

  lemma LoopIsOver(m: Method, active: bool, b: Binding, db: T.Ledger, gaps: Gaps, k: nat)
    requires Syncing(m, b, db) && k == |b.order|
    ensures LoopEnd(m, active, b, db, gaps, k, k, SyncLoop(m, active, b.order[k..], b.tasks, db, gaps))
  {
    UnmovedEnd(m, active, b, db, gaps, k, (m, db, Finished));
  }

  lemma {:induction false} LoopGoesOn(m: Method, active: bool, b: Binding, db: T.Ledger, gaps: Gaps, k: nat) returns (n: nat)
    requires Syncing(m, b, db) && TT.LedgerInv(db) && k < |b.order|
    requires !RaisesAt(m, active, b, db, gaps, k, k) && !StopsAt(active, b, db, gaps, k, k)
    ensures k <= n <= |b.order|
    ensures LoopEnd(m, active, b, db, gaps, k, n, SyncLoop(m, active, b.order[k..], b.tasks, db, gaps))
    decreases |b.order| - k, 0
  {
    var next := PassHere(m, active, b, db, gaps, k);
    n := LoopEffect(next, active, b, AfterGap(db, gaps), Rest(gaps), k + 1);
    EndShifts(m, next, active, b, db, gaps, k, k + 1, n, SyncLoop(m, active, b.order[k..], b.tasks, db, gaps));
  }

  /** The loop gets to the first step that stops it, and to no other; the steps before it follow their tasks. */
  lemma {:induction false} LoopEffect(m: Method, active: bool, b: Binding, db: T.Ledger, gaps: Gaps, k: nat) returns (n: nat)
    requires Syncing(m, b, db) && TT.LedgerInv(db) && k <= |b.order|
    ensures k <= n <= |b.order|
    ensures LoopEnd(m, active, b, db, gaps, k, n, SyncLoop(m, active, b.order[k..], b.tasks, db, gaps))
    decreases |b.order| - k, 1
  {
    n := k;
    if k == |b.order| {
      LoopIsOver(m, active, b, db, gaps, k);
    } else if RaisesAt(m, active, b, db, gaps, k, k) || StopsAt(active, b, db, gaps, k, k) {
      EndHere(m, active, b, db, gaps, k);
    } else {
      n := LoopGoesOn(m, active, b, db, gaps, k);
    }
  }

  // ---------------------------------------------------------------- the whole sync

  /** Where a sync leaves a method in proof whose loop got to step `n`. */
  ghost predicate SettledAt(slot: Slot, slot': Slot, outcome: Outcome, active: bool, db: T.Ledger, gaps: Gaps, n: nat)
    requires slot.binding.Some? && n <= |slot.binding.value.order|
  {
    var b := slot.binding.value;
    if n < |b.order| && StopsAt(active, b, db, gaps, 0, n) then
      slot'.m.stage == MethodFailed && outcome == Returned
    else if n < |b.order| then
      RaisesAt(slot.m, active, b, db, gaps, 0, n) && slot'.m.stage == Proving && outcome == Raised
    else if AllStepsCompleted(slot'.m) then
      if active then slot'.m.stage == StructuralVerify && outcome == Returned
      else slot'.m.stage == Proving && outcome == Raised
    else
      slot'.m.stage == Proving && outcome == Returned
  }

  lemma SettleFacts(m: Method, m': Method, active: bool, flow: Flow)
    requires m.stage == Proving && !m.revisionPending && OnlyMoved(m, m', flow)
    ensures var (settled, outcome) := Settle(m', active, flow);
      && settled == m'.(stage := settled.stage)
      && match flow
         case SyncError => settled.stage == Proving && outcome == Raised
         case TaskFailed => settled.stage == MethodFailed && outcome == Returned
         case Finished =>
           settled.stage == (if active && AllStepsCompleted(m') then StructuralVerify else Proving)
           && (outcome == Raised <==> !active && AllStepsCompleted(m'))
  {
  }

  lemma MovedKeepsSteps(m: Method, m': Method, m'': Method, b: Binding, db: T.Ledger, gaps: Gaps, n: nat)
    requires n <= |b.order| && MovedTo(m, m', b, db, gaps, 0, n) && m''.steps == m'.steps
    ensures MovedTo(m, m'', b, db, gaps, 0, n)
  {
    forall i: nat | i < n
      ensures Follows(m, m'', b, db, gaps, 0, i)
    {
      assert Follows(m, m', b, db, gaps, 0, i);
    }
    forall i: nat | n <= i < |b.order|
      ensures Stays(m, m'', b.order[i])
    {
      assert Stays(m, m', b.order[i]);
    }
  }

  lemma LoopSettles(slot: Slot, active: bool, db: T.Ledger, gaps: Gaps, n: nat, end: (Method, T.Ledger, Flow))
    requires InProof(slot) && n <= |slot.binding.value.order|
    requires LoopEnd(slot.m, active, slot.binding.value, db, gaps, 0, n, end)
    ensures var (settled, outcome) := Settle(end.0, active, end.2);
      var slot' := slot.(m := settled);
      && MovedTo(slot.m, settled, slot.binding.value, db, gaps, 0, n)
      && SettledAt(slot, slot', outcome, active, db, gaps, n)
      && PlanOf(settled.steps) == PlanOf(slot.m.steps)
      && slot' == slot.(m := slot.m.(steps := settled.steps, stage := settled.stage))
  {
    SettleFacts(slot.m, end.0, active, end.2);
    MovedKeepsSteps(slot.m, end.0, Settle(end.0, active, end.2).0, slot.binding.value, db, gaps, n);
  }

  /**
   A sync of a method in proof, whatever workers do between its reads. It gets to the first step that stops it.
   The steps before that one now stand where their tasks were read to stand, the others are untouched. A failed
   task there fails the method, anything else there raises, and a method that gets through with every step
   completed goes to structural verification. Nothing else of the method or its binding changes.
   */
  lemma ProofSyncEffect(slot: Slot, active: bool, db: T.Ledger, gaps: Gaps) returns (n: nat)
    requires SlotInv(slot, db) && TT.LedgerInv(db) && InProof(slot)
    ensures n <= |slot.binding.value.order| && RunsTo(slot.m, active, slot.binding.value, db, gaps, 0, n)
    ensures var (slot', _, outcome) := Sync(slot, active, db, gaps);
      && MovedTo(slot.m, slot'.m, slot.binding.value, db, gaps, 0, n)
      && SettledAt(slot, slot', outcome, active, db, gaps, n)
      && PlanOf(slot'.m.steps) == PlanOf(slot.m.steps)
      && slot' == slot.(m := slot.m.(steps := slot'.m.steps, stage := slot'.m.stage))
  {
    var b := slot.binding.value;
    assert b.order[0..] == b.order;
    n := LoopEffect(slot.m, active, b, db, gaps, 0);
    LoopSettles(slot, active, db, gaps, n, SyncLoop(slot.m, active, b.order, b.tasks, db, gaps));
    SyncOfProof(slot, active, db, gaps);
  }

  /** A method that is neither in proof nor under revision: the sync reads nothing and changes nothing. */
  lemma SyncLeavesAlone(slot: Slot, active: bool, db: T.Ledger, gaps: Gaps)
    requires slot.m.stage != Proving && !slot.m.revisionPending
    ensures Sync(slot, active, db, gaps) == (slot, db, if slot.binding.Some? then Returned else Raised)
  {
  }

  /** A sync of a method under revision does what the one read of its revision task says. */
  lemma RevisionSyncEffect(slot: Slot, active: bool, db: T.Ledger, gaps: Gaps)
    requires SlotInv(slot, db) && TT.LedgerInv(db) && slot.m.revisionPending
    requires slot.binding.Some? && slot.binding.value.revisionTask.Some?
    ensures var b := slot.binding.value;
      && b.revisionTask.value in AfterGap(db, gaps)
      && var status := AfterGap(db, gaps)[b.revisionTask.value].status;
         var (slot', db', outcome) := Sync(slot, active, db, gaps);
         && db' == AfterGap(db, gaps)
         && (outcome == Raised <==> !active && status in {T.Completed, T.Failed, T.Cancelled})
         && slot' ==
            if active && status in {T.Failed, T.Cancelled} then
              slot.(m := slot.m.(stage := MethodFailed, revisionPending := false))
            else if active && status == T.Completed then
              slot.(m := slot.m.(stage := StructuralVerify, revisionPending := false),
                    binding := Some(b.(revisionTask := None)))
            else slot
  {
    GapKeeps(db, gaps);
  }

  // ---------------------------------------------------------------- sync only reads the table

  /** The table once sync has read it `seen` times. */
  function TableAfter(db: T.Ledger, gaps: Gaps, seen: nat): T.Ledger {
    if seen == 0 then db else TableAt(db, gaps, seen - 1)
  }

  lemma {:induction false} LoopWritesNothing(m: Method, active: bool, order: seq<StepId>, tasks: map<StepId, T.TaskId>,
                                             db: T.Ledger, gaps: Gaps) returns (seen: nat)
    ensures seen <= |order| && SyncLoop(m, active, order, tasks, db, gaps).1 == TableAfter(db, gaps, seen)
    decreases |order|
  {
    if order == [] || order[0] !in tasks {
      seen := 0;
    } else {
      var now, task := AfterGap(db, gaps), tasks[order[0]];
      seen := 1;
      if task in now && StepIndex(m.steps, order[0]).Some? && now[task].status !in {T.Failed, T.Cancelled} {
        var (next, reply) := SyncOne(m, active, order[0], now[task].status);
        if reply == Accepted {
          var more := LoopWritesNothing(next, active, order[1..], tasks, now, Rest(gaps));
          seen := more + 1;
        }
      }
    }
  }

  /** For every slot: what a sync leaves in the table is what workers wrote before one of its reads. */
  lemma SyncWritesNothing(slot: Slot, active: bool, db: T.Ledger, gaps: Gaps) returns (seen: nat)
    ensures Sync(slot, active, db, gaps).1 == TableAfter(db, gaps, seen)
  {
    seen := 0;
    if slot.binding.Some? && !Terminal(slot.m.stage) {
      if slot.m.revisionPending {
        seen := if slot.binding.value.revisionTask.Some? then 1 else 0;
      } else if slot.m.stage == Proving {
        seen := LoopWritesNothing(slot.m, active, slot.binding.value.order, slot.binding.value.tasks, db, gaps);
      }
    }
  }

  // ---------------------------------------------------------------- a method fails only with a task

  lemma SyncOneStage(m: Method, active: bool, id: StepId, status: T.TaskStatus)
    requires StepIndex(m.steps, id).Some?
    ensures SyncOne(m, active, id, status).0.stage == m.stage
  {
  }

  lemma {:induction false} LoopFailsOnly(m: Method, active: bool, order: seq<StepId>, b: Binding,
                                         db: T.Ledger, gaps: Gaps)
    requires m.stage != MethodFailed && SyncLoop(m, active, order, b.tasks, db, gaps).0.stage == MethodFailed
    ensures exists i: nat :: i < |order| && Broken(b, TableAt(db, gaps, i), order[i])
    decreases |order|
  {
    var now := AfterGap(db, gaps);
    if Broken(b, now, order[0]) {
      assert Broken(b, TableAt(db, gaps, 0), order[0]);
    } else {
      var status := now[b.tasks[order[0]]].status;
      var next := SyncOne(m, active, order[0], status).0;
      SyncOneStage(m, active, order[0], status);
      LoopFailsOnly(next, active, order[1..], b, now, Rest(gaps));
      var i: nat :| i < |order[1..]| && Broken(b, TableAt(now, Rest(gaps), i), order[1..][i]);
      assert Broken(b, TableAt(db, gaps, i + 1), order[i + 1]);
    }
  }

  /** For every slot and every gap: what a sync newly fails had a task that the sync read as failed or cancelled. */
  lemma SyncFailsOnlyWithTask(slot: Slot, active: bool, db: T.Ledger, gaps: Gaps)
    requires slot.m.stage != MethodFailed && Sync(slot, active, db, gaps).0.m.stage == MethodFailed
    ensures slot.binding.Some?
    ensures var b := slot.binding.value;
      if slot.m.revisionPending then
        b.revisionTask.Some? && b.revisionTask.value in AfterGap(db, gaps)
        && AfterGap(db, gaps)[b.revisionTask.value].status in {T.Failed, T.Cancelled}
      else
        exists i: nat :: i < |b.order| && Broken(b, TableAt(db, gaps, i), b.order[i])
  {
    var b := slot.binding.value;
    if !slot.m.revisionPending {
      var (m, _, flow) := SyncLoop(slot.m, active, b.order, b.tasks, db, gaps);
      assert Settle(m, active, flow).0.stage == MethodFailed ==> m.stage == MethodFailed;
      LoopFailsOnly(slot.m, active, b.order, b, db, gaps);
    }
  }
}
