/**
 Reachable trouble in a run that has begun its summary: a method still in proof, or one whose revision has just
 ended, can no longer be synced.
 */
module SummaryWitnesses {
  import opened Prelude
  import opened WorkflowModel
  import opened OrchestrationModel
  import opened SystemRuns
  import opened SystemWitnesses
  import T = TaskLedger

  // ---------------------------------------------------------------- two methods, one of them summarized

  ghost predicate Both(events: seq<Event>, first: Slot, second: Slot, db: T.Ledger) {
    At(events, Key(RUN, 1), first, db, MethodsActive) && At(events, Key(RUN, 2), second, db, MethodsActive)
  }

  lemma FirstMoves(events: seq<Event>, first: Slot, second: Slot, db: T.Ledger, e: Event)
    requires Both(events, first, second, db) && Legal(e) && OnKey(e) && e.key == Key(RUN, 1)
    requires first.binding.Some? ==> CallMethod(first, true, e, db).0.binding.Some?
    ensures Both(events + [e], CallMethod(first, true, e, db).0, second, CallMethod(first, true, e, db).1)
  {
    CallMoves(events, Key(RUN, 1), first, db, e);
    CallLeavesOthers(events, Key(RUN, 1), first, db, e, Key(RUN, 2), second);
  }

  lemma WorkerMovesBoth(events: seq<Event>, first: Slot, second: Slot, db: T.Ledger, op: T.TaskOp)
    requires Both(events, first, second, db)
    ensures Both(events + [Worker(op)], first, second, T.Apply(db, op).0)
  {
    WorkerMoves(events, Key(RUN, 1), first, db, MethodsActive, op);
    WorkerMoves(events, Key(RUN, 2), second, db, MethodsActive, op);
  }

  lemma WorkedBeside(events: seq<Event>, first: Slot, second: Slot, task: T.TaskId, db: T.Ledger)
    returns (events': seq<Event>)
    requires Both(events, first, second, db) && task in db && db[task] == OPEN_TASK
    ensures Both(events', first, second, db[task := DONE_TASK])
  {
    var db' := db[task := HELD_TASK];
    var claim, complete := Worker(T.Claim(task, "w", 0, 60)), Worker(T.Complete(task, "w", 1));
    Claims(db, task);
    WorkerMovesBoth(events, first, second, db, claim.op);
    Completes(db', task);
    WorkerMovesBoth(events + [claim], first, second, db', complete.op);
    assert db'[task := DONE_TASK] == db[task := DONE_TASK];
    events' := events + [claim] + [complete];
  }

  lemma FirstActivated(events: seq<Event>, name: string, task: T.TaskId, second: Slot, db: T.Ledger)
    returns (events': seq<Event>)
    requires Both(events, Slot(NewMethod(name), None, {}), second, db) && task !in db
    ensures Both(events', BoundSlot(InProofMethod(name, Some("prover"), StepPending), task), second, db[task := OPEN_TASK])
  {
    var activation := Activation(Key(RUN, 1), task, true);
    PlanIsWellFormed();
    Activates(name, task, true, db);
    FirstMoves(events, Slot(NewMethod(name), None, {}), second, db, activation);
    events' := events + [activation];
  }

  lemma FirstSynced(events: seq<Event>, name: string, task: T.TaskId, second: Slot, db: T.Ledger)
    returns (events': seq<Event>)
    requires task in db && db[task] == DONE_TASK
    requires Both(events, BoundSlot(InProofMethod(name, Some("prover"), StepPending), task), second, db)
    ensures Both(events', BoundSlot(Verifying(name), task), second, db)
  {
    var slot, sync := BoundSlot(InProofMethod(name, Some("prover"), StepPending), task), SyncMethod(Key(RUN, 1), []);
    SyncsToVerification(name, task, db);
    FirstMoves(events, slot, second, db, sync);
    events' := events + [sync];
  }

  /** The first method goes all the way to its second verdict while the other stays where it is. */
  lemma FirstVerified(events: seq<Event>, name: string, task: T.TaskId, second: Slot, db: T.Ledger)
    returns (events': seq<Event>, first: Slot)
    requires Both(events, Slot(NewMethod(name), None, {}), second, db) && task !in db
    ensures Both(events', first, second, db[task := DONE_TASK]) && first.m.stage == MethodCompleted
  {
    first := BoundSlot(InProofMethod(name, Some("prover"), StepPending), task);
    events' := FirstActivated(events, name, task, second, db);
    events' := WorkedBeside(events', first, second, task, db[task := OPEN_TASK]);
    assert db[task := OPEN_TASK][task := DONE_TASK] == db[task := DONE_TASK];
    events' := FirstSynced(events', name, task, second, db[task := DONE_TASK]);
    events', first := FirstAccepted(events', name, task, second, db[task := DONE_TASK]);
  }

  lemma FirstAccepted(events: seq<Event>, name: string, task: T.TaskId, second: Slot, db: T.Ledger)
    returns (events': seq<Event>, first: Slot)
    requires Both(events, BoundSlot(Verifying(name), task), second, db)
    ensures Both(events', first, second, db) && first.m.stage == MethodCompleted
  {
    var structural := RecordMethodVerdict(Key(RUN, 1), StructuralVerdict(Some(Done)));
    var detailed := RecordMethodVerdict(Key(RUN, 1), DetailedVerdict(Some(Done)));
    FirstMoves(events, BoundSlot(Verifying(name), task), second, db, structural);
    first := BoundSlot(ApplyMethod(Verifying(name), StructuralVerdict(Some(Done))).0, task);
    FirstMoves(events + [structural], first, second, db, detailed);
    first := BoundSlot(ApplyMethod(first.m, DetailedVerdict(Some(Done))).0, task);
    events' := events + [structural] + [detailed];
  }

  lemma SummaryBegins(events: seq<Event>, first: Slot, second: Slot, db: T.Ledger) returns (events': seq<Event>)
    requires Both(events, first, second, db) && first.m.stage == MethodCompleted
    ensures At(events', Key(RUN, 2), second, db, Summary)
  {
    var summary := OnRun(RUN, BeginSummary([1]));
    assert Distinct([1]) == [1] by {
      assert [1][..0] == [];
    }
    Extends(events, summary);
    events' := events + [summary];
  }

  /** The run moves to its summary while another method's task is held: the next sync of that method raises. */
  lemma SummarizedSyncRaises() returns (events: seq<Event>, key: Key)
    ensures AllLegal(events) && KnownKey(Reached(events), key) && Reached(events).runs[key.run].stage == Summary
    ensures SlotOf(Reached(events), key).m.stage == Proving && SlotOf(Reached(events), key).m.teammate.Some?
    ensures Sync(SlotOf(Reached(events), key), false, Reached(events).db, []).2 == Raised
  {
    key := Key(RUN, 2);
    var waiting := BoundSlot(InProofMethod("n", Some("prover"), StepPending), "u");
    events := SecondInProof(waiting);
    var first;
    events, first := FirstVerified(events, "m", "t", waiting, map["u" := HELD_TASK]);
    events := SummaryBegins(events, first, waiting, map["u" := HELD_TASK]["t" := DONE_TASK]);
    StartRefused(waiting.m, "u", map["u" := HELD_TASK]["t" := DONE_TASK], false);
  }

  lemma SecondActivated(events: seq<Event>, first: Slot, task: T.TaskId) returns (events': seq<Event>)
    requires Both(events, first, Slot(NewMethod("n"), None, {}), map[])
    ensures Both(events', first, BoundSlot(InProofMethod("n", Some("prover"), StepPending), task), map[task := OPEN_TASK])
  {
    var key, before := Key(RUN, 2), Slot(NewMethod("n"), None, {});
    var activation := Activation(key, task, true);
    PlanIsWellFormed();
    Activates("n", task, true, map[]);
    CallMoves(events, key, before, map[], activation);
    CallLeavesOthers(events, key, before, map[], activation, Key(RUN, 1), first);
    events' := events + [activation];
  }

  lemma SecondInProof(waiting: Slot) returns (events: seq<Event>)
    requires waiting == BoundSlot(InProofMethod("n", Some("prover"), StepPending), "u")
    ensures Both(events, Slot(NewMethod("m"), None, {}), waiting, map["u" := HELD_TASK])
  {
    var proposals := [Proposal("m", "m"), Proposal("n", "n")];
    var claim := Worker(T.Claim("u", "w", 0, 60));
    events := Surveyed(proposals);
    SurveyedMethod(events, proposals, 0);
    SurveyedMethod(events, proposals, 1);
    events := SecondActivated(events, Slot(NewMethod("m"), None, {}), "u");
    Claims(map["u" := OPEN_TASK], "u");
    WorkerMovesBoth(events, Slot(NewMethod("m"), None, {}), waiting, map["u" := OPEN_TASK], claim.op);
    assert map["u" := OPEN_TASK]["u" := HELD_TASK] == map["u" := HELD_TASK];
    events := events + [claim];
  }

  // ---------------------------------------------------------------- a revision that ends after the summary began

  lemma SecondMoves(events: seq<Event>, first: Slot, second: Slot, db: T.Ledger, e: Event)
    requires Both(events, first, second, db) && Legal(e) && OnKey(e) && e.key == Key(RUN, 2)
    requires second.binding.Some? ==> CallMethod(second, true, e, db).0.binding.Some?
    ensures Both(events + [e], first, CallMethod(second, true, e, db).0, CallMethod(second, true, e, db).1)
  {
    CallMoves(events, Key(RUN, 2), second, db, e);
    CallLeavesOthers(events, Key(RUN, 2), second, db, e, Key(RUN, 1), first);
  }

  lemma SecondProved(first: Slot, task: T.TaskId) returns (events: seq<Event>)
    requires first == Slot(NewMethod("m"), None, {})
    ensures Both(events, first, BoundSlot(Verifying("n"), task), map[task := DONE_TASK])
  {
    var proposals := [Proposal("m", "m"), Proposal("n", "n")];
    var second, sync := BoundSlot(InProofMethod("n", Some("prover"), StepPending), task), SyncMethod(Key(RUN, 2), []);
    events := Surveyed(proposals);
    SurveyedMethod(events, proposals, 0);
    SurveyedMethod(events, proposals, 1);
    events := SecondActivated(events, first, task);
    events := WorkedBeside(events, first, second, task, map[task := OPEN_TASK]);
    assert map[task := OPEN_TASK][task := DONE_TASK] == map[task := DONE_TASK];
    SyncsToVerification("n", task, map[task := DONE_TASK]);
    SecondMoves(events, first, second, map[task := DONE_TASK], sync);
    events := events + [sync];
  }

  /** The method under revision, with the revision's task bound. */
  function RevisingSlot(name: string, task: T.TaskId, revision: T.TaskId): Slot {
    Slot(Revising(name), Some(Binding(1, map["s" := task], ["s"], Some(revision))), {task} + {revision})
  }

  lemma SecondRevises(events: seq<Event>, first: Slot, task: T.TaskId, revision: T.TaskId, db: T.Ledger)
    returns (events': seq<Event>)
    requires Both(events, first, BoundSlot(Verifying("n"), task), db) && revision !in db
    ensures Both(events', first, RevisingSlot("n", task, revision), db[revision := OPEN_TASK])
  {
    var verdict := RecordMethodVerdict(Key(RUN, 2), StructuralVerdict(Some(Continue)));
    var revise := RegulateMethod(Key(RUN, 2), Some(ReviseProof), [revision], []);
    SecondMoves(events, first, BoundSlot(Verifying("n"), task), db, verdict);
    assert ApplyMethod(Verifying("n"), StructuralVerdict(Some(Continue))).0 == Regulated("n");
    RevisionBegins(task, revision, db);
    SecondMoves(events + [verdict], first, BoundSlot(Regulated("n"), task), db, revise);
    events' := events + [verdict] + [revise];
  }

  lemma RevisionBegins(task: T.TaskId, revision: T.TaskId, db: T.Ledger)
    requires revision !in db
    ensures RecordRegulation(BoundSlot(Regulated("n"), task), true, Some(ReviseProof), [revision], db, [])
      == (RevisingSlot("n", task, revision), db[revision := OPEN_TASK], Returned)
  {
    assert Elements<T.TaskId>([]) == {};
  }

  const BOTH_DONE: T.Ledger := map["u" := DONE_TASK, "v" := DONE_TASK]

  lemma RevisionWorked(events: seq<Event>, first: Slot, second: Slot) returns (events': seq<Event>)
    requires Both(events, first, second, map["u" := DONE_TASK]["v" := OPEN_TASK])
    ensures Both(events', first, second, BOTH_DONE)
  {
    events' := WorkedBeside(events, first, second, "v", map["u" := DONE_TASK]["v" := OPEN_TASK]);
    assert map["u" := DONE_TASK]["v" := OPEN_TASK]["v" := DONE_TASK] == BOTH_DONE;
  }

  lemma RevisionDone(first: Slot) returns (events: seq<Event>)
    requires first == Slot(NewMethod("m"), None, {})
    ensures Both(events, first, RevisingSlot("n", "u", "v"), BOTH_DONE)
  {
    events := SecondProved(first, "u");
    events := SecondRevises(events, first, "u", "v", map["u" := DONE_TASK]);
    events := RevisionWorked(events, first, RevisingSlot("n", "u", "v"));
  }

  /** The run moves to its summary while a revision of another method is done: its next sync raises. */
  lemma SummarizedRevisionRaises() returns (events: seq<Event>, key: Key)
    ensures AllLegal(events) && KnownKey(Reached(events), key) && Reached(events).runs[key.run].stage == Summary
    ensures var slot := SlotOf(Reached(events), key);
      && slot.m.revisionPending && slot.binding.Some? && slot.binding.value.revisionTask == Some("v")
      && "v" in Reached(events).db && Reached(events).db["v"].status == T.Completed
      && Sync(slot, false, Reached(events).db, []).2 == Raised
  {
    key := Key(RUN, 2);
    var first, second := Slot(NewMethod("m"), None, {}), RevisingSlot("n", "u", "v");
    events := RevisionDone(first);
    events, first := FirstVerified(events, "m", "t", second, BOTH_DONE);
    events := SummaryBegins(events, first, second, BOTH_DONE["t" := DONE_TASK]);
    InactiveRevision("u", "v", BOTH_DONE["t" := DONE_TASK]);
  }

  lemma InactiveRevision(task: T.TaskId, revision: T.TaskId, db: T.Ledger)
    requires revision in db && db[revision].status == T.Completed
    ensures Sync(RevisingSlot("n", task, revision), false, db, []).2 == Raised
  {
  }
}
