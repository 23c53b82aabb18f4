/**
 Restarts: the orchestrator saves an image of each run now and then, and a new process starts from the
 images, however stale, while the task table has moved on.
 */
module Restarts {
  import opened Prelude
  import opened WorkflowModel
  import opened WorkflowTheorems
  import opened OrchestrationModel
  import opened Agreement
  import opened SystemRuns
  import W = SystemWitnesses
  import T = TaskLedger
  import TT = TaskTheorems

  /** A run with its bindings. `issued` is the part of the history that the image knows of. */
  datatype Image = Image(run: Run, bindings: map<Key, Binding>, issued: map<Key, set<T.TaskId>>)

  datatype Machine = Machine(sys: Sys, saved: map<RunId, Image>)

  datatype MachineEvent =
    | Live(event: Event)
    | Save(run: RunId)
    /** A process restart is one such event for each run. */
    | Restore(run: RunId)

  ghost predicate LegalLive(e: MachineEvent) {
    e.Live? ==> Legal(e.event)
  }

  function ImageOf(sys: Sys, run: RunId): Image
    requires run in sys.runs
  {
    Image(sys.runs[run],
          map k | k in sys.bindings && k.run == run :: sys.bindings[k],
          map k | k in sys.issued && k.run == run :: sys.issued[k])
  }

  /** The system without the run. */
  function Dropped(sys: Sys, run: RunId): Sys {
    Sys(sys.runs - {run},
        map k | k in sys.bindings && k.run != run :: sys.bindings[k],
        map k | k in sys.issued && k.run != run :: sys.issued[k],
        sys.db)
  }

  function Restored(sys: Sys, run: RunId, image: Image): Sys {
    var rest := Dropped(sys, run);
    Sys(rest.runs[run := image.run], rest.bindings + image.bindings, rest.issued + image.issued, sys.db)
  }

  ghost function MachineStep(m: Machine, e: MachineEvent): Machine
    requires LegalLive(e)
  {
    match e
    case Live(event) => m.(sys := Step(m.sys, event))
    case Save(run) => if run in m.sys.runs then m.(saved := m.saved[run := ImageOf(m.sys, run)]) else m
    case Restore(run) =>
      m.(sys := if run in m.saved then Restored(m.sys, run, m.saved[run]) else Dropped(m.sys, run))
  }

  ghost predicate AllLegalLive(events: seq<MachineEvent>) {
    forall i :: 0 <= i < |events| ==> LegalLive(events[i])
  }

  ghost function MachineAfter(events: seq<MachineEvent>): Machine
    requires AllLegalLive(events)
    decreases |events|
  {
    if events == [] then Machine(EMPTY_SYS, map[])
    else MachineStep(MachineAfter(events[..|events| - 1]), events[|events| - 1])
  }

  // ---------------------------------------------------------------- images stay true

  ghost function ImageSlot(image: Image, key: Key): Slot
    requires Known(image.run, key.id)
  {
    Slot(MethodOf(image.run, key.id),
         if key in image.bindings then Some(image.bindings[key]) else None,
         if key in image.issued then image.issued[key] else {})
  }

  ghost predicate ImageInv(run: RunId, image: Image, db: T.Ledger) {
    && RunInv(image.run)
    && (forall k :: k in image.bindings || k in image.issued ==> k.run == run && Known(image.run, k.id))
    && (forall id :: Known(image.run, id) ==> SlotInv(ImageSlot(image, Key(run, id)), db))
  }

  ghost predicate MachineInv(m: Machine) {
    && SysInv(m.sys)
    && forall run :: run in m.saved ==> ImageInv(run, m.saved[run], m.sys.db)
  }

  /** What an image says of a method stays true of the table as workers go on. */
  lemma ImageKeeps(run: RunId, image: Image, db: T.Ledger, db': T.Ledger)
    requires ImageInv(run, image, db) && TT.Evolves(db, db')
    ensures ImageInv(run, image, db')
  {
    forall id | Known(image.run, id)
      ensures SlotInv(ImageSlot(image, Key(run, id)), db')
    {
      WorkersKeep(ImageSlot(image, Key(run, id)), db, db');
    }
  }

  lemma CallEvolves(sys: Sys, event: Event)
    requires SysInv(sys) && Legal(event) && OnKey(event) && KnownKey(sys, event.key)
    ensures TT.Evolves(sys.db, Step(sys, event).db)
  {
    assert SlotInv(SlotOf(sys, event.key), sys.db);
    CallKeeps(SlotOf(sys, event.key), ActiveRun(sys, event.key.run), event, sys.db);
  }

  lemma StepEvolves(sys: Sys, event: Event)
    requires SysInv(sys) && Legal(event)
    ensures TT.Evolves(sys.db, Step(sys, event).db)
  {
    if event.Worker? {
      TT.StepKeeps(sys.db, event.op);
    } else if OnKey(event) && KnownKey(sys, event.key) {
      CallEvolves(sys, event);
    } else {
      TableUntouched(sys, event);
    }
  }

  lemma TableUntouched(sys: Sys, event: Event)
    requires Legal(event) && !event.Worker? && !(OnKey(event) && KnownKey(sys, event.key))
    ensures Step(sys, event).db == sys.db && TT.Evolves(sys.db, sys.db)
  {
  }

  lemma ImageSlots(sys: Sys, run: RunId, id: MethodId)
    requires run in sys.runs && Known(sys.runs[run], id)
    ensures ImageSlot(ImageOf(sys, run), Key(run, id)) == SlotOf(sys, Key(run, id))
  {
  }

  lemma ImageKeys(sys: Sys, run: RunId, k: Key)
    requires SysInv(sys) && run in sys.runs
    requires k in ImageOf(sys, run).bindings || k in ImageOf(sys, run).issued
    ensures k.run == run && Known(sys.runs[run], k.id)
  {
    assert KnownKey(sys, k);
  }

  lemma SaveKeeps(sys: Sys, run: RunId)
    requires SysInv(sys) && run in sys.runs
    ensures ImageInv(run, ImageOf(sys, run), sys.db)
  {
    var image := ImageOf(sys, run);
    forall id | Known(image.run, id)
      ensures SlotInv(ImageSlot(image, Key(run, id)), sys.db)
    {
      ImageSlots(sys, run, id);
      assert KnownKey(sys, Key(run, id));
    }
    forall k | k in image.bindings || k in image.issued
      ensures k.run == run && Known(image.run, k.id)
    {
      ImageKeys(sys, run, k);
    }
  }

  lemma DroppedSlots(sys: Sys, run: RunId, k: Key)
    ensures KnownKey(Dropped(sys, run), k) <==> KnownKey(sys, k) && k.run != run
    ensures KnownKey(Dropped(sys, run), k) ==> SlotOf(Dropped(sys, run), k) == SlotOf(sys, k)
  {
  }

  lemma DropKeeps(sys: Sys, run: RunId)
    requires SysInv(sys)
    ensures SysInv(Dropped(sys, run))
  {
    var sys' := Dropped(sys, run);
    forall k
      ensures KnownKey(sys', k) ==> SlotInv(SlotOf(sys', k), sys.db)
      ensures k in sys'.bindings || k in sys'.issued ==> KnownKey(sys', k)
    {
      DroppedSlots(sys, run, k);
    }
    assert RunsInv(sys'.runs);
  }

  /** A restored run is its image; the others are as they were. */
  lemma RestoredSlots(sys: Sys, run: RunId, image: Image, k: Key)
    requires forall j :: j in image.bindings || j in image.issued ==> j.run == run
    ensures KnownKey(Restored(sys, run, image), k) <==>
      if k.run == run then Known(image.run, k.id) else KnownKey(Dropped(sys, run), k)
    ensures KnownKey(Restored(sys, run, image), k) ==>
      SlotOf(Restored(sys, run, image), k) ==
        if k.run == run then ImageSlot(image, k) else SlotOf(Dropped(sys, run), k)
  {
  }

  lemma RestoreKeeps(sys: Sys, run: RunId, image: Image)
    requires SysInv(sys) && ImageInv(run, image, sys.db)
    ensures SysInv(Restored(sys, run, image))
  {
    var rest, sys' := Dropped(sys, run), Restored(sys, run, image);
    DropKeeps(sys, run);
    forall k | KnownKey(sys', k)
      ensures SlotInv(SlotOf(sys', k), sys.db)
    {
      RestoredSlots(sys, run, image, k);
      if k.run == run {
        assert k == Key(run, k.id);
      }
    }
    forall k | k in sys'.bindings || k in sys'.issued
      ensures KnownKey(sys', k)
    {
      RestoredSlots(sys, run, image, k);
    }
    RestoredRuns(rest.runs, run, image.run);
  }

  lemma RestoredRuns(runs: map<RunId, Run>, run: RunId, image: Run)
    requires RunsInv(runs) && RunInv(image)
    ensures RunsInv(runs[run := image])
  {
  }

  lemma MachineStepKeeps(m: Machine, e: MachineEvent)
    requires MachineInv(m) && LegalLive(e)
    ensures MachineInv(MachineStep(m, e))
  {
    match e
    case Live(event) =>
      StepKeeps(m.sys, event);
      StepEvolves(m.sys, event);
      forall run | run in m.saved
        ensures ImageInv(run, m.saved[run], Step(m.sys, event).db)
      {
        ImageKeeps(run, m.saved[run], m.sys.db, Step(m.sys, event).db);
      }
    case Save(run) =>
      if run in m.sys.runs {
        SaveKeeps(m.sys, run);
      }
    case Restore(run) =>
      if run in m.saved {
        RestoreKeeps(m.sys, run, m.saved[run]);
      } else {
        DropKeeps(m.sys, run);
      }
  }

  /**
   The agreement survives restarts from images of any age: whatever workers did since an image was
   saved, its methods and the tasks they are bound to still tell the same story.
   */
  lemma {:induction false} AgreementSurvivesRestarts(events: seq<MachineEvent>)
    requires AllLegalLive(events)
    ensures MachineInv(MachineAfter(events))
    decreases |events|
  {
    if events != [] {
      AgreementSurvivesRestarts(events[..|events| - 1]);
      MachineStepKeeps(MachineAfter(events[..|events| - 1]), events[|events| - 1]);
    }
  }

  // ---------------------------------------------------------------- back to the latest save

  /** The system as it was when the run was last saved. */
  ghost function LastSaved(events: seq<MachineEvent>, run: RunId): Option<Sys>
    requires AllLegalLive(events)
    decreases |events|
  {
    if events == [] then None
    else
      var front, e := events[..|events| - 1], events[|events| - 1];
      if e == Save(run) && run in MachineAfter(front).sys.runs then Some(MachineAfter(front).sys) else LastSaved(front, run)
  }

  ghost predicate HoldsLastSave(m: Machine, run: RunId, last: Option<Sys>) {
    if run in m.saved then last.Some? && SysInv(last.value) && run in last.value.runs
      && m.saved[run] == ImageOf(last.value, run)
    else last.None?
  }

  lemma {:induction false} ImageIsLastSave(events: seq<MachineEvent>, run: RunId)
    requires AllLegalLive(events)
    ensures HoldsLastSave(MachineAfter(events), run, LastSaved(events, run))
    decreases |events|
  {
    if events != [] {
      var front := events[..|events| - 1];
      ImageIsLastSave(front, run);
      AgreementSurvivesRestarts(front);
    }
  }

  /**
   Over every run of the machine: a restore puts each method of the run back to what it was at the latest save, and
   forgets a run that was never saved. Other runs and the task table stay as they are.
   */
  lemma RestoreGoesBack(events: seq<MachineEvent>, run: RunId, key: Key)
    requires AllLegalLive(events)
    ensures var m, last := MachineAfter(events), LastSaved(events, run);
      var sys' := MachineStep(m, Restore(run)).sys;
      && sys'.db == m.sys.db
      && (if key.run != run then KnownKey(sys', key) <==> KnownKey(m.sys, key)
          else KnownKey(sys', key) <==> last.Some? && KnownKey(last.value, key))
      && (KnownKey(sys', key) ==>
            SlotOf(sys', key) == if key.run != run then SlotOf(m.sys, key) else SlotOf(last.value, key))
      && (run in sys'.runs <==> last.Some?)
      && (last.Some? ==> run in last.value.runs && sys'.runs[run] == last.value.runs[run])
  {
    var m, last := MachineAfter(events), LastSaved(events, run);
    ImageIsLastSave(events, run);
    DroppedSlots(m.sys, run, key);
    if run in m.saved {
      forall j | j in m.saved[run].bindings || j in m.saved[run].issued
        ensures j.run == run
      {
        ImageKeys(last.value, run, j);
      }
      RestoredSlots(m.sys, run, m.saved[run], key);
      if key.run == run && Known(last.value.runs[run], key.id) {
        assert key == Key(run, key.id);
        ImageSlots(last.value, run, key.id);
      }
    }
  }

  // ---------------------------------------------------------------- what a stale image loses

  /** The method is waiting for the task. */
  ghost predicate WaitsFor(slot: Slot, task: T.TaskId) {
    slot.binding.Some? && Awaited(slot.m, slot.binding.value, task)
  }

  ghost predicate Orphaned(slot: Slot, db: T.Ledger, task: T.TaskId)
    requires task in db
  {
    db[task].status != T.Completed && !WaitsFor(slot, task)
  }

  /** No task issued for the method is orphaned. */
  ghost predicate NoneOrphaned(slot: Slot, db: T.Ledger, issued: set<T.TaskId>) {
    issued <= db.Keys && forall t :: t in issued ==> !Orphaned(slot, db, t)
  }

  /** Every task a live process ever issued for the method: restores cut `issued` back, and not this. */
  ghost function Ever(events: seq<MachineEvent>, key: Key): set<T.TaskId>
    requires AllLegalLive(events)
    decreases |events|
  {
    (if events == [] then {} else Ever(events[..|events| - 1], key)) + IssuedNow(MachineAfter(events).sys, key)
  }

  ghost function IssuedNow(sys: Sys, key: Key): set<T.TaskId> {
    if KnownKey(sys, key) then SlotOf(sys, key).issued else {}
  }

  lemma IssuedIsStored(sys: Sys, key: Key)
    requires SysInv(sys)
    ensures IssuedNow(sys, key) <= sys.db.Keys
  {
    assert KnownKey(sys, key) ==> SlotInv(SlotOf(sys, key), sys.db);
  }

  lemma TableGrows(m: Machine, e: MachineEvent)
    requires MachineInv(m) && LegalLive(e)
    ensures m.sys.db.Keys <= MachineStep(m, e).sys.db.Keys
  {
    if e.Live? {
      StepEvolves(m.sys, e.event);
    }
  }

  /** The table forgets nothing: saves and restores do not touch it. */
  lemma {:induction false} EverIsStored(events: seq<MachineEvent>, key: Key)
    requires AllLegalLive(events)
    ensures Ever(events, key) <= MachineAfter(events).sys.db.Keys
    decreases |events|
  {
    AgreementSurvivesRestarts(events);
    IssuedIsStored(MachineAfter(events).sys, key);
    if events != [] {
      var front := events[..|events| - 1];
      EverIsStored(front, key);
      AgreementSurvivesRestarts(front);
      TableGrows(MachineAfter(front), events[|events| - 1]);
    }
  }

  lemma GoingBackOrphansIff(past: Slot, ever: set<T.TaskId>, db: T.Ledger)
    requires SlotInv(past, db) && ever <= db.Keys && past.m.stage !in {MethodFailed, Abandoned}
    ensures NoneOrphaned(past, db, ever) <==>
      (forall t :: t in ever && t !in past.issued ==> db[t].status == T.Completed)
  {
    forall t | t in ever && t !in past.issued
      ensures !WaitsFor(past, t)
    {
    }
    forall t | t in past.issued
      ensures !Orphaned(past, db, t)
    {
    }
  }

  /**
   After any run of the machine, earlier restores included, restoring a live method from its image
   orphans none of the tasks ever issued for it exactly when each one the image does not know of is
   completed.
   */
  lemma RestoreOrphansIff(events: seq<MachineEvent>, key: Key)
    requires AllLegalLive(events)
    requires var m := MachineAfter(events);
      key.run in m.saved && Known(m.saved[key.run].run, key.id)
      && MethodOf(m.saved[key.run].run, key.id).stage !in {MethodFailed, Abandoned}
    ensures var m := MachineAfter(events);
      var past, ever := ImageSlot(m.saved[key.run], key), Ever(events, key);
      var sys' := MachineStep(m, Restore(key.run)).sys;
      && KnownKey(sys', key) && SlotOf(sys', key) == past && sys'.db == m.sys.db && ever <= sys'.db.Keys
      && (NoneOrphaned(SlotOf(sys', key), sys'.db, ever) <==>
            forall t :: t in ever && t !in past.issued ==> m.sys.db[t].status == T.Completed)
  {
    var m := MachineAfter(events);
    var image := m.saved[key.run];
    AgreementSurvivesRestarts(events);
    EverIsStored(events, key);
    assert key == Key(key.run, key.id);
    RestoredSlots(m.sys, key.run, image, key);
    GoingBackOrphansIff(ImageSlot(image, key), Ever(events, key), m.sys.db);
  }

  // ---------------------------------------------------------------- a run that loses one

  function Lives(events: seq<Event>): seq<MachineEvent> {
    seq(|events|, i requires 0 <= i < |events| => Live(events[i]))
  }

  lemma {:induction false} LivesReach(events: seq<Event>)
    requires AllLegal(events)
    ensures AllLegalLive(Lives(events)) && MachineAfter(Lives(events)) == Machine(Reached(events), map[])
    decreases |events|
  {
    if events != [] {
      var front := events[..|events| - 1];
      LivesReach(front);
      assert Lives(events) == Lives(front) + [Live(events[|events| - 1])];
      MachineExtends(Lives(front), Live(events[|events| - 1]));
    }
  }

  lemma MachineExtends(events: seq<MachineEvent>, e: MachineEvent)
    requires AllLegalLive(events) && LegalLive(e)
    ensures AllLegalLive(events + [e]) && MachineAfter(events + [e]) == MachineStep(MachineAfter(events), e)
  {
    assert (events + [e])[..|events|] == events;
  }

  /** Saved, then activated: the image knows nothing of the task. */
  lemma SavedThenActivated(key: Key, task: T.TaskId) returns (events: seq<MachineEvent>, image: Image)
    requires key == Key(W.RUN, 1)
    ensures AllLegalLive(events)
    ensures var m := MachineAfter(events);
      && m.saved == map[key.run := image] && KnownKey(m.sys, key) && m.sys.db == map[task := W.OPEN_TASK]
      && SlotOf(m.sys, key) == W.BoundSlot(W.InProofMethod("m", Some("prover"), StepPending), task)
    ensures Known(image.run, key.id) && ImageSlot(image, key) == Slot(NewMethod("m"), None, {})
  {
    var live := W.OneMethod();
    var all := W.Activated(live, key, "m", task, true, map[]);
    W.Extends(live, W.Activation(key, task, true));
    LivesReach(live);
    MachineExtends(Lives(live), Save(W.RUN));
    MachineExtends(Lives(live) + [Save(W.RUN)], Live(W.Activation(key, task, true)));
    events, image := Lives(live) + [Save(W.RUN)] + [Live(W.Activation(key, task, true))], ImageOf(Reached(live), W.RUN);
    ImageSlots(Reached(live), W.RUN, 1);
  }

  /** What a restore from the image makes of a task issued since. */
  ghost predicate Loses(before: Slot, sys: Sys, key: Key, task: T.TaskId) {
    && task in before.issued && WaitsFor(before, task)
    && KnownKey(sys, key) && SlotOf(sys, key).m.stage == Decomposition
    && task in sys.db && T.CanStart(sys.db, task) && Orphaned(SlotOf(sys, key), sys.db, task)
  }

  lemma UnknownToImage(sys: Sys, key: Key, image: Image, task: T.TaskId)
    requires (forall j :: j in image.bindings || j in image.issued ==> j.run == key.run) && Known(image.run, key.id)
    requires ImageSlot(image, key) == Slot(NewMethod("m"), None, {}) && sys.db == map[task := W.OPEN_TASK]
    ensures var before := W.BoundSlot(W.InProofMethod("m", Some("prover"), StepPending), task);
      Loses(before, Restored(sys, key.run, image), key, task)
  {
    RestoredSlots(sys, key.run, image, key);
    assert "s" in map["s" := task];
  }

  lemma ImagesAreKeyed(events: seq<MachineEvent>, run: RunId)
    requires AllLegalLive(events) && run in MachineAfter(events).saved
    ensures var image := MachineAfter(events).saved[run];
      forall j :: j in image.bindings || j in image.issued ==> j.run == run
  {
    AgreementSurvivesRestarts(events);
  }

  /** After the restore the task is there to be claimed, and no method waits for it. */
  lemma StaleRestoreOrphans(task: T.TaskId) returns (events: seq<MachineEvent>, key: Key)
    ensures AllLegalLive(events) && key.run in MachineAfter(events).saved && KnownKey(MachineAfter(events).sys, key)
    ensures var m := MachineAfter(events);
      Loses(SlotOf(m.sys, key), MachineStep(m, Restore(key.run)).sys, key, task)
  {
    key := Key(W.RUN, 1);
    var image;
    events, image := SavedThenActivated(key, task);
    ImagesAreKeyed(events, key.run);
    UnknownToImage(MachineAfter(events).sys, key, image, task);
  }
}
