/** One scheduler process over the shared store: the loops of a tick and of one-shot reconciliation. */
module CronScheduler {
  import opened Prelude
  import opened CronDispatch
  import CronExpr
  import opened CronText

  datatype Enqueued = Refused | Existing | Created

  /** The schedule and job tables, as far as dispatch uses them. */
  class CronStore {
    var schedules: map<ScheduleId, Schedule>
    var jobs: map<JobId, Option<Occurrence>>
    /** The expression column of the schedules table. */
    var crons: map<ScheduleId, string>

    constructor ()
      ensures schedules == map[] && jobs == map[] && crons == map[]
    {
      schedules, jobs, crons := map[], map[], map[];
    }

    /** `Refused` stands for the two errors: an empty key, or a key held by another job. */
    method EnqueueScheduledPrompt(id: ScheduleId, marker: Marker) returns (outcome: Enqueued)
      modifies `jobs
      ensures var key := OccurrenceId(id, marker);
        match outcome
        case Created =>
          && key.Some? && key.value !in old(jobs)
          && jobs == old(jobs)[key.value := Some(Occurrence(id, marker))]
        case Existing => key.Some? && jobs == old(jobs) && key.value in jobs && IsOf(jobs[key.value], id)
        case Refused => jobs == old(jobs) && (key.Some? ==> key.value in jobs && !IsOf(jobs[key.value], id))
    {
      var key := OccurrenceId(id, marker);
      if key.None? {
        return Refused;
      }
      if key.value !in jobs {
        jobs := jobs[key.value := Some(Occurrence(id, marker))];
        return Created;
      }
      outcome := if IsOf(jobs[key.value], id) then Existing else Refused;
    }

    /**
     Records the firing, and retires a one-shot schedule in the same write. False is a missing schedule, for which the
     source raises, or an inactive one, which it leaves alone.
     */
    method MarkScheduleFired(id: ScheduleId, marker: Marker) returns (marked: bool)
      modifies `schedules
      ensures marked <==> id in old(schedules) && old(schedules)[id].active
      ensures schedules == if marked
        then old(schedules)[id := old(schedules)[id].(lastFired := Some(marker), active := old(schedules)[id].recurring)]
        else old(schedules)
    {
      marked := id in schedules && schedules[id].active;
      if marked {
        schedules := schedules[id := schedules[id].(lastFired := Some(marker), active := schedules[id].recurring)];
      }
    }

    method DeactivateSchedule(id: ScheduleId)
      requires id in schedules
      modifies `schedules
      ensures schedules == old(schedules)[id := old(schedules)[id].(active := false)]
    {
      schedules := schedules[id := schedules[id].(active := false)];
    }
  }

  predicate IsOf(job: Option<Occurrence>, id: ScheduleId) {
    job.Some? && job.value.schedule == id
  }

  /** An expression that cannot be evaluated raises inside the loop, which moves on. */
  predicate IsDue(py: Python, crons: map<ScheduleId, string>, now: CronExpr.Instant, id: ScheduleId) {
    id in crons && CronExpr.Matches(py, crons[id], now) == Some(true)
  }

  function Due(py: Python, crons: map<ScheduleId, string>, now: CronExpr.Instant): set<ScheduleId> {
    set id | id in crons && IsDue(py, crons, now, id)
  }

  function Listed(job: Option<JobId>): seq<JobId> {
    if job.Some? then [job.value] else []
  }

  lemma CreatedGrows(known: set<JobId>, keys: set<JobId>, created: seq<JobId>, job: Option<JobId>)
    requires keys == known + Elements(created) && Elements(created) !! known && (job.Some? ==> job.value !in keys)
    ensures keys + (if job.Some? then {job.value} else {}) == known + Elements(created + Listed(job))
    ensures Elements(created + Listed(job)) !! known
  {
    ElementsConcat(created, Listed(job));
  }

  /** The store with this process as its only one. */
  function Alone(schedules: map<ScheduleId, Schedule>, jobs: map<JobId, Option<Occurrence>>, proc: Process): World {
    World(schedules, jobs, map[0 := proc])
  }

  /** The steps of a tick, up to its end. */
  function TickToEnd(w: World): World
    requires ProcessOf(w, 0).Ticking? && (ProcessOf(w, 0).todo == [] ==> ProcessOf(w, 0).phase == Enqueue)
    decreases |ProcessOf(w, 0).todo|, ProcessOf(w, 0).phase == Enqueue
  {
    var w' := Step(w, TickStep(0));
    if ProcessOf(w, 0).todo == [] then w' else TickToEnd(w')
  }

  datatype Tables = Tables(schedules: map<ScheduleId, Schedule>, jobs: map<JobId, Option<Occurrence>>)

  /** One due schedule, dispatched without interruption. */
  function Dispatch(t: Tables, id: ScheduleId, marker: Marker): Tables {
    var key := OccurrenceId(id, marker);
    if key.None? || (key.value in t.jobs && !IsOf(t.jobs[key.value], id)) then t
    else
      Tables(if id in t.schedules && t.schedules[id].active
             then t.schedules[id := t.schedules[id].(lastFired := Some(marker), active := t.schedules[id].recurring)]
             else t.schedules,
             if key.value in t.jobs then t.jobs else t.jobs[key.value := Some(Occurrence(id, marker))])
  }

  predicate Skipped(proc: Process)
    requires proc.Ticking? && proc.todo != []
  {
    proc.todo[0] !in proc.due || (proc.todo[0] in proc.seen && proc.seen[proc.todo[0]] == Some(proc.marker))
  }

  lemma BecomeAlone(w: World, next: Process)
    requires w.processes.Keys == {0}
    ensures Become(w, 0, next) == Alone(w.schedules, w.jobs, next)
  {
  }

  /** A schedule that is skipped or refused takes one step. */
  lemma TickPasses(t: Tables, proc: Process)
    requires proc.Ticking? && proc.todo != [] && proc.phase == Enqueue
    requires Skipped(proc) || Dispatch(t, proc.todo[0], proc.marker) == t
    requires Step(Alone(t.schedules, t.jobs, proc), TickStep(0)).processes[0].phase == Enqueue
    ensures TickToEnd(Alone(t.schedules, t.jobs, proc)) == TickToEnd(Alone(t.schedules, t.jobs, NextItem(proc)))
  {
    BecomeAlone(Alone(t.schedules, t.jobs, proc), NextItem(proc));
  }

  /** The first of the two steps: the job is there, the mark is next. */
  lemma TickStores(t: Tables, proc: Process)
    requires proc.Ticking? && proc.todo != [] && proc.phase == Enqueue && !Skipped(proc)
    requires Step(Alone(t.schedules, t.jobs, proc), TickStep(0)).processes[0].phase == Mark
    ensures Step(Alone(t.schedules, t.jobs, proc), TickStep(0))
      == Alone(t.schedules, Dispatch(t, proc.todo[0], proc.marker).jobs, proc.(phase := Mark))
  {
    BecomeAlone(World(t.schedules, Dispatch(t, proc.todo[0], proc.marker).jobs, map[0 := proc]), proc.(phase := Mark));
  }

  lemma TickMarks(t: Tables, jobs: map<JobId, Option<Occurrence>>, proc: Process)
    requires proc.Ticking? && proc.todo != [] && proc.phase == Mark && OccurrenceId(proc.todo[0], proc.marker).Some?
    requires var key := OccurrenceId(proc.todo[0], proc.marker).value;
      key in t.jobs ==> IsOf(t.jobs[key], proc.todo[0])
    ensures Step(Alone(t.schedules, jobs, proc), TickStep(0))
      == Alone(Dispatch(t, proc.todo[0], proc.marker).schedules, jobs, NextItem(proc))
  {
    BecomeAlone(World(Dispatch(t, proc.todo[0], proc.marker).schedules, jobs, map[0 := proc]), NextItem(proc));
  }

  /** A schedule that is due and not refused takes two. */
  lemma TickFires(t: Tables, proc: Process)
    requires proc.Ticking? && proc.todo != [] && proc.phase == Enqueue && !Skipped(proc)
    requires Step(Alone(t.schedules, t.jobs, proc), TickStep(0)).processes[0].phase == Mark
    ensures var t' := Dispatch(t, proc.todo[0], proc.marker);
      TickToEnd(Alone(t.schedules, t.jobs, proc)) == TickToEnd(Alone(t'.schedules, t'.jobs, NextItem(proc)))
  {
    var t' := Dispatch(t, proc.todo[0], proc.marker);
    TickStores(t, proc);
    TickMarks(t, t'.jobs, proc.(phase := Mark));
    assert TickToEnd(Alone(t.schedules, t'.jobs, proc.(phase := Mark)))
      == TickToEnd(Alone(t'.schedules, t'.jobs, NextItem(proc)));
  }

  /** What a tick does with its next schedule, in one or two steps. */
  lemma TickHead(t: Tables, proc: Process)
    requires proc.Ticking? && proc.todo != [] && proc.phase == Enqueue
    ensures var t' := if Skipped(proc) then t else Dispatch(t, proc.todo[0], proc.marker);
      TickToEnd(Alone(t.schedules, t.jobs, proc)) == TickToEnd(Alone(t'.schedules, t'.jobs, NextItem(proc)))
  {
    if Step(Alone(t.schedules, t.jobs, proc), TickStep(0)).processes[0].phase == Mark {
      TickFires(t, proc);
    } else {
      TickPasses(t, proc);
    }
  }

  lemma TickEnds(t: Tables, proc: Process)
    requires proc.Ticking? && proc.todo == [] && proc.phase == Enqueue
    ensures TickToEnd(Alone(t.schedules, t.jobs, proc)) == Alone(t.schedules, t.jobs, Idle(proc.session))
  {
    BecomeAlone(Alone(t.schedules, t.jobs, proc), Idle(proc.session));
  }

  lemma TickBegins(t: Tables, session: Session, marker: Marker, due: set<ScheduleId>, visible: seq<ScheduleId>)
    requires Unique(visible) && IsMarker(marker)
    requires Elements(visible) == VisibleIds(Alone(t.schedules, t.jobs, Idle(session)), session)
    ensures var seen := map id | id in Elements(visible) && id in t.schedules :: t.schedules[id].lastFired;
      Step(Alone(t.schedules, t.jobs, Idle(session)), BeginTick(0, marker, due, visible))
      == Alone(t.schedules, t.jobs, Ticking(session, marker, due, visible, seen, Enqueue))
    ensures forall k :: 0 <= k < |visible| ==> visible[k] in t.schedules && t.schedules[visible[k]].active
  {
    var w := Alone(t.schedules, t.jobs, Idle(session));
    var seen := map id | id in Elements(visible) && id in t.schedules :: t.schedules[id].lastFired;
    assert seen == map id | id in VisibleIds(w, session) :: t.schedules[id].lastFired;
    BecomeAlone(w, Ticking(session, marker, due, visible, seen, Enqueue));
    assert forall k :: 0 <= k < |visible| ==> visible[k] in Elements(visible);
  }

  lemma HistoryIsInJobs(w: World, w': World, id: ScheduleId)
    requires w.jobs == w'.jobs && HasFired(w, id)
    ensures HasFired(w', id)
  {
    var job :| job in w.jobs && IsJobOf(w, job, id);
    assert IsJobOf(w', job, id);
  }

  class CronSchedulerRuntime {
    const store: CronStore
    const session: Session

    constructor (store: CronStore, session: Session)
      ensures this.store == store && this.session == session
    {
      this.store := store;
      this.session := session;
    }

    ghost function TablesNow(): Tables
      reads store
    {
      Tables(store.schedules, store.jobs)
    }

    /** The body of the loop, for the schedule at the head of the ghost `proc`. */
    method TickOne(id: ScheduleId, marker: Marker, due: bool, seen: Option<Marker>, ghost proc: Process)
      returns (created: Option<JobId>)
      requires id in store.schedules && store.schedules[id].active
      requires proc.Ticking? && proc.todo != [] && proc.phase == Enqueue && proc.todo[0] == id && proc.marker == marker
      requires Skipped(proc) <==> !due || seen == Some(marker)
      modifies store`schedules, store`jobs
      ensures TickToEnd(Alone(store.schedules, store.jobs, NextItem(proc)))
           == TickToEnd(Alone(old(store.schedules), old(store.jobs), proc))
      ensures store.schedules.Keys == old(store.schedules).Keys
      ensures forall other :: other in store.schedules && other != id ==>
        store.schedules[other] == old(store.schedules)[other]
      ensures store.jobs.Keys == old(store.jobs).Keys + if created.Some? then {created.value} else {}
      ensures created.Some? ==> created.value !in old(store.jobs).Keys
    {
      created := None;
      TickHead(TablesNow(), proc);
      if due && seen != Some(marker) {
        var outcome := store.EnqueueScheduledPrompt(id, marker);
        if outcome != Refused {
          var marked := store.MarkScheduleFired(id, marker);
          if outcome == Created {
            created := OccurrenceId(id, marker);
          }
        }
      }
    }

    /** The loop, with nobody in between: exactly the protocol's tick steps. */
    method DispatchVisible(py: Python, crons: map<ScheduleId, string>, marker: Marker, now: CronExpr.Instant,
                           visible: seq<ScheduleId>, seen: map<ScheduleId, Option<Marker>>)
      returns (created: seq<JobId>)
      requires Unique(visible)
      requires forall k :: 0 <= k < |visible| ==> visible[k] in store.schedules && store.schedules[visible[k]].active
      modifies store`schedules, store`jobs
      ensures Alone(store.schedules, store.jobs, Idle(session)) == TickToEnd(
        Alone(old(store.schedules), old(store.jobs),
              Ticking(session, marker, Due(py, crons, now), visible, seen, Enqueue)))
      ensures store.jobs.Keys == old(store.jobs).Keys + Elements(created) && Elements(created) !! old(store.jobs).Keys
    {
      created := [];
      ghost var known, due := store.jobs.Keys, Due(py, crons, now);
      ghost var proc := Ticking(session, marker, due, visible, seen, Enqueue);
      ghost var goal := TickToEnd(Alone(store.schedules, store.jobs, proc));
      for i := 0 to |visible|
        invariant proc == Ticking(session, marker, due, visible[i..], seen, Enqueue)
        invariant goal == TickToEnd(Alone(store.schedules, store.jobs, proc))
        invariant forall k :: i <= k < |visible| ==> visible[k] in store.schedules && store.schedules[visible[k]].active
        invariant store.jobs.Keys == known + Elements(created) && Elements(created) !! known
      {
        var id := visible[i];
        ghost var keys := store.jobs.Keys;
        var job := TickOne(id, marker, IsDue(py, crons, now, id), if id in seen then seen[id] else None, proc);
        proc := NextItem(proc);
        assert visible[i..][1..] == visible[i + 1..];
        CreatedGrows(known, keys, created, job);
        created := created + Listed(job);
      }
      TickEnds(TablesNow(), proc);
    }

    /** `marker` and `now` render one clock reading; `visible` lists the visible schedules. */
    method Tick(py: Python, marker: Marker, now: CronExpr.Instant, visible: seq<ScheduleId>) returns (created: seq<JobId>)
      requires Unique(visible) && IsMarker(marker)
      requires Elements(visible) == VisibleIds(Alone(store.schedules, store.jobs, Idle(session)), session)
      modifies store`schedules, store`jobs
      ensures Alone(store.schedules, store.jobs, Idle(session)) == TickToEnd(
        Step(Alone(old(store.schedules), old(store.jobs), Idle(session)),
             BeginTick(0, marker, Due(py, store.crons, now), visible)))
      ensures store.jobs.Keys == old(store.jobs).Keys + Elements(created) && Elements(created) !! old(store.jobs).Keys
    {
      TickBegins(TablesNow(), session, marker, Due(py, store.crons, now), visible);
      var seen := map id | id in Elements(visible) && id in store.schedules :: store.schedules[id].lastFired;
      created := DispatchVisible(py, store.crons, marker, now, visible, seen);
    }

    /** The body of the reconciliation loop; `w` is the world it started from. */
    method Retire(id: ScheduleId, ghost w: World)
      requires id in store.schedules && w.jobs == store.jobs
      modifies store`schedules
      ensures store.schedules == if !old(store.schedules)[id].recurring && HasFired(w, id)
        then old(store.schedules)[id := old(store.schedules)[id].(active := false)] else old(store.schedules)
    {
      ghost var now := Alone(store.schedules, store.jobs, Idle(session));
      if HasFired(w, id) {
        HistoryIsInJobs(w, now, id);
      } else if HasFired(now, id) {
        HistoryIsInJobs(now, w, id);
      }
      if !store.schedules[id].recurring && HasFired(Alone(store.schedules, store.jobs, Idle(session)), id) {
        store.DeactivateSchedule(id);
      }
    }

    /** Deactivates the visible one-shot schedules that already have a job. */
    method ReconcileOneShots(visible: seq<ScheduleId>)
      requires Unique(visible)
      requires Elements(visible) == VisibleIds(Alone(store.schedules, store.jobs, Idle(session)), session)
      modifies store`schedules
      ensures Alone(store.schedules, store.jobs, Idle(session))
           == Step(Alone(old(store.schedules), store.jobs, Idle(session)), Reconcile(0))
    {
      ghost var w := Alone(store.schedules, store.jobs, Idle(session));
      assert forall k :: 0 <= k < |visible| ==> visible[k] in Elements(visible);
      for i := 0 to |visible|
        invariant RetiredUpTo(w, store.schedules, visible, i)
      {
        Retire(visible[i], w);
        RetiresNext(w, visible, i);
      }
      ReconcilesAll(w, session, store.schedules, visible);
    }
  }

  function RetiredSchedule(w: World, id: ScheduleId): Schedule
    requires id in w.schedules
  {
    if !w.schedules[id].recurring && HasFired(w, id) then w.schedules[id].(active := false) else w.schedules[id]
  }

  /** The first `i` visible schedules have been looked at, and no other. */
  ghost predicate RetiredUpTo(w: World, schedules: map<ScheduleId, Schedule>, visible: seq<ScheduleId>, i: nat) {
    && i <= |visible| && schedules.Keys == w.schedules.Keys
    && forall id :: id in w.schedules ==>
         schedules[id] == if id in visible[..i] then RetiredSchedule(w, id) else w.schedules[id]
  }

  lemma RetiresNext(w: World, visible: seq<ScheduleId>, i: nat)
    requires i < |visible| && Unique(visible)
    ensures visible[i] !in visible[..i] && forall id :: id in visible[..i + 1] <==> id in visible[..i] || id == visible[i]
  {
    assert visible[..i + 1] == visible[..i] + [visible[i]];
  }

  lemma ReconcilesAll(w: World, session: Session, schedules: map<ScheduleId, Schedule>, visible: seq<ScheduleId>)
    requires RetiredUpTo(w, schedules, visible, |visible|) && Elements(visible) == VisibleIds(w, session)
    requires w.processes == map[0 := Idle(session)]
    ensures Alone(schedules, w.jobs, Idle(session)) == Step(w, Reconcile(0))
  {
    assert visible[..|visible|] == visible;
    assert forall id :: id in visible <==> id in VisibleIds(w, session) by {
      assert forall id :: id in visible <==> id in Elements(visible);
    }
    assert schedules == Reconciled(w, session).schedules;
    BecomeAlone(Reconciled(w, session), Idle(session));
  }
}
