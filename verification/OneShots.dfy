/**
 One-shot schedules: what the protocol of the dispatchers must be spared for a one-shot schedule to
 fire once, and a run that fires it twice for each condition that is dropped.
 */
module OneShots {
  import opened Prelude
  import opened CronDispatch

  // ---------------------------------------------------------------- policies

  /** What a deployment may promise about its schedulers. */
  datatype Policy = Policy(oneScheduler: bool, reconciledFirst: bool, noFailedMark: bool)

  const STRICT := Policy(true, true, true)

  function PidOf(e: Event): Option<Pid> {
    match e
    case Boot(p, _) => Some(p)
    case Reconcile(p) => Some(p)
    case BeginTick(p, _, _, _) => Some(p)
    case TickStep(p) => Some(p)
    case TickFault(p) => Some(p)
    case Crash(p) => Some(p)
    case _ => None
  }

  /** The next store operation is the mark of a firing whose job is stored. */
  predicate AtMark(proc: Process) {
    proc.Ticking? && proc.phase == Mark
  }

  /**
   A single scheduler is process 0; a scheduler reconciled first is idle before each tick; and a
   failing store does not hit a mark. Failures of other store operations are always permitted.
   */
  predicate Permits(policy: Policy, w: World, e: Event) {
    && (policy.oneScheduler && PidOf(e).Some? ==> PidOf(e).value == 0)
    && (policy.reconciledFirst && e.BeginTick? ==> ProcessOf(w, e.p).Idle?)
    && (policy.noFailedMark && e.TickFault? ==> !AtMark(ProcessOf(w, e.p)))
  }

  predicate Obeys(policy: Policy, es: seq<Event>)
    decreases |es|
  {
    es == [] || (Obeys(policy, es[..|es| - 1]) && Permits(policy, After(es[..|es| - 1]), es[|es| - 1]))
  }

  ghost predicate FiresTwice(w: World, s: ScheduleId) {
    && s in w.schedules && !w.schedules[s].recurring
    && exists a, b :: IsJobOf(w, a, s) && IsJobOf(w, b, s) && a != b
  }

  // ---------------------------------------------------------------- under the strict policy

  ghost predicate SpentOnce(w: World, s: ScheduleId) {
    forall a, b :: IsJobOf(w, a, s) && IsJobOf(w, b, s) ==> a == b
  }

  /** A fired one-shot cannot fire again: inactive, hidden, about to be marked, or up for reconciliation. */
  ghost predicate Disarmed(s: ScheduleId, schedule: Schedule, proc: Process) {
    match proc
    case Down => true
    case Booted(_) => true
    case Idle(session) => !Visible(schedule, session)
    case Ticking(session, _, _, todo, _, phase) =>
      && (!Visible(schedule, session) || (phase == Mark && todo != [] && todo[0] == s))
      && (forall i :: 0 <= i < |todo| && todo[i] == s ==> i == 0 && phase == Mark)
  }

  ghost predicate OneShotInv(w: World) {
    && DispatchInv(w)
    && w.processes.Keys <= {0}
    && forall s :: s in w.schedules && !w.schedules[s].recurring && HasFired(w, s) ==>
         SpentOnce(w, s) && Disarmed(s, w.schedules[s], ProcessOf(w, 0))
  }

  lemma FiredKnown(w: World, s: ScheduleId)
    requires DispatchInv(w) && HasFired(w, s)
    ensures s in w.schedules
  {
  }

  lemma Unfired(w: World, s: ScheduleId)
    requires !HasFired(w, s)
    ensures forall a :: !IsJobOf(w, a, s)
  {
    assert forall a :: IsJobOf(w, a, s) ==> a in w.jobs;
  }

  /** Steps that create no job and re-arm no fired one-shot. */
  lemma OneShotFrame(w: World, w': World)
    requires OneShotInv(w) && DispatchInv(w') && w'.processes.Keys <= {0}
    requires forall job :: job in w'.jobs && w'.jobs[job].Some? ==> job in w.jobs && w.jobs[job] == w'.jobs[job]
    requires forall s :: s in w.schedules && HasFired(w, s) && s in w'.schedules && !w'.schedules[s].recurring ==>
      !w.schedules[s].recurring && Disarmed(s, w'.schedules[s], ProcessOf(w', 0))
    ensures OneShotInv(w')
  {
    forall s | s in w'.schedules && !w'.schedules[s].recurring && HasFired(w', s)
      ensures SpentOnce(w', s) && Disarmed(s, w'.schedules[s], ProcessOf(w', 0))
    {
      var job :| job in w'.jobs && IsJobOf(w', job, s);
      assert IsJobOf(w, job, s) && HasFired(w, s);
      FiredKnown(w, s);
      assert SpentOnce(w, s);
      assert forall a :: IsJobOf(w', a, s) ==> IsJobOf(w, a, s);
    }
  }

  /** A process at the enqueue of its head, whose key is free. */
  ghost predicate Creating(w: World) {
    var proc := ProcessOf(w, 0);
    && proc.Ticking? && proc.todo != [] && proc.phase == Enqueue
    && OccurrenceId(proc.todo[0], proc.marker).Some?
    && OccurrenceId(proc.todo[0], proc.marker).value !in w.jobs
  }

  lemma CreatedJobs(w: World, a: JobId, s: ScheduleId)
    requires Creating(w)
    ensures var proc := ProcessOf(w, 0);
      IsJobOf(EnqueueHead(w, 0, proc), a, s) <==>
        IsJobOf(w, a, s) || (a == OccurrenceId(s, proc.marker).GetOr("") && s == proc.todo[0])
  {
  }

  /** A one-shot that had fired is not the head, and nothing changes for it. */
  lemma CreateKeepsFired(w: World, s: ScheduleId)
    requires OneShotInv(w) && Creating(w) && s in w.schedules && !w.schedules[s].recurring && HasFired(w, s)
    ensures var w' := EnqueueHead(w, 0, ProcessOf(w, 0));
      SpentOnce(w', s) && Disarmed(s, w.schedules[s], ProcessOf(w', 0))
  {
    assert Disarmed(s, w.schedules[s], ProcessOf(w, 0)) && SpentOnce(w, s);
    assert s != ProcessOf(w, 0).todo[0];
    forall a
      ensures IsJobOf(EnqueueHead(w, 0, ProcessOf(w, 0)), a, s) ==> IsJobOf(w, a, s)
    {
      CreatedJobs(w, a, s);
    }
  }

  /** The step that creates a job creates the first job of its schedule. */
  lemma CreateFiresFirst(w: World, s: ScheduleId)
    requires OneShotInv(w) && Creating(w) && !HasFired(w, s)
    requires s in w.schedules && HasFired(EnqueueHead(w, 0, ProcessOf(w, 0)), s)
    ensures var w' := EnqueueHead(w, 0, ProcessOf(w, 0));
      SpentOnce(w', s) && Disarmed(s, w.schedules[s], ProcessOf(w', 0))
  {
    var proc := ProcessOf(w, 0);
    var w' := EnqueueHead(w, 0, proc);
    Unfired(w, s);
    forall a | IsJobOf(w', a, s)
      ensures a == OccurrenceId(s, proc.marker).GetOr("") && s == proc.todo[0]
    {
      CreatedJobs(w, a, s);
    }
    var job :| job in w'.jobs && IsJobOf(w', job, s);
    assert forall i :: 0 <= i < |proc.todo| && proc.todo[i] == s ==> i == 0;
  }

  lemma OneShotCreate(w: World)
    requires OneShotInv(w) && Creating(w)
    ensures OneShotInv(EnqueueHead(w, 0, ProcessOf(w, 0)))
  {
    var w' := EnqueueHead(w, 0, ProcessOf(w, 0));
    EnqueueKeeps(w, 0);
    forall s | s in w'.schedules && !w'.schedules[s].recurring && HasFired(w', s)
      ensures SpentOnce(w', s) && Disarmed(s, w'.schedules[s], ProcessOf(w', 0))
    {
      if HasFired(w, s) {
        CreateKeepsFired(w, s);
      } else {
        CreateFiresFirst(w, s);
      }
    }
  }

  /** The head is passed over before anything was stored for it. */
  lemma OneShotSkip(w: World)
    requires OneShotInv(w) && ProcessOf(w, 0).Ticking? && ProcessOf(w, 0).todo != [] && ProcessOf(w, 0).phase == Enqueue
    ensures OneShotInv(Become(w, 0, NextItem(ProcessOf(w, 0))))
  {
    var proc := ProcessOf(w, 0);
    BecomeKeeps(w, 0, NextItem(proc));
    OneShotFrame(w, Become(w, 0, NextItem(proc)));
  }

  lemma MarkDisarms(s: ScheduleId, schedule: Schedule, schedule': Schedule, proc: Process)
    requires proc.Ticking? && proc.todo != [] && proc.phase == Mark && Unique(proc.todo)
    requires Disarmed(s, schedule, proc) && (s == proc.todo[0] ==> !schedule'.active)
    requires s != proc.todo[0] ==> schedule' == schedule
    ensures Disarmed(s, schedule', NextItem(proc))
  {
  }

  lemma OneShotMark(w: World)
    requires OneShotInv(w) && ProcessOf(w, 0).Ticking? && ProcessOf(w, 0).todo != [] && ProcessOf(w, 0).phase == Mark
    ensures OneShotInv(MarkHead(w, 0, ProcessOf(w, 0)))
  {
    var proc := ProcessOf(w, 0);
    var w' := MarkHead(w, 0, proc);
    MarkKeeps(w, 0);
    forall s | s in w.schedules && HasFired(w, s) && s in w'.schedules && !w'.schedules[s].recurring
      ensures !w.schedules[s].recurring && Disarmed(s, w'.schedules[s], ProcessOf(w', 0))
    {
      assert !w.schedules[s].recurring;
      MarkDisarms(s, w.schedules[s], w'.schedules[s], proc);
    }
    OneShotFrame(w, w');
  }

  /** The enqueue finds this firing's job already there. */
  lemma OneShotRepeat(w: World)
    requires OneShotInv(w) && ProcessOf(w, 0).Ticking? && ProcessOf(w, 0).todo != [] && ProcessOf(w, 0).phase == Enqueue
    requires OccurrenceId(ProcessOf(w, 0).todo[0], ProcessOf(w, 0).marker).Some?
    requires IsJobOf(w, OccurrenceId(ProcessOf(w, 0).todo[0], ProcessOf(w, 0).marker).value, ProcessOf(w, 0).todo[0])
    ensures OneShotInv(EnqueueHead(w, 0, ProcessOf(w, 0)))
  {
    EnqueueKeeps(w, 0);
    OneShotFrame(w, EnqueueHead(w, 0, ProcessOf(w, 0)));
  }

  lemma OneShotTick(w: World)
    requires OneShotInv(w)
    ensures OneShotInv(Step(w, TickStep(0)))
  {
    var proc := ProcessOf(w, 0);
    if proc.Ticking? {
      if proc.todo == [] {
        BecomeKeeps(w, 0, Idle(proc.session));
        OneShotFrame(w, Become(w, 0, Idle(proc.session)));
      } else {
        if proc.phase == Mark {
          OneShotMark(w);
          return;
        }
        OneShotSkip(w);
        if OccurrenceId(proc.todo[0], proc.marker).Some? {
          var key := OccurrenceId(proc.todo[0], proc.marker).value;
          if key !in w.jobs {
            OneShotCreate(w);
          } else if IsJobOf(w, key, proc.todo[0]) {
            OneShotRepeat(w);
          }
        }
      }
    }
  }

  lemma OneShotBegin(w: World, marker: Marker, due: set<ScheduleId>, todo: seq<ScheduleId>)
    requires OneShotInv(w) && ProcessOf(w, 0).Idle?
    ensures OneShotInv(Step(w, BeginTick(0, marker, due, todo)))
  {
    var w' := Step(w, BeginTick(0, marker, due, todo));
    StepKeeps(w, BeginTick(0, marker, due, todo));
    assert forall i :: 0 <= i < |todo| ==> todo[i] in Elements(todo);
    forall s | s in w.schedules && HasFired(w, s) && !w.schedules[s].recurring
      ensures Disarmed(s, w.schedules[s], ProcessOf(w', 0))
    {
      assert Disarmed(s, w.schedules[s], ProcessOf(w, 0));
    }
    OneShotFrame(w, w');
  }

  lemma OneShotReconcile(w: World)
    requires OneShotInv(w)
    ensures OneShotInv(Step(w, Reconcile(0)))
  {
    StepKeeps(w, Reconcile(0));
    OneShotFrame(w, Step(w, Reconcile(0)));
  }

  lemma OneShotStep(w: World, e: Event)
    requires OneShotInv(w) && Permits(STRICT, w, e)
    ensures OneShotInv(Step(w, e))
  {
    match e
    case TickStep(_) => OneShotTick(w);
    case BeginTick(_, marker, due, todo) => OneShotBegin(w, marker, due, todo);
    case Reconcile(_) => OneShotReconcile(w);
    case TickFault(_) =>
      if ProcessOf(w, 0).Ticking? && ProcessOf(w, 0).todo != [] {
        OneShotSkip(w);
      }
    case _ =>
      StepKeeps(w, e);
      OneShotFrame(w, Step(w, e));
  }

  lemma {:induction false} OneShotHolds(es: seq<Event>)
    requires Obeys(STRICT, es)
    ensures OneShotInv(After(es))
    decreases |es|
  {
    if es != [] {
      OneShotHolds(es[..|es| - 1]);
      OneShotStep(After(es[..|es| - 1]), es[|es| - 1]);
    }
  }

  /** A one-shot schedule yields at most one job ever, across crashes, restarts and failures before a mark. */
  lemma OneShotFiresOnce(es: seq<Event>, s: ScheduleId)
    requires Obeys(STRICT, es)
    ensures !FiresTwice(After(es), s)
  {
    OneShotHolds(es);
    if FiresTwice(After(es), s) {
      var a, b :| IsJobOf(After(es), a, s) && IsJobOf(After(es), b, s) && a != b;
      assert HasFired(After(es), s);
    }
  }

  // ---------------------------------------------------------------- one run per dropped condition

  const ONE_SHOT := Schedule(false, true, true, None, None)

  /** One active one-shot schedule, and these jobs and processes. */
  function Scene(s: ScheduleId, jobs: map<JobId, Option<Occurrence>>, processes: map<Pid, Process>): World {
    World(map[s := ONE_SHOT], jobs, processes)
  }

  /** In the middle of a tick, about to mark the schedule. */
  function Marking(s: ScheduleId, m: Marker): Process {
    Ticking("", m, {s}, [s], map[s := None], Mark)
  }

  lemma Extends(policy: Policy, es: seq<Event>, w: World, e: Event)
    requires Obeys(policy, es) && After(es) == w && Permits(policy, w, e)
    ensures Obeys(policy, es + [e]) && After(es + [e]) == Step(w, e)
  {
    assert (es + [e])[..|es|] == es;
  }

  lemma Created(policy: Policy, s: ScheduleId) returns (es: seq<Event>)
    ensures Obeys(policy, es) && After(es) == Scene(s, map[], map[])
  {
    Extends(policy, [], EMPTY_WORLD, CreateSchedule(s, false, true, ""));
    es := [] + [CreateSchedule(s, false, true, "")];
  }

  lemma Boots(policy: Policy, es: seq<Event>, s: ScheduleId, jobs: map<JobId, Option<Occurrence>>,
              processes: map<Pid, Process>, p: Pid) returns (es': seq<Event>)
    requires Obeys(policy, es) && After(es) == Scene(s, jobs, processes) && (policy.oneScheduler ==> p == 0)
    requires p !in processes || processes[p].Down?
    ensures Obeys(policy, es') && After(es') == Scene(s, jobs, processes[p := Booted("")])
  {
    Extends(policy, es, Scene(s, jobs, processes), Boot(p, ""));
    es' := es + [Boot(p, "")];
  }

  /** Reconciliation finds nothing to retire before the first firing. */
  lemma Reconciles(policy: Policy, es: seq<Event>, s: ScheduleId, processes: map<Pid, Process>, p: Pid)
    returns (es': seq<Event>)
    requires Obeys(policy, es) && After(es) == Scene(s, map[], processes) && (policy.oneScheduler ==> p == 0)
    requires p in processes && processes[p] == Booted("")
    ensures Obeys(policy, es') && After(es') == Scene(s, map[], processes[p := Idle("")])
  {
    Extends(policy, es, Scene(s, map[], processes), Reconcile(p));
    es' := es + [Reconcile(p)];
    assert Reconciled(Scene(s, map[], processes), "").schedules == map[s := ONE_SHOT];
  }

  lemma BeginsTick(s: ScheduleId, jobs: map<JobId, Option<Occurrence>>, processes: map<Pid, Process>, p: Pid, m: Marker)
    requires p in processes && processes[p] in {Booted(""), Idle("")} && IsMarker(m)
    ensures Step(Scene(s, jobs, processes), BeginTick(p, m, {s}, [s]))
         == Scene(s, jobs, processes[p := Ticking("", m, {s}, [s], map[s := None], Enqueue)])
  {
    var w := Scene(s, jobs, processes);
    assert VisibleIds(w, "") == {s} && Elements([s]) == {s};
    assert (map id | id in VisibleIds(w, "") :: w.schedules[id].lastFired) == map[s := None];
  }

  /** A tick up to its mark: the job of this minute is stored. */
  lemma Fires(policy: Policy, es: seq<Event>, s: ScheduleId, jobs: map<JobId, Option<Occurrence>>,
              processes: map<Pid, Process>, p: Pid, m: Marker) returns (es': seq<Event>)
    requires Obeys(policy, es) && After(es) == Scene(s, jobs, processes) && (policy.oneScheduler ==> p == 0)
    requires p in processes && IsMarker(m)
    requires processes[p] == Idle("") || (processes[p] == Booted("") && !policy.reconciledFirst)
    requires OccurrenceId(s, m).Some? && OccurrenceId(s, m).value !in jobs
    ensures Obeys(policy, es')
    ensures After(es') == Scene(s, jobs[OccurrenceId(s, m).value := Some(Occurrence(s, m))], processes[p := Marking(s, m)])
  {
    var begin := BeginTick(p, m, {s}, [s]);
    var begun := processes[p := Ticking("", m, {s}, [s], map[s := None], Enqueue)];
    Extends(policy, es, Scene(s, jobs, processes), begin);
    BeginsTick(s, jobs, processes, p, m);
    Extends(policy, es + [begin], Scene(s, jobs, begun), TickStep(p));
    es' := es + [begin] + [TickStep(p)];
    assert begun[p := Marking(s, m)] == processes[p := Marking(s, m)];
  }

  lemma TwoFirings(w: World, s: ScheduleId, m: Marker, m': Marker, processes: map<Pid, Process>)
    requires IsMarker(m) && IsMarker(m') && m != m' && OccurrenceId(s, m).Some? && OccurrenceId(s, m').Some?
    requires w == Scene(s, map[OccurrenceId(s, m).value := Some(Occurrence(s, m))]
                              [OccurrenceId(s, m').value := Some(Occurrence(s, m'))], processes)
    ensures FiresTwice(w, s)
  {
    KeysIdentifyFirings(s, m, s, m');
    assert IsJobOf(w, OccurrenceId(s, m).value, s) && IsJobOf(w, OccurrenceId(s, m').value, s);
  }

  lemma KeyInEveryMinute(s: ScheduleId, m: Marker, m': Marker)
    requires IsMarker(m) && IsMarker(m') && m != m' && OccurrenceId(s, m).Some?
    ensures OccurrenceId(s, m').Some? && OccurrenceId(s, m').value != OccurrenceId(s, m).value
  {
    MarkerDigits(m');
    KeysIdentifyFirings(s, m, s, m');
  }

  /** A reconciled scheduler, ready to tick. */
  lemma Ready(policy: Policy, s: ScheduleId) returns (es: seq<Event>)
    ensures Obeys(policy, es) && After(es) == Scene(s, map[], map[0 := Idle("")])
  {
    es := Created(policy, s);
    es := Boots(policy, es, s, map[], map[], 0);
    es := Reconciles(policy, es, s, map[0 := Booted("")], 0);
    assert map[0 := Booted("")][0 := Idle("")] == map[0 := Idle("")];
  }

  /** A failing mark is skipped, and the tick ends with the schedule still active. */
  lemma MarkFails(policy: Policy, es: seq<Event>, s: ScheduleId, jobs: map<JobId, Option<Occurrence>>, m: Marker)
    returns (es': seq<Event>)
    requires Obeys(policy, es) && After(es) == Scene(s, jobs, map[0 := Marking(s, m)]) && !policy.noFailedMark
    ensures Obeys(policy, es') && After(es') == Scene(s, jobs, map[0 := Idle("")])
  {
    var ended := NextItem(Marking(s, m));
    Extends(policy, es, Scene(s, jobs, map[0 := Marking(s, m)]), TickFault(0));
    assert map[0 := Marking(s, m)][0 := ended] == map[0 := ended];
    Extends(policy, es + [TickFault(0)], Scene(s, jobs, map[0 := ended]), TickStep(0));
    assert map[0 := ended][0 := Idle("")] == map[0 := Idle("")];
    es' := es + [TickFault(0)] + [TickStep(0)];
  }

  /** A mark fails after its enqueue succeeded; the next due minute fires again. */
  lemma FailedMarkRefires(s: ScheduleId, m: Marker, m': Marker) returns (es: seq<Event>)
    requires IsMarker(m) && IsMarker(m') && m != m' && OccurrenceId(s, m).Some?
    ensures Obeys(Policy(true, true, false), es) && FiresTwice(After(es), s)
  {
    var policy, idle := Policy(true, true, false), map[0 := Idle("")];
    KeyInEveryMinute(s, m, m');
    var once := map[OccurrenceId(s, m).value := Some(Occurrence(s, m))];
    es := Ready(policy, s);
    es := Fires(policy, es, s, map[], idle, 0, m);
    assert idle[0 := Marking(s, m)] == map[0 := Marking(s, m)];
    es := MarkFails(policy, es, s, once, m);
    es := Fires(policy, es, s, once, idle, 0, m');
    TwoFirings(After(es), s, m, m', idle[0 := Marking(s, m')]);
  }

  lemma CrashesAtMark(policy: Policy, es: seq<Event>, s: ScheduleId, jobs: map<JobId, Option<Occurrence>>, m: Marker)
    returns (es': seq<Event>)
    requires Obeys(policy, es) && After(es) == Scene(s, jobs, map[0 := Marking(s, m)])
    ensures Obeys(policy, es') && After(es') == Scene(s, jobs, map[0 := Booted("")])
  {
    Extends(policy, es, Scene(s, jobs, map[0 := Marking(s, m)]), Crash(0));
    assert map[0 := Marking(s, m)][0 := Down] == map[0 := Down];
    es' := Boots(policy, es + [Crash(0)], s, jobs, map[0 := Down], 0);
    assert map[0 := Down][0 := Booted("")] == map[0 := Booted("")];
  }

  /** A scheduler that crashes between enqueue and mark and is not reconciled fires again. */
  lemma UnreconciledRefires(s: ScheduleId, m: Marker, m': Marker) returns (es: seq<Event>)
    requires IsMarker(m) && IsMarker(m') && m != m' && OccurrenceId(s, m).Some?
    ensures Obeys(Policy(true, false, true), es) && FiresTwice(After(es), s)
  {
    var policy := Policy(true, false, true);
    KeyInEveryMinute(s, m, m');
    var once := map[OccurrenceId(s, m).value := Some(Occurrence(s, m))];
    es := Created(policy, s);
    es := Boots(policy, es, s, map[], map[], 0);
    es := Fires(policy, es, s, map[], map[0 := Booted("")], 0, m);
    es := CrashesAtMark(policy, es, s, once, m);
    es := Fires(policy, es, s, once, map[0 := Booted("")], 0, m');
    TwoFirings(After(es), s, m, m', map[0 := Booted("")][0 := Marking(s, m')]);
  }

  lemma ReadyTwice(policy: Policy, s: ScheduleId) returns (es: seq<Event>)
    requires !policy.oneScheduler
    ensures Obeys(policy, es) && After(es) == Scene(s, map[], map[0 := Idle(""), 1 := Idle("")])
  {
    es := Ready(policy, s);
    es := Boots(policy, es, s, map[], map[0 := Idle("")], 1);
    assert map[0 := Idle("")][1 := Booted("")] == map[0 := Idle(""), 1 := Booted("")];
    es := Reconciles(policy, es, s, map[0 := Idle(""), 1 := Booted("")], 1);
    assert map[0 := Idle(""), 1 := Booted("")][1 := Idle("")] == map[0 := Idle(""), 1 := Idle("")];
  }

  /** Two schedulers, one of which begins its tick before the other has marked, fire twice. */
  lemma TwoSchedulersRefire(s: ScheduleId, m: Marker, m': Marker) returns (es: seq<Event>)
    requires IsMarker(m) && IsMarker(m') && m != m' && OccurrenceId(s, m).Some?
    ensures Obeys(Policy(false, true, true), es) && FiresTwice(After(es), s)
  {
    var policy := Policy(false, true, true);
    KeyInEveryMinute(s, m, m');
    var once := map[OccurrenceId(s, m).value := Some(Occurrence(s, m))];
    es := ReadyTwice(policy, s);
    var idle := map[0 := Idle(""), 1 := Idle("")];
    es := Fires(policy, es, s, map[], idle, 0, m);
    es := Fires(policy, es, s, once, idle[0 := Marking(s, m)], 1, m');
    TwoFirings(After(es), s, m, m', idle[0 := Marking(s, m)][1 := Marking(s, m')]);
  }

  // ---------------------------------------------------------------- the exact policy

  ghost predicate OneShotsFireOnce(policy: Policy) {
    forall es, s :: Obeys(policy, es) ==> !FiresTwice(After(es), s)
  }

  /** A policy that promises less permits more. */
  lemma {:induction false} WeakerPermitsMore(policy: Policy, weaker: Policy, es: seq<Event>)
    requires Obeys(policy, es)
    requires (weaker.oneScheduler ==> policy.oneScheduler) && (weaker.reconciledFirst ==> policy.reconciledFirst)
    requires weaker.noFailedMark ==> policy.noFailedMark
    ensures Obeys(weaker, es)
    decreases |es|
  {
    if es != [] {
      WeakerPermitsMore(policy, weaker, es[..|es| - 1]);
    }
  }

  predicate AllDigits(s: string) {
    forall i :: 0 <= i < |s| ==> Digit(s[i])
  }

  lemma MarkerFromParts(year: string, month: string, day: string, hour: string, minute: string)
    requires |year| == 4 && |month| == |day| == |hour| == |minute| == 2
    requires AllDigits(year) && AllDigits(month) && AllDigits(day) && AllDigits(hour) && AllDigits(minute)
    ensures IsMarker(year + "-" + month + "-" + day + " " + hour + ":" + minute)
  {
  }

  function MarkerAt(minute: string): Marker {
    "2026" + "-" + "01" + "-" + "01" + " " + "00" + ":" + minute
  }

  lemma ConcreteFiring()
    ensures IsMarker(MarkerAt("00")) && IsMarker(MarkerAt("01")) && MarkerAt("00") != MarkerAt("01")
    ensures OccurrenceId("a", MarkerAt("00")).Some?
  {
    MarkerFromParts("2026", "01", "01", "00", "00");
    MarkerFromParts("2026", "01", "01", "00", "01");
    assert MarkerAt("00")[15] == '0' && MarkerAt("01")[15] == '1';
    PlainIdsKept("a");
    MarkerDigits(MarkerAt("00"));
  }

  /** One-shot schedules fire at most once in every run of a policy exactly when it promises all three. */
  lemma OneShotsFireOnceIff(policy: Policy)
    ensures OneShotsFireOnce(policy) <==> policy.oneScheduler && policy.reconciledFirst && policy.noFailedMark
  {
    ConcreteFiring();
    var m, m' := MarkerAt("00"), MarkerAt("01");
    var failing := FailedMarkRefires("a", m, m');
    var unreconciled := UnreconciledRefires("a", m, m');
    var doubled := TwoSchedulersRefire("a", m, m');
    if !policy.noFailedMark {
      WeakerPermitsMore(Policy(true, true, false), policy, failing);
    } else if !policy.reconciledFirst {
      WeakerPermitsMore(Policy(true, false, true), policy, unreconciled);
    } else if !policy.oneScheduler {
      WeakerPermitsMore(Policy(false, true, true), policy, doubled);
    } else {
      forall es, s | Obeys(policy, es)
        ensures !FiresTwice(After(es), s)
      {
        OneShotFiresOnce(es, s);
      }
    }
  }
}
