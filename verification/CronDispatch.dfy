/**
 Cron dispatch: any number of scheduler processes turn due schedules into durable jobs, one store
 operation at a time, and may crash between any two of them.
 */
module CronDispatch {
  import opened Prelude

  type ScheduleId = string
  type JobId = string
  type Marker = string
  type Session = string
  type Pid = nat

  // ---------------------------------------------------------------- idempotency keys

  predicate Digit(c: char) {
    '0' <= c <= '9'
  }

  predicate Safe(c: char) {
    Digit(c) || 'A' <= c <= 'Z' || 'a' <= c <= 'z' || c in {'_', '.', '-'}
  }

  /** Runs of unsafe characters become one underscore; `inRun` tells whether one is being skipped. */
  function Collapse(s: string, inRun: bool): string {
    if s == "" then ""
    else if Safe(s[0]) then [s[0]] + Collapse(s[1..], false)
    else if inRun then Collapse(s[1..], true)
    else "_" + Collapse(s[1..], true)
  }

  function StripLeft(s: string): string {
    if s != "" && s[0] == '_' then StripLeft(s[1..]) else s
  }

  function StripRight(s: string): string {
    if s != "" && s[|s| - 1] == '_' then StripRight(s[..|s| - 1]) else s
  }

  function SafeSchedule(s: ScheduleId): string {
    StripRight(StripLeft(Collapse(s, false)))
  }

  function OnlyDigits(s: string): string {
    if s == "" then ""
    else (if Digit(s[0]) then [s[0]] else "") + OnlyDigits(s[1..])
  }

  /** `cron_occurrence_job_id`; `None` is its refusal of an empty key. */
  function OccurrenceId(s: ScheduleId, m: Marker): Option<JobId> {
    var schedule := SafeSchedule(s);
    var minute := OnlyDigits(m);
    if schedule == "" || minute == "" then None
    else Some("cronfire_" + schedule + "_" + minute)
  }

  /** The firing marker format, year to minute. */
  predicate IsMarker(m: Marker) {
    && |m| == 16
    && m[4] == '-' && m[7] == '-' && m[10] == ' ' && m[13] == ':'
    && forall i :: 0 <= i < 16 && i !in {4, 7, 10, 13} ==> Digit(m[i])
  }

  lemma {:induction false} OnlyDigitsOfDigits(s: string)
    requires forall i :: 0 <= i < |s| ==> Digit(s[i])
    ensures OnlyDigits(s) == s
  {
    if s != "" {
      OnlyDigitsOfDigits(s[1..]);
    }
  }

  lemma {:induction false} SkipSeparator(a: string, c: char, b: string)
    requires !Digit(c) && forall i :: 0 <= i < |a| ==> Digit(a[i])
    ensures OnlyDigits(a + [c] + b) == a + OnlyDigits(b)
    decreases |a|
  {
    var s := a + [c] + b;
    if a == "" {
      assert s[1..] == b;
    } else {
      assert s[1..] == a[1..] + [c] + b;
      SkipSeparator(a[1..], c, b);
    }
  }

  lemma MarkerDigits(m: Marker)
    requires IsMarker(m)
    ensures OnlyDigits(m) == m[..4] + (m[5..7] + (m[8..10] + (m[11..13] + m[14..])))
  {
    assert m == m[..4] + [m[4]] + m[5..];
    assert m[5..] == m[5..7] + [m[7]] + m[8..];
    assert m[8..] == m[8..10] + [m[10]] + m[11..];
    assert m[11..] == m[11..13] + [m[13]] + m[14..];
    SkipSeparator(m[..4], m[4], m[5..]);
    SkipSeparator(m[5..7], m[7], m[8..]);
    SkipSeparator(m[8..10], m[10], m[11..]);
    SkipSeparator(m[11..13], m[13], m[14..]);
    OnlyDigitsOfDigits(m[14..]);
  }

  lemma MarkerFromDigits(m: Marker, n: Marker)
    requires IsMarker(m) && IsMarker(n) && OnlyDigits(m) == OnlyDigits(n)
    ensures m == n
  {
    MarkerDigits(m);
    MarkerDigits(n);
    var d := OnlyDigits(m);
    assert d[0..4] == m[..4] && d[4..6] == m[5..7] && d[6..8] == m[8..10] && d[8..10] == m[11..13] && d[10..] == m[14..];
    assert d[0..4] == n[..4] && d[4..6] == n[5..7] && d[6..8] == n[8..10] && d[8..10] == n[11..13] && d[10..] == n[14..];
    assert m == m[..4] + [m[4]] + m[5..7] + [m[7]] + m[8..10] + [m[10]] + m[11..13] + [m[13]] + m[14..];
    assert n == n[..4] + [n[4]] + n[5..7] + [n[7]] + n[8..10] + [n[10]] + n[11..13] + [n[13]] + n[14..];
  }

  /**
   Keys identify firings: two minutes never share a key, and two schedules share one exactly when
   their ids are spelled alike once unsafe characters are folded away.
   */
  lemma KeysIdentifyFirings(s: ScheduleId, m: Marker, s': ScheduleId, m': Marker)
    requires IsMarker(m) && IsMarker(m') && OccurrenceId(s, m).Some? && OccurrenceId(s', m').Some?
    ensures OccurrenceId(s, m) == OccurrenceId(s', m') <==> SafeSchedule(s) == SafeSchedule(s') && m == m'
  {
    MarkerDigits(m);
    MarkerDigits(m');
    var id, id' := OccurrenceId(s, m).value, OccurrenceId(s', m').value;
    if id == id' {
      var a, a' := "cronfire_" + SafeSchedule(s), "cronfire_" + SafeSchedule(s');
      assert id == a + "_" + OnlyDigits(m) && id' == a' + "_" + OnlyDigits(m');
      assert |id| == |a| + 13 && |a| == |a'|;
      assert id[|a| + 1..] == OnlyDigits(m) && id'[|a| + 1..] == OnlyDigits(m');
      assert id[..|a|] == a && id'[..|a|] == a';
      assert a[9..] == SafeSchedule(s) && a'[9..] == SafeSchedule(s');
      MarkerFromDigits(m, m');
    }
  }

  /** Such pairs of ids exist. */
  lemma SpellingsCollide()
    ensures SafeSchedule("a b") == SafeSchedule("a/b") == "a_b"
  {
    CollapseBetween(' ');
    CollapseBetween('/');
  }

  lemma CollapseBetween(c: char)
    requires !Safe(c)
    ensures SafeSchedule(['a', c, 'b']) == "a_b"
  {
    var s := ['a', c, 'b'];
    assert s[1..] == [c, 'b'] && [c, 'b'][1..] == ['b'] && ['b'][1..] == [];
    assert Collapse(['b'], true) == ['b'] && Collapse([c, 'b'], false) == ['_', 'b'];
    assert Collapse(s, false) == "a_b";
  }

  lemma {:induction false} CollapseSafe(s: string, inRun: bool)
    requires forall i :: 0 <= i < |s| ==> Safe(s[i])
    ensures Collapse(s, inRun) == s
    decreases |s|
  {
    if s != "" {
      CollapseSafe(s[1..], false);
    }
  }

  /** Ids made of safe characters, without underscores at the ends, are their own spelling. */
  lemma PlainIdsKept(s: ScheduleId)
    requires s != "" && forall i :: 0 <= i < |s| ==> Safe(s[i])
    requires s[0] != '_' && s[|s| - 1] != '_'
    ensures SafeSchedule(s) == s
  {
    CollapseSafe(s, false);
  }

  // ---------------------------------------------------------------- the protocol

  datatype Schedule = Schedule(
    recurring: bool,
    durable: bool,
    active: bool,
    session: Option<Session>,
    lastFired: Option<Marker>)

  /** A cron job carries its occurrence; `None` is a job from anywhere else. */
  datatype Occurrence = Occurrence(schedule: ScheduleId, marker: Marker)

  datatype Phase = Enqueue | Mark

  datatype Process =
    | Down
    | Booted(session: Session)
    | Idle(session: Session)
    | Ticking(session: Session, marker: Marker, due: set<ScheduleId>, todo: seq<ScheduleId>,
              seen: map<ScheduleId, Option<Marker>>, phase: Phase)

  datatype World = World(
    schedules: map<ScheduleId, Schedule>,
    jobs: map<JobId, Option<Occurrence>>,
    processes: map<Pid, Process>)

  datatype Event =
    | CreateSchedule(id: ScheduleId, recurring: bool, durable: bool, session: Session)
    | CancelSchedule(id: ScheduleId)
    | CreateOtherJob(job: JobId)
    | Boot(p: Pid, session: Session)
    | Reconcile(p: Pid)
    /** `due` are the schedules whose expression matches the minute; `todo` lists the visible ones. */
    | BeginTick(p: Pid, marker: Marker, due: set<ScheduleId>, todo: seq<ScheduleId>)
    | TickStep(p: Pid)
    /** A store operation inside the loop raises; the loop moves on to the next schedule. */
    | TickFault(p: Pid)
    | Crash(p: Pid)

  predicate Visible(s: Schedule, session: Session) {
    s.active && (s.durable || s.session == Some(session))
  }

  function VisibleIds(w: World, session: Session): set<ScheduleId> {
    set id | id in w.schedules && Visible(w.schedules[id], session)
  }

  predicate IsJobOf(w: World, job: JobId, s: ScheduleId) {
    job in w.jobs && w.jobs[job].Some? && w.jobs[job].value.schedule == s
  }

  /** `schedule_has_fired`: some cron job names the schedule. */
  predicate HasFired(w: World, id: ScheduleId) {
    exists job :: job in w.jobs && IsJobOf(w, job, id)
  }

  function ProcessOf(w: World, p: Pid): Process {
    if p in w.processes then w.processes[p] else Down
  }

  function Become(w: World, p: Pid, next: Process): World {
    w.(processes := w.processes[p := next])
  }

  function NextItem(proc: Process): Process
    requires proc.Ticking? && proc.todo != []
  {
    proc.(todo := proc.todo[1..], phase := Enqueue)
  }

  /** `enqueue_scheduled_prompt` for the schedule at the head of the loop. */
  function EnqueueHead(w: World, p: Pid, proc: Process): World
    requires proc.Ticking? && proc.todo != []
  {
    var id := proc.todo[0];
    var key := OccurrenceId(id, proc.marker);
    if key.None? then Become(w, p, NextItem(proc))
    else if key.value !in w.jobs then
      Become(w.(jobs := w.jobs[key.value := Some(Occurrence(id, proc.marker))]), p, proc.(phase := Mark))
    else if w.jobs[key.value].None? || w.jobs[key.value].value.schedule != id then Become(w, p, NextItem(proc))
    else Become(w, p, proc.(phase := Mark))
  }

  /** `mark_schedule_fired`: a one-shot schedule is deactivated in the same write. */
  function MarkHead(w: World, p: Pid, proc: Process): World
    requires proc.Ticking? && proc.todo != []
  {
    var id := proc.todo[0];
    if id !in w.schedules || !w.schedules[id].active then Become(w, p, NextItem(proc))
    else
      var s := w.schedules[id];
      Become(w.(schedules := w.schedules[id := s.(lastFired := Some(proc.marker), active := s.recurring)]),
             p, NextItem(proc))
  }

  function Reconciled(w: World, session: Session): World {
    w.(schedules := map id | id in w.schedules ::
        if !w.schedules[id].recurring && Visible(w.schedules[id], session) && HasFired(w, id)
        then w.schedules[id].(active := false) else w.schedules[id])
  }

  function Step(w: World, e: Event): World {
    match e
    case CreateSchedule(id, recurring, durable, session) =>
      if id in w.schedules then w
      else
        w.(schedules := w.schedules[id :=
          Schedule(recurring, durable, true, if durable then None else Some(session), None)])
    case CancelSchedule(id) =>
      if id in w.schedules then w.(schedules := w.schedules[id := w.schedules[id].(active := false)]) else w
    case CreateOtherJob(job) => if job in w.jobs then w else w.(jobs := w.jobs[job := None])
    case Boot(p, session) => if ProcessOf(w, p).Down? then Become(w, p, Booted(session)) else w
    case Reconcile(p) =>
      var proc := ProcessOf(w, p);
      if proc.Booted? || proc.Idle? then Become(Reconciled(w, proc.session), p, Idle(proc.session)) else w
    case BeginTick(p, marker, due, todo) =>
      var proc := ProcessOf(w, p);
      if (proc.Booted? || proc.Idle?) && Elements(todo) == VisibleIds(w, proc.session) && Unique(todo) && IsMarker(marker)
      then
        var seen := map id | id in VisibleIds(w, proc.session) :: w.schedules[id].lastFired;
        Become(w, p, Ticking(proc.session, marker, due, todo, seen, Enqueue))
      else w
    case TickStep(p) =>
      var proc := ProcessOf(w, p);
      if !proc.Ticking? then w
      else if proc.todo == [] then Become(w, p, Idle(proc.session))
      else if proc.phase == Mark then MarkHead(w, p, proc)
      else if proc.todo[0] !in proc.due
           || (proc.todo[0] in proc.seen && proc.seen[proc.todo[0]] == Some(proc.marker))
      then Become(w, p, NextItem(proc))
      else EnqueueHead(w, p, proc)
    case TickFault(p) =>
      var proc := ProcessOf(w, p);
      if proc.Ticking? && proc.todo != [] then Become(w, p, NextItem(proc)) else w
    case Crash(p) => Become(w, p, Down)
  }

  const EMPTY_WORLD := World(map[], map[], map[])

  function After(es: seq<Event>): World
    decreases |es|
  {
    if es == [] then EMPTY_WORLD else Step(After(es[..|es| - 1]), es[|es| - 1])
  }

  // ---------------------------------------------------------------- one job per firing

  ghost predicate IsFiringOf(w: World, job: JobId, s: ScheduleId, m: Marker) {
    job in w.jobs && w.jobs[job] == Some(Occurrence(s, m))
  }

  ghost predicate Dispatched(w: World, s: ScheduleId, m: Marker) {
    OccurrenceId(s, m).Some? && IsFiringOf(w, OccurrenceId(s, m).value, s, m)
  }

  ghost predicate ProcessInv(w: World, proc: Process) {
    proc.Ticking? ==>
      && IsMarker(proc.marker)
      && (proc.phase == Mark ==> proc.todo != [] && Dispatched(w, proc.todo[0], proc.marker))
      && (forall i :: 0 <= i < |proc.todo| ==> proc.todo[i] in w.schedules)
      && Unique(proc.todo)
  }

  ghost predicate DispatchInv(w: World) {
    && (forall job :: job in w.jobs && w.jobs[job].Some? ==>
          var o := w.jobs[job].value;
          IsMarker(o.marker) && OccurrenceId(o.schedule, o.marker) == Some(job) && o.schedule in w.schedules)
    && (forall s :: s in w.schedules && w.schedules[s].lastFired.Some? ==>
          Dispatched(w, s, w.schedules[s].lastFired.value))
    && (forall p :: p in w.processes ==> ProcessInv(w, w.processes[p]))
  }

  /** Schedules and cron jobs are never removed, and a job keeps its occurrence. */
  ghost predicate Grows(w: World, w': World) {
    && w.schedules.Keys <= w'.schedules.Keys
    && (forall job :: job in w.jobs ==> job in w'.jobs && w'.jobs[job] == w.jobs[job])
  }

  lemma OthersKeep(w: World, w': World, p: Pid)
    requires forall q :: q in w.processes ==> ProcessInv(w, w.processes[q])
    requires Grows(w, w') && w'.processes.Keys <= w.processes.Keys + {p}
    requires forall q :: q in w'.processes && q != p ==> q in w.processes && w'.processes[q] == w.processes[q]
    requires p in w'.processes ==> ProcessInv(w', w'.processes[p])
    ensures forall q :: q in w'.processes ==> ProcessInv(w', w'.processes[q])
  {
  }

  /** An existing row under the key is this very firing. */
  lemma ExistingIsSame(w: World, s: ScheduleId, m: Marker)
    requires DispatchInv(w) && IsMarker(m) && OccurrenceId(s, m).Some?
    requires OccurrenceId(s, m).value in w.jobs && w.jobs[OccurrenceId(s, m).value].Some?
    requires w.jobs[OccurrenceId(s, m).value].value.schedule == s
    ensures Dispatched(w, s, m)
  {
    var o := w.jobs[OccurrenceId(s, m).value].value;
    KeysIdentifyFirings(s, m, o.schedule, o.marker);
  }

  lemma EnqueueKeeps(w: World, p: Pid)
    requires DispatchInv(w) && p in w.processes && w.processes[p].Ticking? && w.processes[p].todo != []
    requires w.processes[p].phase == Enqueue
    ensures DispatchInv(EnqueueHead(w, p, w.processes[p]))
  {
    var proc := w.processes[p];
    var id := proc.todo[0];
    assert id in w.schedules;
    if OccurrenceId(id, proc.marker).Some? {
      var key := OccurrenceId(id, proc.marker).value;
      if key in w.jobs && w.jobs[key].Some? && w.jobs[key].value.schedule == id {
        ExistingIsSame(w, id, proc.marker);
      }
    }
    OthersKeep(w, EnqueueHead(w, p, proc), p);
  }

  lemma MarkKeeps(w: World, p: Pid)
    requires DispatchInv(w) && p in w.processes && w.processes[p].Ticking? && w.processes[p].todo != []
    requires w.processes[p].phase == Mark
    ensures DispatchInv(MarkHead(w, p, w.processes[p]))
  {
    OthersKeep(w, MarkHead(w, p, w.processes[p]), p);
  }

  /** A step that touches neither jobs nor schedules. */
  lemma BecomeKeeps(w: World, p: Pid, next: Process)
    requires DispatchInv(w) && ProcessInv(w, next)
    ensures DispatchInv(Become(w, p, next))
  {
    OthersKeep(w, Become(w, p, next), p);
  }

  /** A step on schedules alone that records no new firing. */
  lemma SchedulesKeep(w: World, schedules: map<ScheduleId, Schedule>)
    requires DispatchInv(w) && w.schedules.Keys <= schedules.Keys
    requires forall id :: id in schedules && schedules[id].lastFired.Some? ==>
      id in w.schedules && w.schedules[id].lastFired == schedules[id].lastFired
    ensures DispatchInv(w.(schedules := schedules))
  {
    OthersKeep(w, w.(schedules := schedules), 0);
  }

  lemma TickKeeps(w: World, p: Pid)
    requires DispatchInv(w)
    ensures DispatchInv(Step(w, TickStep(p)))
  {
    var proc := ProcessOf(w, p);
    if proc.Ticking? {
      if proc.todo == [] {
        BecomeKeeps(w, p, Idle(proc.session));
      } else if proc.phase == Mark {
        MarkKeeps(w, p);
      } else {
        BecomeKeeps(w, p, NextItem(proc));
        EnqueueKeeps(w, p);
      }
    }
  }

  lemma ReconcileKeeps(w: World, p: Pid)
    requires DispatchInv(w)
    ensures DispatchInv(Step(w, Reconcile(p)))
  {
    var proc := ProcessOf(w, p);
    if proc.Booted? || proc.Idle? {
      var r := Reconciled(w, proc.session);
      SchedulesKeep(w, r.schedules);
      BecomeKeeps(r, p, Idle(proc.session));
    }
  }

  lemma BeginKeeps(w: World, p: Pid, marker: Marker, due: set<ScheduleId>, todo: seq<ScheduleId>)
    requires DispatchInv(w)
    ensures DispatchInv(Step(w, BeginTick(p, marker, due, todo)))
  {
    assert forall i :: 0 <= i < |todo| ==> todo[i] in Elements(todo);
    BecomeKeeps(w, p, ProcessOf(Step(w, BeginTick(p, marker, due, todo)), p));
  }

  lemma StepKeeps(w: World, e: Event)
    requires DispatchInv(w)
    ensures DispatchInv(Step(w, e))
  {
    match e
    case CreateSchedule(_, _, _, _) => SchedulesKeep(w, Step(w, e).schedules);
    case CancelSchedule(_) => SchedulesKeep(w, Step(w, e).schedules);
    case CreateOtherJob(_) => OthersKeep(w, Step(w, e), 0);
    case TickStep(p) => TickKeeps(w, p);
    case Boot(p, session) => BecomeKeeps(w, p, Booted(session));
    case Reconcile(p) => ReconcileKeeps(w, p);
    case BeginTick(p, marker, due, todo) => BeginKeeps(w, p, marker, due, todo);
    case TickFault(p) =>
      var proc := ProcessOf(w, p);
      if proc.Ticking? && proc.todo != [] {
        BecomeKeeps(w, p, NextItem(proc));
      }
    case Crash(p) => BecomeKeeps(w, p, Down);
  }

  lemma {:induction false} DispatchHolds(es: seq<Event>)
    ensures DispatchInv(After(es))
    decreases |es|
  {
    if es != [] {
      DispatchHolds(es[..|es| - 1]);
      StepKeeps(After(es[..|es| - 1]), es[|es| - 1]);
    }
  }

  /**
   With any number of schedulers, crashes and failing stores: a schedule has at most one job per
   minute, and a recorded firing minute always has its job.
   */
  lemma OneJobPerFiring(es: seq<Event>, s: ScheduleId, m: Marker, a: JobId, b: JobId)
    ensures IsFiringOf(After(es), a, s, m) && IsFiringOf(After(es), b, s, m) ==> a == b
    ensures s in After(es).schedules && After(es).schedules[s].lastFired == Some(m) ==> Dispatched(After(es), s, m)
  {
    DispatchHolds(es);
  }
}
