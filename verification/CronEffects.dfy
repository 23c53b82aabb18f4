/**
 Who dispatches what: over every run of schedulers, crashes and faults, which process can fire a schedule, what
 retires one, and what the spelling of a schedule id is.
 */
module CronEffects {
  import opened Prelude
  import opened CronDispatch

  // ---------------------------------------------------------------- spelling

  /** Letters and digits of ASCII, underscore, dot and dash. */
  predicate Ordinary(c: char) {
    'A' <= c <= 'Z' || 'a' <= c <= 'z' || '0' <= c <= '9' || c == '_' || c == '.' || c == '-'
  }

  /** Ids of ordinary characters, without underscores at the ends, are their own spelling. */
  lemma OrdinaryIdsKept(s: ScheduleId)
    requires s != "" && forall i :: 0 <= i < |s| ==> Ordinary(s[i])
    requires s[0] != '_' && s[|s| - 1] != '_'
    ensures SafeSchedule(s) == s
  {
    PlainIdsKept(s);
  }

  lemma {:induction false} CollapseIsSafe(s: string, inRun: bool)
    ensures forall i :: 0 <= i < |Collapse(s, inRun)| ==> Safe(Collapse(s, inRun)[i])
    decreases |s|
  {
    if s != "" {
      CollapseIsSafe(s[1..], !Safe(s[0]));
    }
  }

  lemma {:induction false} RestOfRun(run: string, s: string)
    requires forall i :: 0 <= i < |run| ==> !Safe(run[i])
    requires s == "" || Safe(s[0])
    ensures Collapse(run + s, true) == Collapse(s, false)
    decreases |run|
  {
    if run == "" {
      assert run + s == s;
    } else {
      RestOfRun(run[1..], s);
      assert (run + s)[1..] == run[1..] + s;
    }
  }

  lemma {:induction false} SafePrefix(a: string, s: string)
    requires forall i :: 0 <= i < |a| ==> Safe(a[i])
    ensures Collapse(a + s, false) == a + Collapse(s, false)
    decreases |a|
  {
    if a == "" {
      assert a + s == s;
    } else {
      SafePrefix(a[1..], s);
      assert (a + s)[1..] == a[1..] + s;
    }
  }

  lemma RunThenRest(run: string, s: string)
    requires run != "" && forall i :: 0 <= i < |run| ==> !Safe(run[i])
    requires s == "" || Safe(s[0])
    ensures Collapse(run + s, false) == "_" + Collapse(s, false)
  {
    RestOfRun(run[1..], s);
    assert (run + s)[0] == run[0] && (run + s)[1..] == run[1..] + s;
  }

  /** A run of unsafe characters, however long, becomes one underscore; what is safe before it stays. */
  lemma RunFoldsToOne(a: string, run: string, s: string)
    requires forall i :: 0 <= i < |a| ==> Safe(a[i])
    requires run != "" && forall i :: 0 <= i < |run| ==> !Safe(run[i])
    requires s == "" || Safe(s[0])
    ensures Collapse(a + (run + s), false) == a + ("_" + Collapse(s, false))
  {
    SafePrefix(a, run + s);
    RunThenRest(run, s);
  }

  function Underscores(n: nat): string {
    if n == 0 then "" else "_" + Underscores(n - 1)
  }

  lemma {:induction false} UnderscoresSnoc(n: nat)
    ensures Underscores(n + 1) == Underscores(n) + "_"
  {
    if n > 0 {
      UnderscoresSnoc(n - 1);
    }
  }

  lemma {:induction false} LeftStripped(s: string) returns (n: nat)
    ensures s == Underscores(n) + StripLeft(s)
    ensures StripLeft(s) == "" || StripLeft(s)[0] != '_'
    decreases |s|
  {
    n := 0;
    if s != "" && s[0] == '_' {
      n := LeftStripped(s[1..]);
      n := n + 1;
      assert s == "_" + s[1..];
    }
  }

  lemma {:induction false} RightStripped(s: string) returns (n: nat)
    ensures s == StripRight(s) + Underscores(n)
    ensures StripRight(s) == "" || StripRight(s)[|StripRight(s)| - 1] != '_'
    decreases |s|
  {
    n := 0;
    if s != "" && s[|s| - 1] == '_' {
      n := RightStripped(s[..|s| - 1]);
      UnderscoresSnoc(n);
      n := n + 1;
      assert s == s[..|s| - 1] + "_";
    }
  }

  /** The spelling is the folded id without the underscores around it, and consists of ordinary characters. */
  lemma SpellingIsTheCore(id: ScheduleId) returns (left: nat, right: nat)
    ensures var spelling := SafeSchedule(id);
      && Collapse(id, false) == Underscores(left) + spelling + Underscores(right)
      && (spelling != "" ==> spelling[0] != '_' && spelling[|spelling| - 1] != '_')
      && forall i :: 0 <= i < |spelling| ==> Ordinary(spelling[i])
  {
    var folded := Collapse(id, false);
    CollapseIsSafe(id, false);
    left := LeftStripped(folded);
    right := RightStripped(StripLeft(folded));
    var spelling := SafeSchedule(id);
    assert folded == Underscores(left) + (spelling + Underscores(right));
    forall i | 0 <= i < |spelling|
      ensures Ordinary(spelling[i])
    {
      assert spelling[i] == folded[|Underscores(left)| + i];
    }
  }

  // ---------------------------------------------------------------- who fires a schedule

  /** A schedule that lives with its session belongs to that session's processes alone. */
  ghost predicate Owns(s: Schedule, session: Session) {
    s.durable || s.session == Some(session)
  }

  ghost predicate OwnsTodo(w: World, proc: Process) {
    proc.Ticking? ==>
      forall i :: 0 <= i < |proc.todo| ==> proc.todo[i] in w.schedules && Owns(w.schedules[proc.todo[i]], proc.session)
  }

  ghost predicate OwnTicks(w: World) {
    forall p :: p in w.processes ==> OwnsTodo(w, w.processes[p])
  }

  /** What a schedule is for never changes. */
  ghost predicate SameKinds(w: World, w': World) {
    forall id :: id in w.schedules ==>
      && id in w'.schedules
      && w'.schedules[id].recurring == w.schedules[id].recurring
      && w'.schedules[id].durable == w.schedules[id].durable
      && w'.schedules[id].session == w.schedules[id].session
  }

  lemma KindsStay(w: World, e: Event)
    ensures SameKinds(w, Step(w, e))
  {
  }

  lemma OwnTicksStay(w: World, w': World, p: Pid)
    requires OwnTicks(w) && SameKinds(w, w')
    requires forall q :: q in w'.processes && q != p ==> q in w.processes && w'.processes[q] == w.processes[q]
    requires p in w'.processes ==> OwnsTodo(w', w'.processes[p])
    ensures OwnTicks(w')
  {
    forall q | q in w'.processes
      ensures OwnsTodo(w', w'.processes[q])
    {
      assert q != p ==> OwnsTodo(w, w.processes[q]);
    }
  }

  lemma NextOwns(w: World, w': World, proc: Process)
    requires SameKinds(w, w') && proc.Ticking? && proc.todo != [] && OwnsTodo(w, proc)
    ensures OwnsTodo(w', NextItem(proc)) && OwnsTodo(w', proc) && OwnsTodo(w', proc.(phase := Mark))
  {
  }

  lemma BeginOwns(w: World, p: Pid, marker: Marker, due: set<ScheduleId>, todo: seq<ScheduleId>)
    requires OwnTicks(w)
    ensures OwnTicks(Step(w, BeginTick(p, marker, due, todo)))
  {
    var w' := Step(w, BeginTick(p, marker, due, todo));
    assert forall i :: 0 <= i < |todo| ==> todo[i] in Elements(todo);
    OwnTicksStay(w, w', p);
  }

  lemma TickOwns(w: World, e: Event)
    requires OwnTicks(w) && (e.TickStep? || e.TickFault?)
    ensures OwnTicks(Step(w, e))
  {
    var proc := ProcessOf(w, e.p);
    KindsStay(w, e);
    if proc.Ticking? && proc.todo != [] {
      NextOwns(w, Step(w, e), proc);
    }
    OwnTicksStay(w, Step(w, e), e.p);
  }

  lemma OwnStep(w: World, e: Event)
    requires OwnTicks(w)
    ensures OwnTicks(Step(w, e))
  {
    KindsStay(w, e);
    match e
    case BeginTick(p, marker, due, todo) => BeginOwns(w, p, marker, due, todo);
    case TickStep(_) => TickOwns(w, e);
    case TickFault(_) => TickOwns(w, e);
    case Boot(p, _) => OwnTicksStay(w, Step(w, e), p);
    case Reconcile(p) => OwnTicksStay(w, Step(w, e), p);
    case Crash(p) => OwnTicksStay(w, Step(w, e), p);
    case _ => OwnTicksStay(w, Step(w, e), 0);
  }

  lemma {:induction false} OwnTicksHold(es: seq<Event>)
    ensures OwnTicks(After(es))
    decreases |es|
  {
    if es != [] {
      OwnTicksHold(es[..|es| - 1]);
      OwnStep(After(es[..|es| - 1]), es[|es| - 1]);
    }
  }

  /**
   Over every run: a new cron job comes from a tick of a process that may see its schedule, in the minute of that
   tick, for a schedule due then that was not yet recorded as fired in that minute when the tick began.
   */
  lemma OnlyOwnSchedulesFire(es: seq<Event>, e: Event, job: JobId)
    requires job in Step(After(es), e).jobs && job !in After(es).jobs && Step(After(es), e).jobs[job].Some?
    ensures e.TickStep? && ProcessOf(After(es), e.p).Ticking?
    ensures var proc, o := ProcessOf(After(es), e.p), Step(After(es), e).jobs[job].value;
      && o.marker == proc.marker && OccurrenceId(o.schedule, o.marker) == Some(job)
      && o.schedule in After(es).schedules && Owns(After(es).schedules[o.schedule], proc.session)
      && o.schedule in proc.due
      && (o.schedule in proc.seen ==> proc.seen[o.schedule] != Some(proc.marker))
  {
    OwnTicksHold(es);
    DispatchHolds(es);
  }

  // ---------------------------------------------------------------- what retires a schedule

  /** The schedule was cancelled at some point of the run. */
  ghost predicate Cancelled(es: seq<Event>, id: ScheduleId)
    decreases |es|
  {
    es != [] &&
    var front, e := es[..|es| - 1], es[|es| - 1];
    Cancelled(front, id) || (e == CancelSchedule(id) && id in After(front).schedules)
  }

  ghost predicate ActiveUntil(w: World, id: ScheduleId, cancelled: bool) {
    id in w.schedules ==>
      && (cancelled ==> !w.schedules[id].active)
      && (!w.schedules[id].active ==> cancelled || (!w.schedules[id].recurring && HasFired(w, id)))
  }

  lemma FiringsStay(w: World, w': World, id: ScheduleId)
    requires HasFired(w, id) && forall job :: job in w.jobs ==> job in w'.jobs && w'.jobs[job] == w.jobs[job]
    ensures HasFired(w', id)
  {
    var job :| job in w.jobs && IsJobOf(w, job, id);
    assert IsJobOf(w', job, id);
  }

  /** A mark is only made for a schedule that has its job. */
  lemma MarkedHasFired(w: World, p: Pid)
    requires DispatchInv(w) && p in w.processes && w.processes[p].Ticking? && w.processes[p].todo != []
    requires w.processes[p].phase == Mark
    ensures HasFired(w, w.processes[p].todo[0])
  {
    var proc := w.processes[p];
    assert ProcessInv(w, proc);
    assert IsJobOf(w, OccurrenceId(proc.todo[0], proc.marker).value, proc.todo[0]);
  }

  lemma ActiveTick(w: World, p: Pid, id: ScheduleId, cancelled: bool)
    requires DispatchInv(w) && ActiveUntil(w, id, cancelled) && (cancelled ==> id in w.schedules)
    requires HasFired(w, id) ==> HasFired(Step(w, TickStep(p)), id)
    ensures ActiveUntil(Step(w, TickStep(p)), id, cancelled)
  {
    var proc := ProcessOf(w, p);
    if proc.Ticking? && proc.todo != [] && proc.phase == Mark {
      MarkedHasFired(w, p);
    }
  }

  lemma ActiveOther(w: World, e: Event, id: ScheduleId, cancelled: bool)
    requires !e.TickStep? && ActiveUntil(w, id, cancelled) && (cancelled ==> id in w.schedules)
    requires HasFired(w, id) ==> HasFired(Step(w, e), id)
    ensures ActiveUntil(Step(w, e), id, cancelled || (e == CancelSchedule(id) && id in w.schedules))
  {
  }

  lemma ActiveStep(w: World, e: Event, id: ScheduleId, cancelled: bool)
    requires DispatchInv(w) && ActiveUntil(w, id, cancelled) && (cancelled ==> id in w.schedules)
    ensures ActiveUntil(Step(w, e), id, cancelled || (e == CancelSchedule(id) && id in w.schedules))
    ensures id in w.schedules ==> id in Step(w, e).schedules
  {
    if HasFired(w, id) {
      FiringsStay(w, Step(w, e), id);
    }
    KindsStay(w, e);
    if e.TickStep? {
      ActiveTick(w, e.p, id, cancelled);
    } else {
      ActiveOther(w, e, id, cancelled);
    }
  }

  /**
   Over every run: a cancelled schedule stays retired. One that is retired without having been cancelled is a one-shot
   that has its job, so a recurring schedule goes on until it is cancelled, and no one-shot is retired unfired.
   */
  lemma {:induction false} RetiredOnlyWhenDone(es: seq<Event>, id: ScheduleId)
    ensures ActiveUntil(After(es), id, Cancelled(es, id))
    ensures Cancelled(es, id) ==> id in After(es).schedules
    decreases |es|
  {
    if es != [] {
      var front, e := es[..|es| - 1], es[|es| - 1];
      RetiredOnlyWhenDone(front, id);
      DispatchHolds(front);
      ActiveStep(After(front), e, id, Cancelled(front, id));
    }
  }

  /** A mark records the minute, retires a one-shot, and changes nothing else. */
  lemma MarkEffect(w: World, p: Pid)
    requires DispatchInv(w) && p in w.processes && w.processes[p].Ticking? && w.processes[p].todo != []
    requires w.processes[p].phase == Mark && w.schedules[w.processes[p].todo[0]].active
    ensures var id := w.processes[p].todo[0];
      var w' := Step(w, TickStep(p));
      && w'.jobs == w.jobs && w'.schedules.Keys == w.schedules.Keys
      && (forall other :: other in w.schedules && other != id ==> w'.schedules[other] == w.schedules[other])
      && w'.schedules[id].lastFired == Some(w.processes[p].marker)
      && w'.schedules[id].active == w.schedules[id].recurring
      && SameKinds(w, w')
  {
    assert ProcessInv(w, w.processes[p]);
    KindsStay(w, TickStep(p));
  }

  /** A new schedule is active and unfired, and kept beyond its session only if it is durable. */
  lemma CreateEffect(w: World, id: ScheduleId, recurring: bool, durable: bool, session: Session)
    ensures var w' := Step(w, CreateSchedule(id, recurring, durable, session));
      && w'.jobs == w.jobs && w'.processes == w.processes
      && (forall other :: other in w.schedules ==> other in w'.schedules && w'.schedules[other] == w.schedules[other])
      && w'.schedules.Keys == w.schedules.Keys + {id}
      && (id !in w.schedules ==>
            && w'.schedules[id].active && w'.schedules[id].recurring == recurring && w'.schedules[id].durable == durable
            && w'.schedules[id].session == (if durable then None else Some(session))
            && w'.schedules[id].lastFired.None?)
  {
  }
}
