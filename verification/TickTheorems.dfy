/**
 What one undisturbed tick achieves: it dispatches exactly the due schedules that win their
 idempotency key, and starves the others without a trace.
 */
module TickTheorems {
  import opened Prelude
  import opened CronDispatch
  import opened CronScheduler
  import CronExpr
  import opened CronText

  // ---------------------------------------------------------------- a tick as a fold

  /** The tables after the first `i` visible schedules; `asking` are the due ones not fired in this minute. */
  function TablesAt(t: Tables, ids: seq<ScheduleId>, marker: Marker, asking: set<ScheduleId>, i: nat): Tables
    requires i <= |ids|
  {
    if i == 0 then t
    else
      var before := TablesAt(t, ids, marker, asking, i - 1);
      if ids[i - 1] in asking then Dispatch(before, ids[i - 1], marker) else before
  }

  function Asking(ids: seq<ScheduleId>, marker: Marker, due: set<ScheduleId>, seen: map<ScheduleId, Option<Marker>>)
    : set<ScheduleId>
  {
    set id | id in ids && id in due && !(id in seen && seen[id] == Some(marker))
  }

  lemma {:induction false} TickIsFold(t: Tables, ids: seq<ScheduleId>, proc: Process, i: nat)
    requires proc.Ticking? && proc.phase == Enqueue && i <= |ids| && proc.todo == ids[i..]
    ensures var asking := Asking(ids, proc.marker, proc.due, proc.seen);
      var from, end := TablesAt(t, ids, proc.marker, asking, i), TablesAt(t, ids, proc.marker, asking, |ids|);
      TickToEnd(Alone(from.schedules, from.jobs, proc)) == Alone(end.schedules, end.jobs, Idle(proc.session))
    decreases |ids| - i
  {
    var from := TablesAt(t, ids, proc.marker, Asking(ids, proc.marker, proc.due, proc.seen), i);
    if i == |ids| {
      TickEnds(from, proc);
    } else {
      TickHead(from, proc);
      assert ids[i..][1..] == ids[i + 1..] && proc.todo[0] == ids[i];
      TickIsFold(t, ids, NextItem(proc), i + 1);
    }
  }

  // ---------------------------------------------------------------- who gets the key

  /** Somebody among the first `i` asks under this key. */
  ghost predicate AskedBefore(ids: seq<ScheduleId>, marker: Marker, asking: set<ScheduleId>, i: nat, key: JobId) {
    exists j :: 0 <= j < i && j < |ids| && ids[j] in asking && OccurrenceId(ids[j], marker) == Some(key)
  }

  /** The key is the schedule's own already, or free and not asked for by an earlier schedule. */
  ghost predicate WinsKey(t: Tables, ids: seq<ScheduleId>, marker: Marker, asking: set<ScheduleId>, i: nat)
    requires i < |ids|
  {
    var key := OccurrenceId(ids[i], marker);
    && key.Some?
    && if key.value in t.jobs then IsOf(t.jobs[key.value], ids[i]) else !AskedBefore(ids, marker, asking, i, key.value)
  }

  ghost predicate Wins(t: Tables, ids: seq<ScheduleId>, marker: Marker, asking: set<ScheduleId>, i: nat)
    requires i < |ids|
  {
    ids[i] in asking && WinsKey(t, ids, marker, asking, i)
  }

  /** The winner among the first `i` holds it. */
  ghost predicate HeldByWinner(t: Tables, now: Tables, ids: seq<ScheduleId>, marker: Marker, asking: set<ScheduleId>,
                               i: nat, key: JobId)
    requires i <= |ids|
  {
    exists j: nat :: j < i && Wins(t, ids, marker, asking, j) && OccurrenceId(ids[j], marker) == Some(key)
      && key in now.jobs && now.jobs[key] == Some(Occurrence(ids[j], marker))
  }

  lemma {:induction false} KeysAt(t: Tables, ids: seq<ScheduleId>, marker: Marker, asking: set<ScheduleId>, i: nat,
                                  key: JobId)
    requires i <= |ids|
    ensures var now := TablesAt(t, ids, marker, asking, i);
      if key in t.jobs then key in now.jobs && now.jobs[key] == t.jobs[key]
      else if AskedBefore(ids, marker, asking, i, key) then HeldByWinner(t, now, ids, marker, asking, i, key)
      else key !in now.jobs
  {
    if i > 0 {
      KeysAt(t, ids, marker, asking, i - 1, key);
      var before := TablesAt(t, ids, marker, asking, i - 1);
      var now := TablesAt(t, ids, marker, asking, i);
      if key !in t.jobs && AskedBefore(ids, marker, asking, i, key) {
        if AskedBefore(ids, marker, asking, i - 1, key) {
          var j: nat :| j < i - 1 && Wins(t, ids, marker, asking, j) && OccurrenceId(ids[j], marker) == Some(key)
            && key in before.jobs && before.jobs[key] == Some(Occurrence(ids[j], marker));
          assert now.jobs[key] == Some(Occurrence(ids[j], marker));
        } else {
          assert Wins(t, ids, marker, asking, i - 1);
          assert now.jobs[key] == Some(Occurrence(ids[i - 1], marker));
        }
      }
    }
  }

  lemma {:induction false} OtherScheduleAt(t: Tables, ids: seq<ScheduleId>, marker: Marker, asking: set<ScheduleId>,
                                           lo: nat, hi: nat, id: ScheduleId)
    requires lo <= hi <= |ids| && id in t.schedules && forall j :: lo <= j < hi ==> ids[j] != id
    ensures id in TablesAt(t, ids, marker, asking, lo).schedules && id in TablesAt(t, ids, marker, asking, hi).schedules
    ensures TablesAt(t, ids, marker, asking, hi).schedules[id] == TablesAt(t, ids, marker, asking, lo).schedules[id]
    decreases hi
  {
    if lo < hi {
      OtherScheduleAt(t, ids, marker, asking, lo, hi - 1, id);
    } else if lo > 0 {
      StillKnown(t, ids, marker, asking, lo, id);
    }
  }

  lemma {:induction false} StillKnown(t: Tables, ids: seq<ScheduleId>, marker: Marker, asking: set<ScheduleId>, i: nat,
                                      id: ScheduleId)
    requires i <= |ids| && id in t.schedules
    ensures id in TablesAt(t, ids, marker, asking, i).schedules
  {
    if i > 0 {
      StillKnown(t, ids, marker, asking, i - 1, id);
    }
  }

  ghost predicate Fired(t: Tables, t': Tables, id: ScheduleId, marker: Marker)
    requires id in t.schedules
  {
    && id in t'.schedules
    && t'.schedules[id] == t.schedules[id].(lastFired := Some(marker), active := t.schedules[id].recurring)
    && OccurrenceId(id, marker).Some? && OccurrenceId(id, marker).value in t'.jobs
    && IsOf(t'.jobs[OccurrenceId(id, marker).value], id)
  }

  /** Neither marked nor stored: its key, if it has one, is somebody else's. */
  ghost predicate Starved(t: Tables, t': Tables, id: ScheduleId, marker: Marker)
    requires id in t.schedules
  {
    && id in t'.schedules && t'.schedules[id] == t.schedules[id]
    && var key := OccurrenceId(id, marker);
       key.Some? ==> key.value in t'.jobs && !IsOf(t'.jobs[key.value], id)
  }

  /** Its turn: it gets its job and its mark exactly when it wins the key. */
  lemma TurnOf(t: Tables, ids: seq<ScheduleId>, marker: Marker, asking: set<ScheduleId>, i: nat)
    requires Unique(ids) && i < |ids| && ids[i] in asking && ids[i] in t.schedules && t.schedules[ids[i]].active
    ensures var next := TablesAt(t, ids, marker, asking, i + 1);
      if WinsKey(t, ids, marker, asking, i) then Fired(t, next, ids[i], marker) else Starved(t, next, ids[i], marker)
  {
    var before := TablesAt(t, ids, marker, asking, i);
    OtherScheduleAt(t, ids, marker, asking, 0, i, ids[i]);
    var key := OccurrenceId(ids[i], marker);
    if key.Some? {
      KeysAt(t, ids, marker, asking, i, key.value);
    }
  }

  lemma AfterTurn(t: Tables, ids: seq<ScheduleId>, marker: Marker, asking: set<ScheduleId>, i: nat)
    requires Unique(ids) && i < |ids| && ids[i] in t.schedules
    ensures var next, end := TablesAt(t, ids, marker, asking, i + 1), TablesAt(t, ids, marker, asking, |ids|);
      && ids[i] in next.schedules && ids[i] in end.schedules && end.schedules[ids[i]] == next.schedules[ids[i]]
      && forall key :: key in next.jobs ==> key in end.jobs && end.jobs[key] == next.jobs[key]
  {
    OtherScheduleAt(t, ids, marker, asking, i + 1, |ids|, ids[i]);
    JobsStay(t, ids, marker, asking, i + 1, |ids|);
  }

  lemma {:induction false} JobsStay(t: Tables, ids: seq<ScheduleId>, marker: Marker, asking: set<ScheduleId>, lo: nat,
                                    hi: nat)
    requires lo <= hi <= |ids|
    ensures var from, to := TablesAt(t, ids, marker, asking, lo), TablesAt(t, ids, marker, asking, hi);
      forall key :: key in from.jobs ==> key in to.jobs && to.jobs[key] == from.jobs[key]
    decreases hi
  {
    if lo < hi {
      JobsStay(t, ids, marker, asking, lo, hi - 1);
    }
  }

  // ---------------------------------------------------------------- the theorem

  /** The scheduler alone with the store, seeing exactly the schedules `visible` in this order. */
  ghost predicate Sees(t: Tables, session: Session, visible: seq<ScheduleId>) {
    Unique(visible) && Elements(visible) == VisibleIds(Alone(t.schedules, t.jobs, Idle(session)), session)
  }

  function LastFired(t: Tables, visible: seq<ScheduleId>): map<ScheduleId, Option<Marker>> {
    map id | id in Elements(visible) && id in t.schedules :: t.schedules[id].lastFired
  }

  /** The tables after an undisturbed tick. */
  ghost function AfterTick(t: Tables, session: Session, marker: Marker, due: set<ScheduleId>, visible: seq<ScheduleId>)
    : Tables
    requires Sees(t, session, visible) && IsMarker(marker)
  {
    TickBegins(t, session, marker, due, visible);
    var w := TickToEnd(Step(Alone(t.schedules, t.jobs, Idle(session)), BeginTick(0, marker, due, visible)));
    Tables(w.schedules, w.jobs)
  }

  lemma TickIsDispatch(t: Tables, session: Session, marker: Marker, due: set<ScheduleId>, visible: seq<ScheduleId>)
    requires Sees(t, session, visible) && IsMarker(marker)
    ensures AfterTick(t, session, marker, due, visible)
      == TablesAt(t, visible, marker, AskingNow(t, visible, marker, due), |visible|)
    ensures forall i :: 0 <= i < |visible| ==> visible[i] in t.schedules && t.schedules[visible[i]].active
  {
    var seen := LastFired(t, visible);
    TickBegins(t, session, marker, due, visible);
    assert visible[0..] == visible;
    TickIsFold(t, visible, Ticking(session, marker, due, visible, seen, Enqueue), 0);
    assert Asking(visible, marker, due, seen) == AskingNow(t, visible, marker, due);
  }

  /**
   An undisturbed tick, by a scheduler that sees `visible`: every visible schedule whose expression
   matches and that has not fired in this minute gets its job and its mark exactly when it wins its
   key. One that loses it to an earlier schedule of the same spelling is left as it was.
   */
  lemma TickDispatchesIff(t: Tables, session: Session, marker: Marker, py: Python, crons: map<ScheduleId, string>,
                          now: CronExpr.Instant, visible: seq<ScheduleId>, i: nat)
    requires Sees(t, session, visible) && IsMarker(marker) && i < |visible|
    requires IsDue(py, crons, now, visible[i])
    ensures visible[i] in t.schedules
    ensures t.schedules[visible[i]].lastFired != Some(marker) ==>
      var t' := AfterTick(t, session, marker, Due(py, crons, now), visible);
      if WinsKey(t, visible, marker, AskingNow(t, visible, marker, Due(py, crons, now)), i)
      then Fired(t, t', visible[i], marker)
      else Starved(t, t', visible[i], marker)
  {
    var due := Due(py, crons, now);
    TickIsDispatch(t, session, marker, due, visible);
    if t.schedules[visible[i]].lastFired != Some(marker) {
      TurnOf(t, visible, marker, AskingNow(t, visible, marker, due), i);
      AfterTurn(t, visible, marker, AskingNow(t, visible, marker, due), i);
    }
  }

  function AskingNow(t: Tables, visible: seq<ScheduleId>, marker: Marker, due: set<ScheduleId>): set<ScheduleId> {
    set id | id in visible && id in due && id in t.schedules && t.schedules[id].lastFired != Some(marker)
  }

  ghost function Winners(t: Tables, ids: seq<ScheduleId>, marker: Marker, asking: set<ScheduleId>): set<ScheduleId> {
    set i | 0 <= i < |ids| && Wins(t, ids, marker, asking, i) :: ids[i]
  }

  function FiredRow(schedule: Schedule, marker: Marker): Schedule {
    schedule.(lastFired := Some(marker), active := schedule.recurring)
  }

  ghost function Marked(schedules: map<ScheduleId, Schedule>, ids: set<ScheduleId>, marker: Marker)
    : map<ScheduleId, Schedule>
  {
    map id | id in schedules :: if id in ids then FiredRow(schedules[id], marker) else schedules[id]
  }

  lemma WinnersAre(t: Tables, ids: seq<ScheduleId>, marker: Marker, asking: set<ScheduleId>, i: nat)
    requires Unique(ids) && i < |ids|
    ensures ids[i] in Winners(t, ids, marker, asking) <==> Wins(t, ids, marker, asking, i)
  {
  }

  /** A turn that is skipped changes nothing, so its schedule is what it was. */
  lemma SkippedTurn(t: Tables, ids: seq<ScheduleId>, marker: Marker, asking: set<ScheduleId>, i: nat)
    requires Unique(ids) && i < |ids| && ids[i] in t.schedules && ids[i] !in asking
    ensures var end := TablesAt(t, ids, marker, asking, |ids|);
      ids[i] in end.schedules && end.schedules[ids[i]] == t.schedules[ids[i]]
  {
    OtherScheduleAt(t, ids, marker, asking, 0, i, ids[i]);
    AfterTurn(t, ids, marker, asking, i);
  }

  lemma ScheduleAfter(t: Tables, ids: seq<ScheduleId>, marker: Marker, asking: set<ScheduleId>, id: ScheduleId)
    requires Unique(ids) && id in t.schedules
    requires forall i :: 0 <= i < |ids| ==> ids[i] in t.schedules && t.schedules[ids[i]].active
    ensures var end := TablesAt(t, ids, marker, asking, |ids|);
      && id in end.schedules
      && end.schedules[id] ==
           if id in Winners(t, ids, marker, asking) then FiredRow(t.schedules[id], marker) else t.schedules[id]
  {
    if id in ids {
      var i :| 0 <= i < |ids| && ids[i] == id;
      WinnersAre(t, ids, marker, asking, i);
      if id in asking {
        TurnOf(t, ids, marker, asking, i);
        AfterTurn(t, ids, marker, asking, i);
      } else {
        SkippedTurn(t, ids, marker, asking, i);
      }
    } else {
      OtherScheduleAt(t, ids, marker, asking, 0, |ids|, id);
    }
  }

  lemma {:induction false} SameSchedules(t: Tables, ids: seq<ScheduleId>, marker: Marker, asking: set<ScheduleId>, i: nat)
    requires i <= |ids|
    ensures TablesAt(t, ids, marker, asking, i).schedules.Keys == t.schedules.Keys
  {
    if i > 0 {
      SameSchedules(t, ids, marker, asking, i - 1);
    }
  }

  /** The jobs after a tick: those there were, and the occurrence of each winner whose key was free. */
  ghost predicate JobsAfter(t: Tables, t': Tables, ids: seq<ScheduleId>, marker: Marker, asking: set<ScheduleId>,
                            key: JobId) {
    && (key in t.jobs ==> key in t'.jobs && t'.jobs[key] == t.jobs[key])
    && (key in t'.jobs && key !in t.jobs ==> HeldByWinner(t, t', ids, marker, asking, |ids|, key))
  }

  lemma WinnersAreStored(t: Tables, ids: seq<ScheduleId>, marker: Marker, asking: set<ScheduleId>, i: nat)
    requires i < |ids| && Wins(t, ids, marker, asking, i)
    ensures OccurrenceId(ids[i], marker).value in TablesAt(t, ids, marker, asking, |ids|).jobs
  {
    var key := OccurrenceId(ids[i], marker).value;
    KeysAt(t, ids, marker, asking, |ids|, key);
    assert AskedBefore(ids, marker, asking, |ids|, key);
  }

  /**
   The whole store after an undisturbed tick. The winners are marked, and the one-shots among them retired; no
   other schedule changes. Each winner has the job of its key; there is no other new job, and no old one changes.
   */
  lemma TickTables(t: Tables, session: Session, marker: Marker, due: set<ScheduleId>, visible: seq<ScheduleId>)
    requires Sees(t, session, visible) && IsMarker(marker)
    ensures var t' := AfterTick(t, session, marker, due, visible);
      var asking := AskingNow(t, visible, marker, due);
      var winners := Winners(t, visible, marker, asking);
      && t'.schedules == Marked(t.schedules, winners, marker)
      && (forall key :: JobsAfter(t, t', visible, marker, asking, key))
      && (forall i: nat :: i < |visible| && Wins(t, visible, marker, asking, i) ==>
            OccurrenceId(visible[i], marker).value in t'.jobs)
  {
    var asking := AskingNow(t, visible, marker, due);
    var t' := AfterTick(t, session, marker, due, visible);
    TickIsDispatch(t, session, marker, due, visible);
    SameSchedules(t, visible, marker, asking, |visible|);
    forall id | id in t.schedules
      ensures t'.schedules[id] == if id in Winners(t, visible, marker, asking)
        then FiredRow(t.schedules[id], marker) else t.schedules[id]
    {
      ScheduleAfter(t, visible, marker, asking, id);
    }
    forall key
      ensures JobsAfter(t, t', visible, marker, asking, key)
    {
      KeysAt(t, visible, marker, asking, |visible|, key);
    }
    forall i: nat | i < |visible| && Wins(t, visible, marker, asking, i)
      ensures OccurrenceId(visible[i], marker).value in t'.jobs
    {
      WinnersAreStored(t, visible, marker, asking, i);
    }
  }

  /** For an expression of the grammar, being due is denoting the instant. */
  lemma DueIsDenoted(py: Python, crons: map<ScheduleId, string>, now: CronExpr.Instant, id: ScheduleId,
                     specs: seq<CronExpr.Spec>)
    requires id in crons && CronExpr.ExpressionReads(py, crons[id], specs)
    ensures id in Due(py, crons, now) <==> CronExpr.Fires(specs, now)
  {
    CronExpr.AcceptedExpressionsFire(py, crons[id], now);
  }

  /** An expression that raises is not due, nor is a schedule without one. */
  lemma OnlyMatchesAreDue(py: Python, crons: map<ScheduleId, string>, now: CronExpr.Instant, id: ScheduleId)
    ensures id in Due(py, crons, now) <==> id in crons && CronExpr.Matches(py, crons[id], now) == Some(true)
  {
  }

  /** Due now, and not fired in this minute. */
  ghost predicate Asks(t: Tables, marker: Marker, py: Python, crons: map<ScheduleId, string>, now: CronExpr.Instant,
                       id: ScheduleId) {
    IsDue(py, crons, now, id) && id in t.schedules && t.schedules[id].lastFired != Some(marker)
  }

  /** Two ids of one spelling, both due in a minute whose key is free: the later one is starved. */
  lemma SameSpellingStarves(t: Tables, session: Session, marker: Marker, py: Python, crons: map<ScheduleId, string>,
                            now: CronExpr.Instant, visible: seq<ScheduleId>, i: nat, j: nat)
    requires Sees(t, session, visible) && IsMarker(marker) && i < j < |visible|
    requires Asks(t, marker, py, crons, now, visible[i]) && Asks(t, marker, py, crons, now, visible[j])
    requires SafeSchedule(visible[i]) == SafeSchedule(visible[j])
    requires var key := OccurrenceId(visible[j], marker); key.Some? ==> key.value !in t.jobs
    ensures Starved(t, AfterTick(t, session, marker, Due(py, crons, now), visible), visible[j], marker)
  {
    TickDispatchesIff(t, session, marker, py, crons, now, visible, j);
    var asking := AskingNow(t, visible, marker, Due(py, crons, now));
    assert visible[i] in asking && OccurrenceId(visible[i], marker) == OccurrenceId(visible[j], marker);
  }
}
