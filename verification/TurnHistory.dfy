/**
 How a turn ends, told from the calls it made: the recovery flags and counters of the loop stand for what happened
 before, and the result follows from the last call and from them.
 */
module TurnHistory {
  import opened AgentLoop
  import opened ModelGateway

  predicate NoneWaiting(calls: seq<Call>) {
    forall i :: 0 <= i < |calls| ==> !calls[i].Waiting?
  }

  predicate IsTruncated(call: Call) {
    call.Returned? && call.reply.Truncated?
  }

  predicate IsComplete(call: Call) {
    call.Returned? && call.reply.Complete?
  }

  /** A complete response without tool use: the turn would be over but for open research runs. */
  predicate IsFinal(call: Call) {
    IsComplete(call) && forall i :: 0 <= i < |call.reply.blocks| ==> !call.reply.blocks[i].ToolUse?
  }

  /** The uses of a round are answered in the order of its blocks. */
  lemma {:induction false} UseIdsConcat(a: seq<Block>, b: seq<Block>)
    ensures UseIds(a + b) == UseIds(a) + UseIds(b)
    decreases |b|
  {
    if b == [] {
      assert a + b == a;
    } else {
      assert (a + b)[..|a + b| - 1] == a + b[..|b| - 1];
      UseIdsConcat(a, b[..|b| - 1]);
    }
  }

  /** Each tool use has its id answered once, and prose has no answer. */
  lemma UseIdsOfOne(block: Block)
    ensures UseIds([block]) == if block.ToolUse? then [block.id] else []
  {
    assert [block][..0] == [];
  }

  /** Results go back to the model for a complete response that uses tools, unless one of its uses is a compaction. */
  lemma SentIff(call: Call)
    ensures Sent(call).Some? <==>
      && IsComplete(call) && !IsFinal(call)
      && forall i :: 0 <= i < |call.reply.blocks| && call.reply.blocks[i].ToolUse? ==> call.reply.blocks[i].use != Compact
    ensures Sent(call).Some? ==> Sent(call).value == UseIds(call.reply.blocks)
  {
  }

  /** A response was cut off, and none has been complete since. */
  ghost predicate Escalated(calls: seq<Call>) {
    exists i :: 0 <= i < |calls| && IsTruncated(calls[i]) && forall j :: i < j < |calls| ==> !IsComplete(calls[j])
  }

  /** How many responses were cut off although the limit had been raised. */
  ghost function Continuations(calls: seq<Call>): nat {
    if calls == [] then 0
    else
      var front, last := calls[..|calls| - 1], calls[|calls| - 1];
      Continuations(front) + if IsTruncated(last) && Escalated(front) then 1 else 0
  }

  function Finals(calls: seq<Call>): nat {
    if calls == [] then 0 else Finals(calls[..|calls| - 1]) + if IsFinal(calls[|calls| - 1]) then 1 else 0
  }

  ghost predicate HasRaised(calls: seq<Call>) {
    exists i :: 0 <= i < |calls| && calls[i].Raised?
  }

  /** What the control state stands for. */
  ghost predicate StandsFor(c: Control, calls: seq<Call>) {
    && (c.escalated <==> Escalated(calls))
    && c.recoveries == Continuations(calls)
    && (c.compacted <==> HasRaised(calls))
    && c.gates == Finals(calls)
  }

  lemma EscalatedSnoc(calls: seq<Call>, call: Call)
    ensures Escalated(calls + [call]) <==> IsTruncated(call) || (Escalated(calls) && !IsComplete(call))
  {
    var all := calls + [call];
    assert all[|calls|] == call && forall i :: 0 <= i < |calls| ==> all[i] == calls[i];
    if Escalated(calls) && !IsComplete(call) {
      var i :| 0 <= i < |calls| && IsTruncated(calls[i]) && forall j :: i < j < |calls| ==> !IsComplete(calls[j]);
      assert IsTruncated(all[i]);
    }
    if Escalated(all) && !IsTruncated(call) {
      var i :| 0 <= i < |all| && IsTruncated(all[i]) && forall j :: i < j < |all| ==> !IsComplete(all[j]);
      assert IsTruncated(calls[i]);
    }
  }

  lemma RaisedSnoc(calls: seq<Call>, call: Call)
    ensures HasRaised(calls + [call]) <==> HasRaised(calls) || call.Raised?
  {
    var all := calls + [call];
    assert all[|calls|] == call && forall i :: 0 <= i < |calls| ==> all[i] == calls[i];
    if HasRaised(calls) {
      var i :| 0 <= i < |calls| && calls[i].Raised?;
      assert all[i].Raised?;
    }
  }

  lemma CountsSnoc(calls: seq<Call>, call: Call)
    ensures Continuations(calls + [call]) == Continuations(calls) + if IsTruncated(call) && Escalated(calls) then 1 else 0
    ensures Finals(calls + [call]) == Finals(calls) + if IsFinal(call) then 1 else 0
  {
    assert (calls + [call])[..|calls|] == calls;
  }

  lemma ReactStands(retries: int, c: Control, calls: seq<Call>, call: Call)
    requires StandsFor(c, calls) && !call.Waiting? && React(retries, c, call).Continue?
    ensures StandsFor(React(retries, c, call).control, calls + [call])
  {
    EscalatedSnoc(calls, call);
    RaisedSnoc(calls, call);
    CountsSnoc(calls, call);
  }

  lemma {:induction false} ControlStands(retries: int, calls: seq<Call>)
    requires NoneWaiting(calls) && GoesOn(retries, calls)
    ensures StandsFor(ControlAfter(retries, calls), calls)
    decreases |calls|
  {
    if calls != [] {
      var front, last := calls[..|calls| - 1], calls[|calls| - 1];
      ControlStands(retries, front);
      ReactStands(retries, ControlAfter(retries, front), front, last);
      assert calls == front + [last];
    }
  }

  /** The next call asks for the raised limit exactly when a response was cut off and none has been complete since. */
  lemma NextLimit(c: Config, calls: seq<Call>)
    requires NoneWaiting(calls) && GoesOn(c.maxRecoveryRetries, calls)
    ensures LimitFor(c, ControlAfter(c.maxRecoveryRetries, calls))
      == if Escalated(calls) then c.escalatedMaxTokens else c.defaultMaxTokens
  {
    ControlStands(c.maxRecoveryRetries, calls);
  }

  /** Why a turn cannot go on after these calls. */
  ghost predicate OutOfContinuations(retries: int, calls: seq<Call>, call: Call) {
    IsTruncated(call) && Escalated(calls) && Continuations(calls) >= retries
  }

  ghost predicate OutOfGates(calls: seq<Call>, call: Call) {
    IsFinal(call) && (call.reply.research == OpenFailed || (call.reply.research == Open && Finals(calls) >= 2))
  }

  /**
   A turn is over with its last call, and the result says why: a complete response without tool use while no research
   is open; a call that raised, unless for its length and for the first time; a response cut off when the limit had been
   raised and the continuations were used up; or research left open when the two reminders were used up or it had failed.
   */
  lemma TurnResult(retries: int, calls: seq<Call>, call: Call, result: Result)
    requires NoneWaiting(calls + [call])
    ensures Ends(retries, calls + [call], result) ==> GoesOn(retries, calls)
    ensures GoesOn(retries, calls) ==>
      (Ends(retries, calls + [call], result) <==>
        match result
        case Answered => IsFinal(call) && call.reply.research == Settled
        case CallFailed => call.Raised? && (!call.tooLong || HasRaised(calls))
        case StoppedTruncated => OutOfContinuations(retries, calls, call) && call.reply.research == Settled
        case WorkflowFailed =>
          || (OutOfContinuations(retries, calls, call) && call.reply.research != Settled)
          || OutOfGates(calls, call))
  {
    assert (calls + [call])[..|calls|] == calls && (calls + [call])[|calls|] == call;
    assert forall i :: 0 <= i < |calls| ==> calls[i] == (calls + [call])[i];
    if GoesOn(retries, calls) {
      ControlStands(retries, calls);
    }
  }
}
