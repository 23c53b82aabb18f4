/**
 One turn of the lead agent: a loop of model calls with several recovery flags, some reset by every
 complete response and some never.
 */
module AgentLoop {
  import opened ModelGateway
  import opened Prelude

  // ---------------------------------------------------------------- replies

  datatype Use = Compact | Blocked | Background | Handled

  datatype Block = Prose | ToolUse(id: string, use: Use)

  /** Research runs still open when the turn would end. */
  datatype Research = Settled | Open | OpenFailed

  datatype Reply =
    | Truncated(research: Research)
    | Complete(blocks: seq<Block>, research: Research)

  type Call = CallResult<Reply>

  predicate HasToolUse(blocks: seq<Block>) {
    exists i :: 0 <= i < |blocks| && blocks[i].ToolUse?
  }

  // ---------------------------------------------------------------- tool results

  function UseIds(blocks: seq<Block>): seq<string> {
    if blocks == [] then []
    else
      var last := blocks[|blocks| - 1];
      UseIds(blocks[..|blocks| - 1]) + if last.ToolUse? then [last.id] else []
  }

  predicate Compacts(b: Block) {
    b.ToolUse? && b.use == Compact
  }

  ghost predicate CutAt(blocks: seq<Block>, i: nat)
    requires i < |blocks|
  {
    Compacts(blocks[i]) && forall j :: 0 <= j < i ==> !Compacts(blocks[j])
  }

  /** Every tool use is answered once, in order, unless a compaction cuts the round short. */
  method CollectResults(blocks: seq<Block>) returns (results: seq<string>, compactedNow: bool)
    ensures compactedNow <==> exists i :: 0 <= i < |blocks| && Compacts(blocks[i])
    ensures !compactedNow ==> results == UseIds(blocks)
    ensures compactedNow ==> exists i :: 0 <= i < |blocks| && CutAt(blocks, i) && results == UseIds(blocks[..i])
  {
    results, compactedNow := [], false;
    for i := 0 to |blocks|
      invariant !compactedNow && results == UseIds(blocks[..i])
      invariant forall j :: 0 <= j < i ==> !Compacts(blocks[j])
    {
      assert blocks[..i + 1][..i] == blocks[..i];
      if blocks[i].ToolUse? {
        if blocks[i].use == Compact {
          compactedNow := true;
          assert CutAt(blocks, i);
          return;
        }
        results := results + [blocks[i].id];
      }
    }
    assert blocks[..|blocks|] == blocks;
  }

  // ---------------------------------------------------------------- the turn's control flow

  /** `escalated` and `recoveries` live in the recovery state, `gates` is local to the turn. */
  datatype Control = Control(escalated: bool, recoveries: nat, compacted: bool, gates: nat)

  const START := Control(false, 0, false, 0)

  datatype Result = Answered | WorkflowFailed | StoppedTruncated | CallFailed

  datatype Move = Continue(control: Control) | Stop(result: Result)

  predicate GateOpen(c: Control, research: Research) {
    research == Open && c.gates < 2
  }

  /** What the loop does with one call's outcome; `retries` is `max_recovery_retries`. */
  function React(retries: int, c: Control, call: Call): Move
    requires !call.Waiting?
  {
    match call
    case Raised(tooLong) =>
      if tooLong && !c.compacted then Continue(c.(compacted := true)) else Stop(CallFailed)
    case Returned(Truncated(research)) =>
      if !c.escalated then Continue(c.(escalated := true))
      else if c.recoveries < retries then Continue(c.(recoveries := c.recoveries + 1))
      else Stop(if research == Settled then StoppedTruncated else WorkflowFailed)
    case Returned(Complete(blocks, research)) =>
      if HasToolUse(blocks) then Continue(c.(escalated := false))
      else if research == Settled then Stop(Answered)
      else if GateOpen(c, research) then Continue(c.(escalated := false, gates := c.gates + 1))
      else Stop(WorkflowFailed)
  }

  /** The control state after calls none of which ends the turn; `GoesOn` says that none does. */
  function ControlAfter(retries: int, calls: seq<Call>): Control
    requires forall i :: 0 <= i < |calls| ==> !calls[i].Waiting?
  {
    if calls == [] then START
    else
      match React(retries, ControlAfter(retries, calls[..|calls| - 1]), calls[|calls| - 1])
      case Continue(c) => c
      case Stop(_) => START
  }

  predicate GoesOn(retries: int, calls: seq<Call>)
    requires forall i :: 0 <= i < |calls| ==> !calls[i].Waiting?
  {
    calls == [] || (
      && GoesOn(retries, calls[..|calls| - 1])
      && React(retries, ControlAfter(retries, calls[..|calls| - 1]), calls[|calls| - 1]).Continue?)
  }

  /** The calls of a turn so far: the last may end it, no other does. */
  predicate IsTurn(retries: int, calls: seq<Call>)
    requires forall i :: 0 <= i < |calls| ==> !calls[i].Waiting?
  {
    calls == [] || GoesOn(retries, calls[..|calls| - 1])
  }

  predicate IsToolRound(call: Call) {
    call.Returned? && call.reply.Complete? && HasToolUse(call.reply.blocks)
  }

  function ToolRounds(calls: seq<Call>): nat {
    if calls == [] then 0
    else ToolRounds(calls[..|calls| - 1]) + if IsToolRound(calls[|calls| - 1]) then 1 else 0
  }

  function Retries(retries: int): nat {
    if retries < 0 then 0 else retries
  }

  /** Calls the turn can still spend without another tool round. */
  function Patience(retries: int, c: Control): int {
    2 * (2 - c.gates) + (Retries(retries) - c.recoveries) + (if c.compacted then 0 else 1) + (if c.escalated then 0 else 1)
  }

  /** Every call the turn survives costs patience; only a tool round gives one unit back. */
  lemma ReactSpends(retries: int, c: Control, call: Call)
    requires !call.Waiting? && React(retries, c, call).Continue?
    requires c.gates <= 2 && c.recoveries <= Retries(retries)
    ensures var c' := React(retries, c, call).control;
      && c'.gates <= 2 && c'.recoveries <= Retries(retries)
      && Patience(retries, c') <= Patience(retries, c) + if IsToolRound(call) then 1 else -1
  {
  }

  lemma {:induction false} PatienceAccounts(retries: int, calls: seq<Call>)
    requires forall i :: 0 <= i < |calls| ==> !calls[i].Waiting?
    requires GoesOn(retries, calls)
    ensures var c := ControlAfter(retries, calls);
      && c.gates <= 2 && c.recoveries <= Retries(retries)
      && 0 <= Patience(retries, c) <= Retries(retries) + 6 + 2 * ToolRounds(calls) - |calls|
    decreases |calls|
  {
    if calls != [] {
      var n := |calls| - 1;
      PatienceAccounts(retries, calls[..n]);
      ReactSpends(retries, ControlAfter(retries, calls[..n]), calls[n]);
    }
  }

  /** A turn makes at most `2T + R + 7` model calls, for `T` tool rounds and `R` allowed continuations. */
  lemma CallsAreBounded(retries: int, calls: seq<Call>)
    requires forall i :: 0 <= i < |calls| ==> !calls[i].Waiting?
    requires IsTurn(retries, calls)
    ensures |calls| <= 2 * ToolRounds(calls) + Retries(retries) + 7
    ensures GoesOn(retries, calls) ==> |calls| <= 2 * ToolRounds(calls) + Retries(retries) + 6
  {
    if calls != [] {
      PatienceAccounts(retries, calls[..|calls| - 1]);
      if GoesOn(retries, calls) {
        PatienceAccounts(retries, calls);
      }
    }
  }

  /** A turn that is over, and how. */
  predicate Ends(retries: int, calls: seq<Call>, result: Result)
    requires forall i :: 0 <= i < |calls| ==> !calls[i].Waiting?
  {
    && calls != [] && GoesOn(retries, calls[..|calls| - 1])
    && React(retries, ControlAfter(retries, calls[..|calls| - 1]), calls[|calls| - 1]) == Stop(result)
  }

  // ---------------------------------------------------------------- the bound is reached

  const CUT: Call := Returned(Truncated(Settled))
  const GATED: Call := Returned(Complete([], Open))
  const TOOL: Call := Returned(Complete([ToolUse("use", Use.Handled)], Settled))
  const LAST: Call := Returned(Complete([Prose], Settled))

  function Repeated(calls: seq<Call>, n: nat): seq<Call> {
    if n == 0 then [] else Repeated(calls, n - 1) + calls
  }

  /** Truncate before every tool round and every gate, then spend all continuations and a compaction. */
  function WorstTurn(tools: nat, retries: nat): seq<Call> {
    Repeated([CUT, TOOL], tools) + [CUT, GATED, CUT, GATED, CUT] + Repeated([CUT], retries)
    + [Raised(true), LAST]
  }

  ghost predicate Leads(retries: int, calls: seq<Call>, c: Control) {
    && (forall i :: 0 <= i < |calls| ==> !calls[i].Waiting?)
    && GoesOn(retries, calls) && ControlAfter(retries, calls) == c
  }

  lemma LeadsOn(retries: int, calls: seq<Call>, c: Control, call: Call, c': Control)
    requires Leads(retries, calls, c) && !call.Waiting? && React(retries, c, call) == Continue(c')
    ensures Leads(retries, calls + [call], c')
    ensures ToolRounds(calls + [call]) == ToolRounds(calls) + if IsToolRound(call) then 1 else 0
  {
    assert (calls + [call])[..|calls|] == calls;
  }

  lemma ToolIsRound()
    ensures IsToolRound(TOOL)
  {
    assert TOOL.reply.blocks[0].ToolUse?;
  }

  lemma {:induction false} ToolsLead(retries: int, n: nat)
    ensures Leads(retries, Repeated([CUT, TOOL], n), START)
    ensures |Repeated([CUT, TOOL], n)| == 2 * n && ToolRounds(Repeated([CUT, TOOL], n)) == n
  {
    if n > 0 {
      ToolsLead(retries, n - 1);
      var before := Repeated([CUT, TOOL], n - 1);
      var cut := START.(escalated := true);
      ToolIsRound();
      LeadsOn(retries, before, START, CUT, cut);
      LeadsOn(retries, before + [CUT], cut, TOOL, START);
      assert before + [CUT, TOOL] == before + [CUT] + [TOOL];
    }
  }

  lemma {:induction false} CutsLead(retries: nat, calls: seq<Call>, n: nat)
    requires n <= retries && Leads(retries, calls, Control(true, 0, false, 2))
    ensures Leads(retries, calls + Repeated([CUT], n), Control(true, n, false, 2))
    ensures |Repeated([CUT], n)| == n && ToolRounds(calls + Repeated([CUT], n)) == ToolRounds(calls)
  {
    if n == 0 {
      assert calls + [] == calls;
    } else {
      CutsLead(retries, calls, n - 1);
      var before := calls + Repeated([CUT], n - 1);
      LeadsOn(retries, before, Control(true, n - 1, false, 2), CUT, Control(true, n, false, 2));
      assert calls + Repeated([CUT], n) == before + [CUT];
    }
  }

  lemma GatesLead(retries: nat, calls: seq<Call>)
    requires Leads(retries, calls, START)
    ensures Leads(retries, calls + [CUT, GATED, CUT, GATED, CUT], Control(true, 0, false, 2))
    ensures ToolRounds(calls + [CUT, GATED, CUT, GATED, CUT]) == ToolRounds(calls)
  {
    LeadsOn(retries, calls, START, CUT, Control(true, 0, false, 0));
    LeadsOn(retries, calls + [CUT], Control(true, 0, false, 0), GATED, Control(false, 0, false, 1));
    LeadsOn(retries, calls + [CUT] + [GATED], Control(false, 0, false, 1), CUT, Control(true, 0, false, 1));
    LeadsOn(retries, calls + [CUT] + [GATED] + [CUT], Control(true, 0, false, 1), GATED, Control(false, 0, false, 2));
    LeadsOn(retries, calls + [CUT] + [GATED] + [CUT] + [GATED],
            Control(false, 0, false, 2), CUT, Control(true, 0, false, 2));
    assert calls + [CUT] + [GATED] + [CUT] + [GATED] + [CUT] == calls + [CUT, GATED, CUT, GATED, CUT];
  }

  /** The bound is exact for every number of tool rounds and continuations. */
  lemma BoundIsReached(tools: nat, retries: nat)
    ensures var calls := WorstTurn(tools, retries);
      && (forall i :: 0 <= i < |calls| ==> !calls[i].Waiting?)
      && IsTurn(retries, calls) && ToolRounds(calls) == tools
      && |calls| == 2 * tools + retries + 7
  {
    var a := Repeated([CUT, TOOL], tools);
    ToolsLead(retries, tools);
    GatesLead(retries, a);
    var b := a + [CUT, GATED, CUT, GATED, CUT];
    CutsLead(retries, b, retries);
    var c := b + Repeated([CUT], retries);
    LeadsOn(retries, c, Control(true, retries, false, 2), Raised(true), Control(true, retries, true, 2));
    var calls := WorstTurn(tools, retries);
    assert calls == c + [Raised(true)] + [LAST];
    assert calls[..|calls| - 1] == c + [Raised(true)];
  }

  // ---------------------------------------------------------------- the loop

  datatype Config = Config(gateway: GatewayConfig, defaultMaxTokens: nat, escalatedMaxTokens: nat, maxRecoveryRetries: int)

  /** The token limit of the next call follows the escalation flag. */
  function LimitFor(c: Config, control: Control): nat {
    if control.escalated then c.escalatedMaxTokens else c.defaultMaxTokens
  }

  function ControlOf(state: RecoveryState, gates: nat): Control
    reads state
  {
    Control(state.hasEscalated, state.recoveryCount, state.hasAttemptedReactiveCompact, gates)
  }

  ghost predicate CompactsRound(blocks: seq<Block>) {
    exists i :: 0 <= i < |blocks| && Compacts(blocks[i])
  }

  /** The tool results that go back to the model: for each use of the round one, unless it was compacted away. */
  ghost function Sent(call: Call): Option<seq<string>> {
    if IsToolRound(call) && !CompactsRound(call.reply.blocks) then Some(UseIds(call.reply.blocks)) else None
  }

  /** One call's outcome, handled in place; `None` goes on with the turn. */
  method AfterCall(c: Config, state: RecoveryState, gates: nat, maxTokens: nat, call: Call)
    returns (stop: Option<Result>, gates': nat, maxTokens': nat, sent: Option<seq<string>>)
    requires !call.Waiting? && maxTokens == LimitFor(c, ControlOf(state, gates))
    modifies state`hasEscalated, state`recoveryCount, state`hasAttemptedReactiveCompact
    ensures match React(c.maxRecoveryRetries, old(ControlOf(state, gates)), call)
      case Continue(next) => stop == None && ControlOf(state, gates') == next && maxTokens' == LimitFor(c, next)
      case Stop(result) => stop == Some(result)
    ensures sent == Sent(call)
    ensures stop.None? && old(state.hasAttemptedReactiveCompact) ==> state.hasAttemptedReactiveCompact
    ensures stop.None? && call.Raised? ==> state.hasAttemptedReactiveCompact && !old(state.hasAttemptedReactiveCompact)
  {
    stop, gates', maxTokens', sent := None, gates, maxTokens, None;
    match call
    case Raised(tooLong) =>
      if tooLong && !state.hasAttemptedReactiveCompact {
        state.hasAttemptedReactiveCompact := true;
      } else {
        stop := Some(CallFailed);
      }
    case Returned(Truncated(research)) =>
      if !state.hasEscalated {
        maxTokens' := c.escalatedMaxTokens;
        state.hasEscalated := true;
      } else if state.recoveryCount < c.maxRecoveryRetries {
        state.recoveryCount := state.recoveryCount + 1;
      } else {
        stop := Some(if research == Settled then StoppedTruncated else WorkflowFailed);
      }
    case Returned(Complete(blocks, research)) =>
      maxTokens' := c.defaultMaxTokens;
      state.hasEscalated := false;
      if HasToolUse(blocks) {
        var results, compactedNow := CollectResults(blocks);
        if !compactedNow {
          sent := Some(results);
        }
      } else if research == Settled {
        stop := Some(Answered);
      } else if gates < 2 && research != OpenFailed {
        gates' := gates + 1;
      } else {
        stop := Some(WorkflowFailed);
      }
  }

  function AttemptBound(c: Config, calls: seq<Call>): nat {
    c.gateway.maxRetries * (2 * ToolRounds(calls) + Retries(c.maxRecoveryRetries) + 7)
  }

  lemma AttemptsAreBounded(c: Config, calls: seq<Call>, next: nat)
    requires forall i :: 0 <= i < |calls| ==> !calls[i].Waiting?
    requires IsTurn(c.maxRecoveryRetries, calls)
    ensures next <= c.gateway.maxRetries * |calls| ==> next <= AttemptBound(c, calls)
    ensures GoesOn(c.maxRecoveryRetries, calls) && next < c.gateway.maxRetries * (|calls| + 1) ==>
      next < AttemptBound(c, calls)
  {
    CallsAreBounded(c.maxRecoveryRetries, calls);
    Scaled(c.gateway.maxRetries, |calls|, 2 * ToolRounds(calls) + Retries(c.maxRecoveryRetries) + 7);
    if GoesOn(c.maxRecoveryRetries, calls) {
      Scaled(c.gateway.maxRetries, |calls| + 1, 2 * ToolRounds(calls) + Retries(c.maxRecoveryRetries) + 7);
    }
  }

  lemma Scaled(k: nat, a: nat, b: nat)
    requires a <= b
    ensures k * a <= k * b
  {
  }

  /** The calls made so far: the `i`-th took the attempts from `cuts[i]` to `cuts[i + 1]`. */
  ghost predicate Made(c: Config, attempts: seq<Attempt<Reply>>, calls: seq<Call>, cuts: seq<nat>) {
    && |cuts| == |calls| + 1 && cuts[0] == 0
    && forall i :: 0 <= i < |calls| ==> IsCall(c.gateway.maxRetries, attempts, cuts[i], cuts[i + 1], calls[i])
  }

  ghost predicate Handled(c: Config, calls: seq<Call>, control: Control, next: nat) {
    Leads(c.maxRecoveryRetries, calls, control) && next <= c.gateway.maxRetries * |calls|
  }

  lemma HandlesNext(c: Config, calls: seq<Call>, control: Control, call: Call, was: nat, next: nat)
    requires Handled(c, calls, control, was) && next <= was + c.gateway.maxRetries && !call.Waiting?
    ensures forall i :: 0 <= i < |calls + [call]| ==> !(calls + [call])[i].Waiting?
    ensures IsTurn(c.maxRecoveryRetries, calls + [call]) && next <= c.gateway.maxRetries * |calls + [call]|
    ensures match React(c.maxRecoveryRetries, control, call)
      case Continue(control') => Handled(c, calls + [call], control', next)
      case Stop(r) => Ends(c.maxRecoveryRetries, calls + [call], r)
  {
    assert (calls + [call])[..|calls|] == calls;
    assert c.gateway.maxRetries * (|calls| + 1) == c.gateway.maxRetries * |calls| + c.gateway.maxRetries;
  }

  /** Each tool round of the turn was answered use by use. */
  ghost predicate Answers(calls: seq<Call>, sent: seq<Option<seq<string>>>) {
    |sent| == |calls| && forall i :: 0 <= i < |calls| ==> sent[i] == Sent(calls[i])
  }

  lemma LogGrows(c: Config, attempts: seq<Attempt<Reply>>, calls: seq<Call>, cuts: seq<nat>,
                 sent: seq<Option<seq<string>>>, call: Call, next: nat)
    requires Made(c, attempts, calls, cuts) && Answers(calls, sent)
    requires IsCall(c.gateway.maxRetries, attempts, cuts[|calls|], next, call)
    ensures Made(c, attempts, calls + [call], cuts + [next]) && (cuts + [next])[|calls + [call]|] == next
    ensures Answers(calls + [call], sent + [Sent(call)])
  {
  }

  /**
   The loop of a turn against the provider's answers. It refines `React` call by call and spends at
   most `maxRetries` attempts on each, so a turn that is given enough answers is over. The calls it
   made, the attempts between them and the tool results it sent back are its log.
   */
  method RunTurn(c: Config, attempts: seq<Attempt<Reply>>)
    returns (result: Option<Result>, calls: seq<Call>, cuts: seq<nat>, sent: seq<Option<seq<string>>>)
    ensures Answers(calls, sent)
    ensures (forall i :: 0 <= i < |calls| ==> !calls[i].Waiting?) && Made(c, attempts, calls, cuts)
    ensures match result
      case None =>
        && GoesOn(c.maxRecoveryRetries, calls)
        && IsCall(c.gateway.maxRetries, attempts, cuts[|calls|], |attempts|, CallResult<Reply>.Waiting)
        && |attempts| < AttemptBound(c, calls)
      case Some(r) => Ends(c.maxRecoveryRetries, calls, r) && cuts[|calls|] <= AttemptBound(c, calls)
  {
    var state := new RecoveryState();
    var maxTokens := c.defaultMaxTokens;
    var workflowRecoveryAttempts := 0;
    var next := 0;
    calls, cuts, sent := [], [0], [];
    while true
      invariant Handled(c, calls, ControlOf(state, workflowRecoveryAttempts), next)
      invariant Made(c, attempts, calls, cuts) && cuts[|calls|] == next
      invariant maxTokens == LimitFor(c, ControlOf(state, workflowRecoveryAttempts))
      invariant next <= |attempts| && fresh(state) && Answers(calls, sent)
      decreases |attempts| - next, !state.hasAttemptedReactiveCompact
    {
      ghost var control, was := ControlOf(state, workflowRecoveryAttempts), next;
      var call;
      next, call := WithRetry(c.gateway, state, attempts, next);
      if call.Waiting? {
        AttemptsAreBounded(c, calls, next);
        return None, calls, cuts, sent;
      }
      var stop, results;
      stop, workflowRecoveryAttempts, maxTokens, results := AfterCall(c, state, workflowRecoveryAttempts, maxTokens, call);
      HandlesNext(c, calls, control, call, was, next);
      LogGrows(c, attempts, calls, cuts, sent, call, next);
      calls, cuts, sent := calls + [call], cuts + [next], sent + [results];
      if stop.Some? {
        AttemptsAreBounded(c, calls, next);
        return stop, calls, cuts, sent;
      }
    }
  }
}
