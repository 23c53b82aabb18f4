/** Provider-level recovery: bounded retries and the fallback model. */
module ModelGateway {
  datatype Model = Primary | Fallback

  /** `maxRetries` attempts per call; a fallback may be configured. */
  datatype GatewayConfig = GatewayConfig(maxRetries: nat, maxConsecutive529: int, hasFallback: bool)

  /** How the provider answers one attempt; a `Rejected` attempt raises some other error. */
  datatype Attempt<Reply> =
    | Succeeds(reply: Reply)
    | RateLimited
    | Overloaded
    | Rejected(tooLong: bool)

  /** What one call gives its caller; `Waiting` is a call whose next attempt has not been answered. */
  datatype CallResult<Reply> = Returned(reply: Reply) | Raised(tooLong: bool) | Waiting

  predicate Retried<Reply>(a: Attempt<Reply>) {
    a.RateLimited? || a.Overloaded?
  }

  ghost predicate AllRetried<Reply>(attempts: seq<Attempt<Reply>>, lo: nat, hi: nat) {
    lo <= hi <= |attempts| && forall i :: lo <= i < hi ==> Retried(attempts[i])
  }

  function Overloads<Reply>(attempts: seq<Attempt<Reply>>, lo: nat, hi: nat): nat
    requires lo <= hi <= |attempts|
    decreases hi
  {
    if lo == hi then 0 else Overloads(attempts, lo, hi - 1) + if attempts[hi - 1].Overloaded? then 1 else 0
  }

  /** The attempts `start..next` make one call with this result. */
  ghost predicate IsCall<Reply>(maxRetries: nat, attempts: seq<Attempt<Reply>>, start: nat, next: nat,
                                result: CallResult<Reply>)
  {
    && start <= next <= |attempts| && next - start <= maxRetries
    && match result
       case Waiting => next == |attempts| && next - start < maxRetries && AllRetried(attempts, start, next)
       case Returned(reply) => next > start && AllRetried(attempts, start, next - 1) && attempts[next - 1] == Succeeds(reply)
       case Raised(tooLong) =>
         if next > start && attempts[next - 1] == Rejected(tooLong) then AllRetried(attempts, start, next - 1)
         else !tooLong && next == start + maxRetries && AllRetried(attempts, start, next)
  }

  /** The provider's answers leave a call no choice. */
  lemma CallsAreDetermined<Reply>(maxRetries: nat, attempts: seq<Attempt<Reply>>, start: nat,
                                  next: nat, result: CallResult<Reply>, next': nat, result': CallResult<Reply>)
    requires IsCall(maxRetries, attempts, start, next, result) && IsCall(maxRetries, attempts, start, next', result')
    ensures next == next' && result == result'
  {
    assert next > start ==> Retried(attempts[next - 1]) || result.Returned? || result.Raised?;
  }

  /** Request recovery shared by the calls of one turn. */
  class RecoveryState {
    var currentModel: Model
    var hasEscalated: bool
    var recoveryCount: nat
    var consecutive529: nat
    var hasAttemptedReactiveCompact: bool
    var retryCount: nat

    constructor ()
      ensures currentModel == Primary && !hasEscalated && recoveryCount == 0 && consecutive529 == 0
      ensures !hasAttemptedReactiveCompact && retryCount == 0
    {
      currentModel := Primary;
      hasEscalated := false;
      recoveryCount := 0;
      consecutive529 := 0;
      hasAttemptedReactiveCompact := false;
      retryCount := 0;
    }
  }

  /**
   One call, from attempt `start` of the provider's answers on. The first attempt that is not to be
   retried decides it, unless `maxRetries` attempts are used up first. The primary model is given up
   exactly for enough overloads, counted across calls, and never taken up again; a call that adds none to
   the count leaves it alone.
   */
  method WithRetry<Reply>(c: GatewayConfig, state: RecoveryState, attempts: seq<Attempt<Reply>>, start: nat)
    returns (next: nat, result: CallResult<Reply>)
    requires start <= |attempts|
    modifies state`currentModel, state`consecutive529, state`retryCount
    ensures IsCall(c.maxRetries, attempts, start, next, result)
    ensures state.retryCount == old(state.retryCount)
      + (next - start) - (if next > start && !Retried(attempts[next - 1]) then 1 else 0)
    ensures result.Returned? ==> state.consecutive529 == 0
    ensures !result.Returned? && state.currentModel == Primary ==>
      state.consecutive529 == old(state.consecutive529) + Overloads(attempts, start, next)
    ensures old(state.currentModel) == Fallback ==> state.currentModel == Fallback
    ensures old(state.currentModel) == Primary ==>
      (state.currentModel == Fallback <==>
        && c.hasFallback && Overloads(attempts, start, next) > 0
        && old(state.consecutive529) + Overloads(attempts, start, next) >= c.maxConsecutive529)
  {
    next := start;
    for attempt := 0 to c.maxRetries
      invariant next == start + attempt && AllRetried(attempts, start, next)
      invariant state.retryCount == old(state.retryCount) + attempt
      invariant old(state.currentModel) == Fallback ==> state.currentModel == Fallback
      invariant state.currentModel == Primary ==>
        state.consecutive529 == old(state.consecutive529) + Overloads(attempts, start, next)
      invariant old(state.currentModel) == Primary ==>
        (state.currentModel == Fallback <==>
          && c.hasFallback && Overloads(attempts, start, next) > 0
          && old(state.consecutive529) + Overloads(attempts, start, next) >= c.maxConsecutive529)
    {
      if next == |attempts| {
        return next, Waiting;
      }
      next := next + 1;
      match attempts[next - 1]
      case Succeeds(reply) =>
        state.consecutive529 := 0;
        return next, Returned(reply);
      case RateLimited =>
        state.retryCount := state.retryCount + 1;
      case Overloaded =>
        state.consecutive529 := state.consecutive529 + 1;
        if state.consecutive529 >= c.maxConsecutive529 && c.hasFallback {
          state.currentModel := Fallback;
          state.consecutive529 := 0;
        }
        state.retryCount := state.retryCount + 1;
      case Rejected(tooLong) =>
        return next, Raised(tooLong);
    }
    result := Raised(false);
  }
}
