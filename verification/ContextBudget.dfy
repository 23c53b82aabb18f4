/**
 The local context budget: while the estimate is above the soft limit, overwrite old tool results
 with a short note, largest first, and never touch the most recent ones.
 */
module ContextBudget {
  import opened Prelude
  import opened TokenEstimate

  datatype Budget = Budget(tokenLimit: nat, softLimit: nat, keepRecent: nat, threshold: nat)

  lemma ShareOf(limit: nat, ratio: real)
    requires 0.0 < ratio <= 1.0
    ensures 0.0 <= limit as real * ratio <= limit as real
  {
    assert limit as real * (1.0 - ratio) >= 0.0;
    assert limit as real * ratio == limit as real - limit as real * (1.0 - ratio);
  }

  /** The constructor's checks; `None` is its `ValueError`. The soft limit is the truncated share, at least 1. */
  function Configure(limit: int, ratio: real, keepRecent: int, threshold: int): (b: Option<Budget>)
    ensures b.Some? <==> limit > 0 && 0.0 < ratio <= 1.0 && keepRecent >= 0 && threshold >= 0
    ensures b.Some? ==>
      b.value.tokenLimit == limit && b.value.keepRecent == keepRecent && b.value.threshold == threshold
    ensures b.Some? ==> 1 <= b.value.softLimit <= b.value.tokenLimit
    ensures b.Some? && b.value.softLimit > 1 ==> b.value.softLimit as real <= limit as real * ratio
    ensures b.Some? ==> limit as real * ratio < (b.value.softLimit + 1) as real
  {
    if limit <= 0 || !(0.0 < ratio <= 1.0) || keepRecent < 0 || threshold < 0 then None
    else
      ShareOf(limit, ratio);
      var share := limit as real * ratio;
      Some(Budget(limit, if share.Floor < 1 then 1 else share.Floor, keepRecent, threshold))
  }

  // ---------------------------------------------------------------- where the tool results are

  datatype Position = At(message: nat, block: nat)

  predicate Before(p: Position, q: Position) {
    p.message < q.message || (p.message == q.message && p.block < q.block)
  }

  predicate IsResult(ms: seq<Message>, p: Position) {
    && p.message < |ms|
    && ms[p.message].role == "user"
    && ms[p.message].content.Blocks?
    && p.block < |ms[p.message].content.blocks|
    && ms[p.message].content.blocks[p.block].ToolResult?
  }

  predicate AllResults(ms: seq<Message>, ps: seq<Position>) {
    forall k :: 0 <= k < |ps| ==> IsResult(ms, ps[k])
  }

  function ResultsIn(i: nat, bs: seq<Block>): seq<Position> {
    if bs == [] then []
    else
      var j := |bs| - 1;
      ResultsIn(i, bs[..j]) + if bs[j].ToolResult? then [At(i, j)] else []
  }

  function ResultsOfMessage(i: nat, m: Message): seq<Position> {
    if m.role == "user" && m.content.Blocks? then ResultsIn(i, m.content.blocks) else []
  }

  function Results(ms: seq<Message>): seq<Position> {
    if ms == [] then [] else Results(ms[..|ms| - 1]) + ResultsOfMessage(|ms| - 1, ms[|ms| - 1])
  }

  ghost predicate InOrder(ps: seq<Position>) {
    forall i, j :: 0 <= i < j < |ps| ==> Before(ps[i], ps[j])
  }

  lemma {:induction false} ResultsInExact(i: nat, bs: seq<Block>)
    ensures InOrder(ResultsIn(i, bs))
    ensures forall p :: p in ResultsIn(i, bs) <==> p.message == i && p.block < |bs| && bs[p.block].ToolResult?
    decreases |bs|
  {
    if bs != [] {
      ResultsInExact(i, bs[..|bs| - 1]);
    }
  }

  /** The scan finds every tool result of the user messages once, in reading order. */
  lemma {:induction false} ResultsExact(ms: seq<Message>)
    ensures InOrder(Results(ms))
    ensures forall p :: p in Results(ms) <==> IsResult(ms, p)
    decreases |ms|
  {
    if ms != [] {
      var n := |ms| - 1;
      ResultsExact(ms[..n]);
      if ms[n].content.Blocks? {
        ResultsInExact(n, ms[n].content.blocks);
      }
      forall p
        ensures p in Results(ms) <==> IsResult(ms, p)
      {
        assert p in Results(ms[..n]) <==> IsResult(ms[..n], p);
      }
      assert forall k :: 0 <= k < |Results(ms[..n])| ==> IsResult(ms[..n], Results(ms[..n])[k]);
    }
  }

  method CollectToolResults(messages: seq<Message>) returns (results: seq<Position>)
    ensures results == Results(messages)
  {
    results := [];
    for i := 0 to |messages|
      invariant results == Results(messages[..i])
    {
      assert messages[..i + 1][..i] == messages[..i];
      if messages[i].role == "user" && messages[i].content.Blocks? {
        var blocks := messages[i].content.blocks;
        for j := 0 to |blocks|
          invariant results == Results(messages[..i]) + ResultsIn(i, blocks[..j])
        {
          assert blocks[..j + 1][..j] == blocks[..j];
          if blocks[j].ToolResult? {
            results := results + [At(i, j)];
          }
        }
        assert blocks[..|blocks|] == blocks;
      }
    }
    assert messages[..|messages|] == messages;
  }

  /** All tool results but the most recent ones. */
  function Candidates(b: Budget, ms: seq<Message>): seq<Position> {
    var results := Results(ms);
    if |results| <= b.keepRecent then [] else results[..|results| - b.keepRecent]
  }

  lemma CandidatesAreResults(b: Budget, ms: seq<Message>)
    ensures AllResults(ms, Candidates(b, ms)) && InOrder(Candidates(b, ms))
  {
    ResultsExact(ms);
    assert forall p :: p in Candidates(b, ms) ==> p in Results(ms);
  }

  // ---------------------------------------------------------------- one compaction

  function SlotTokens(slot: Slot): nat {
    match slot
    case Missing => 0
    case Holds(v) => ValueTokens(v)
  }

  function Cost(ms: seq<Message>, p: Position): nat {
    if IsResult(ms, p) then SlotTokens(ms[p.message].content.blocks[p.block].slot) else 0
  }

  function Noted(b: Block): Block
    requires b.ToolResult?
  {
    ToolResult(if b.slot.Missing? then b.head + ",\"content\":" else b.head, Holds(Text(NOTE)), b.tail)
  }

  function Replaced(m: Message, j: nat): Message
    requires m.content.Blocks? && j < |m.content.blocks| && m.content.blocks[j].ToolResult?
  {
    m.(content := Blocks(m.content.blocks[j := Noted(m.content.blocks[j])]))
  }

  function Replace(ms: seq<Message>, p: Position): seq<Message> {
    if IsResult(ms, p) then ms[p.message := Replaced(ms[p.message], p.block)] else ms
  }

  lemma ReplaceKeeps(ms: seq<Message>, p: Position, ps: seq<Position>)
    requires AllResults(ms, ps)
    ensures AllResults(Replace(ms, p), ps)
    ensures forall k :: 0 <= k < |ps| && ps[k] != p ==> Cost(Replace(ms, p), ps[k]) == Cost(ms, ps[k])
  {
  }

  lemma BlockDrops(b: Block, threshold: nat)
    requires b.ToolResult? && b.slot.Holds? && ValueTokens(b.slot.value) >= threshold >= 25
    ensures Units(BlockJson(b)) >= Units(BlockJson(Noted(b))) + 20 * (threshold - 25)
  {
    NoteUnits();
    var v := b.slot.value;
    SerializedCostsMore(v);
    QuotedUnits(NOTE);
    forall w: Json
      ensures Units(b.head + Serialized(w) + b.tail) == Units(b.head) + Units(Serialized(w)) + Units(b.tail)
    {
      UnitsConcat(b.head + Serialized(w), b.tail);
      UnitsConcat(b.head, Serialized(w));
    }
    assert BlockJson(b) == b.head + Serialized(v) + b.tail;
    assert BlockJson(Noted(b)) == b.head + Serialized(Text(NOTE)) + b.tail;
  }

  lemma ContentUnits(bs: seq<Block>)
    ensures Units("[" + Joined(bs) + "]") == Units(Joined(bs)) + 10
  {
    assert "["[..0] == "" && Units("[") == 5 && "]"[..0] == "" && Units("]") == 5;
    UnitsConcat("[" + Joined(bs), "]");
    UnitsConcat("[", Joined(bs));
  }

  /** The note is short: overwriting a result of at least 25 tokens pays, in the rounded estimate too. */
  lemma ReplaceDrops(ms: seq<Message>, p: Position, threshold: nat)
    requires IsResult(ms, p) && Cost(ms, p) >= threshold >= 25
    ensures Estimate(Replace(ms, p)) + (threshold - 25) <= Estimate(ms)
  {
    var m := ms[p.message];
    var bs := m.content.blocks;
    var b := bs[p.block];
    BlockDrops(b, threshold);
    JoinedUpdate(bs, p.block, Noted(b));
    ContentUnits(bs);
    ContentUnits(bs[p.block := Noted(b)]);
    EstimateUpdate(ms, p.message, Replaced(m, p.block));
  }

  // ---------------------------------------------------------------- largest first

  /** The order of `sorted(..., reverse=True)`: by cost, and reading order among equals. */
  ghost predicate Precedes(ms: seq<Message>, p: Position, q: Position) {
    Cost(ms, p) > Cost(ms, q) || (Cost(ms, p) == Cost(ms, q) && Before(p, q))
  }

  ghost predicate LargestFirst(ms: seq<Message>, ps: seq<Position>) {
    forall i, j :: 0 <= i < j < |ps| ==> Precedes(ms, ps[i], ps[j])
  }

  function Insert(ms: seq<Message>, ranked: seq<Position>, p: Position): (r: seq<Position>)
    ensures Elements(r) == Elements(ranked) + {p}
  {
    if ranked == [] || Cost(ms, ranked[|ranked| - 1]) >= Cost(ms, p) then ranked + [p]
    else
      var front, last := ranked[..|ranked| - 1], ranked[|ranked| - 1];
      assert Elements(ranked) == Elements(front) + {last} by { assert ranked == front + [last]; }
      var rest := Insert(ms, front, p);
      assert Elements(rest + [last]) == Elements(rest) + {last};
      rest + [last]
  }

  function Ranked(ms: seq<Message>, ps: seq<Position>): (r: seq<Position>)
    ensures Elements(r) == Elements(ps)
  {
    if ps == [] then []
    else
      assert ps == ps[..|ps| - 1] + [ps[|ps| - 1]];
      Insert(ms, Ranked(ms, ps[..|ps| - 1]), ps[|ps| - 1])
  }

  lemma AppendKeeps(ms: seq<Message>, ps: seq<Position>, p: Position)
    requires LargestFirst(ms, ps) && forall i :: 0 <= i < |ps| ==> Precedes(ms, ps[i], p)
    ensures LargestFirst(ms, ps + [p])
  {
  }

  lemma {:induction false} InsertKeeps(ms: seq<Message>, ranked: seq<Position>, p: Position)
    requires LargestFirst(ms, ranked)
    requires forall i :: 0 <= i < |ranked| ==> Before(ranked[i], p)
    ensures LargestFirst(ms, Insert(ms, ranked, p))
    decreases |ranked|
  {
    var n := |ranked| - 1;
    if ranked == [] || Cost(ms, ranked[n]) >= Cost(ms, p) {
      AppendKeeps(ms, ranked, p);
    } else {
      InsertKeeps(ms, ranked[..n], p);
      var r := Insert(ms, ranked[..n], p);
      forall i | 0 <= i < |r|
        ensures Precedes(ms, r[i], ranked[n])
      {
        assert r[i] in Elements(ranked[..n]) + {p};
      }
      AppendKeeps(ms, r, ranked[n]);
    }
  }

  lemma {:induction false} RankedLargestFirst(ms: seq<Message>, ps: seq<Position>)
    requires InOrder(ps)
    ensures LargestFirst(ms, Ranked(ms, ps))
    decreases |ps|
  {
    if ps != [] {
      var ranked := Ranked(ms, ps[..|ps| - 1]);
      RankedLargestFirst(ms, ps[..|ps| - 1]);
      forall i | 0 <= i < |ranked|
        ensures Before(ranked[i], ps[|ps| - 1])
      {
        assert ranked[i] in Elements(ps[..|ps| - 1]);
      }
      InsertKeeps(ms, ranked, ps[|ps| - 1]);
    }
  }

  // ---------------------------------------------------------------- the greedy loop

  datatype Fitted = Fitted(messages: seq<Message>, compacted: nat)

  /** The loop over the ranked candidates, from the `i`-th on. */
  function CompactFrom(b: Budget, ms: seq<Message>, order: seq<Position>, i: nat): Fitted
    requires i <= |order|
    decreases |order| - i
  {
    if i == |order| || Estimate(ms) <= b.softLimit then Fitted(ms, 0)
    else if Cost(ms, order[i]) < b.threshold then CompactFrom(b, ms, order, i + 1)
    else
      var rest := CompactFrom(b, Replace(ms, order[i]), order, i + 1);
      Fitted(rest.messages, rest.compacted + 1)
  }

  function Order(b: Budget, ms: seq<Message>): seq<Position> {
    Ranked(ms, Candidates(b, ms))
  }

  function Fitting(b: Budget, ms: seq<Message>): Fitted {
    CompactFrom(b, ms, Order(b, ms), 0)
  }

  /** The first `k` of `order` overwritten. */
  function ReplacedUpTo(ms: seq<Message>, order: seq<Position>, k: nat): seq<Message>
    requires k <= |order|
  {
    if k == 0 then ms else Replace(ReplacedUpTo(ms, order, k - 1), order[k - 1])
  }

  lemma {:induction false} CostsAhead(ms: seq<Message>, order: seq<Position>, k: nat)
    requires k <= |order| && AllResults(ms, order) && LargestFirst(ms, order)
    ensures AllResults(ReplacedUpTo(ms, order, k), order)
    ensures forall j :: k <= j < |order| ==> Cost(ReplacedUpTo(ms, order, k), order[j]) == Cost(ms, order[j])
  {
    if k > 0 {
      CostsAhead(ms, order, k - 1);
      ReplaceKeeps(ReplacedUpTo(ms, order, k - 1), order[k - 1], order);
      forall j | k <= j < |order|
        ensures order[j] != order[k - 1]
      {
        assert Precedes(ms, order[k - 1], order[j]);
      }
    }
  }

  lemma CostAhead(ms: seq<Message>, order: seq<Position>, k: nat)
    requires k < |order| && AllResults(ms, order) && LargestFirst(ms, order)
    ensures IsResult(ReplacedUpTo(ms, order, k), order[k])
    ensures Cost(ReplacedUpTo(ms, order, k), order[k]) == Cost(ms, order[k])
  {
    CostsAhead(ms, order, k);
  }

  lemma {:induction false} SkipsTheRest(b: Budget, ms: seq<Message>, order: seq<Position>, i: nat)
    requires i <= |order|
    requires forall j :: i <= j < |order| ==> Cost(ms, order[j]) < b.threshold
    ensures CompactFrom(b, ms, order, i) == Fitted(ms, 0)
    decreases |order| - i
  {
    if i < |order| {
      SkipsTheRest(b, ms, order, i + 1);
    }
  }

  /** With `j` results overwritten the estimate still asks for more. */
  ghost predicate OverAfter(b: Budget, ms: seq<Message>, order: seq<Position>, j: nat)
    requires j <= |order|
  {
    Estimate(ReplacedUpTo(ms, order, j)) > b.softLimit
  }

  /** The loop had a reason to overwrite each of the first `k`. */
  ghost predicate Justified(b: Budget, ms: seq<Message>, order: seq<Position>, k: nat)
    requires k <= |order|
  {
    && (forall j :: 0 <= j < k ==> Cost(ms, order[j]) >= b.threshold)
    && (forall j :: 0 <= j < k ==> OverAfter(b, ms, order, j))
  }

  ghost predicate CheapFrom(b: Budget, ms: seq<Message>, order: seq<Position>, k: nat)
  {
    forall j :: k <= j < |order| ==> Cost(ms, order[j]) < b.threshold
  }

  /** The loop overwrites a prefix of the ranking, and stops for a reason. */
  ghost predicate StopsAt(b: Budget, ms: seq<Message>, order: seq<Position>, k: nat) {
    && k <= |order|
    && Justified(b, ms, order, k)
    && (OverAfter(b, ms, order, k) ==> CheapFrom(b, ms, order, k))
  }

  lemma CheapAfter(b: Budget, ms: seq<Message>, order: seq<Position>, i: nat)
    requires i < |order| && LargestFirst(ms, order) && Cost(ms, order[i]) < b.threshold
    ensures CheapFrom(b, ms, order, i)
  {
    forall j | i <= j < |order|
      ensures Cost(ms, order[j]) < b.threshold
    {
      assert j > i ==> Precedes(ms, order[i], order[j]);
    }
  }

  lemma LoopStops(b: Budget, ms: seq<Message>, order: seq<Position>, i: nat)
    requires i <= |order| && AllResults(ms, order) && LargestFirst(ms, order) && Justified(b, ms, order, i)
    requires i < |order| && Cost(ms, order[i]) >= b.threshold ==> !OverAfter(b, ms, order, i)
    ensures CompactFrom(b, ReplacedUpTo(ms, order, i), order, i) == Fitted(ReplacedUpTo(ms, order, i), 0)
    ensures StopsAt(b, ms, order, i)
  {
    if OverAfter(b, ms, order, i) && i < |order| {
      CostsAhead(ms, order, i);
      CheapAfter(b, ms, order, i);
      SkipsTheRest(b, ReplacedUpTo(ms, order, i), order, i);
    }
  }

  lemma LoopGoesOn(b: Budget, ms: seq<Message>, order: seq<Position>, i: nat)
    requires i < |order| && OverAfter(b, ms, order, i) && Cost(ReplacedUpTo(ms, order, i), order[i]) >= b.threshold
    ensures var rest := CompactFrom(b, ReplacedUpTo(ms, order, i + 1), order, i + 1);
      CompactFrom(b, ReplacedUpTo(ms, order, i), order, i) == Fitted(rest.messages, rest.compacted + 1)
  {
  }

  lemma JustifiedNext(b: Budget, ms: seq<Message>, order: seq<Position>, i: nat)
    requires i < |order| && Justified(b, ms, order, i) && Cost(ms, order[i]) >= b.threshold && OverAfter(b, ms, order, i)
    ensures Justified(b, ms, order, i + 1)
  {
  }

  lemma {:induction false} LoopIsGreedy(b: Budget, ms: seq<Message>, order: seq<Position>, i: nat, run: Fitted)
    returns (k: nat)
    requires i <= |order| && AllResults(ms, order) && LargestFirst(ms, order) && Justified(b, ms, order, i)
    requires run == CompactFrom(b, ReplacedUpTo(ms, order, i), order, i)
    ensures StopsAt(b, ms, order, k) && k == i + run.compacted && run.messages == ReplacedUpTo(ms, order, k)
    decreases |order| - i
  {
    k := i;
    if i < |order| && Cost(ms, order[i]) >= b.threshold && OverAfter(b, ms, order, i) {
      CostAhead(ms, order, i);
      LoopGoesOn(b, ms, order, i);
      JustifiedNext(b, ms, order, i);
      k := LoopIsGreedy(b, ms, order, i + 1, CompactFrom(b, ReplacedUpTo(ms, order, i + 1), order, i + 1));
    } else {
      LoopStops(b, ms, order, i);
    }
  }

  lemma OrderIsRanked(b: Budget, ms: seq<Message>)
    ensures AllResults(ms, Order(b, ms)) && LargestFirst(ms, Order(b, ms))
    ensures Elements(Order(b, ms)) == Elements(Candidates(b, ms))
  {
    CandidatesAreResults(b, ms);
    RankedLargestFirst(ms, Candidates(b, ms));
    forall k | 0 <= k < |Order(b, ms)|
      ensures IsResult(ms, Order(b, ms)[k])
    {
      assert Order(b, ms)[k] in Elements(Candidates(b, ms));
    }
  }

  /**
   `fit` overwrites the largest unprotected results, in order, just until the estimate is within
   the soft limit; if it stays above, every result left to overwrite is below the threshold.
   */
  lemma FitIsGreedy(b: Budget, ms: seq<Message>)
    ensures LargestFirst(ms, Order(b, ms)) && Elements(Order(b, ms)) == Elements(Candidates(b, ms))
    ensures StopsAt(b, ms, Order(b, ms), Fitting(b, ms).compacted)
    ensures Fitting(b, ms).messages == ReplacedUpTo(ms, Order(b, ms), Fitting(b, ms).compacted)
  {
    OrderIsRanked(b, ms);
    var k := LoopIsGreedy(b, ms, Order(b, ms), 0, Fitting(b, ms));
  }

  /** Outside the compacted positions nothing moves; at them the note stands in for the content. */
  ghost predicate OnlyOverwrites(ms: seq<Message>, r: seq<Message>, at: set<Position>) {
    && |r| == |ms|
    && forall i: nat :: i < |ms| ==> MessageOverwritten(ms[i], r[i], i, at)
  }

  ghost predicate MessageOverwritten(m: Message, m': Message, i: nat, at: set<Position>) {
    && m'.role == m.role
    && (m.content.Single? ==> m' == m)
    && (m.content.Blocks? ==>
          && m'.content.Blocks? && |m'.content.blocks| == |m.content.blocks|
          && forall j: nat :: j < |m.content.blocks| ==>
               BlockOverwritten(m.content.blocks[j], m'.content.blocks[j], At(i, j) in at))
  }

  ghost predicate BlockOverwritten(b: Block, b': Block, chosen: bool) {
    if chosen then b.ToolResult? && b' == Noted(b) else b' == b
  }

  lemma ReplaceOverwrites(ms: seq<Message>, r: seq<Message>, at: set<Position>, p: Position)
    requires OnlyOverwrites(ms, r, at) && IsResult(ms, p)
    ensures OnlyOverwrites(ms, Replace(r, p), at + {p})
  {
    assert MessageOverwritten(ms[p.message], r[p.message], p.message, at);
    assert BlockOverwritten(ms[p.message].content.blocks[p.block], r[p.message].content.blocks[p.block], p in at);
    forall i: nat | i < |ms|
      ensures MessageOverwritten(ms[i], Replace(r, p)[i], i, at + {p})
    {
      assert MessageOverwritten(ms[i], r[i], i, at);
    }
  }

  lemma {:induction false} ReplacedUpToOverwrites(ms: seq<Message>, order: seq<Position>, k: nat)
    requires k <= |order| && AllResults(ms, order)
    ensures OnlyOverwrites(ms, ReplacedUpTo(ms, order, k), Elements(order[..k]))
  {
    if k == 0 {
      assert Elements(order[..0]) == {};
    } else {
      ReplacedUpToOverwrites(ms, order, k - 1);
      assert order[..k] == order[..k - 1] + [order[k - 1]];
      assert Elements(order[..k]) == Elements(order[..k - 1]) + {order[k - 1]};
      ReplaceOverwrites(ms, ReplacedUpTo(ms, order, k - 1), Elements(order[..k - 1]), order[k - 1]);
    }
  }

  /** `fit` changes the content of the chosen unprotected tool results and nothing else. */
  lemma FitOnlyOverwritesOldResults(b: Budget, ms: seq<Message>)
    ensures Fitting(b, ms).compacted <= |Order(b, ms)|
    ensures var chosen := Elements(Order(b, ms)[..Fitting(b, ms).compacted]);
      chosen <= Elements(Candidates(b, ms)) && OnlyOverwrites(ms, Fitting(b, ms).messages, chosen)
  {
    OrderIsRanked(b, ms);
    FitIsGreedy(b, ms);
    var order, k := Order(b, ms), Fitting(b, ms).compacted;
    ReplacedUpToOverwrites(ms, order, k);
    assert Elements(order[..k]) <= Elements(order);
  }

  /** Overwriting the `j`-th of the ranking pays at least `each`. */
  ghost predicate SavesAt(ms: seq<Message>, order: seq<Position>, j: nat, each: nat) {
    j < |order| && Estimate(ReplacedUpTo(ms, order, j + 1)) + each <= Estimate(ReplacedUpTo(ms, order, j))
  }

  lemma {:induction false} SavingsAddUp(ms: seq<Message>, order: seq<Position>, k: nat, each: nat)
    requires k <= |order| && forall j: nat :: j < k ==> SavesAt(ms, order, j, each)
    ensures Estimate(ReplacedUpTo(ms, order, k)) + k * each <= Estimate(ms)
    decreases k
  {
    if k > 0 {
      SavingsAddUp(ms, order, k - 1, each);
      assert SavesAt(ms, order, k - 1, each);
      OneMore(k, each);
    }
  }

  lemma OneMore(k: nat, each: nat)
    requires k > 0
    ensures k * each == (k - 1) * each + each
  {
  }

  lemma NextSaves(ms: seq<Message>, order: seq<Position>, k: nat, threshold: nat)
    requires k < |order| && AllResults(ms, order) && LargestFirst(ms, order)
    requires Cost(ms, order[k]) >= threshold >= 25
    ensures SavesAt(ms, order, k, threshold - 25)
  {
    CostAhead(ms, order, k);
    ReplaceDrops(ReplacedUpTo(ms, order, k), order[k], threshold);
  }

  lemma PrefixSaves(ms: seq<Message>, order: seq<Position>, k: nat, threshold: nat)
    requires threshold >= 25 && k <= |order| && AllResults(ms, order) && LargestFirst(ms, order)
    requires forall j :: 0 <= j < k ==> Cost(ms, order[j]) >= threshold
    ensures Estimate(ReplacedUpTo(ms, order, k)) + k * (threshold - 25) <= Estimate(ms)
  {
    var each := threshold - 25;
    forall j: nat | j < k
      ensures SavesAt(ms, order, j, each)
    {
      NextSaves(ms, order, j, threshold);
    }
    SavingsAddUp(ms, order, k, each);
  }

  /** Each compaction lowers the estimate by at least `threshold - 25`. */
  lemma FitSaves(b: Budget, ms: seq<Message>)
    requires b.threshold >= 25
    ensures Estimate(Fitting(b, ms).messages) + Fitting(b, ms).compacted * (b.threshold - 25) <= Estimate(ms)
  {
    OrderIsRanked(b, ms);
    FitIsGreedy(b, ms);
    PrefixSaves(ms, Order(b, ms), Fitting(b, ms).compacted, b.threshold);
  }

  // ---------------------------------------------------------------- fitting twice

  lemma {:induction false} SameResultsIn(i: nat, bs: seq<Block>, bs': seq<Block>)
    requires |bs'| == |bs| && forall j :: 0 <= j < |bs| ==> bs'[j].ToolResult? == bs[j].ToolResult?
    ensures ResultsIn(i, bs') == ResultsIn(i, bs)
    decreases |bs|
  {
    if bs != [] {
      SameResultsIn(i, bs[..|bs| - 1], bs'[..|bs| - 1]);
    }
  }

  lemma SameResultsOfMessage(i: nat, m: Message, m': Message, at: set<Position>)
    requires MessageOverwritten(m, m', i, at)
    ensures ResultsOfMessage(i, m') == ResultsOfMessage(i, m)
  {
    if m.content.Blocks? {
      assert forall j: nat :: j < |m.content.blocks| ==>
        BlockOverwritten(m.content.blocks[j], m'.content.blocks[j], At(i, j) in at);
      SameResultsIn(i, m.content.blocks, m'.content.blocks);
    }
  }

  lemma {:induction false} SameResults(ms: seq<Message>, r: seq<Message>, at: set<Position>)
    requires OnlyOverwrites(ms, r, at)
    ensures Results(r) == Results(ms)
    decreases |ms|
  {
    if ms != [] {
      var n := |ms| - 1;
      assert OnlyOverwrites(ms[..n], r[..n], at) by {
        assert forall i: nat :: i < n ==> MessageOverwritten(ms[i], r[i], i, at);
      }
      SameResults(ms[..n], r[..n], at);
      SameResultsOfMessage(n, ms[n], r[n], at);
    }
  }

  ghost predicate Settled(b: Budget, ms: seq<Message>, p: Position) {
    Cost(ms, p) < b.threshold || Replace(ms, p) == ms
  }

  lemma {:induction false} SettledStays(b: Budget, ms: seq<Message>, order: seq<Position>, i: nat)
    requires i <= |order| && forall j :: i <= j < |order| ==> Settled(b, ms, order[j])
    ensures CompactFrom(b, ms, order, i).messages == ms
    decreases |order| - i
  {
    if i < |order| {
      assert Settled(b, ms, order[i]);
      SettledStays(b, ms, order, i + 1);
    }
  }

  lemma OverwrittenIsSettled(ms: seq<Message>, r: seq<Message>, at: set<Position>, p: Position)
    requires OnlyOverwrites(ms, r, at) && IsResult(ms, p) && p in at
    ensures Replace(r, p) == r && IsResult(r, p) && Cost(r, p) == ValueTokens(Text(NOTE))
  {
    assert MessageOverwritten(ms[p.message], r[p.message], p.message, at);
    var b, b' := ms[p.message].content.blocks[p.block], r[p.message].content.blocks[p.block];
    assert BlockOverwritten(b, b', p in at);
    assert Noted(b') == b';
    assert r[p.message].content.blocks[p.block := b'] == r[p.message].content.blocks;
  }

  lemma PassedOver(b: Budget, ms: seq<Message>, order: seq<Position>, k: nat, j: nat)
    requires k <= j < |order| && AllResults(ms, order) && LargestFirst(ms, order) && CheapFrom(b, ms, order, k)
    ensures Cost(ReplacedUpTo(ms, order, k), order[j]) < b.threshold
  {
    CostsAhead(ms, order, k);
  }

  lemma Overwritten(ms: seq<Message>, order: seq<Position>, k: nat, j: nat)
    requires j < k <= |order| && AllResults(ms, order)
    ensures var r := ReplacedUpTo(ms, order, k); Replace(r, order[j]) == r && Cost(r, order[j]) == 23
  {
    NoteUnits();
    ReplacedUpToOverwrites(ms, order, k);
    assert order[j] in order[..k];
    OverwrittenIsSettled(ms, ReplacedUpTo(ms, order, k), Elements(order[..k]), order[j]);
  }

  /** Where `fit` ends above the soft limit, an unprotected result is a note or below the threshold. */
  lemma FitExhausts(b: Budget, ms: seq<Message>, p: Position)
    requires Estimate(Fitting(b, ms).messages) > b.softLimit && p in Candidates(b, ms)
    ensures var r := Fitting(b, ms).messages; Cost(r, p) < b.threshold || (Replace(r, p) == r && Cost(r, p) == 23)
  {
    OrderIsRanked(b, ms);
    FitIsGreedy(b, ms);
    var order, k := Order(b, ms), Fitting(b, ms).compacted;
    assert p in Elements(order);
    var j :| 0 <= j < |order| && order[j] == p;
    if j < k {
      Overwritten(ms, order, k, j);
    } else {
      PassedOver(b, ms, order, k, j);
    }
  }

  /**
   The estimate exceeds the token limit only when nothing is left that compaction could take: overwriting any
   unprotected result would change nothing, or it is below the threshold.
   */
  lemma SummaryOnlyWhenExhausted(b: Budget, ms: seq<Message>, p: Position)
    requires b.softLimit <= b.tokenLimit
    requires Estimate(Fitting(b, ms).messages) > b.tokenLimit && p in Candidates(b, ms)
    ensures Settled(b, Fitting(b, ms).messages, p)
    ensures b.threshold > 23 ==> Cost(Fitting(b, ms).messages, p) < b.threshold
  {
    FitExhausts(b, ms, p);
  }

  /** Fitting a fitted conversation changes nothing. */
  lemma FitIsIdempotent(b: Budget, ms: seq<Message>)
    ensures var r := Fitting(b, ms).messages; Fitting(b, r).messages == r
  {
    var r := Fitting(b, ms).messages;
    if Estimate(r) > b.softLimit {
      FitOnlyOverwritesOldResults(b, ms);
      SameResults(ms, r, Elements(Order(b, ms)[..Fitting(b, ms).compacted]));
      OrderIsRanked(b, r);
      forall j | 0 <= j < |Order(b, r)|
        ensures Settled(b, r, Order(b, r)[j])
      {
        assert Order(b, r)[j] in Elements(Candidates(b, r));
        FitExhausts(b, ms, Order(b, r)[j]);
      }
      SettledStays(b, r, Order(b, r), 0);
    }
  }

  // ---------------------------------------------------------------- the method

  datatype Report = Report(
    beforeTokens: nat,
    afterTokens: nat,
    tokenLimit: nat,
    softLimit: nat,
    compactedToolResults: nat,
    needsSummary: bool)

  /** One round of the loop of `fit`, on the candidate `p`; a compaction is followed by a new estimate. */
  method CompactOne(b: Budget, prepared: array<Message>, p: Position, current: nat) returns (taken: bool, current': nat)
    requires IsResult(prepared[..], p) && current == Estimate(prepared[..])
    modifies prepared
    ensures taken == (Cost(old(prepared[..]), p) >= b.threshold)
    ensures prepared[..] == if taken then Replace(old(prepared[..]), p) else old(prepared[..])
    ensures current' == Estimate(prepared[..])
  {
    taken, current' := SlotTokens(prepared[p.message].content.blocks[p.block].slot) >= b.threshold, current;
    if taken {
      prepared[p.message] := Replaced(prepared[p.message], p.block);
      current' := EstimateMessages(prepared[..]);
    }
  }

  lemma CompactNext(b: Budget, ms: seq<Message>, order: seq<Position>, i: nat, taken: bool, next: seq<Message>)
    requires i < |order| && AllResults(ms, order) && Estimate(ms) > b.softLimit
    requires taken == (Cost(ms, order[i]) >= b.threshold) && next == if taken then Replace(ms, order[i]) else ms
    ensures AllResults(next, order)
    ensures var rest := CompactFrom(b, next, order, i + 1);
      CompactFrom(b, ms, order, i) == Fitted(rest.messages, rest.compacted + if taken then 1 else 0)
  {
    ReplaceKeeps(ms, order[i], order);
  }

  lemma FitsAlready(b: Budget, ms: seq<Message>)
    requires Estimate(ms) <= b.softLimit
    ensures Fitting(b, ms) == Fitted(ms, 0)
  {
  }

  /** The loop of `fit` over the ranked candidates. */
  method CompactLargestFirst(b: Budget, prepared: array<Message>, candidates: seq<Position>) returns (compacted: nat)
    requires AllResults(prepared[..], candidates)
    modifies prepared
    ensures Fitted(prepared[..], compacted) == CompactFrom(b, old(prepared[..]), candidates, 0)
  {
    compacted := 0;
    ghost var now := prepared[..];
    ghost var rest := CompactFrom(b, now, candidates, 0);
    ghost var goal := rest;
    var current := EstimateMessages(prepared[..]);
    var i := 0;
    while i < |candidates| && current > b.softLimit
      invariant i <= |candidates| && prepared[..] == now && current == Estimate(now)
      invariant AllResults(now, candidates)
      invariant rest == CompactFrom(b, now, candidates, i)
      invariant goal == Fitted(rest.messages, rest.compacted + compacted)
    {
      var taken;
      taken, current := CompactOne(b, prepared, candidates[i], current);
      CompactNext(b, now, candidates, i, taken, prepared[..]);
      now := prepared[..];
      rest := CompactFrom(b, now, candidates, i + 1);
      if taken {
        compacted := compacted + 1;
      }
      i := i + 1;
    }
  }

  method RankedCandidates(b: Budget, messages: seq<Message>) returns (candidates: seq<Position>)
    ensures candidates == Order(b, messages)
  {
    var results := CollectToolResults(messages);
    var protectedStart := if |results| <= b.keepRecent then 0 else |results| - b.keepRecent;
    var unprotected := results[..protectedStart];
    assert unprotected == Candidates(b, messages);
    candidates := Ranked(messages, unprotected);
  }

  /** Works on a copy: the caller's messages are not touched. */
  method Fit(b: Budget, messages: seq<Message>) returns (prepared: array<Message>, report: Report)
    ensures fresh(prepared)
    ensures prepared[..] == Fitting(b, messages).messages
    ensures report == Report(Estimate(messages), Estimate(prepared[..]), b.tokenLimit, b.softLimit,
                             Fitting(b, messages).compacted, Estimate(prepared[..]) > b.tokenLimit)
  {
    prepared := new Message[|messages|](i requires 0 <= i < |messages| => messages[i]);
    assert prepared[..] == messages;
    var before := EstimateMessages(prepared[..]);
    var compacted := 0;
    if before > b.softLimit {
      var candidates := RankedCandidates(b, prepared[..]);
      OrderIsRanked(b, messages);
      compacted := CompactLargestFirst(b, prepared, candidates);
    } else {
      FitsAlready(b, messages);
    }
    var after := EstimateMessages(prepared[..]);
    report := Report(before, after, b.tokenLimit, b.softLimit, compacted, after > b.tokenLimit);
  }
}
