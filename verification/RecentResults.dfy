/** Which tool results compaction may overwrite, and which messages it never touches. */
module RecentResults {
  import opened Prelude
  import opened TokenEstimate
  import opened ContextBudget

  /** Block `j` of message `i` is a tool result of a user message. */
  predicate ResultAt(ms: seq<Message>, i: nat, j: nat) {
    && i < |ms| && ms[i].role == "user" && ms[i].content.Blocks?
    && j < |ms[i].content.blocks| && ms[i].content.blocks[j].ToolResult?
  }

  /** The tool results that come after block `j` of message `i`. */
  function LaterResults(ms: seq<Message>, i: nat, j: nat): set<(nat, nat)> {
    set p, q | 0 <= p < |ms| && ms[p].content.Blocks? && 0 <= q < |ms[p].content.blocks|
            && ResultAt(ms, p, q) && (i < p || (i == p && j < q)) :: (p, q)
  }

  lemma {:induction false} PairsAreMany(ps: seq<Position>)
    requires InOrder(ps)
    ensures |set p | p in ps :: (p.message, p.block)| == |ps|
  {
    if ps != [] {
      var front, last := ps[..|ps| - 1], ps[|ps| - 1];
      PairsAreMany(front);
      assert ps == front + [last];
      assert (set p | p in ps :: (p.message, p.block))
          == (set p | p in front :: (p.message, p.block)) + {(last.message, last.block)};
    }
  }

  /** In the list of all results, those after one of them are those that come later in the conversation. */
  lemma LaterAreTheRest(ms: seq<Message>, k: nat)
    requires k < |Results(ms)|
    ensures |LaterResults(ms, Results(ms)[k].message, Results(ms)[k].block)| == |Results(ms)| - k - 1
  {
    var results := Results(ms);
    var rest := results[k + 1..];
    ResultsExact(ms);
    PairsAreMany(rest);
    var later := LaterResults(ms, results[k].message, results[k].block);
    forall p, q | (p, q) in later
      ensures At(p, q) in rest
    {
      assert IsResult(ms, At(p, q));
      var n :| 0 <= n < |results| && results[n] == At(p, q);
      assert n > k;
    }
    forall r | r in rest
      ensures (r.message, r.block) in later
    {
      assert r in results && IsResult(ms, r);
    }
    assert later == set r | r in rest :: (r.message, r.block);
  }

  /** Compaction may take a tool result exactly when at least `keepRecent` tool results come after it. */
  lemma CandidatesIff(b: Budget, ms: seq<Message>, i: nat, j: nat)
    ensures At(i, j) in Candidates(b, ms) <==> ResultAt(ms, i, j) && |LaterResults(ms, i, j)| >= b.keepRecent
  {
    var results := Results(ms);
    ResultsExact(ms);
    if ResultAt(ms, i, j) {
      assert At(i, j) in results;
      var k :| 0 <= k < |results| && results[k] == At(i, j);
      LaterAreTheRest(ms, k);
      if k < |results| - b.keepRecent {
        assert Candidates(b, ms)[k] == At(i, j);
      }
    } else {
      assert !IsResult(ms, At(i, j));
    }
    forall n | 0 <= n < |Candidates(b, ms)| && Candidates(b, ms)[n] == At(i, j)
      ensures ResultAt(ms, i, j) && |LaterResults(ms, i, j)| >= b.keepRecent
    {
      assert results[n] == At(i, j);
      LaterAreTheRest(ms, n);
    }
  }

  /** A block that fewer than `keepRecent` tool results follow is the same after `fit`. */
  lemma RecentAreKept(b: Budget, ms: seq<Message>, i: nat, j: nat)
    requires i < |ms| && ms[i].content.Blocks? && j < |ms[i].content.blocks|
    requires |LaterResults(ms, i, j)| < b.keepRecent
    ensures var r := Fitting(b, ms).messages;
      && |r| == |ms| && r[i].content.Blocks? && |r[i].content.blocks| == |ms[i].content.blocks|
      && r[i].content.blocks[j] == ms[i].content.blocks[j]
  {
    CandidatesIff(b, ms, i, j);
    FitOnlyOverwritesOldResults(b, ms);
    var chosen := Elements(Order(b, ms)[..Fitting(b, ms).compacted]);
    assert MessageOverwritten(ms[i], Fitting(b, ms).messages[i], i, chosen);
    assert BlockOverwritten(ms[i].content.blocks[j], Fitting(b, ms).messages[i].content.blocks[j], At(i, j) in chosen);
  }

  /** Whatever is not a tool result of a user message stays: other roles, plain texts, other blocks, and all roles. */
  lemma OtherContentIsKept(b: Budget, ms: seq<Message>, i: nat)
    requires i < |ms|
    ensures var r := Fitting(b, ms).messages;
      && |r| == |ms| && r[i].role == ms[i].role
      && (ms[i].role != "user" || ms[i].content.Single? ==> r[i] == ms[i])
      && (ms[i].content.Blocks? ==>
            && r[i].content.Blocks? && |r[i].content.blocks| == |ms[i].content.blocks|
            && forall j :: 0 <= j < |ms[i].content.blocks| && !ms[i].content.blocks[j].ToolResult? ==>
                 r[i].content.blocks[j] == ms[i].content.blocks[j])
  {
    FitOnlyOverwritesOldResults(b, ms);
    var r := Fitting(b, ms).messages;
    var chosen := Elements(Order(b, ms)[..Fitting(b, ms).compacted]);
    assert MessageOverwritten(ms[i], r[i], i, chosen);
    if ms[i].content.Blocks? {
      forall j | 0 <= j < |ms[i].content.blocks| && !(ms[i].role == "user" && ms[i].content.blocks[j].ToolResult?)
        ensures r[i].content.blocks[j] == ms[i].content.blocks[j]
      {
        CandidatesIff(b, ms, i, j);
        assert BlockOverwritten(ms[i].content.blocks[j], r[i].content.blocks[j], At(i, j) in chosen);
      }
      if ms[i].role != "user" {
        assert r[i].content.blocks == ms[i].content.blocks;
      }
    }
  }

  /** The tool result with the note as its content: what stands before and after the content stays. */
  ghost predicate HasNote(b: Block, b': Block) {
    && b.ToolResult? && b'.ToolResult?
    && b'.slot == Holds(Text(NOTE)) && b'.tail == b.tail
    && b'.head == if b.slot.Holds? then b.head else b.head + ",\"content\":"
  }

  /** Every block that `fit` changes is a tool result old enough to be overwritten, and now holds the note. */
  lemma ChangedBlocksHoldTheNote(b: Budget, ms: seq<Message>, i: nat, j: nat)
    requires i < |ms| && ms[i].content.Blocks? && j < |ms[i].content.blocks|
    ensures var r := Fitting(b, ms).messages;
      && |r| == |ms| && r[i].content.Blocks? && |r[i].content.blocks| == |ms[i].content.blocks|
      && (r[i].content.blocks[j] != ms[i].content.blocks[j] ==>
            && ResultAt(ms, i, j) && |LaterResults(ms, i, j)| >= b.keepRecent
            && HasNote(ms[i].content.blocks[j], r[i].content.blocks[j]))
  {
    FitOnlyOverwritesOldResults(b, ms);
    CandidatesIff(b, ms, i, j);
    var r := Fitting(b, ms).messages;
    var chosen := Elements(Order(b, ms)[..Fitting(b, ms).compacted]);
    assert MessageOverwritten(ms[i], r[i], i, chosen);
    assert BlockOverwritten(ms[i].content.blocks[j], r[i].content.blocks[j], At(i, j) in chosen);
  }
}
