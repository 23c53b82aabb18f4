/**
 When merging literature is a partition: exactly for records among which sharing a key is transitive,
 every entry gathers one class of related records, and no two entries are related.
 */
module SourceClasses {
  import opened Prelude
  import opened LiteratureSources

  /** Sharing a DOI, an identity or a title carries over from record to record. */
  ghost predicate Transitive(sources: seq<Source>) {
    forall i, j, k :: 0 <= i < |sources| && 0 <= j < |sources| && 0 <= k < |sources| ==>
      (Matches(sources[i], sources[j]) && Matches(sources[j], sources[k]) ==> Matches(sources[i], sources[k]))
  }

  /** Two inputs go to one entry exactly when they are related. */
  ghost predicate Exact(sources: seq<Source>, slots: seq<nat>) {
    && |slots| == |sources|
    && forall i, j :: 0 <= i < |sources| && 0 <= j < |sources| ==>
         (slots[i] == slots[j] <==> Matches(sources[i], sources[j]))
  }

  // ---------------------------------------------------------------- the base record of an entry

  /** An entry keeps the identity, the title and the DOI, if any, of one of its inputs. */
  ghost predicate IsBase(sources: seq<Source>, slots: seq<nat>, k: nat, i: int, entry: Source)
    requires |slots| == |sources|
  {
    && 0 <= i < |sources| && slots[i] == k && SameIdentity(sources[i], entry)
    && (DoiKey(sources[i]) != "" ==> DoiKey(entry) == DoiKey(sources[i]))
  }

  ghost predicate HasBase(sources: seq<Source>, slots: seq<nat>, k: nat, entry: Source)
    requires |slots| == |sources|
  {
    exists i :: IsBase(sources, slots, k, i, entry)
  }

  ghost predicate Based(sources: seq<Source>, slots: seq<nat>, merged: seq<Source>) {
    && KeysFromSlots(sources, slots, merged)
    && (forall i :: 0 <= i < |slots| ==> slots[i] < |merged|)
    && forall k: nat :: k < |merged| ==> HasBase(sources, slots, k, merged[k])
  }

  lemma BaseStays(sources: seq<Source>, slots: seq<nat>, source: Source, slot: nat, k: nat, i: nat, entry: Source)
    requires |slots| == |sources| && IsBase(sources, slots, k, i, entry)
    ensures IsBase(sources + [source], slots + [slot], k, i, entry)
  {
    assert (sources + [source])[i] == sources[i] && (slots + [slot])[i] == slots[i];
  }

  lemma NewBase(sources: seq<Source>, slots: seq<nat>, source: Source, k: nat, entry: Source)
    requires |slots| == |sources| && SameIdentity(source, entry) && DoiKey(entry) == DoiKey(source)
    ensures IsBase(sources + [source], slots + [k], k, |sources|, entry)
  {
  }

  /** A merge keeps the entry's base, or makes the Crossref record the base. */
  lemma MergeKeepsBase(sources: seq<Source>, slots: seq<nat>, source: Source, k: nat, entry: Source)
    requires |slots| == |sources| && HasBase(sources, slots, k, entry)
    ensures HasBase(sources + [source], slots + [k], k, Merge(entry, source))
  {
    var crossref := Some("crossref");
    if source.provider == crossref && entry.provider != crossref {
      NewBase(sources, slots, source, k, Merge(entry, source));
    } else {
      var i :| IsBase(sources, slots, k, i, entry);
      assert Stripped("") == "" && Lower("") == "";
      assert IsBase(sources, slots, k, i, Merge(entry, source));
      BaseStays(sources, slots, source, k, k, i, Merge(entry, source));
    }
  }

  lemma AddKeepsBased(sources: seq<Source>, slots: seq<nat>, merged: seq<Source>, source: Source)
    requires Based(sources, slots, merged)
    ensures Based(sources + [source], slots + [MatchFrom(source, merged, 0)], Add(merged, source))
  {
    var slot, merged' := MatchFrom(source, merged, 0), Add(merged, source);
    AddKeepsKeys(sources, slots, merged, source);
    forall k: nat | k < |merged'|
      ensures HasBase(sources + [source], slots + [slot], k, merged'[k])
    {
      if k == |merged| {
        NewBase(sources, slots, source, k, Entry(source));
      } else if k == slot {
        MergeKeepsBase(sources, slots, source, k, merged[k]);
      } else {
        var i :| IsBase(sources, slots, k, i, merged[k]);
        BaseStays(sources, slots, source, slot, k, i, merged[k]);
      }
    }
  }

  lemma PassUnrolls(front: seq<Source>, source: Source)
    ensures Deduplicated(front + [source]) == Add(Deduplicated(front), source)
    ensures Slots(front + [source]) == Slots(front) + [MatchFrom(source, Deduplicated(front), 0)]
  {
    assert (front + [source])[..|front|] == front;
  }

  lemma {:induction false} EntriesAreBased(sources: seq<Source>)
    ensures Based(sources, Slots(sources), Deduplicated(sources))
    decreases |sources|
  {
    if sources == [] {
      assert Slots(sources) == [] && Deduplicated(sources) == [];
    } else {
      var front, source := sources[..|sources| - 1], sources[|sources| - 1];
      assert sources == front + [source];
      EntriesAreBased(front);
      AddKeepsBased(front, Slots(front), Deduplicated(front), source);
      PassUnrolls(front, source);
    }
  }

  // ---------------------------------------------------------------- a record meets its class

  /** What transitivity says about one record among the others. */
  ghost predicate Carries(x: Source, sources: seq<Source>) {
    && (forall i, j :: 0 <= i < |sources| && 0 <= j < |sources| ==>
          (Matches(x, sources[i]) && Matches(sources[i], sources[j]) ==> Matches(x, sources[j])))
    && (forall i, j :: 0 <= i < |sources| && 0 <= j < |sources| ==>
          (Matches(x, sources[i]) && Matches(x, sources[j]) ==> Matches(sources[i], sources[j])))
  }

  /** It matches an entry exactly when it matches the entry's base. */
  lemma MatchesByBase(x: Source, sources: seq<Source>, slots: seq<nat>, k: nat, b: nat, entry: Source)
    requires Exact(sources, slots) && Carries(x, sources)
    requires IsBase(sources, slots, k, b, entry) && DoiFrom(sources, slots, k, DoiKey(entry))
    ensures Matches(x, entry) <==> Matches(x, sources[b])
  {
    var i :| 0 <= i < |sources| && slots[i] == k && DoiKey(sources[i]) == DoiKey(entry);
    if Matches(x, entry) && DoiKey(x) != "" && DoiKey(x) == DoiKey(entry) {
      assert Matches(x, sources[i]) && Matches(sources[i], sources[b]);
    }
  }

  /** And exactly when it matches any, or all, of the entry's inputs. */
  lemma MatchesByMember(x: Source, sources: seq<Source>, slots: seq<nat>, merged: seq<Source>, i: nat)
    requires Based(sources, slots, merged) && Exact(sources, slots) && Carries(x, sources) && i < |sources|
    ensures Matches(x, merged[slots[i]]) <==> Matches(x, sources[i])
  {
    var k := slots[i];
    assert HasBase(sources, slots, k, merged[k]);
    var b :| IsBase(sources, slots, k, b, merged[k]);
    assert DoiFrom(sources, slots, k, DoiKey(merged[k]));
    MatchesByBase(x, sources, slots, k, b, merged[k]);
    assert Matches(sources[i], sources[b]) && Matches(sources[b], sources[i]);
  }

  /** No record matches two entries. */
  lemma MatchedEntry(x: Source, sources: seq<Source>, slots: seq<nat>, merged: seq<Source>, k: nat, l: nat)
    requires Based(sources, slots, merged) && Exact(sources, slots) && Carries(x, sources)
    requires k < |merged| && l < |merged| && Matches(x, merged[k]) && Matches(x, merged[l])
    ensures k == l
  {
    assert HasBase(sources, slots, k, merged[k]) && HasBase(sources, slots, l, merged[l]);
    var i :| IsBase(sources, slots, k, i, merged[k]);
    var j :| IsBase(sources, slots, l, j, merged[l]);
    MatchesByMember(x, sources, slots, merged, i);
    MatchesByMember(x, sources, slots, merged, j);
    assert Matches(sources[i], sources[j]);
  }

  /** Nor do two entries match each other. */
  lemma UnrelatedEntries(sources: seq<Source>, slots: seq<nat>, merged: seq<Source>, k: nat, l: nat)
    requires Based(sources, slots, merged) && Exact(sources, slots) && Transitive(sources)
    requires k < |merged| && l < |merged| && Matches(merged[k], merged[l])
    ensures k == l
  {
    assert HasBase(sources, slots, k, merged[k]) && DoiFrom(sources, slots, k, DoiKey(merged[k]));
    var b :| IsBase(sources, slots, k, b, merged[k]);
    var y :| 0 <= y < |sources| && slots[y] == k && DoiKey(sources[y]) == DoiKey(merged[k]);
    if DoiKey(merged[k]) != "" && DoiKey(merged[k]) == DoiKey(merged[l]) {
      InputCarries(sources, y);
      MatchedEntry(sources[y], sources, slots, merged, k, l);
    } else {
      InputCarries(sources, b);
      MatchedEntry(sources[b], sources, slots, merged, k, l);
    }
  }

  lemma InputCarries(sources: seq<Source>, i: nat)
    requires Transitive(sources) && i < |sources|
    ensures Carries(sources[i], sources)
  {
    forall j, k
      | 0 <= j < |sources| && 0 <= k < |sources| && Matches(sources[i], sources[j]) && Matches(sources[i], sources[k])
      ensures Matches(sources[j], sources[k])
    {
      MatchesSymmetric(sources[i], sources[j]);
    }
  }

  lemma NextCarries(sources: seq<Source>, source: Source)
    requires Transitive(sources + [source])
    ensures Transitive(sources) && Carries(source, sources)
  {
    var all := sources + [source];
    InputCarries(all, |sources|);
    assert forall i :: 0 <= i < |sources| ==> all[i] == sources[i];
    assert all[|sources|] == source;
  }

  // ---------------------------------------------------------------- the partition

  lemma AddExact(sources: seq<Source>, slots: seq<nat>, merged: seq<Source>, source: Source)
    requires Based(sources, slots, merged) && Exact(sources, slots) && Carries(source, sources)
    ensures Exact(sources + [source], slots + [MatchFrom(source, merged, 0)])
  {
    var n, slot := |sources|, MatchFrom(source, merged, 0);
    var sources', slots' := sources + [source], slots + [slot];
    forall i | 0 <= i < n
      ensures slots[i] == slot <==> Matches(source, sources[i])
      ensures Matches(sources[i], source) <==> Matches(source, sources[i])
    {
      MatchesSymmetric(sources[i], source);
      MatchesByMember(source, sources, slots, merged, i);
      if Matches(source, merged[slots[i]]) && slot < |merged| {
        MatchedEntry(source, sources, slots, merged, slots[i], slot);
      }
    }
    assert forall i :: 0 <= i < n ==> sources'[i] == sources[i] && slots'[i] == slots[i];
    assert sources'[n] == source && slots'[n] == slot;
  }

  lemma {:induction false} TransitiveIsExact(sources: seq<Source>)
    requires Transitive(sources)
    ensures Exact(sources, Slots(sources))
    decreases |sources|
  {
    if sources != [] {
      var n := |sources| - 1;
      var front, source := sources[..n], sources[n];
      assert sources == front + [source];
      NextCarries(front, source);
      TransitiveIsExact(front);
      EntriesAreBased(front);
      AddExact(front, Slots(front), Deduplicated(front), source);
    }
  }

  /**
   Merging gathers exactly the related records, if and only if being related is transitive among the
   inputs: a condition on the records as they come, whatever their order.
   */
  lemma MergesClassesIff(sources: seq<Source>)
    ensures Transitive(sources) <==> Exact(sources, Slots(sources))
  {
    if Transitive(sources) {
      TransitiveIsExact(sources);
    }
  }

  /** Then no two entries of the result share a DOI, an identity or a title. */
  lemma TransitiveIsUnlinked(sources: seq<Source>)
    requires Transitive(sources)
    ensures Unlinked(Deduplicated(sources))
  {
    TransitiveIsExact(sources);
    EntriesAreBased(sources);
    var merged := Deduplicated(sources);
    forall k, l | 0 <= k < l < |merged|
      ensures !Matches(merged[k], merged[l])
    {
      if Matches(merged[k], merged[l]) {
        UnrelatedEntries(sources, Slots(sources), merged, k, l);
      }
    }
  }

  lemma PrefixTransitive(sources: seq<Source>, n: nat)
    requires Transitive(sources) && n <= |sources|
    ensures Transitive(sources[..n])
  {
  }

  /** And no input bridges two entries when it arrives. */
  lemma TransitiveHasNoBridges(sources: seq<Source>)
    requires Transitive(sources)
    ensures NoBridges(sources)
  {
    forall n | 0 <= n < |sources|
      ensures !Bridges(sources[n], Deduplicated(sources[..n]))
    {
      var front, merged := sources[..n], Deduplicated(sources[..n]);
      assert sources[..n + 1] == front + [sources[n]];
      PrefixTransitive(sources, n + 1);
      NextCarries(front, sources[n]);
      TransitiveIsExact(front);
      EntriesAreBased(front);
      if Bridges(sources[n], merged) {
        var i: nat, j: nat :| i < j < |merged| && Matches(sources[n], merged[i]) && Matches(sources[n], merged[j]);
        MatchedEntry(sources[n], front, Slots(front), merged, i, j);
      }
    }
  }
}
