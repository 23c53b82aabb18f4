/** What each merged entry holds, told from the records that went into it, in their order. */
module SourceEntries {
  import opened Prelude
  import opened LiteratureSources

  // ---------------------------------------------------------------- the records of one entry

  /** The records that the pass put into entry `k`, in order. */
  function Members(sources: seq<Source>, slots: seq<nat>, k: nat): seq<Source>
    requires |slots| == |sources|
  {
    if sources == [] then []
    else
      var n := |sources| - 1;
      Members(sources[..n], slots[..n], k) + if slots[n] == k then [sources[n]] else []
  }

  /** The pass over one entry's records alone. */
  function Folded(group: seq<Source>): Source
    requires group != []
  {
    if |group| == 1 then Entry(group[0]) else Merge(Folded(group[..|group| - 1]), group[|group| - 1])
  }

  ghost predicate FoldsOwn(sources: seq<Source>, slots: seq<nat>, merged: seq<Source>, k: nat)
    requires |slots| == |sources| && k < |merged|
  {
    Members(sources, slots, k) != [] && merged[k] == Folded(Members(sources, slots, k))
  }

  lemma MembersSnoc(sources: seq<Source>, slots: seq<nat>, source: Source, slot: nat, k: nat)
    requires |slots| == |sources|
    ensures Members(sources + [source], slots + [slot], k)
      == if slot == k then Members(sources, slots, k) + [source] else Members(sources, slots, k)
  {
    assert (sources + [source])[..|sources|] == sources && (slots + [slot])[..|slots|] == slots;
  }

  lemma {:induction false} NoMembers(sources: seq<Source>, slots: seq<nat>, k: nat)
    requires |slots| == |sources| && k !in slots
    ensures Members(sources, slots, k) == []
  {
    if sources != [] {
      NoMembers(sources[..|sources| - 1], slots[..|sources| - 1], k);
    }
  }

  lemma FoldedSnoc(group: seq<Source>, source: Source)
    requires group != []
    ensures Folded(group + [source]) == Merge(Folded(group), source)
  {
    assert (group + [source])[..|group|] == group;
  }

  lemma AddFolds(sources: seq<Source>, slots: seq<nat>, merged: seq<Source>, source: Source, k: nat)
    requires |slots| == |sources| && (forall i :: 0 <= i < |slots| ==> slots[i] < |merged|)
    requires forall j: nat :: j < |merged| ==> FoldsOwn(sources, slots, merged, j)
    requires k < |Add(merged, source)|
    ensures FoldsOwn(sources + [source], slots + [MatchFrom(source, merged, 0)], Add(merged, source), k)
  {
    var slot := MatchFrom(source, merged, 0);
    MembersSnoc(sources, slots, source, slot, k);
    if k < |merged| {
      assert FoldsOwn(sources, slots, merged, k);
      if k == slot {
        FoldedSnoc(Members(sources, slots, k), source);
      }
    } else {
      NoMembers(sources, slots, k);
    }
  }

  lemma {:induction false} EntriesFold(sources: seq<Source>, k: nat)
    requires k < |Deduplicated(sources)|
    ensures |Slots(sources)| == |sources| && FoldsOwn(sources, Slots(sources), Deduplicated(sources), k)
    decreases |sources|
  {
    var front, last := sources[..|sources| - 1], sources[|sources| - 1];
    assert sources == front + [last];
    DeduplicationPartitions(front);
    assert FoldsOwn(front + [last], Slots(front) + [MatchFrom(last, Deduplicated(front), 0)],
                    Add(Deduplicated(front), last), k) by {
      forall j: nat | j < |Deduplicated(front)|
        ensures FoldsOwn(front, Slots(front), Deduplicated(front), j)
      {
        EntriesFold(front, j);
      }
      AddFolds(front, Slots(front), Deduplicated(front), last, k);
    }
  }

  // ---------------------------------------------------------------- what the fold amounts to

  predicate FromCrossref(s: Source) {
    s.provider == Some("crossref")
  }

  /** The record that gives the entry its face: the first from Crossref, or the first of all. */
  ghost predicate Canonical(group: seq<Source>, c: nat) {
    && c < |group|
    && (forall i :: 0 <= i < c ==> !FromCrossref(group[i]))
    && (FromCrossref(group[c]) || (c == 0 && forall i :: 0 <= i < |group| ==> !FromCrossref(group[i])))
  }

  function FirstAbstract(group: seq<Source>): string {
    if group == [] then ""
    else if group[0].abstractText != "" then group[0].abstractText
    else FirstAbstract(group[1..])
  }

  function FirstDoi(group: seq<Source>): string {
    if group == [] then "" else if DoiKey(group[0]) != "" then DoiKey(group[0]) else FirstDoi(group[1..])
  }

  function AllProvidersOf(group: seq<Source>): seq<Option<string>> {
    if group == [] then [] else AllProvidersOf(group[..|group| - 1]) + ProvidersOf(group[|group| - 1])
  }

  function AllIdsOf(group: seq<Source>): seq<Option<string>> {
    if group == [] then [] else AllIdsOf(group[..|group| - 1]) + IdsOf(group[|group| - 1])
  }

  /**
   Identity and title are the canonical record's. So is its abstract, or else the first abstract of any record. Its DOI
   stays if it has one; otherwise the first DOI among the records after it is lent, those before it being forgotten.
   Providers and ids are those of all records, each once, in the order of their first occurrence.
   */
  ghost predicate Tells(group: seq<Source>, c: nat, entry: Source)
    requires c < |group|
  {
    && SameIdentity(entry, group[c]) && entry.provider == group[c].provider
    && entry.abstractText == (if group[c].abstractText != "" then group[c].abstractText else FirstAbstract(group))
    && entry.doi == (if group[c].doi != "" then group[c].doi else FirstDoi(group[c + 1..]))
    && entry.providers == Distinct(AllProvidersOf(group))
    && entry.sourceIds == Distinct(AllIdsOf(group))
  }

  lemma {:induction false} FirstAbstractSnoc(group: seq<Source>, source: Source)
    ensures FirstAbstract(group + [source])
      == if FirstAbstract(group) != "" then FirstAbstract(group) else source.abstractText
  {
    if group != [] {
      FirstAbstractSnoc(group[1..], source);
      assert (group + [source])[1..] == group[1..] + [source];
    }
  }

  lemma {:induction false} FirstDoiSnoc(group: seq<Source>, source: Source)
    ensures FirstDoi(group + [source]) == if FirstDoi(group) != "" then FirstDoi(group) else DoiKey(source)
  {
    if group != [] {
      FirstDoiSnoc(group[1..], source);
      assert (group + [source])[1..] == group[1..] + [source];
    }
  }

  /** The first abstract overall is that of the first record that has one. */
  lemma {:induction false} SomeAbstract(group: seq<Source>, c: nat)
    requires c < |group| && group[c].abstractText != ""
    ensures FirstAbstract(group) != ""
  {
    if group[0].abstractText == "" {
      SomeAbstract(group[1..], c - 1);
    }
  }

  lemma DistinctSnoc<T>(s: seq<T>, x: T)
    ensures Distinct(s + [x]) == if x in Distinct(s) then Distinct(s) else Distinct(s) + [x]
  {
    assert (s + [x])[..|s|] == s;
  }

  lemma {:induction false} DistinctAgain<T>(a: seq<T>, b: seq<T>)
    ensures Distinct(Distinct(a) + b) == Distinct(a + b)
    decreases |b|
  {
    if b == [] {
      assert a + b == a && Distinct(a) + b == Distinct(a);
      DistinctIsUnique(Distinct(a));
    } else {
      var front, last := b[..|b| - 1], b[|b| - 1];
      DistinctAgain(a, front);
      DistinctSnoc(a + front, last);
      DistinctSnoc(Distinct(a) + front, last);
      assert a + b == (a + front) + [last] && Distinct(a) + b == (Distinct(a) + front) + [last];
    }
  }

  lemma {:induction false} DistinctIsUnique<T>(s: seq<T>)
    requires Unique(s)
    ensures Distinct(s) == s
  {
    if s != [] {
      var front, last := s[..|s| - 1], s[|s| - 1];
      DistinctIsUnique(front);
      assert s == front + [last] && last !in front;
    }
  }

  lemma AllSnoc(group: seq<Source>, source: Source)
    ensures AllProvidersOf(group + [source]) == AllProvidersOf(group) + ProvidersOf(source)
    ensures AllIdsOf(group + [source]) == AllIdsOf(group) + IdsOf(source)
  {
    assert (group + [source])[..|group|] == group;
  }

  lemma FirstCollects(source: Source)
    ensures AllProvidersOf([source]) == ProvidersOf(source) && AllIdsOf([source]) == IdsOf(source)
  {
    assert [] + [source] == [source];
    AllSnoc([], source);
  }

  lemma FirstTells(source: Source)
    ensures Canonical([source], 0) && Tells([source], 0, Entry(source))
  {
    FirstCollects(source);
    assert [source][1..] == [];
  }

  /** Providers and ids, whichever record is canonical. */
  lemma MergeCollects(group: seq<Source>, c: nat, entry: Source, source: Source)
    requires c < |group| && Tells(group, c, entry)
    ensures Merge(entry, source).providers == Distinct(AllProvidersOf(group + [source]))
    ensures Merge(entry, source).sourceIds == Distinct(AllIdsOf(group + [source]))
  {
    AllSnoc(group, source);
    NonEmpty(group);
    DistinctAgain(AllProvidersOf(group), ProvidersOf(source));
    DistinctAgain(AllIdsOf(group), IdsOf(source));
  }

  lemma NonEmpty(group: seq<Source>)
    requires group != []
    ensures AllProvidersOf(group) != [] && AllIdsOf(group) != []
  {
  }

  /** A first Crossref record takes over. */
  lemma TakesOver(group: seq<Source>, c: nat, entry: Source, source: Source)
    requires Canonical(group, c) && Tells(group, c, entry) && FromCrossref(source) && !FromCrossref(group[c])
    ensures Canonical(group + [source], |group|) && Tells(group + [source], |group|, Merge(entry, source))
  {
    var all := group + [source];
    MergeCollects(group, c, entry, source);
    FirstAbstractSnoc(group, source);
    if group[c].abstractText != "" {
      assert c == 0;
      SomeAbstract(group, c);
    }
    assert all[|group|] == source && all[|group| + 1..] == [];
    assert forall i :: 0 <= i < |group| ==> all[i] == group[i];
  }

  /** A record that does not take over lends its DOI and its abstract where the entry has none. */
  lemma MergeLends(entry: Source, source: Source)
    requires !(FromCrossref(source) && !FromCrossref(entry))
    ensures var merged := Merge(entry, source);
      && SameIdentity(merged, entry) && merged.provider == entry.provider
      && merged.doi == (if entry.doi == "" then DoiKey(source) else entry.doi)
      && merged.abstractText == (if entry.abstractText == "" then source.abstractText else entry.abstractText)
  {
  }

  lemma CanonicalStays(group: seq<Source>, c: nat, source: Source)
    requires Canonical(group, c) && !(FromCrossref(source) && !FromCrossref(group[c]))
    ensures Canonical(group + [source], c)
    ensures (group + [source])[c] == group[c] && (group + [source])[c + 1..] == group[c + 1..] + [source]
  {
    assert forall i :: 0 <= i < |group| ==> (group + [source])[i] == group[i];
  }

  /** Any other record completes the entry. */
  lemma Completes(group: seq<Source>, c: nat, entry: Source, source: Source)
    requires Canonical(group, c) && Tells(group, c, entry) && !(FromCrossref(source) && !FromCrossref(group[c]))
    ensures Canonical(group + [source], c) && Tells(group + [source], c, Merge(entry, source))
  {
    CanonicalStays(group, c, source);
    MergeLends(entry, source);
    MergeCollects(group, c, entry, source);
    FirstAbstractSnoc(group, source);
    FirstDoiSnoc(group[c + 1..], source);
  }

  lemma {:induction false} FoldTells(group: seq<Source>) returns (c: nat)
    requires group != []
    ensures Canonical(group, c) && Tells(group, c, Folded(group))
    decreases |group|
  {
    var front, last := group[..|group| - 1], group[|group| - 1];
    assert group == front + [last];
    if front == [] {
      c := 0;
      FirstTells(last);
    } else {
      c := FoldTells(front);
      if FromCrossref(last) && !FromCrossref(front[c]) {
        TakesOver(front, c, Folded(front), last);
        c := |front|;
      } else {
        Completes(front, c, Folded(front), last);
      }
    }
  }

  /** Every entry of the result, told from the records that the pass put into it. */
  lemma EntryIsTold(sources: seq<Source>, k: nat) returns (c: nat)
    requires k < |Deduplicated(sources)|
    ensures |Slots(sources)| == |sources|
    ensures var group := Members(sources, Slots(sources), k);
      Canonical(group, c) && Tells(group, c, Deduplicated(sources)[k])
  {
    EntriesFold(sources, k);
    c := FoldTells(Members(sources, Slots(sources), k));
  }

  lemma {:induction false} SomeDoi(group: seq<Source>, i: nat)
    requires i < |group| && DoiKey(group[i]) != ""
    ensures FirstDoi(group) != ""
  {
    if DoiKey(group[0]) == "" {
      SomeDoi(group[1..], i - 1);
    }
  }

  lemma ToldDoiSurvives(group: seq<Source>, c: nat, entry: Source, i: nat)
    requires Canonical(group, c) && Tells(group, c, entry)
    requires i < |group| && DoiKey(group[i]) != ""
    requires forall j :: 0 <= j < |group| && FromCrossref(group[j]) ==> group[j].doi != ""
    ensures entry.doi != ""
  {
    if group[c].doi == "" {
      assert Stripped("") == "" && Lower("") == "";
      SomeDoi(group[1..], i - 1);
    }
  }

  /** While every Crossref record carries its DOI, as that provider's own records do, no entry loses its last DOI. */
  lemma DoiSurvives(sources: seq<Source>, k: nat, i: nat)
    requires k < |Deduplicated(sources)| && |Slots(sources)| == |sources|
    requires var group := Members(sources, Slots(sources), k);
      && i < |group| && DoiKey(group[i]) != ""
      && forall j :: 0 <= j < |group| && FromCrossref(group[j]) ==> group[j].doi != ""
    ensures Deduplicated(sources)[k].doi != ""
  {
    var c := EntryIsTold(sources, k);
    ToldDoiSurvives(Members(sources, Slots(sources), k), c, Deduplicated(sources)[k], i);
  }

  /** A Crossref record without a DOI makes the entry forget the DOI it had. */
  lemma CrossrefDropsDoi(a: Source, b: Source)
    requires Matches(b, a) && !FromCrossref(a) && FromCrossref(b) && b.doi == ""
    ensures |Deduplicated([a, b])| == 1 && Deduplicated([a, b])[0].doi == ""
  {
    assert [a, b][..1] == [a] && [a][..0] == [];
    assert Deduplicated([a]) == [Entry(a)];
  }
}
