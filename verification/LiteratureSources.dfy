/**
 Merging retrieved literature: a pass that folds each record into the first entry it shares a DOI, an
 identity or a title with.
 */
module LiteratureSources {
  import opened Prelude

  /** `sourceType` and `sourceId` may be absent; `title` is the title's normalized words. */
  datatype Source = Source(
    doi: string,
    sourceType: Option<string>,
    sourceId: Option<string>,
    title: string,
    provider: Option<string>,
    abstractText: string,
    providers: seq<Option<string>>,
    sourceIds: seq<Option<string>>)

  // ---------------------------------------------------------------- keys

  function Stripped(s: string): string {
    if s != "" && s[0] in " \t\n\r" then Stripped(s[1..])
    else if s != "" && s[|s| - 1] in " \t\n\r" then Stripped(s[..|s| - 1])
    else s
  }

  function LowerChar(c: char): char {
    if 'A' <= c <= 'Z' then c - 'A' + 'a' else c
  }

  function Lower(s: string): string {
    if s == "" then "" else [LowerChar(s[0])] + Lower(s[1..])
  }

  function DoiKey(s: Source): string {
    Lower(Stripped(s.doi))
  }

  predicate Matches(source: Source, entry: Source) {
    || (DoiKey(source) != "" && DoiKey(source) == DoiKey(entry))
    || (source.sourceType == entry.sourceType && source.sourceId == entry.sourceId)
    || (source.title != "" && source.title == entry.title)
  }

  // ---------------------------------------------------------------- one merge

  function ProvidersOf(s: Source): seq<Option<string>> {
    if s.providers == [] then [s.provider] else s.providers
  }

  function IdsOf(s: Source): seq<Option<string>> {
    if s.sourceIds == [] then [s.sourceId] else s.sourceIds
  }

  function Entry(source: Source): Source {
    source.(providers := Distinct(ProvidersOf(source)), sourceIds := Distinct(IdsOf(source)))
  }

  /** A Crossref record becomes the canonical one; otherwise the entry is completed. */
  function Merge(entry: Source, source: Source): Source {
    var providers := Distinct(ProvidersOf(entry) + ProvidersOf(source));
    var ids := Distinct(IdsOf(entry) + IdsOf(source));
    var crossref := Some("crossref");
    if source.provider == crossref && entry.provider != crossref then
      source.(providers := providers, sourceIds := ids,
              abstractText := if source.abstractText == "" then entry.abstractText else source.abstractText)
    else
      entry.(providers := providers, sourceIds := ids,
           doi := if entry.doi == "" then DoiKey(source) else entry.doi,
           abstractText := if entry.abstractText == "" then source.abstractText else entry.abstractText)
  }

  // ---------------------------------------------------------------- the pass

  /** The first entry from `i` on that the record matches, or their number. */
  function MatchFrom(source: Source, merged: seq<Source>, i: nat): (k: nat)
    requires i <= |merged|
    ensures i <= k <= |merged|
    ensures k < |merged| ==> Matches(source, merged[k])
    ensures forall j :: i <= j < k ==> !Matches(source, merged[j])
    decreases |merged| - i
  {
    if i == |merged| || Matches(source, merged[i]) then i else MatchFrom(source, merged, i + 1)
  }

  function Add(merged: seq<Source>, source: Source): seq<Source> {
    var k := MatchFrom(source, merged, 0);
    if k == |merged| then merged + [Entry(source)] else merged[k := Merge(merged[k], source)]
  }

  function Deduplicated(sources: seq<Source>): seq<Source> {
    if sources == [] then [] else Add(Deduplicated(sources[..|sources| - 1]), sources[|sources| - 1])
  }

  method DeduplicateSources(sources: seq<Source>) returns (merged: seq<Source>)
    ensures merged == Deduplicated(sources)
  {
    merged := [];
    for n := 0 to |sources|
      invariant merged == Deduplicated(sources[..n])
    {
      assert sources[..n + 1][..n] == sources[..n];
      var source := sources[n];
      var k := 0;
      while k < |merged| && !Matches(source, merged[k])
        invariant k <= |merged| && MatchFrom(source, merged, 0) == MatchFrom(source, merged, k)
      {
        k := k + 1;
      }
      if k == |merged| {
        merged := merged + [Entry(source)];
      } else {
        merged := merged[k := Merge(merged[k], source)];
      }
    }
    assert sources[..|sources|] == sources;
  }

  // ---------------------------------------------------------------- where each record goes

  /** For each input, the index of the entry that takes it. */
  function Slots(sources: seq<Source>): seq<nat> {
    if sources == [] then []
    else
      var front := sources[..|sources| - 1];
      Slots(front) + [MatchFrom(sources[|sources| - 1], Deduplicated(front), 0)]
  }

  function IdSet(s: Source): set<Option<string>> {
    Elements(IdsOf(s))
  }

  function ProviderSet(s: Source): set<Option<string>> {
    Elements(ProvidersOf(s))
  }

  ghost predicate IdInSlot(sources: seq<Source>, slots: seq<nat>, k: nat, id: Option<string>)
    requires |slots| == |sources|
  {
    exists i :: 0 <= i < |sources| && slots[i] == k && id in IdSet(sources[i])
  }

  ghost predicate ProviderInSlot(sources: seq<Source>, slots: seq<nat>, k: nat, p: Option<string>)
    requires |slots| == |sources|
  {
    exists i :: 0 <= i < |sources| && slots[i] == k && p in ProviderSet(sources[i])
  }

  /** An entry holds the ids and providers of the inputs in its slot, of all of them and of no other. */
  ghost predicate HoldsExactly(sources: seq<Source>, slots: seq<nat>, k: nat, entry: Source)
    requires |slots| == |sources|
  {
    && k in slots
    && (forall id :: id in IdSet(entry) <==> IdInSlot(sources, slots, k, id))
    && (forall p :: p in ProviderSet(entry) <==> ProviderInSlot(sources, slots, k, p))
  }

  ghost predicate Partitioned(sources: seq<Source>, slots: seq<nat>, merged: seq<Source>) {
    && |slots| == |sources|
    && (forall i :: 0 <= i < |slots| ==> slots[i] < |merged|)
    && (forall k: nat :: k < |merged| ==> HoldsExactly(sources, slots, k, merged[k]))
  }

  lemma MergeCombines(entry: Source, source: Source)
    ensures IdSet(Merge(entry, source)) == IdSet(entry) + IdSet(source)
    ensures ProviderSet(Merge(entry, source)) == ProviderSet(entry) + ProviderSet(source)
  {
    ElementsConcat(IdsOf(entry), IdsOf(source));
    ElementsConcat(ProvidersOf(entry), ProvidersOf(source));
  }

  lemma EntryKeeps(source: Source)
    ensures IdSet(Entry(source)) == IdSet(source) && ProviderSet(Entry(source)) == ProviderSet(source)
  {
  }

  lemma IdSnoc(sources: seq<Source>, slots: seq<nat>, source: Source, slot: nat, k: nat, id: Option<string>)
    requires |slots| == |sources|
    ensures IdInSlot(sources + [source], slots + [slot], k, id)
      <==> IdInSlot(sources, slots, k, id) || (slot == k && id in IdSet(source))
  {
    var n, sources', slots' := |sources|, sources + [source], slots + [slot];
    assert sources'[n] == source && slots'[n] == slot;
    assert forall i :: 0 <= i < n ==> sources'[i] == sources[i] && slots'[i] == slots[i];
    if IdInSlot(sources, slots, k, id) {
      var i :| 0 <= i < n && slots[i] == k && id in IdSet(sources[i]);
      assert sources'[i] == sources[i];
    }
  }

  lemma ProviderSnoc(sources: seq<Source>, slots: seq<nat>, source: Source, slot: nat, k: nat, p: Option<string>)
    requires |slots| == |sources|
    ensures ProviderInSlot(sources + [source], slots + [slot], k, p)
      <==> ProviderInSlot(sources, slots, k, p) || (slot == k && p in ProviderSet(source))
  {
    var n, sources', slots' := |sources|, sources + [source], slots + [slot];
    assert sources'[n] == source && slots'[n] == slot;
    assert forall i :: 0 <= i < n ==> sources'[i] == sources[i] && slots'[i] == slots[i];
    if ProviderInSlot(sources, slots, k, p) {
      var i :| 0 <= i < n && slots[i] == k && p in ProviderSet(sources[i]);
      assert sources'[i] == sources[i];
    }
  }

  lemma SlotKeeps(sources: seq<Source>, slots: seq<nat>, source: Source, slot: nat, k: nat, entry: Source, entry': Source)
    requires |slots| == |sources| && HoldsExactly(sources, slots, k, entry)
    requires IdSet(entry') == IdSet(entry) + if slot == k then IdSet(source) else {}
    requires ProviderSet(entry') == ProviderSet(entry) + if slot == k then ProviderSet(source) else {}
    ensures HoldsExactly(sources + [source], slots + [slot], k, entry')
  {
    forall id
      ensures id in IdSet(entry') <==> IdInSlot(sources + [source], slots + [slot], k, id)
    {
      IdSnoc(sources, slots, source, slot, k, id);
    }
    forall p
      ensures p in ProviderSet(entry') <==> ProviderInSlot(sources + [source], slots + [slot], k, p)
    {
      ProviderSnoc(sources, slots, source, slot, k, p);
    }
  }

  lemma SlotOpens(sources: seq<Source>, slots: seq<nat>, source: Source, slot: nat)
    requires |slots| == |sources| && slot !in slots
    ensures HoldsExactly(sources + [source], slots + [slot], slot, Entry(source))
  {
    EntryKeeps(source);
    assert (slots + [slot])[|slots|] == slot;
    forall id
      ensures id in IdSet(Entry(source)) <==> IdInSlot(sources + [source], slots + [slot], slot, id)
    {
      IdSnoc(sources, slots, source, slot, slot, id);
    }
    forall p
      ensures p in ProviderSet(Entry(source)) <==> ProviderInSlot(sources + [source], slots + [slot], slot, p)
    {
      ProviderSnoc(sources, slots, source, slot, slot, p);
    }
  }

  lemma AddPartitions(sources: seq<Source>, slots: seq<nat>, merged: seq<Source>, source: Source)
    requires Partitioned(sources, slots, merged)
    ensures Partitioned(sources + [source], slots + [MatchFrom(source, merged, 0)], Add(merged, source))
  {
    var slot := MatchFrom(source, merged, 0);
    var merged' := Add(merged, source);
    forall k: nat | k < |merged'|
      ensures HoldsExactly(sources + [source], slots + [slot], k, merged'[k])
    {
      if k < |merged| {
        assert HoldsExactly(sources, slots, k, merged[k]);
        MergeCombines(merged[k], source);
        SlotKeeps(sources, slots, source, slot, k, merged[k], merged'[k]);
      } else {
        SlotOpens(sources, slots, source, slot);
      }
    }
  }

  /** Every input lands, whole, in one entry, and an entry holds nothing else. */
  lemma {:induction false} DeduplicationPartitions(sources: seq<Source>)
    ensures Partitioned(sources, Slots(sources), Deduplicated(sources))
    decreases |sources|
  {
    if sources != [] {
      var front, last := sources[..|sources| - 1], sources[|sources| - 1];
      assert sources == front + [last];
      assert Partitioned(front + [last], Slots(front) + [MatchFrom(last, Deduplicated(front), 0)],
                         Add(Deduplicated(front), last)) by {
        DeduplicationPartitions(front);
        AddPartitions(front, Slots(front), Deduplicated(front), last);
      }
    }
  }

  function AllIds(sources: seq<Source>): set<Option<string>> {
    set s, id | s in sources && id in IdSet(s) :: id
  }

  function AllProviders(sources: seq<Source>): set<Option<string>> {
    set s, p | s in sources && p in ProviderSet(s) :: p
  }

  /** Evidence is conserved: no id and no provider is lost or invented, and the list does not grow. */
  lemma DeduplicationConserves(sources: seq<Source>)
    ensures AllIds(Deduplicated(sources)) == AllIds(sources)
    ensures AllProviders(Deduplicated(sources)) == AllProviders(sources)
    ensures |Deduplicated(sources)| <= |sources|
  {
    var merged, slots := Deduplicated(sources), Slots(sources);
    DeduplicationPartitions(sources);
    forall id
      ensures id in AllIds(merged) <==> id in AllIds(sources)
    {
      if id in AllIds(merged) {
        var k: nat :| k < |merged| && id in IdSet(merged[k]);
        assert HoldsExactly(sources, slots, k, merged[k]) && IdInSlot(sources, slots, k, id);
      }
      if id in AllIds(sources) {
        var i :| 0 <= i < |sources| && id in IdSet(sources[i]);
        assert HoldsExactly(sources, slots, slots[i], merged[slots[i]]) && IdInSlot(sources, slots, slots[i], id);
      }
    }
    forall p
      ensures p in AllProviders(merged) <==> p in AllProviders(sources)
    {
      if p in AllProviders(merged) {
        var k: nat :| k < |merged| && p in ProviderSet(merged[k]);
        assert HoldsExactly(sources, slots, k, merged[k]) && ProviderInSlot(sources, slots, k, p);
      }
      if p in AllProviders(sources) {
        var i :| 0 <= i < |sources| && p in ProviderSet(sources[i]);
        assert HoldsExactly(sources, slots, slots[i], merged[slots[i]]) && ProviderInSlot(sources, slots, slots[i], p);
      }
    }
    NoLonger(sources);
  }

  lemma {:induction false} NoLonger(sources: seq<Source>)
    ensures |Deduplicated(sources)| <= |sources|
  {
    if sources != [] {
      NoLonger(sources[..|sources| - 1]);
    }
  }

  // ---------------------------------------------------------------- only related records are merged

  lemma {:induction false} LowerAt(s: string)
    ensures |Lower(s)| == |s| && forall i :: 0 <= i < |s| ==> Lower(s)[i] == LowerChar(s[i])
  {
    if s != "" {
      LowerAt(s[1..]);
    }
  }

  lemma {:induction false} StrippedEnds(s: string)
    ensures Trimmed(Stripped(s))
    decreases |s|
  {
    if s != "" && s[0] in " \t\n\r" {
      StrippedEnds(s[1..]);
    } else if s != "" && s[|s| - 1] in " \t\n\r" {
      StrippedEnds(s[..|s| - 1]);
    }
  }

  predicate Trimmed(s: string) {
    s == "" || (s[0] !in " \t\n\r" && s[|s| - 1] !in " \t\n\r")
  }

  lemma LowerTwice(s: string)
    ensures Lower(Lower(s)) == Lower(s) && (Trimmed(s) ==> Trimmed(Lower(s)))
  {
    LowerAt(s);
    LowerAt(Lower(s));
    assert Lower(Lower(s)) == Lower(s);
  }

  /** A DOI key is its own key, so an entry completed with it still matches alike. */
  lemma KeyOfKey(s: string)
    ensures var key := Lower(Stripped(s)); Lower(Stripped(key)) == key
  {
    StrippedEnds(s);
    LowerTwice(Stripped(s));
  }

  predicate SameIdentity(s: Source, entry: Source) {
    s.sourceType == entry.sourceType && s.sourceId == entry.sourceId && s.title == entry.title
  }

  ghost predicate DoiFrom(sources: seq<Source>, slots: seq<nat>, k: nat, doi: string)
    requires |slots| == |sources|
  {
    exists i :: 0 <= i < |sources| && slots[i] == k && DoiKey(sources[i]) == doi
  }

  ghost predicate IdentityFrom(sources: seq<Source>, slots: seq<nat>, k: nat, entry: Source)
    requires |slots| == |sources|
  {
    exists i :: 0 <= i < |sources| && slots[i] == k && SameIdentity(sources[i], entry)
  }

  /** What an entry is matched by comes from inputs in its slot. */
  ghost predicate KeysFromSlots(sources: seq<Source>, slots: seq<nat>, merged: seq<Source>) {
    && |slots| == |sources|
    && forall k: nat :: k < |merged| ==>
         DoiFrom(sources, slots, k, DoiKey(merged[k])) && IdentityFrom(sources, slots, k, merged[k])
  }

  lemma FromSnoc(sources: seq<Source>, slots: seq<nat>, source: Source, slot: nat, k: nat, doi: string, entry: Source)
    requires |slots| == |sources|
    ensures DoiFrom(sources, slots, k, doi) || (slot == k && DoiKey(source) == doi) ==>
      DoiFrom(sources + [source], slots + [slot], k, doi)
    ensures IdentityFrom(sources, slots, k, entry) || (slot == k && SameIdentity(source, entry)) ==>
      IdentityFrom(sources + [source], slots + [slot], k, entry)
  {
    var n, sources', slots' := |sources|, sources + [source], slots + [slot];
    assert sources'[n] == source && slots'[n] == slot;
    if DoiFrom(sources, slots, k, doi) {
      var i :| 0 <= i < n && slots[i] == k && DoiKey(sources[i]) == doi;
      assert sources'[i] == sources[i] && slots'[i] == k;
    }
    if IdentityFrom(sources, slots, k, entry) {
      var i :| 0 <= i < n && slots[i] == k && SameIdentity(sources[i], entry);
      assert sources'[i] == sources[i] && slots'[i] == k;
    }
  }

  lemma MergeKeys(entry: Source, source: Source)
    ensures var m := Merge(entry, source);
      && (DoiKey(m) == DoiKey(entry) || DoiKey(m) == DoiKey(source))
      && (SameIdentity(m, entry) || SameIdentity(m, source))
  {
    KeyOfKey(source.doi);
  }

  lemma AddKeepsKeys(sources: seq<Source>, slots: seq<nat>, merged: seq<Source>, source: Source)
    requires KeysFromSlots(sources, slots, merged)
    ensures KeysFromSlots(sources + [source], slots + [MatchFrom(source, merged, 0)], Add(merged, source))
  {
    var slot := MatchFrom(source, merged, 0);
    var merged' := Add(merged, source);
    forall k: nat | k < |merged'|
      ensures DoiFrom(sources + [source], slots + [slot], k, DoiKey(merged'[k]))
      ensures IdentityFrom(sources + [source], slots + [slot], k, merged'[k])
    {
      FromSnoc(sources, slots, source, slot, k, DoiKey(merged'[k]), merged'[k]);
      if k < |merged| {
        assert DoiFrom(sources, slots, k, DoiKey(merged[k])) && IdentityFrom(sources, slots, k, merged[k]);
        MergeKeys(merged[k], source);
      }
    }
  }

  lemma {:induction false} KeysComeFromInputs(sources: seq<Source>)
    ensures KeysFromSlots(sources, Slots(sources), Deduplicated(sources))
    decreases |sources|
  {
    if sources != [] {
      var n := |sources| - 1;
      KeysComeFromInputs(sources[..n]);
      AddKeepsKeys(sources[..n], Slots(sources[..n]), Deduplicated(sources[..n]), sources[n]);
      assert sources == sources[..n] + [sources[n]];
    }
  }

  /** One non-empty DOI key, one type and id, or one non-empty title for both. */
  ghost predicate Related(a: Source, b: Source) {
    || (DoiKey(a) == DoiKey(b) && DoiKey(b) != "")
    || (a.sourceType == b.sourceType && a.sourceId == b.sourceId)
    || (a.title == b.title && b.title != "")
  }

  /** A record that is related to some entry is never listed on its own. */
  lemma RelatedRecordsMerge(sources: seq<Source>, source: Source)
    ensures var merged := Deduplicated(sources);
      |Deduplicated(sources + [source])| == |merged| <==> exists k :: 0 <= k < |merged| && Related(source, merged[k])
  {
    var merged := Deduplicated(sources);
    assert (sources + [source])[..|sources|] == sources;
    if k :| 0 <= k < |merged| && Related(source, merged[k]) {
      assert Matches(source, merged[k]);
    }
    if MatchFrom(source, merged, 0) < |merged| {
      assert Related(source, merged[MatchFrom(source, merged, 0)]);
    }
  }

  /** A record joins an entry only because it shares a DOI, an identity or a title with an earlier input there. */
  lemma OnlyRelatedRecordsMerge(sources: seq<Source>, source: Source)
    requires MatchFrom(source, Deduplicated(sources), 0) < |Deduplicated(sources)|
    ensures |Slots(sources)| == |sources|
    ensures var k := MatchFrom(source, Deduplicated(sources), 0);
      exists i :: 0 <= i < |sources| && Slots(sources)[i] == k && Related(source, sources[i])
  {
    var merged, slots := Deduplicated(sources), Slots(sources);
    var k := MatchFrom(source, merged, 0);
    KeysComeFromInputs(sources);
    var i :| 0 <= i < |sources| && slots[i] == k && DoiKey(sources[i]) == DoiKey(merged[k]);
    var j :| 0 <= j < |sources| && slots[j] == k && SameIdentity(sources[j], merged[k]);
    assert Matches(source, sources[i]) || Matches(source, sources[j]);
  }

  // ---------------------------------------------------------------- when the entries end up unrelated

  ghost predicate Unlinked(merged: seq<Source>) {
    forall i, j :: 0 <= i < j < |merged| ==> !Matches(merged[i], merged[j])
  }

  /** No input matches two entries at once when it arrives. */
  ghost predicate NoBridges(sources: seq<Source>) {
    forall n :: 0 <= n < |sources| ==> !Bridges(sources[n], Deduplicated(sources[..n]))
  }

  ghost predicate Bridges(source: Source, merged: seq<Source>) {
    exists i, j :: 0 <= i < j < |merged| && Matches(source, merged[i]) && Matches(source, merged[j])
  }

  lemma MergeLinks(entry: Source, source: Source, other: Source)
    requires Matches(Merge(entry, source), other)
    ensures Matches(entry, other) || Matches(source, other)
  {
    KeyOfKey(source.doi);
  }

  lemma MatchesSymmetric(a: Source, b: Source)
    ensures Matches(a, b) <==> Matches(b, a)
  {
  }

  lemma AddUnlinked(merged: seq<Source>, source: Source)
    requires Unlinked(merged) && !Bridges(source, merged)
    ensures Unlinked(Add(merged, source))
  {
    var k := MatchFrom(source, merged, 0);
    var merged' := Add(merged, source);
    forall i, j | 0 <= i < j < |merged'|
      ensures !Matches(merged'[i], merged'[j])
    {
      if i == k && Matches(merged'[i], merged'[j]) {
        MergeLinks(merged[k], source, merged[j]);
      } else if j == k && k < |merged| && Matches(merged'[i], merged'[j]) {
        MatchesSymmetric(merged'[i], merged'[j]);
        MergeLinks(merged[k], source, merged[i]);
        MatchesSymmetric(merged[k], merged[i]);
      } else if j == |merged| {
        MatchesSymmetric(merged[i], source);
        MatchesSymmetric(merged[i], Entry(source));
      }
    }
  }

  /** Without bridging inputs the result has no two entries sharing a DOI, an identity or a title. */
  lemma {:induction false} UnbridgedIsUnlinked(sources: seq<Source>)
    requires NoBridges(sources)
    ensures Unlinked(Deduplicated(sources))
    decreases |sources|
  {
    if sources != [] {
      var n := |sources| - 1;
      forall m | 0 <= m < n
        ensures !Bridges(sources[..n][m], Deduplicated(sources[..n][..m]))
      {
        assert sources[..n][..m] == sources[..m];
      }
      UnbridgedIsUnlinked(sources[..n]);
      AddUnlinked(Deduplicated(sources[..n]), sources[n]);
    }
  }

  /** A bridge can leave them: `c` joins `a` by title and lends it the DOI that `b` already has. */
  lemma BridgeLeavesDuplicates(a: Source, b: Source, c: Source)
    requires !Matches(b, a) && Matches(c, a) && a.doi == "" && DoiKey(c) == DoiKey(b) != ""
    requires c.provider != Some("crossref")
    ensures Deduplicated([a, b, c]) == [Merge(Entry(a), c), Entry(b)] && !Unlinked(Deduplicated([a, b, c]))
  {
    assert [a, b, c][..2] == [a, b] && [a, b][..1] == [a] && [a][..0] == [];
    assert Deduplicated([a]) == [Entry(a)];
    assert Deduplicated([a, b]) == [Entry(a), Entry(b)];
    var merged := Deduplicated([a, b, c]);
    assert merged == [Merge(Entry(a), c), Entry(b)];
    KeyOfKey(c.doi);
    assert Matches(merged[0], merged[1]);
  }

  /** Such records exist. */
  lemma DuplicatesHappen()
    ensures exists a, b, c :: !Unlinked(Deduplicated([a, b, c]))
  {
    var a := Source("", Some("arxiv"), Some("1"), "a theorem", Some("arxiv"), "", [], []);
    var b := Source("d", Some("crossref"), Some("2"), "its journal version", Some("crossref"), "", [], []);
    var c := Source("d", Some("openalex"), Some("3"), "a theorem", Some("openalex"), "", [], []);
    assert Stripped("d") == "d" && Lower("d") == "d" && Stripped("") == "" && Lower("") == "";
    BridgeLeavesDuplicates(a, b, c);
  }

  // ---------------------------------------------------------------- recording into a run

  /** The part of a research run that literature results change. */
  class LiteratureRecord {
    var surveying: bool
    var retrievals: seq<seq<Source>>
    var retrievedSources: seq<Source>
    var literatureSources: seq<Source>

    constructor ()
      ensures surveying && retrievals == [] && retrievedSources == [] && literatureSources == []
    {
      surveying := true;
      retrievals, retrievedSources, literatureSources := [], [], [];
    }

    /** `event` is the tool result's classification; results outside the survey, or none, change nothing. */
    method RecordLiteratureToolResult(event: Option<seq<Source>>) returns (recorded: bool)
      modifies `retrievals, `retrievedSources, `literatureSources
      ensures recorded <==> surveying && event.Some?
      ensures recorded ==>
        && retrievals == old(retrievals) + [event.value]
        && retrievedSources == literatureSources == Deduplicated(old(retrievedSources) + event.value)
        && AllIds(retrievedSources) == AllIds(old(retrievedSources)) + AllIds(event.value)
      ensures !recorded ==>
        && retrievals == old(retrievals) && retrievedSources == old(retrievedSources)
        && literatureSources == old(literatureSources)
    {
      recorded := surveying && event.Some?;
      if recorded {
        retrievals := retrievals + [event.value];
        DeduplicationConserves(retrievedSources + event.value);
        IdsOfConcat(retrievedSources, event.value);
        retrievedSources := DeduplicateSources(retrievedSources + event.value);
        literatureSources := retrievedSources;
      }
    }
  }

  lemma IdsOfConcat(a: seq<Source>, b: seq<Source>)
    ensures AllIds(a + b) == AllIds(a) + AllIds(b)
  {
    forall id
      ensures id in AllIds(a + b) <==> id in AllIds(a) || id in AllIds(b)
    {
      assert forall s :: s in a + b <==> s in a || s in b;
    }
  }

  function Recorded(events: seq<seq<Source>>): seq<Source> {
    if events == [] then [] else Deduplicated(Recorded(events[..|events| - 1]) + events[|events| - 1])
  }

  function Retrieved(events: seq<seq<Source>>): set<Option<string>> {
    if events == [] then {} else Retrieved(events[..|events| - 1]) + AllIds(events[|events| - 1])
  }

  /** Over any number of recordings a run holds exactly the ids it was ever given. */
  lemma {:induction false} RecordingLosesNothing(events: seq<seq<Source>>)
    ensures AllIds(Recorded(events)) == Retrieved(events)
    decreases |events|
  {
    if events != [] {
      var n := |events| - 1;
      RecordingLosesNothing(events[..n]);
      DeduplicationConserves(Recorded(events[..n]) + events[n]);
      IdsOfConcat(Recorded(events[..n]), events[n]);
    }
  }
}
