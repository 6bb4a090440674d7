/** One `embed_bill` pass as a function: what a pass that loses nothing and races nobody leaves in the
    record and in the vectors, and what follows for passes in a row. */
module EmbeddingPass {
  import opened Wrappers
  import opened KnowledgeBase
  import opened EmbeddingProtocol
  import opened EmbeddingAgreement

  // ---------------------------------------------------------------------------------------------
  // One version's turn
  // ---------------------------------------------------------------------------------------------

  /** The pass ingests a version when the scope wants it and the record has another hash for it. */
  predicate Ingests(w: World, scope: Scope, versions: seq<Version>, v: Version, docs: Documents)
    requires Embeddable(v)
  {
    Wanted(scope, versions, v) && EntryOf(docs, v.archiveId.value).textHash != Some(w.hash(VersionText(v)))
  }

  function TextPatch(w: World, text: Text): Entry {
    Entry(Some(w.hash(text)), Some(|w.chunksOf(text)|), None)
  }

  /** The documents after the text of a version was written, if the pass writes it. */
  function Embedded(w: World, scope: Scope, versions: seq<Version>, v: Version, docs: Documents): Documents
    requires Embeddable(v)
  {
    if Ingests(w, scope, versions, v, docs) then SetFields(docs, v.archiveId.value, TextPatch(w, VersionText(v))) else docs
  }

  /** The documents after the stamp of a version was recorded, if its recorded text is the version's. */
  function Stamped(w: World, v: Version, docs: Documents): Documents
    requires Embeddable(v)
  {
    if NeedsStamp(docs, v.archiveId.value, w.hash(VersionText(v)), v.updatedAt)
    then SetFields(docs, v.archiveId.value, Entry(None, None, v.updatedAt))
    else docs
  }

  function DocsAfter(w: World, scope: Scope, versions: seq<Version>, v: Version, docs: Documents): Documents {
    if Embeddable(v) then Stamped(w, v, Embedded(w, scope, versions, v, docs)) else docs
  }

  function Ingested1(w: World, scope: Scope, versions: seq<Version>, v: Version, docs: Documents): nat {
    if Embeddable(v) && Ingests(w, scope, versions, v, docs) then 1 else 0
  }

  /** All chunks upserted, then the surplus of the recorded count deleted. */
  function IngestedVectors(w: World, vectors: Vectors, a: ArchiveId, text: Text, oldCount: nat): Vectors {
    var chunks := w.chunksOf(text);
    Delete(Write(vectors, a, chunks, AllIds(|chunks|)), a, SurplusIds(oldCount, |chunks|))
  }

  function VectorsAfter(w: World, scope: Scope, versions: seq<Version>, v: Version, docs: Documents, vectors: Vectors): Vectors {
    if Embeddable(v) && Ingests(w, scope, versions, v, docs) then
      IngestedVectors(w, vectors, v.archiveId.value, VersionText(v), Count(EntryOf(docs, v.archiveId.value)))
    else vectors
  }

  // ---------------------------------------------------------------------------------------------
  // A clean pass over the first `i` versions
  // ---------------------------------------------------------------------------------------------

  function CleanDocs(w: World, scope: Scope, versions: seq<Version>, docs: Documents, i: nat): Documents
    requires i <= |versions|
  {
    if i == 0 then docs
    else DocsAfter(w, scope, versions, versions[i - 1], CleanDocs(w, scope, versions, docs, i - 1))
  }

  function CleanVectors(w: World, scope: Scope, versions: seq<Version>, docs: Documents, vectors: Vectors, i: nat): Vectors
    requires i <= |versions|
  {
    if i == 0 then vectors
    else VectorsAfter(w, scope, versions, versions[i - 1], CleanDocs(w, scope, versions, docs, i - 1),
                      CleanVectors(w, scope, versions, docs, vectors, i - 1))
  }

  /** How many documents a clean pass ingests. */
  function CleanIngests(w: World, scope: Scope, versions: seq<Version>, docs: Documents, i: nat): nat
    requires i <= |versions|
  {
    if i == 0 then 0
    else CleanIngests(w, scope, versions, docs, i - 1)
         + Ingested1(w, scope, versions, versions[i - 1], CleanDocs(w, scope, versions, docs, i - 1))
  }

  /** Archived document ids are distinct within a bill. */
  predicate DistinctIds(versions: seq<Version>) {
    forall i, j :: 0 <= i < j < |versions| && versions[i].archiveId.Some? ==> versions[i].archiveId != versions[j].archiveId
  }

  /** Every version with text also has an archived document id. */
  predicate IdsPresent(versions: seq<Version>) {
    forall v <- versions :: VersionText(v) != "" ==> v.archiveId.Some?
  }

  /** A whole clean pass. */
  function PassDocs(w: World, scope: Scope, versions: seq<Version>, docs: Documents): Documents {
    CleanDocs(w, scope, versions, docs, |versions|)
  }

  function PassVectors(w: World, scope: Scope, versions: seq<Version>, docs: Documents, vectors: Vectors): Vectors {
    CleanVectors(w, scope, versions, docs, vectors, |versions|)
  }

  function PassIngests(w: World, scope: Scope, versions: seq<Version>, docs: Documents): nat {
    CleanIngests(w, scope, versions, docs, |versions|)
  }

  lemma CleanStep(w: World, scope: Scope, versions: seq<Version>, docs: Documents, vectors: Vectors, i: nat)
    requires i < |versions|
    ensures var v, before := versions[i], CleanDocs(w, scope, versions, docs, i);
            && CleanDocs(w, scope, versions, docs, i + 1) == DocsAfter(w, scope, versions, v, before)
            && CleanIngests(w, scope, versions, docs, i + 1)
               == CleanIngests(w, scope, versions, docs, i) + Ingested1(w, scope, versions, v, before)
            && CleanVectors(w, scope, versions, docs, vectors, i + 1)
               == VectorsAfter(w, scope, versions, v, before, CleanVectors(w, scope, versions, docs, vectors, i))
  {
  }

  /** A version's turn is about its own document only. */
  lemma TurnIsLocal(w: World, scope: Scope, versions: seq<Version>, v: Version, docs: Documents, a: ArchiveId)
    requires !Embeddable(v) || v.archiveId != Some(a)
    ensures var after := DocsAfter(w, scope, versions, v, docs);
            (a in after <==> a in docs) && EntryOf(after, a) == EntryOf(docs, a)
  {
  }

  /** With distinct ids, a version's turn finds the entry the pass started with. */
  lemma TurnFindsFirstEntry(w: World, scope: Scope, versions: seq<Version>, docs: Documents, i: nat)
    requires DistinctIds(versions) && i < |versions| && versions[i].archiveId.Some?
    ensures EntryOf(CleanDocs(w, scope, versions, docs, i), versions[i].archiveId.value) == EntryOf(docs, versions[i].archiveId.value)
  {
    AheadIsUntouched(w, scope, versions, docs, i, versions[i].archiveId.value);
  }

  lemma {:induction false} AheadIsUntouched(w: World, scope: Scope, versions: seq<Version>, docs: Documents, i: nat, a: ArchiveId)
    requires i <= |versions|
    requires forall j :: 0 <= j < i && Embeddable(versions[j]) ==> versions[j].archiveId != Some(a)
    ensures var after := CleanDocs(w, scope, versions, docs, i);
            (a in after <==> a in docs) && EntryOf(after, a) == EntryOf(docs, a)
  {
    if i > 0 {
      AheadIsUntouched(w, scope, versions, docs, i - 1, a);
      TurnIsLocal(w, scope, versions, versions[i - 1], CleanDocs(w, scope, versions, docs, i - 1), a);
    }
  }

  // ---------------------------------------------------------------------------------------------
  // What a pass that loses nothing makes true
  // ---------------------------------------------------------------------------------------------

  /** The vectors hold the texts of the first `i` versions that the scope wants. */
  predicate WantedAreHeld(w: World, scope: Scope, versions: seq<Version>, vectors: Vectors, i: nat)
    requires i <= |versions|
  {
    forall j | 0 <= j < i :: Embeddable(versions[j]) && Wanted(scope, versions, versions[j]) ==> IsHeld(w, vectors, versions[j])
  }

  predicate IsHeld(w: World, vectors: Vectors, v: Version)
    requires Embeddable(v)
  {
    v.archiveId.value in w.texts ==> Holds(vectors, v.archiveId.value, w.chunksOf(VersionText(v)))
  }

  lemma TurnHoldsWanted(w: World, scope: Scope, versions: seq<Version>, v: Version, docs: Documents, vectors: Vectors)
    requires v in versions && Admits(w, versions, None)
    requires GoodDocs(w, vectors, DocsAfter(w, scope, versions, v, docs))
    ensures Embeddable(v) && Wanted(scope, versions, v) ==> IsHeld(w, vectors, v)
  {
    if !Embeddable(v) || !Wanted(scope, versions, v) {
      return;
    }
    var after := DocsAfter(w, scope, versions, v, docs);
    assert EntryOf(after, v.archiveId.value).textHash == Some(w.hash(VersionText(v)));
    assert v.archiveId.value in after;
    assert Good(w, vectors, v.archiveId.value, after[v.archiveId.value]);
  }

  /** After `i` versions, a call has so far done what a clean pass does. */
  predicate InStep(w: World, scope: Scope, versions: seq<Version>, docs: Documents, start: Vectors, alone: bool,
                   i: nat, docs': Documents, documents: nat, vectors: Vectors)
    requires i <= |versions|
  {
    && docs' == CleanDocs(w, scope, versions, docs, i)
    && documents == CleanIngests(w, scope, versions, docs, i)
    && WantedAreHeld(w, scope, versions, vectors, i)
    && (alone ==> vectors == CleanVectors(w, scope, versions, docs, start, i))
  }

  lemma StaysInStep(w: World, scope: Scope, versions: seq<Version>, docs: Documents, start: Vectors, alone: bool,
                    i: nat, before: Documents, documents: nat, vectors: Vectors, vectors': Vectors)
    requires i < |versions| && Admits(w, versions, None)
    requires InStep(w, scope, versions, docs, start, alone, i, before, documents, vectors)
    requires Keeps(w, vectors, vectors')
    requires GoodDocs(w, vectors', DocsAfter(w, scope, versions, versions[i], before))
    requires alone ==> vectors' == VectorsAfter(w, scope, versions, versions[i], before, vectors)
    ensures InStep(w, scope, versions, docs, start, alone, i + 1, DocsAfter(w, scope, versions, versions[i], before),
                   documents + Ingested1(w, scope, versions, versions[i], before), vectors')
  {
    HeldAdvances(w, scope, versions, vectors, vectors', i, before);
    CleanStep(w, scope, versions, docs, start, i);
  }

  lemma HeldAdvances(w: World, scope: Scope, versions: seq<Version>, before: Vectors, after: Vectors, i: nat, docs: Documents)
    requires i < |versions| && Admits(w, versions, None)
    requires Keeps(w, before, after) && WantedAreHeld(w, scope, versions, before, i)
    requires GoodDocs(w, after, DocsAfter(w, scope, versions, versions[i], docs))
    ensures WantedAreHeld(w, scope, versions, after, i + 1)
  {
    HeldStays(w, scope, versions, before, after, i);
    TurnHoldsWanted(w, scope, versions, versions[i], docs, after);
  }

  lemma HeldStays(w: World, scope: Scope, versions: seq<Version>, before: Vectors, after: Vectors, i: nat)
    requires i <= |versions| && Admits(w, versions, None)
    requires Keeps(w, before, after) && WantedAreHeld(w, scope, versions, before, i)
    ensures WantedAreHeld(w, scope, versions, after, i)
  {
    forall j | 0 <= j < i && Embeddable(versions[j]) && Wanted(scope, versions, versions[j])
      ensures IsHeld(w, after, versions[j])
    {
      assert IsHeld(w, before, versions[j]);
      assert versions[j] in versions;
    }
  }

  // ---------------------------------------------------------------------------------------------
  // Orphans
  // ---------------------------------------------------------------------------------------------

  /** The recorded documents a response lists for none of its versions. */
  function Orphans(versions: seq<Version>, docs: Documents): set<ArchiveId> {
    if ListedIds(versions) == {} then {} else docs.Keys - ListedIds(versions)
  }

  /** The documents a call with this orphan budget may delete. */
  function Doomed(versions: seq<Version>, maxOrphans: Option<nat>, docs: Documents): set<ArchiveId> {
    if maxOrphans.Some? then Orphans(versions, docs) else {}
  }

  /** The recorded documents that are no version's. */
  function Unlisted(versions: seq<Version>, docs: Documents): set<ArchiveId> {
    set a <- docs | forall v <- versions :: v.archiveId != Some(a)
  }

  lemma DoomedAreUnlisted(versions: seq<Version>, maxOrphans: Option<nat>, docs: Documents)
    ensures Doomed(versions, maxOrphans, docs)
            == if maxOrphans.Some? && exists v <- versions :: v.archiveId.Some? then Unlisted(versions, docs) else {}
  {
    forall a <- docs
      ensures a in ListedIds(versions) <==> !(forall v <- versions :: v.archiveId != Some(a))
    {
      if v :| v in versions && v.archiveId == Some(a) {
        assert v.archiveId.value in ListedIds(versions);
      }
    }
    if v :| v in versions && v.archiveId.Some? {
      assert v.archiveId.value in ListedIds(versions);
      assert Orphans(versions, docs) == Unlisted(versions, docs);
    }
  }

  /** The same documents with the same entries, except for the listed ones. */
  predicate SameOutside(listed: set<ArchiveId>, before: Documents, after: Documents) {
    forall a | a in before.Keys + after.Keys :: a in listed || (a in before && a in after && before[a] == after[a])
  }

  /** Only the entry of this version's document may differ. */
  predicate OneEntryChanged(v: Version, before: Documents, after: Documents) {
    after == before || (Embeddable(v) && after == before[v.archiveId.value := EntryOf(after, v.archiveId.value)])
  }

  lemma StampingStaysWithin(w: World, v: Version, before: Documents, middle: Documents)
    requires Embeddable(v) && OneEntryChanged(v, before, middle)
    ensures OneEntryChanged(v, before, Stamped(w, v, middle))
  {
    var a, after := v.archiveId.value, Stamped(w, v, middle);
    if after != middle {
      assert after == before[a := EntryOf(after, a)];
    }
  }

  lemma OneEntryStaysInside(versions: seq<Version>, v: Version, before: Documents, middle: Documents, after: Documents)
    requires v in versions && SameOutside(ListedIds(versions), before, middle) && OneEntryChanged(v, middle, after)
    ensures SameOutside(ListedIds(versions), before, after)
  {
    assert Embeddable(v) ==> v.archiveId.value in ListedIds(versions);
  }

  lemma SameOrphans(versions: seq<Version>, before: Documents, after: Documents, vectors: Vectors, gone: set<ArchiveId>)
    requires SameOutside(ListedIds(versions), before, after) && gone <= Orphans(versions, after)
    ensures Orphans(versions, before) == Orphans(versions, after)
    ensures WithoutVectors(vectors, before, gone) == WithoutVectors(vectors, after, gone)
  {
  }

  /** Without the vectors recorded for the documents that are gone. */
  function WithoutVectors(vectors: Vectors, docs: Documents, gone: set<ArchiveId>): Vectors {
    map k | k in vectors && !(k.doc in gone && k.n < Count(EntryOf(docs, k.doc))) :: vectors[k]
  }

  function EntriesOf(docs: Documents, ids: set<ArchiveId>): Documents
    requires ids <= docs.Keys
  {
    map a | a in ids :: docs[a]
  }

  /** Merging onto the record a call started from leaves its own documents, without the deleted ones. */
  lemma MergingOntoTheSame(base: Documents, updates: Documents, gone: set<ArchiveId>)
    requires gone <= PatchedAll(base, updates).Keys
    ensures Merged(base, updates, EntriesOf(PatchedAll(base, updates), gone)) == PatchedAll(base, updates) - gone
  {
  }

  /** The vectors of the documents deleted so far, with one more deleted. */
  lemma RemovingOneMore(vectors: Vectors, docs: Documents, gone: set<ArchiveId>, a: ArchiveId)
    ensures Delete(WithoutVectors(vectors, docs, gone), a, Range(0, Count(EntryOf(docs, a))))
            == WithoutVectors(vectors, docs, gone + {a})
  {
  }

  /** Some vectors of these documents are gone, and nothing else changed. */
  predicate OnlyRemoves(orphans: set<ArchiveId>, before: Vectors, after: Vectors) {
    && (forall k <- after :: k in before && before[k] == after[k])
    && (forall k <- before :: k in after || k.doc in orphans)
  }

  /** A version whose turn changes nothing in these documents. */
  predicate Settled(w: World, scope: Scope, versions: seq<Version>, docs: Documents) {
    forall v <- versions :: DocsAfter(w, scope, versions, v, docs) == docs
  }

  // ---------------------------------------------------------------------------------------------
  // A pass that did not finish
  // ---------------------------------------------------------------------------------------------

  /** What any pass, however it fails, can have done to one vector: written the chunk a version's text
      has there, deleted one beyond that text, or deleted one of an orphan. */
  predicate TouchedOnlyBy(w: World, versions: seq<Version>, orphans: set<ArchiveId>, before: Vectors, after: Vectors) {
    forall k | k in before.Keys + after.Keys ::
      || (k in before && k in after && before[k] == after[k])
      || (k.doc in orphans && k !in after)
      || exists v <- versions :: TouchedAs(w, v, k, after)
  }

  predicate TouchedAs(w: World, v: Version, k: ChunkKey, after: Vectors) {
    && Embeddable(v) && v.archiveId.value == k.doc
    && var chunks := w.chunksOf(VersionText(v));
       if k.n < |chunks| then HasChunk(after, k.doc, k.n, chunks[k.n]) else k !in after
  }

  lemma TouchingComposes(w: World, versions: seq<Version>, orphans: set<ArchiveId>, before: Vectors, middle: Vectors, after: Vectors)
    requires TouchedOnlyBy(w, versions, orphans, before, middle) && TouchedOnlyBy(w, versions, orphans, middle, after)
    ensures TouchedOnlyBy(w, versions, orphans, before, after)
  {
    forall k | k in before.Keys + after.Keys
      ensures || (k in before && k in after && before[k] == after[k])
              || (k.doc in orphans && k !in after)
              || exists v <- versions :: TouchedAs(w, v, k, after)
    {
      if k in middle && k in after && middle[k] == after[k] {
        if v :| v in versions && TouchedAs(w, v, k, middle) {
          assert TouchedAs(w, v, k, after);
        }
      } else if k in middle || k in after {
        if !(k.doc in orphans && k !in after) {
          var v :| v in versions && TouchedAs(w, v, k, after);
        }
      } else if k.doc !in orphans {
        var v :| v in versions && TouchedAs(w, v, k, middle);
        assert TouchedAs(w, v, k, after);
      }
    }
  }

  lemma RemovingTouches(w: World, versions: seq<Version>, orphans: set<ArchiveId>, before: Vectors, middle: Vectors, after: Vectors)
    requires TouchedOnlyBy(w, versions, {}, before, middle) && OnlyRemoves(orphans, middle, after)
    ensures TouchedOnlyBy(w, versions, orphans, before, after)
  {
    forall k | k in before.Keys + after.Keys
      ensures || (k in before && k in after && before[k] == after[k])
              || (k.doc in orphans && k !in after)
              || exists v <- versions :: TouchedAs(w, v, k, after)
    {
      if v :| v in versions && TouchedAs(w, v, k, middle) {
        if k in after || k !in middle {
          assert TouchedAs(w, v, k, after);
        }
      }
    }
  }

  lemma IngestTouches(w: World, versions: seq<Version>, v: Version, before: Vectors, up: nat, down: nat)
    requires v in versions && Embeddable(v)
    ensures var chunks := w.chunksOf(VersionText(v));
            TouchedOnlyBy(w, versions, {}, before,
                          Delete(Write(before, v.archiveId.value, chunks, AllIds(up)), v.archiveId.value, Range(|chunks|, down)))
  {
    var chunks := w.chunksOf(VersionText(v));
    var after := Delete(Write(before, v.archiveId.value, chunks, AllIds(up)), v.archiveId.value, Range(|chunks|, down));
    forall k | k in before.Keys + after.Keys
      ensures (k in before && k in after && before[k] == after[k]) || TouchedAs(w, v, k, after)
    {
    }
  }
}
