/** What follows for passes in a row: one clean pass heals whatever failed passes left, a second one
    writes nothing, and live chunk ids are exact precisely when no step shrinks too far. */
module PassLaws {
  import opened Wrappers
  import opened KnowledgeBase
  import opened EmbeddingProtocol
  import opened EmbeddingAgreement
  import opened EmbeddingPass

  // ---------------------------------------------------------------------------------------------
  // A pass, one document at a time
  // ---------------------------------------------------------------------------------------------

  /** A version's turn on its own entry. */
  function EntryTurn(w: World, wanted: bool, v: Version, e: Entry): Entry {
    var h := w.hash(VersionText(v));
    var written := if wanted && e.textHash != Some(h) then Patched(e, TextPatch(w, VersionText(v))) else e;
    if v.updatedAt.Some? && v.updatedAt.value != "" && written.textHash == Some(h) then written.(stamp := v.updatedAt)
    else written
  }

  lemma TurnOnOwnEntry(w: World, scope: Scope, versions: seq<Version>, v: Version, docs: Documents)
    requires Embeddable(v)
    ensures var a, after := v.archiveId.value, DocsAfter(w, scope, versions, v, docs);
            && EntryOf(after, a) == EntryTurn(w, Wanted(scope, versions, v), v, EntryOf(docs, a))
            && (a in after <==> a in docs || Wanted(scope, versions, v))
  {
  }

  /** After a clean pass every document with text has the entry its own turn alone would have given it,
      and the vectors. */
  lemma {:induction false} PassIsPointwise(w: World, scope: Scope, versions: seq<Version>, docs: Documents, vectors: Vectors, i: nat, j: nat)
    requires DistinctIds(versions) && j < i <= |versions| && Embeddable(versions[j])
    ensures var v, a := versions[j], versions[j].archiveId.value;
            var after := CleanDocs(w, scope, versions, docs, i);
            && EntryOf(after, a) == EntryTurn(w, Wanted(scope, versions, v), v, EntryOf(docs, a))
            && (a in after <==> a in docs || Wanted(scope, versions, v))
  {
    var before := CleanDocs(w, scope, versions, docs, i - 1);
    if j < i - 1 {
      PassIsPointwise(w, scope, versions, docs, vectors, i - 1, j);
      TurnIsLocal(w, scope, versions, versions[i - 1], before, versions[j].archiveId.value);
    } else {
      AheadIsUntouched(w, scope, versions, docs, j, versions[j].archiveId.value);
      TurnOnOwnEntry(w, scope, versions, versions[j], before);
    }
  }

  /** The vectors of one document are the same. */
  predicate SameFor(a: ArchiveId, before: Vectors, after: Vectors) {
    forall k: ChunkKey | k in before.Keys + after.Keys ::
      k.doc == a ==> k in before && k in after && before[k] == after[k]
  }

  /** What a version's turn does to vectors. */
  function VectorTurn(w: World, wanted: bool, v: Version, e: Entry, vectors: Vectors): Vectors
    requires Embeddable(v)
  {
    if wanted && e.textHash != Some(w.hash(VersionText(v)))
    then IngestedVectors(w, vectors, v.archiveId.value, VersionText(v), Count(e))
    else vectors
  }

  lemma OtherTurnsLeaveVectors(w: World, scope: Scope, versions: seq<Version>, v: Version, docs: Documents, vectors: Vectors, a: ArchiveId)
    requires !Embeddable(v) || v.archiveId != Some(a)
    ensures SameFor(a, vectors, VectorsAfter(w, scope, versions, v, docs, vectors))
  {
  }

  lemma TurnsOnSameVectors(w: World, wanted: bool, v: Version, e: Entry, one: Vectors, two: Vectors)
    requires Embeddable(v) && SameFor(v.archiveId.value, one, two)
    ensures SameFor(v.archiveId.value, VectorTurn(w, wanted, v, e, one), VectorTurn(w, wanted, v, e, two))
  {
    forall k: ChunkKey | k.doc == v.archiveId.value
      ensures k in one <==> k in two
      ensures k in one && k in two ==> one[k] == two[k]
    {
      if k in one || k in two {
        assert k in one.Keys + two.Keys;
      }
    }
  }

  /** Documents the first `i` versions do not name keep their vectors. */
  lemma {:induction false} AheadKeepsVectors(w: World, scope: Scope, versions: seq<Version>, docs: Documents, vectors: Vectors, i: nat, a: ArchiveId)
    requires i <= |versions|
    requires forall j :: 0 <= j < i && Embeddable(versions[j]) ==> versions[j].archiveId != Some(a)
    ensures SameFor(a, vectors, CleanVectors(w, scope, versions, docs, vectors, i))
  {
    if i > 0 {
      AheadKeepsVectors(w, scope, versions, docs, vectors, i - 1, a);
      var middle := CleanVectors(w, scope, versions, docs, vectors, i - 1);
      OtherTurnsLeaveVectors(w, scope, versions, versions[i - 1], CleanDocs(w, scope, versions, docs, i - 1), middle, a);
      CleanStep(w, scope, versions, docs, vectors, i - 1);
      SameForComposes(a, vectors, middle, CleanVectors(w, scope, versions, docs, vectors, i));
    }
  }

  lemma SameForComposes(a: ArchiveId, before: Vectors, middle: Vectors, after: Vectors)
    requires SameFor(a, before, middle) && SameFor(a, middle, after)
    ensures SameFor(a, before, after)
  {
    forall k: ChunkKey | k in before.Keys + after.Keys && k.doc == a
      ensures k in before && k in after && before[k] == after[k]
    {
      assert k in before.Keys + middle.Keys || k in middle.Keys + after.Keys;
    }
  }

  /** The same for vectors: those of a document with text are what its own turn alone makes of them. */
  lemma {:induction false} VectorsArePointwise(w: World, scope: Scope, versions: seq<Version>, docs: Documents, vectors: Vectors, i: nat, j: nat)
    requires DistinctIds(versions) && j < i <= |versions| && Embeddable(versions[j])
    ensures var v, a := versions[j], versions[j].archiveId.value;
            SameFor(a, VectorTurn(w, Wanted(scope, versions, v), v, EntryOf(docs, a), vectors),
                       CleanVectors(w, scope, versions, docs, vectors, i))
  {
    var v, a := versions[j], versions[j].archiveId.value;
    var before := CleanDocs(w, scope, versions, docs, i - 1);
    var middle := CleanVectors(w, scope, versions, docs, vectors, i - 1);
    var turned := VectorTurn(w, Wanted(scope, versions, v), v, EntryOf(docs, a), vectors);
    CleanStep(w, scope, versions, docs, vectors, i - 1);
    if j < i - 1 {
      VectorsArePointwise(w, scope, versions, docs, vectors, i - 1, j);
      OtherTurnsLeaveVectors(w, scope, versions, versions[i - 1], before, middle, a);
      SameForComposes(a, turned, middle, CleanVectors(w, scope, versions, docs, vectors, i));
    } else {
      AheadIsUntouched(w, scope, versions, docs, j, a);
      AheadKeepsVectors(w, scope, versions, docs, vectors, j, a);
      TurnsOnSameVectors(w, Wanted(scope, versions, v), v, EntryOf(docs, a), vectors, middle);
    }
  }

  // ---------------------------------------------------------------------------------------------
  // What a clean pass records
  // ---------------------------------------------------------------------------------------------

  /** The record names a version's text, with its stamp if it has one. */
  predicate RecordsText(w: World, v: Version, docs: Documents)
    requires Embeddable(v)
  {
    var a := v.archiveId.value;
    && a in docs && docs[a].textHash == Some(w.hash(VersionText(v)))
    && (v.updatedAt.Some? && v.updatedAt.value != "" ==> docs[a].stamp == v.updatedAt)
  }

  predicate RecordsWanted(w: World, scope: Scope, versions: seq<Version>, docs: Documents) {
    forall v <- versions :: Embeddable(v) && Wanted(scope, versions, v) ==> RecordsText(w, v, docs)
  }

  lemma PassRecordsWanted(w: World, scope: Scope, versions: seq<Version>, docs: Documents)
    requires DistinctIds(versions)
    ensures RecordsWanted(w, scope, versions, PassDocs(w, scope, versions, docs))
  {
    forall v | v in versions && Embeddable(v) && Wanted(scope, versions, v)
      ensures RecordsText(w, v, PassDocs(w, scope, versions, docs))
    {
      var j :| 0 <= j < |versions| && versions[j] == v;
      PassIsPointwise(w, scope, versions, docs, map[], |versions|, j);
    }
  }

  /** Whether its first read was answered or not, a pass that races nobody and leaves nothing undone
      records every text it wanted: it merges what it set onto the entries it started from, or, having
      seen none, has set all of them itself. */
  lemma CommitRecordsWanted(w: World, scope: Scope, versions: seq<Version>, base: Documents, updates: Documents,
                            latest: Documents, gone: set<ArchiveId>)
    requires DistinctIds(versions) && PassDocs(w, scope, versions, base) == PatchedAll(base, updates)
    requires gone <= PatchedAll(base, updates).Keys && gone !! ListedIds(versions)
    requires base == map[] || latest == base
    ensures RecordsWanted(w, scope, versions, Merged(latest, updates, EntriesOf(PatchedAll(base, updates), gone)))
  {
    var docs := PatchedAll(base, updates);
    var merged := Merged(latest, updates, EntriesOf(docs, gone));
    PassRecordsWanted(w, scope, versions, base);
    forall v | v in versions && Embeddable(v) && Wanted(scope, versions, v)
      ensures RecordsText(w, v, merged)
    {
      var a := v.archiveId.value;
      assert RecordsText(w, v, docs) && a in ListedIds(versions);
      if latest == base {
        assert merged[a] == docs[a];
      } else {
        assert docs[a] == updates[a] && merged[a] == Patched(EntryOf(latest, a), updates[a]);
      }
    }
  }

  // ---------------------------------------------------------------------------------------------
  // The same, read off the versions
  // ---------------------------------------------------------------------------------------------

  predicate HasStamp(v: Version) {
    v.updatedAt.Some? && v.updatedAt.value != ""
  }

  /** One turn in terms of the text alone: what is covered gets its hash, and its chunk count if the hash
      is new; nothing else moves either; and the stamp follows a hash that is the text's. */
  lemma TurnMeans(w: World, wanted: bool, v: Version, t: Text, e: Entry)
    requires IsText(v, t)
    ensures var h, after := Some(w.hash(t)), EntryTurn(w, wanted, v, e);
            && (wanted ==> after.textHash == h)
            && (wanted && e.textHash != h ==> after.chunks == Some(|w.chunksOf(t)|))
            && (wanted && e.textHash == h ==> after.chunks == e.chunks)
            && (!wanted ==> after.textHash == e.textHash && after.chunks == e.chunks)
            && after.stamp == (if HasStamp(v) && after.textHash == h then v.updatedAt else e.stamp)
  {
    TextIsTheFirst(v, t);
  }

  /** The record names the text: its hash, its stamp if it has one, and, if the entry a call found had
      another hash, its chunk count. */
  predicate Names(w: World, v: Version, t: Text, found: Entry, recorded: Documents)
    requires v.archiveId.Some?
  {
    var a := v.archiveId.value;
    && a in recorded && recorded[a].textHash == Some(w.hash(t))
    && (HasStamp(v) ==> recorded[a].stamp == v.updatedAt)
    && (found.textHash != Some(w.hash(t)) ==> recorded[a].chunks == Some(|w.chunksOf(t)|))
  }

  /** Every text of a covered version is named. */
  ghost predicate NamesCovered(w: World, scope: Scope, versions: seq<Version>, base: Documents, recorded: Documents) {
    forall v <- versions, t: Text | v.archiveId.Some? && IsText(v, t) && Covered(scope, versions, v) ::
      Names(w, v, t, EntryOf(base, v.archiveId.value), recorded)
  }

  lemma CommitNames(w: World, scope: Scope, versions: seq<Version>, v: Version, t: Text, base: Documents, updates: Documents,
                    latest: Documents, gone: set<ArchiveId>)
    requires DistinctIds(versions) && PassDocs(w, scope, versions, base) == PatchedAll(base, updates)
    requires gone <= PatchedAll(base, updates).Keys && gone !! ListedIds(versions)
    requires base == map[] || latest == base
    requires v in versions && v.archiveId.Some? && IsText(v, t) && Covered(scope, versions, v)
    ensures Names(w, v, t, EntryOf(base, v.archiveId.value), Merged(latest, updates, EntriesOf(PatchedAll(base, updates), gone)))
  {
    var a, docs := v.archiveId.value, PatchedAll(base, updates);
    var merged := Merged(latest, updates, EntriesOf(docs, gone));
    TextIsTheFirst(v, t);
    WantedIsCovered(scope, versions, v);
    CommitRecordsWanted(w, scope, versions, base, updates, latest, gone);
    assert RecordsText(w, v, merged);
    var j :| 0 <= j < |versions| && versions[j] == v;
    PassIsPointwise(w, scope, versions, base, map[], |versions|, j);
    TurnMeans(w, true, v, t, EntryOf(base, a));
    assert a in ListedIds(versions) && a in docs;
    if latest == base {
      assert merged[a] == docs[a];
    } else {
      assert docs[a] == updates[a] && merged[a] == Patched(EntryOf(latest, a), updates[a]);
    }
  }

  /** The vectors hold every text of a covered version whose hash the record a call read did not have,
      under the numbers from 0. */
  ghost predicate HoldsCovered(w: World, scope: Scope, versions: seq<Version>, base: Documents, vectors: Vectors) {
    forall v <- versions, t: Text | v.archiveId.Some? && IsText(v, t) && Covered(scope, versions, v) ::
      EntryOf(base, v.archiveId.value).textHash != Some(w.hash(t)) ==> Holds(vectors, v.archiveId.value, w.chunksOf(t))
  }

  lemma PassHoldsCovered(w: World, scope: Scope, versions: seq<Version>, base: Documents, vectors: Vectors, gone: set<ArchiveId>)
    requires DistinctIds(versions) && gone !! ListedIds(versions)
    ensures HoldsCovered(w, scope, versions, base, WithoutVectors(PassVectors(w, scope, versions, base, vectors), base, gone))
  {
    forall v <- versions, t: Text | v.archiveId.Some? && IsText(v, t) && Covered(scope, versions, v)
                                    && EntryOf(base, v.archiveId.value).textHash != Some(w.hash(t))
      ensures Holds(WithoutVectors(PassVectors(w, scope, versions, base, vectors), base, gone), v.archiveId.value, w.chunksOf(t))
    {
      PassHoldsText(w, scope, versions, v, t, base, vectors, gone);
    }
  }

  lemma PassHoldsText(w: World, scope: Scope, versions: seq<Version>, v: Version, t: Text, base: Documents, vectors: Vectors, gone: set<ArchiveId>)
    requires DistinctIds(versions) && gone !! ListedIds(versions)
    requires v in versions && v.archiveId.Some? && IsText(v, t) && Covered(scope, versions, v)
    requires EntryOf(base, v.archiveId.value).textHash != Some(w.hash(t))
    ensures Holds(WithoutVectors(PassVectors(w, scope, versions, base, vectors), base, gone), v.archiveId.value, w.chunksOf(t))
  {
    var a, e := v.archiveId.value, EntryOf(base, v.archiveId.value);
    TextIsTheFirst(v, t);
    WantedIsCovered(scope, versions, v);
    var j :| 0 <= j < |versions| && versions[j] == v;
    VectorsArePointwise(w, scope, versions, base, vectors, |versions|, j);
    IngestHolds(w, vectors, a, t, Count(e));
    SameForMeansSame(a, VectorTurn(w, true, v, e, vectors), PassVectors(w, scope, versions, base, vectors), w.chunksOf(t));
    assert a in ListedIds(versions);
    forall n | 0 <= n < |w.chunksOf(t)|
      ensures HasChunk(WithoutVectors(PassVectors(w, scope, versions, base, vectors), base, gone), a, n, w.chunksOf(t)[n])
    {
      assert HasChunk(PassVectors(w, scope, versions, base, vectors), a, n, w.chunksOf(t)[n]);
    }
  }

  /** A clean pass that started from the record leaves the hash and the chunk count of every document it
      does not cover, and the whole entry of every one no version lists, unless it deleted it. */
  ghost predicate LeavesTheRest(scope: Scope, versions: seq<Version>, before: Documents, after: Documents, gone: set<ArchiveId>) {
    && (forall a <- before | a !in gone :: a in after)
    && (forall a <- before | a !in gone && (forall v <- versions :: v.archiveId != Some(a)) :: after[a] == before[a])
    && (forall a <- after :: a in before || exists v <- versions :: v.archiveId == Some(a) && Covered(scope, versions, v))
    && (forall v <- versions | v.archiveId.Some? && !Covered(scope, versions, v) && v.archiveId.value !in gone ::
          && EntryOf(after, v.archiveId.value).textHash == EntryOf(before, v.archiveId.value).textHash
          && EntryOf(after, v.archiveId.value).chunks == EntryOf(before, v.archiveId.value).chunks)
    && forall a <- gone :: a !in after
  }

  lemma PassLeavesTheRest(w: World, scope: Scope, versions: seq<Version>, docs: Documents, gone: set<ArchiveId>)
    requires DistinctIds(versions) && gone !! ListedIds(versions)
    ensures LeavesTheRest(scope, versions, docs, PassDocs(w, scope, versions, docs) - gone, gone)
  {
    var after := PassDocs(w, scope, versions, docs);
    PassStaysInside(w, scope, versions, docs, |versions|);
    forall a: ArchiveId
      ensures a in docs ==> a in after
      ensures (forall v <- versions :: v.archiveId != Some(a)) ==> (a in docs <==> a in after) && EntryOf(docs, a) == EntryOf(after, a)
      ensures a in after ==> a in docs || exists v <- versions :: v.archiveId == Some(a) && Covered(scope, versions, v)
    {
      PassOnOne(w, scope, versions, docs, a);
    }
    forall v <- versions | v.archiveId.Some? && !Covered(scope, versions, v)
      ensures EntryOf(after, v.archiveId.value).textHash == EntryOf(docs, v.archiveId.value).textHash
      ensures EntryOf(after, v.archiveId.value).chunks == EntryOf(docs, v.archiveId.value).chunks
    {
      PassOnUncovered(w, scope, versions, docs, v);
    }
  }

  lemma PassOnOne(w: World, scope: Scope, versions: seq<Version>, docs: Documents, a: ArchiveId)
    requires DistinctIds(versions)
    ensures var after := PassDocs(w, scope, versions, docs);
            && (a in docs ==> a in after)
            && ((forall v <- versions :: v.archiveId != Some(a)) ==> (a in docs <==> a in after) && EntryOf(docs, a) == EntryOf(after, a))
            && (a in after ==> a in docs || exists v <- versions :: v.archiveId == Some(a) && Covered(scope, versions, v))
  {
    if j :| 0 <= j < |versions| && versions[j].archiveId == Some(a) && Embeddable(versions[j]) {
      PassIsPointwise(w, scope, versions, docs, map[], |versions|, j);
      WantedIsCovered(scope, versions, versions[j]);
    } else {
      AheadIsUntouched(w, scope, versions, docs, |versions|, a);
    }
  }

  lemma PassOnUncovered(w: World, scope: Scope, versions: seq<Version>, docs: Documents, v: Version)
    requires DistinctIds(versions) && v in versions && v.archiveId.Some? && !Covered(scope, versions, v)
    ensures var after := PassDocs(w, scope, versions, docs);
            && EntryOf(after, v.archiveId.value).textHash == EntryOf(docs, v.archiveId.value).textHash
            && EntryOf(after, v.archiveId.value).chunks == EntryOf(docs, v.archiveId.value).chunks
  {
    var j :| 0 <= j < |versions| && versions[j] == v;
    if Embeddable(v) {
      PassIsPointwise(w, scope, versions, docs, map[], |versions|, j);
      WantedIsCovered(scope, versions, v);
    } else {
      AheadIsUntouched(w, scope, versions, docs, |versions|, v.archiveId.value);
    }
  }

  /** Nor does such a pass touch a vector of a document that is neither gone nor a covered version's, or
      whose recorded hash is its text's already. */
  ghost predicate LeavesVectors(w: World, scope: Scope, versions: seq<Version>, docs: Documents, gone: set<ArchiveId>,
                                before: Vectors, after: Vectors) {
    && (forall a: ArchiveId | a !in gone && (forall v <- versions :: v.archiveId != Some(a)) :: SameFor(a, before, after))
    && (forall v <- versions | v.archiveId.Some? && v.archiveId.value !in gone && (!Covered(scope, versions, v) || HasNoText(v)) ::
          SameFor(v.archiveId.value, before, after))
    && (forall v <- versions, t: Text | v.archiveId.Some? && v.archiveId.value !in gone && IsText(v, t)
                                        && EntryOf(docs, v.archiveId.value).textHash == Some(w.hash(t)) ::
          SameFor(v.archiveId.value, before, after))
    && (forall a <- gone, n: nat | n < Count(EntryOf(docs, a)) :: ChunkKey(a, n) !in after)
  }

  /** A version's turn that leaves the vectors. */
  predicate Idle(w: World, scope: Scope, versions: seq<Version>, docs: Documents, v: Version) {
    !Embeddable(v) || !Wanted(scope, versions, v) || EntryOf(docs, v.archiveId.value).textHash == Some(w.hash(VersionText(v)))
  }

  lemma IdleKeepsVectors(w: World, scope: Scope, versions: seq<Version>, docs: Documents, vectors: Vectors, a: ArchiveId, gone: set<ArchiveId>)
    requires DistinctIds(versions) && a !in gone
    requires forall v <- versions :: v.archiveId == Some(a) ==> Idle(w, scope, versions, docs, v)
    ensures SameFor(a, vectors, WithoutVectors(PassVectors(w, scope, versions, docs, vectors), docs, gone))
  {
    var after := PassVectors(w, scope, versions, docs, vectors);
    if j :| 0 <= j < |versions| && versions[j].archiveId == Some(a) && Embeddable(versions[j]) {
      VectorsArePointwise(w, scope, versions, docs, vectors, |versions|, j);
    } else {
      AheadKeepsVectors(w, scope, versions, docs, vectors, |versions|, a);
    }
    assert SameFor(a, after, WithoutVectors(after, docs, gone));
    SameForComposes(a, vectors, after, WithoutVectors(after, docs, gone));
  }

  lemma PassLeavesVectors(w: World, scope: Scope, versions: seq<Version>, docs: Documents, vectors: Vectors, gone: set<ArchiveId>)
    requires DistinctIds(versions) && gone !! ListedIds(versions)
    ensures LeavesVectors(w, scope, versions, docs, gone, vectors, WithoutVectors(PassVectors(w, scope, versions, docs, vectors), docs, gone))
  {
    var after := WithoutVectors(PassVectors(w, scope, versions, docs, vectors), docs, gone);
    forall a: ArchiveId | a !in gone && (forall v <- versions :: v.archiveId != Some(a))
      ensures SameFor(a, vectors, after)
    {
      IdleKeepsVectors(w, scope, versions, docs, vectors, a, gone);
    }
    forall v <- versions | v.archiveId.Some? && v.archiveId.value !in gone && (!Covered(scope, versions, v) || HasNoText(v))
      ensures SameFor(v.archiveId.value, vectors, after)
    {
      WantedIsCovered(scope, versions, v);
      TextIsTheFirst(v, "");
      OnlyVersionOf(versions, v);
      IdleKeepsVectors(w, scope, versions, docs, vectors, v.archiveId.value, gone);
    }
    forall v <- versions, t: Text | v.archiveId.Some? && v.archiveId.value !in gone && IsText(v, t)
                                    && EntryOf(docs, v.archiveId.value).textHash == Some(w.hash(t))
      ensures SameFor(v.archiveId.value, vectors, after)
    {
      TextIsTheFirst(v, t);
      OnlyVersionOf(versions, v);
      IdleKeepsVectors(w, scope, versions, docs, vectors, v.archiveId.value, gone);
    }
  }

  lemma OnlyVersionOf(versions: seq<Version>, v: Version)
    requires DistinctIds(versions) && v in versions && v.archiveId.Some?
    ensures forall u <- versions :: u.archiveId == v.archiveId ==> u == v
  {
  }

  // ---------------------------------------------------------------------------------------------
  // A second pass
  // ---------------------------------------------------------------------------------------------

  lemma TurnSettles(w: World, wanted: bool, v: Version, e: Entry)
    ensures EntryTurn(w, wanted, v, EntryTurn(w, wanted, v, e)) == EntryTurn(w, wanted, v, e)
  {
  }

  lemma SettledTurn(w: World, scope: Scope, versions: seq<Version>, v: Version, docs: Documents)
    requires Embeddable(v)
    requires EntryTurn(w, Wanted(scope, versions, v), v, EntryOf(docs, v.archiveId.value)) == EntryOf(docs, v.archiveId.value)
    ensures DocsAfter(w, scope, versions, v, docs) == docs
  {
  }

  /** What one clean pass recorded, another finds nothing to do about: with the orphans it was allowed
      to delete gone, every version is settled, so the second call makes no write at all
      (`KnowledgeBaseEmbedder.EmbedBill`). */
  lemma SecondPassWritesNothing(w: World, scope: Scope, versions: seq<Version>, maxOrphans: Option<nat>, docs: Documents)
    requires DistinctIds(versions)
    ensures var after := PassDocs(w, scope, versions, docs) - Doomed(versions, maxOrphans, docs);
            Settled(w, scope, versions, after) && Doomed(versions, maxOrphans, after) == {}
  {
    var gone := Doomed(versions, maxOrphans, docs);
    var after := PassDocs(w, scope, versions, docs) - gone;
    forall v <- versions
      ensures DocsAfter(w, scope, versions, v, after) == after
    {
      if Embeddable(v) {
        var j :| 0 <= j < |versions| && versions[j] == v;
        PassIsPointwise(w, scope, versions, docs, map[], |versions|, j);
        assert v.archiveId.value in ListedIds(versions);
        assert EntryOf(after, v.archiveId.value) == EntryOf(PassDocs(w, scope, versions, docs), v.archiveId.value);
        TurnSettles(w, Wanted(scope, versions, v), v, EntryOf(docs, v.archiveId.value));
        SettledTurn(w, scope, versions, v, after);
      }
    }
    PassStaysInside(w, scope, versions, docs, |versions|);
    SameOrphans(versions, docs, PassDocs(w, scope, versions, docs), map[], {});
  }

  lemma {:induction false} PassStaysInside(w: World, scope: Scope, versions: seq<Version>, docs: Documents, i: nat)
    requires i <= |versions|
    ensures SameOutside(ListedIds(versions), docs, CleanDocs(w, scope, versions, docs, i))
  {
    if i > 0 {
      PassStaysInside(w, scope, versions, docs, i - 1);
      var before := CleanDocs(w, scope, versions, docs, i - 1);
      TurnChangesOneEntry(w, scope, versions, versions[i - 1], before);
      OneEntryStaysInside(versions, versions[i - 1], docs, before, DocsAfter(w, scope, versions, versions[i - 1], before));
    }
  }

  lemma TurnChangesOneEntry(w: World, scope: Scope, versions: seq<Version>, v: Version, docs: Documents)
    ensures OneEntryChanged(v, docs, DocsAfter(w, scope, versions, v, docs))
  {
    if Embeddable(v) {
      var a, after := v.archiveId.value, DocsAfter(w, scope, versions, v, docs);
      if after != docs {
        assert after == docs[a := EntryOf(after, a)];
      }
    }
  }

  // ---------------------------------------------------------------------------------------------
  // Live chunk ids
  // ---------------------------------------------------------------------------------------------

  /** The chunk numbers a document has vectors for. */
  function LiveIds(vectors: Vectors, a: ArchiveId): set<nat> {
    set k <- vectors | k.doc == a :: k.n
  }

  lemma LiveIdHasVector(vectors: Vectors, a: ArchiveId, n: nat)
    ensures n in LiveIds(vectors, a) <==> ChunkKey(a, n) in vectors
  {
    if ChunkKey(a, n) in vectors {
      assert ChunkKey(a, n).n in LiveIds(vectors, a);
    }
  }

  lemma IngestHolds(w: World, vectors: Vectors, a: ArchiveId, text: Text, oldCount: nat)
    ensures Holds(IngestedVectors(w, vectors, a, text, oldCount), a, w.chunksOf(text))
    ensures forall n: nat :: ChunkKey(a, n) in IngestedVectors(w, vectors, a, text, oldCount) <==>
              n < |w.chunksOf(text)| || (ChunkKey(a, n) in vectors && n !in SurplusIds(oldCount, |w.chunksOf(text)|))
  {
  }

  /** One ingestion: every id below the new count is live and holds its chunk, whatever the recorded
      count was; above it, exactly the ids that `delete_surplus_chunks` spares are left over. */
  lemma IngestLeaves(w: World, vectors: Vectors, a: ArchiveId, text: Text, oldCount: nat)
    ensures var n, after := |w.chunksOf(text)|, IngestedVectors(w, vectors, a, text, oldCount);
            && LiveIds(after, a) == Range(0, n) + (LiveIds(vectors, a) - SurplusIds(oldCount, n))
            && Holds(after, a, w.chunksOf(text))
  {
    var chunks, after := w.chunksOf(text), IngestedVectors(w, vectors, a, text, oldCount);
    IngestHolds(w, vectors, a, text, oldCount);
    forall n: nat
      ensures n in LiveIds(after, a) <==> n in Range(0, |chunks|) || (n in LiveIds(vectors, a) && n !in SurplusIds(oldCount, |chunks|))
    {
      LiveIdHasVector(vectors, a, n);
      LiveIdHasVector(after, a, n);
    }
  }

  /** The live ids are then exactly 0..n-1 if and only if the recorded count was at most four times the
      new one, or nothing was live beyond the new count anyway. */
  lemma IngestIsExact(w: World, vectors: Vectors, a: ArchiveId, text: Text, oldCount: nat)
    requires LiveIds(vectors, a) <= Range(0, oldCount) + Range(0, |w.chunksOf(text)|)
    ensures var n := |w.chunksOf(text)|;
            LiveIds(IngestedVectors(w, vectors, a, text, oldCount), a) == Range(0, n)
            <==> oldCount <= 4 * n || LiveIds(vectors, a) <= Range(0, n)
  {
    IngestLeaves(w, vectors, a, text, oldCount);
    var n, live := |w.chunksOf(text)|, LiveIds(vectors, a);
    if oldCount <= 4 * n {
      assert live - SurplusIds(oldCount, n) <= Range(0, n);
    } else if !(live <= Range(0, n)) {
      var m :| m in live && m !in Range(0, n);
      assert m in live - SurplusIds(oldCount, n);
    }
  }

  /** The vectors after complete re-ingestions of one document with these texts, in order. */
  function ReIngested(w: World, a: ArchiveId, texts: seq<Text>): Vectors {
    if texts == [] then map[]
    else IngestedVectors(w, ReIngested(w, a, texts[..|texts| - 1]), a, texts[|texts| - 1], LastCount(w, texts[..|texts| - 1]))
  }

  function LastCount(w: World, texts: seq<Text>): nat {
    if texts == [] then 0 else |w.chunksOf(texts[|texts| - 1])|
  }

  /** No re-ingestion shrinks the document by more than a factor of four. */
  predicate ShrinksGently(w: World, texts: seq<Text>) {
    forall k | 0 < k < |texts| :: |w.chunksOf(texts[k - 1])| <= 4 * |w.chunksOf(texts[k])|
  }

  predicate ExactAfter(w: World, a: ArchiveId, texts: seq<Text>) {
    LiveIds(ReIngested(w, a, texts), a) == Range(0, LastCount(w, texts))
  }

  /** The live ids are exact after every step so far. */
  predicate AlwaysExact(w: World, a: ArchiveId, texts: seq<Text>) {
    texts == [] || (AlwaysExact(w, a, texts[..|texts| - 1]) && ExactAfter(w, a, texts))
  }

  /** A document's live ids are exactly 0..count-1 after every one of a sequence of re-ingestions if
      and only if no step shrinks it by more than a factor of four. */
  lemma {:induction false} LiveIdsExactly(w: World, a: ArchiveId, texts: seq<Text>)
    ensures AlwaysExact(w, a, texts) <==> ShrinksGently(w, texts)
  {
    if texts != [] {
      var before := texts[..|texts| - 1];
      LiveIdsExactly(w, a, before);
      OneMoreStepShrinks(w, texts);
      if AlwaysExact(w, a, before) {
        assert ExactAfter(w, a, before) by {
          assert before == [] ==> LiveIds(ReIngested(w, a, before), a) == {};
        }
        LastStepIsExact(w, a, texts);
      }
    }
  }

  lemma OneMoreStepShrinks(w: World, texts: seq<Text>)
    requires texts != []
    ensures ShrinksGently(w, texts)
            <==> ShrinksGently(w, texts[..|texts| - 1]) && LastCount(w, texts[..|texts| - 1]) <= 4 * LastCount(w, texts)
  {
  }

  lemma LastStepIsExact(w: World, a: ArchiveId, texts: seq<Text>)
    requires texts != [] && ExactAfter(w, a, texts[..|texts| - 1])
    ensures ExactAfter(w, a, texts) <==> LastCount(w, texts[..|texts| - 1]) <= 4 * LastCount(w, texts)
  {
    var before := texts[..|texts| - 1];
    var was, n := LastCount(w, before), LastCount(w, texts);
    IngestIsExact(w, ReIngested(w, a, before), a, texts[|texts| - 1], was);
    if Range(0, was) <= Range(0, n) && was > 0 {
      assert was - 1 in Range(0, was);
      assert was - 1 in Range(0, n);
    }
  }

  // ---------------------------------------------------------------------------------------------
  // One clean pass heals
  // ---------------------------------------------------------------------------------------------

  /** Passes that each left something undone: the record as it was, and vectors touched as any pass
      may touch them (`KnowledgeBaseEmbedder.EmbedBill`). */
  predicate FailedPasses(w: World, versions: seq<Version>, orphans: set<ArchiveId>, trail: seq<Vectors>) {
    && trail != []
    && forall k | 0 < k < |trail| :: TouchedOnlyBy(w, versions, orphans, trail[k - 1], trail[k])
  }

  lemma {:induction false} FailuresCompose(w: World, versions: seq<Version>, orphans: set<ArchiveId>, trail: seq<Vectors>)
    requires FailedPasses(w, versions, orphans, trail)
    ensures TouchedOnlyBy(w, versions, orphans, trail[0], trail[|trail| - 1])
  {
    if |trail| > 1 {
      var before := trail[..|trail| - 1];
      FailuresCompose(w, versions, orphans, before);
      TouchingComposes(w, versions, orphans, trail[0], before[|before| - 1], trail[|trail| - 1]);
    }
  }

  /** The record and the vectors say what the source says about a version's document. */
  predicate MatchesSource(w: World, v: Version, docs: Documents, vectors: Vectors)
    requires Embeddable(v)
  {
    var e, chunks := EntryOf(docs, v.archiveId.value), w.chunksOf(VersionText(v));
    && e.textHash == Some(w.hash(VersionText(v)))
    && e.chunks == Some(|chunks|)
    && (v.updatedAt.Some? && v.updatedAt.value != "" ==> e.stamp == v.updatedAt)
    && Holds(vectors, v.archiveId.value, chunks)
  }

  /** What a record that tells the truth says: a recorded hash that is this text's hash comes with this
      text's chunks, and no vector of the document lies beyond the recorded count. */
  predicate TellsTruth(w: World, v: Version, e: Entry, vectors: Vectors)
    requires Embeddable(v)
  {
    && (e.textHash == Some(w.hash(VersionText(v))) ==>
          e.chunks == Some(|w.chunksOf(VersionText(v))|) && Holds(vectors, v.archiveId.value, w.chunksOf(VersionText(v))))
    && LiveIds(vectors, v.archiveId.value) <= Range(0, Count(e))
  }

  /** Failed passes leave a document's chunks in place, and add none but the source's. */
  lemma FailuresAreHarmless(w: World, versions: seq<Version>, j: nat, orphans: set<ArchiveId>, before: Vectors, after: Vectors)
    requires DistinctIds(versions) && j < |versions| && Embeddable(versions[j])
    requires TouchedOnlyBy(w, versions, orphans, before, after) && versions[j].archiveId.value !in orphans
    ensures var v, a, chunks := versions[j], versions[j].archiveId.value, w.chunksOf(VersionText(versions[j]));
            && LiveIds(after, a) <= LiveIds(before, a) + Range(0, |chunks|)
            && (Holds(before, a, chunks) ==> Holds(after, a, chunks))
  {
    var a, chunks := versions[j].archiveId.value, w.chunksOf(VersionText(versions[j]));
    forall n: nat
      ensures n in LiveIds(after, a) ==> n in LiveIds(before, a) || n < |chunks|
      ensures n < |chunks| && HasChunk(before, a, n, chunks[n]) ==> HasChunk(after, a, n, chunks[n])
    {
      var k := ChunkKey(a, n);
      LiveIdHasVector(before, a, n);
      LiveIdHasVector(after, a, n);
      if k in before.Keys + after.Keys && !(k in before && k in after && before[k] == after[k]) {
        var v :| v in versions && TouchedAs(w, v, k, after);
        assert v == versions[j];
      }
    }
  }

  /** After any failed passes, one clean pass makes the record and the vectors of every wanted version
      what the source says; and its live ids are exactly its chunk numbers if and only if the recorded
      count was at most four times the new one, or nothing was live beyond it. */
  lemma OneCleanPassHeals(w: World, scope: Scope, versions: seq<Version>, docs: Documents, orphans: set<ArchiveId>,
                          trail: seq<Vectors>, j: nat)
    requires DistinctIds(versions) && j < |versions| && Embeddable(versions[j]) && Wanted(scope, versions, versions[j])
    requires FailedPasses(w, versions, orphans, trail) && versions[j].archiveId.value !in orphans
    requires TellsTruth(w, versions[j], EntryOf(docs, versions[j].archiveId.value), trail[0])
    ensures var v, a, n := versions[j], versions[j].archiveId.value, |w.chunksOf(VersionText(versions[j]))|;
            var last := trail[|trail| - 1];
            var vectors := PassVectors(w, scope, versions, docs, last);
            && MatchesSource(w, v, PassDocs(w, scope, versions, docs), vectors)
            && (LiveIds(vectors, a) == Range(0, n)
                <==> Count(EntryOf(docs, a)) <= 4 * n || LiveIds(last, a) <= Range(0, n))
  {
    var v, a := versions[j], versions[j].archiveId.value;
    var e, last, chunks := EntryOf(docs, a), trail[|trail| - 1], w.chunksOf(VersionText(v));
    FailuresCompose(w, versions, orphans, trail);
    FailuresAreHarmless(w, versions, j, orphans, trail[0], last);
    var turned := VectorTurn(w, true, v, e, last);
    OneTurnHeals(w, v, e, trail[0], last);
    PassIsPointwise(w, scope, versions, docs, last, |versions|, j);
    VectorsArePointwise(w, scope, versions, docs, last, |versions|, j);
    SameForMeansSame(a, turned, PassVectors(w, scope, versions, docs, last), chunks);
  }

  lemma HeldIdsAreLive(vectors: Vectors, a: ArchiveId, chunks: seq<Content>)
    requires Holds(vectors, a, chunks)
    ensures Range(0, |chunks|) <= LiveIds(vectors, a)
  {
    forall m | m in Range(0, |chunks|)
      ensures m in LiveIds(vectors, a)
    {
      assert HasChunk(vectors, a, m, chunks[m]);
      LiveIdHasVector(vectors, a, m);
    }
  }

  lemma OneTurnHeals(w: World, v: Version, e: Entry, first: Vectors, last: Vectors)
    requires Embeddable(v) && TellsTruth(w, v, e, first)
    requires var chunks := w.chunksOf(VersionText(v));
             && LiveIds(last, v.archiveId.value) <= LiveIds(first, v.archiveId.value) + Range(0, |chunks|)
             && (Holds(first, v.archiveId.value, chunks) ==> Holds(last, v.archiveId.value, chunks))
    ensures var a, n := v.archiveId.value, |w.chunksOf(VersionText(v))|;
            var e', after := EntryTurn(w, true, v, e), VectorTurn(w, true, v, e, last);
            && e'.textHash == Some(w.hash(VersionText(v))) && e'.chunks == Some(n)
            && Holds(after, a, w.chunksOf(VersionText(v)))
            && (LiveIds(after, a) == Range(0, n) <==> Count(e) <= 4 * n || LiveIds(last, a) <= Range(0, n))
  {
    var a, chunks := v.archiveId.value, w.chunksOf(VersionText(v));
    var n, live := |chunks|, LiveIds(last, v.archiveId.value);
    if e.textHash == Some(w.hash(VersionText(v))) {
      HeldIdsAreLive(last, a, chunks);
    } else {
      IngestLeaves(w, last, a, VersionText(v), Count(e));
      IngestIsExact(w, last, a, VersionText(v), Count(e));
    }
  }

  lemma SameForMeansSame(a: ArchiveId, one: Vectors, two: Vectors, chunks: seq<Content>)
    requires SameFor(a, one, two)
    ensures LiveIds(one, a) == LiveIds(two, a)
    ensures Holds(one, a, chunks) ==> Holds(two, a, chunks)
  {
    forall n: nat
      ensures n in LiveIds(one, a) <==> n in LiveIds(two, a)
      ensures n < |chunks| && HasChunk(one, a, n, chunks[n]) ==> HasChunk(two, a, n, chunks[n])
    {
      LiveIdHasVector(one, a, n);
      LiveIdHasVector(two, a, n);
      assert ChunkKey(a, n) in one || ChunkKey(a, n) in two ==> ChunkKey(a, n) in one.Keys + two.Keys;
    }
  }
}
