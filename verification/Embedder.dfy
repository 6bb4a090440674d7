/** `embed_bill` itself (`pipelines/knowledge_base_embedding.py`), with the ingestion it calls, against
    a backend whose calls fail and whose other writers interfere between any two calls. */
module Embedder {
  import opened Wrappers
  import opened KnowledgeBase
  import opened EmbeddingProtocol
  import opened EmbeddingAgreement
  import opened EmbeddingPass
  import opened Backends
  import opened PassLaws
  import Chunking

  /** `IngestionResult`: `failed` stands for a non-empty error list. */
  datatype IngestionResult = IngestionResult(chunksCreated: nat, chunksUpserted: nat, failed: bool)

  datatype CachedField = Unreadable | Field(hash: Option<Hash>)

  /** The counters of one call; `undone` counts the entries of the list of that name. */
  datatype Stats = Stats(documents: nat, orphans: nat, orphansOverBudget: nat, noTextYet: nat, raced: nat, undone: nat)

  const NO_STATS := Stats(0, 0, 0, 0, 0, 0)

  predicate Clean(stats: Stats) {
    stats.raced == 0 && stats.undone == 0
  }

  /** How the write of one document ended. */
  datatype Outcome = Undone | Raced | Wrote(chunks: nat)

  /** No document was raced or left undone between two points of a call. */
  predicate Quiet(before: Stats, after: Stats) {
    after.raced == before.raced && after.undone == before.undone
  }

  predicate Later(before: Stats, after: Stats) {
    && before.raced <= after.raced && before.undone <= after.undone && before.documents <= after.documents
    && after.orphans == before.orphans && after.orphansOverBudget == before.orphansOverBudget
  }

  /** What a call has counted after `i` versions: those without a text, and, if nothing was left undone,
      every other one had an archived document id. */
  ghost predicate CountedTexts(versions: seq<Version>, i: nat, stats: Stats)
    requires i <= |versions|
  {
    && stats.noTextYet == |Textless(versions, i)|
    && (stats.undone == 0 ==> forall j | 0 <= j < i :: HasNoText(versions[j]) || versions[j].archiveId.Some?)
  }

  /** The versions, among the first `i`, that nothing is archived for. */
  function Textless(versions: seq<Version>, i: nat): set<nat>
    requires i <= |versions|
  {
    set j: nat | j < i && HasNoText(versions[j])
  }

  lemma CountedOneMore(versions: seq<Version>, i: nat, before: Stats, after: Stats)
    requires i < |versions| && CountedTexts(versions, i, before) && Later(before, after)
    requires after.noTextYet == before.noTextYet + if HasNoText(versions[i]) then 1 else 0
    requires after.undone == before.undone ==> HasNoText(versions[i]) || versions[i].archiveId.Some?
    ensures CountedTexts(versions, i + 1, after)
  {
    assert Textless(versions, i + 1) == if HasNoText(versions[i]) then Textless(versions, i) + {i} else Textless(versions, i);
  }

  function Excess(count: nat, limit: nat): nat {
    if count > limit then count - limit else 0
  }

  /** The record has the entries of these documents as the call has them. */
  predicate StillRecorded(stored: Option<Record>, docs: Documents, ids: set<ArchiveId>)
    requires ids <= docs.Keys
  {
    forall a <- ids :: a in Visible(stored) && Visible(stored)[a] == docs[a]
  }

  /** Where the loop of `embed_bill` is after `i` versions, having started from `docs` in `start`. */
  ghost predicate Progress(w: World, scope: Scope, versions: seq<Version>, docs: Documents, start: State, alone: bool,
                           i: nat, docs': Documents, updates: Documents, stats: Stats, now: State)
    requires i <= |versions|
  {
    && Keeps(w, start.vectors, now.vectors)
    && GoodDocs(w, now.vectors, docs') && GoodUpdates(w, now.vectors, updates)
    && PatchedAll(docs, updates) == docs' && SameOutside(ListedIds(versions), docs, docs')
    && Later(NO_STATS, stats)
    && (Clean(stats) ==> InStep(w, scope, versions, docs, start.vectors, alone, i, docs', stats.documents, now.vectors))
    && (alone ==> now.stored == start.stored)
    && (alone ==> TouchedOnlyBy(w, versions, {}, start.vectors, now.vectors))
  }

  lemma ProgressAdvances(w: World, scope: Scope, versions: seq<Version>, docs: Documents, start: State, alone: bool, i: nat,
                         docs0: Documents, updates0: Documents, stats0: Stats, before: State,
                         docs': Documents, updates: Documents, stats: Stats, after: State)
    requires i < |versions| && Admits(w, versions, None)
    requires Progress(w, scope, versions, docs, start, alone, i, docs0, updates0, stats0, before)
    requires Keeps(w, before.vectors, after.vectors)
    requires GoodDocs(w, after.vectors, docs') && GoodUpdates(w, after.vectors, updates)
    requires PatchedAll(docs, updates) == docs' && OneEntryChanged(versions[i], docs0, docs')
    requires Later(stats0, stats)
    requires Quiet(stats0, stats) ==>
               && docs' == DocsAfter(w, scope, versions, versions[i], docs0)
               && stats.documents == stats0.documents + Ingested1(w, scope, versions, versions[i], docs0)
    requires alone ==> after.stored == before.stored && TouchedOnlyBy(w, versions, {}, before.vectors, after.vectors)
    requires alone && Quiet(stats0, stats) ==>
               after.vectors == VectorsAfter(w, scope, versions, versions[i], docs0, before.vectors)
    ensures Progress(w, scope, versions, docs, start, alone, i + 1, docs', updates, stats, after)
  {
    OneEntryStaysInside(versions, versions[i], docs, docs0, docs');
    if alone {
      TouchingComposes(w, versions, {}, start.vectors, before.vectors, after.vectors);
    }
    if Clean(stats) {
      StaysInStep(w, scope, versions, docs, start.vectors, alone, i, docs0, stats0.documents, before.vectors, after.vectors);
    }
  }

  /** The entries that the versions from the `i`-th on will find are still the first ones. */
  predicate Ahead(versions: seq<Version>, i: nat, docs: Documents, now: Documents) {
    forall j | i <= j < |versions| && versions[j].archiveId.Some? ::
      EntryOf(now, versions[j].archiveId.value) == EntryOf(docs, versions[j].archiveId.value)
  }

  lemma AheadStays(versions: seq<Version>, i: nat, docs: Documents, before: Documents, after: Documents)
    requires DistinctIds(versions) && i < |versions|
    requires Ahead(versions, i, docs, before) && OneEntryChanged(versions[i], before, after)
    ensures SameEntry(versions[i], before, docs) && Ahead(versions, i + 1, docs, after)
  {
  }

  /** A version finds the same entry in both. */
  predicate SameEntry(v: Version, one: Documents, two: Documents) {
    Embeddable(v) ==> EntryOf(one, v.archiveId.value) == EntryOf(two, v.archiveId.value)
  }

  /** Nobody else writing, a version cannot look raced: the call's own entry has the hash that is recorded,
      and if that is a hash, the call knows that a record exists. */
  predicate CannotRace(v: Version, hadCache: bool, docs: Documents, recorded: Documents) {
    Embeddable(v) ==>
      var h := EntryOf(docs, v.archiveId.value).textHash;
      h == EntryOf(recorded, v.archiveId.value).textHash && (hadCache || h == None)
  }

  predicate NoneCanRace(versions: seq<Version>, hadCache: bool, docs: Documents, recorded: Documents) {
    forall v <- versions :: CannotRace(v, hadCache, docs, recorded)
  }

  /** Some version's text, or an earlier one of its document, is recorded. */
  predicate RecordsAHash(versions: seq<Version>, recorded: Documents) {
    exists v <- versions :: Embeddable(v) && EntryOf(recorded, v.archiveId.value).textHash.Some?
  }

  /** What the loop of `embed_bill` is certain of after `i` versions, if the conditions hold it started
      under: `idle` when it has written nothing. */
  predicate Certain(w: World, scope: Scope, versions: seq<Version>, hadCache: bool, docs: Documents, start: Option<Record>,
                    alone: bool, reliable: bool, i: nat, docs': Documents, updates: Documents, stats: Stats, idle: bool)
  {
    && (Settled(w, scope, versions, docs) ==> docs' == docs && updates == map[] && idle)
    && (DistinctIds(versions) ==> Ahead(versions, i, docs, docs'))
    && (alone && DistinctIds(versions) ==>
          && (NoneCanRace(versions, hadCache, docs, Visible(start)) ==> stats.raced == 0)
          && (reliable && IdsPresent(versions) && (hadCache ==> start.Some?) && Visible(start) == docs ==> Clean(stats)))
  }

  /** One version's turn keeps it. */
  lemma CertainAdvances(w: World, scope: Scope, versions: seq<Version>, hadCache: bool, docs: Documents, start: Option<Record>,
                        alone: bool, reliable: bool, i: nat, docs0: Documents, updates0: Documents, stats0: Stats, idle0: bool,
                        docs': Documents, updates: Documents, stats: Stats, idle: bool)
    requires i < |versions|
    requires Certain(w, scope, versions, hadCache, docs, start, alone, reliable, i, docs0, updates0, stats0, idle0)
    requires OneEntryChanged(versions[i], docs0, docs')
    requires Settled(w, scope, versions, docs) && docs0 == docs ==> docs' == docs && updates == updates0 && (idle0 ==> idle)
    requires alone && CannotRace(versions[i], hadCache, docs0, Visible(start)) ==> stats.raced == stats0.raced
    requires (alone && reliable && IdsPresent(versions) && (hadCache ==> start.Some?) && SameEntry(versions[i], docs0, Visible(start))) ==>
               Quiet(stats0, stats)
    ensures Certain(w, scope, versions, hadCache, docs, start, alone, reliable, i + 1, docs', updates, stats, idle)
  {
    if DistinctIds(versions) {
      AheadStays(versions, i, docs, docs0, docs');
      assert NoneCanRace(versions, hadCache, docs, Visible(start)) ==> CannotRace(versions[i], hadCache, docs, Visible(start));
    }
  }

  /** What the removal of orphans has done and counted so far, from `start` to `now`. */
  ghost predicate RemovedSoFar(w: World, docs: Documents, orphans: set<ArchiveId>, start: State, now: State,
                               alone: bool, reliable: bool, hadCache: bool, gone: set<ArchiveId>, raced: nat, undone: nat)
    requires orphans <= docs.Keys
  {
    && Keeps(w, start.vectors, now.vectors)
    && (alone ==> now.stored == start.stored && OnlyRemoves(orphans, start.vectors, now.vectors))
    && (alone && raced == undone == 0 ==> now.vectors == WithoutVectors(start.vectors, docs, gone))
    && (alone && StillRecorded(start.stored, docs, orphans) ==> (reliable ==> undone == 0) && (reliable || hadCache ==> raced == 0))
  }

  /** One more orphan, with the outcome it had. */
  lemma RemovedOneMore(w: World, docs: Documents, orphans: set<ArchiveId>, start: State, before: State, after: State,
                       alone: bool, reliable: bool, hadCache: bool, gone: set<ArchiveId>, raced: nat, undone: nat,
                       a: ArchiveId, outcome: Outcome)
    requires orphans <= docs.Keys && a in orphans
    requires RemovedSoFar(w, docs, orphans, start, before, alone, reliable, hadCache, gone, raced, undone)
    requires Keeps(w, before.vectors, after.vectors)
    requires alone ==> after.stored == before.stored && OnlyRemoves({a}, before.vectors, after.vectors)
    requires alone && outcome.Wrote? ==> after.vectors == Delete(before.vectors, a, Range(0, Count(docs[a])))
    requires alone && StillRecorded(before.stored, docs, {a}) ==> (reliable ==> outcome.Wrote?) && (hadCache ==> !outcome.Raced?)
    ensures RemovedSoFar(w, docs, orphans, start, after, alone, reliable, hadCache,
                         gone + if outcome.Wrote? then {a} else {},
                         raced + if outcome.Raced? then 1 else 0, undone + if outcome.Undone? then 1 else 0)
  {
    RemovingOneMore(start.vectors, docs, gone, a);
  }

  /** The orphan counters after `gone` of `doomed` documents were removed; `quiet` when none was raced
      or left undone. */
  predicate Removed(stats: Stats, gone: nat, doomed: nat, maxOrphans: Option<nat>, quiet: bool) {
    && stats.orphans == gone <= maxOrphans.GetOr(0)
    && stats.orphansOverBudget == (if maxOrphans.Some? then Excess(doomed, maxOrphans.value) else 0)
    && gone + stats.orphansOverBudget <= doomed
    && (quiet ==> gone + stats.orphansOverBudget == doomed)
  }

  /** An entry existed when the call started; losing sight of it later is a blip, not a race. */
  predicate HadCache(read: Option<Record>) {
    read.Some? && read.value.schema == CACHE_SCHEMA
  }

  /** What a read returned: the record as it was then, or nothing, which is also what a failed one returns. */
  predicate Returned(read: Option<Record>, seen: Option<Record>) {
    read == None || read == seen
  }

  /** At one of these reads the record had this entry for the document. */
  predicate SawEntry(seen: seq<Option<Record>>, a: ArchiveId, e: Entry) {
    exists r <- seen :: a in Visible(r) && Visible(r)[a] == e
  }

  /** What is counted of orphans: undone only by a failure or without a record, and raced, if a record was
      there at the start, only when some read found another entry. */
  predicate Tallied(reliable: bool, hadCache: bool, docs: Documents, orphans: set<ArchiveId>, seen: seq<Option<Record>>, raced: nat, undone: nat)
    requires orphans <= docs.Keys
  {
    && (reliable && (forall r <- seen :: r.Some?) ==> undone == 0)
    && (hadCache && raced > 0 ==> exists r <- seen, a <- orphans :: !HasEntry(r, a, docs[a]))
  }

  predicate HasEntry(r: Option<Record>, a: ArchiveId, e: Entry) {
    a in Visible(r) && Visible(r)[a] == e
  }

  lemma TalliedOneMore(reliable: bool, hadCache: bool, docs: Documents, orphans: set<ArchiveId>, seen: seq<Option<Record>>,
                       raced: nat, undone: nat, a: ArchiveId, outcome: Outcome, last: Option<Record>)
    requires orphans <= docs.Keys && a in orphans && Tallied(reliable, hadCache, docs, orphans, seen, raced, undone)
    requires outcome.Undone? ==> !reliable || last == None
    requires outcome.Raced? && hadCache ==> !HasEntry(last, a, docs[a])
    ensures Tallied(reliable, hadCache, docs, orphans, seen + [last],
                    raced + if outcome.Raced? then 1 else 0, undone + if outcome.Undone? then 1 else 0)
  {
    assert last in seen + [last];
    assert forall r <- seen :: r in seen + [last];
  }

  class KnowledgeBaseEmbedder {
    const backend: Backend
    const chunking: Chunking.ChunkingService
    const hash: Text -> Hash

    constructor (backend: Backend, chunking: Chunking.ChunkingService, hash: Text -> Hash)
      ensures this.backend == backend && this.chunking == chunking && this.hash == hash
    {
      this.backend, this.chunking, this.hash := backend, chunking, hash;
    }

    /** The hash and the chunker are the ones all writers share. */
    ghost predicate Valid() {
      && chunking.chunkSize >= 1
      && (forall text :: backend.world.hash(text) == hash(text))
      && (forall text {:trigger Chunking.ChunkTexts(chunking.encoding, chunking.chunkSize, chunking.chunkOverlap, text)} ::
            backend.world.chunksOf(text)
            == Chunking.ChunkTexts(chunking.encoding, chunking.chunkSize, chunking.chunkOverlap, text))
    }

    /** One vector for each chunk, under the chunk's own number. */
    static method DocumentsOf(a: ArchiveId, chunks: seq<Chunking.Chunk>) returns (documents: seq<Document>)
      ensures |documents| == |chunks|
      ensures forall k :: 0 <= k < |documents| ==> documents[k] == Document(ChunkKey(a, chunks[k].index), chunks[k].content)
    {
      documents := [];
      for k := 0 to |chunks|
        invariant |documents| == k
        invariant forall j :: 0 <= j < k ==> documents[j] == Document(ChunkKey(a, chunks[j].index), chunks[j].content)
      {
        documents := documents + [Document(ChunkKey(a, chunks[k].index), chunks[k].content)];
      }
    }

    /** The chunks of a text as the vectors to upsert, chunk `n` under id `n`. */
    method ChunkedDocuments(a: ArchiveId, content: Text) returns (documents: seq<Document>)
      requires Valid()
      ensures |documents| == |backend.world.chunksOf(content)|
      ensures forall k :: 0 <= k < |documents| ==> documents[k] == Document(ChunkKey(a, k), backend.world.chunksOf(content)[k])
    {
      var chunks := chunking.ChunkText(content);
      documents := DocumentsOf(a, chunks);
    }

    /** Chunks a document and upserts chunk `n` under id `n`, for every `n` from 0. */
    method IngestDocument(a: ArchiveId, content: Text) returns (result: IngestionResult, ghost done: nat)
      requires Valid() && backend.Sound()
      requires a in backend.world.texts ==> content in backend.world.texts[a]
      modifies backend
      ensures backend.Sound() && Keeps(backend.world, old(backend.vectors), backend.vectors)
      ensures backend.seen == old(backend.seen)
      ensures !result.failed ==> result.chunksCreated == |backend.world.chunksOf(content)|
      ensures done <= |backend.world.chunksOf(content)|
      ensures !result.failed && result.chunksUpserted >= result.chunksCreated ==> done == result.chunksCreated
      ensures a in backend.world.texts ==> HoldsFirst(backend.vectors, a, backend.world.chunksOf(content), done)
      ensures backend.alone ==> backend.stored == old(backend.stored)
      ensures backend.alone ==>
                backend.vectors == Write(old(backend.vectors), a, backend.world.chunksOf(content), AllIds(done))
      ensures backend.reliable ==> !result.failed && result.chunksUpserted == result.chunksCreated
    {
      done := 0;
      assert Write(backend.vectors, a, backend.world.chunksOf(content), AllIds(0)) == backend.vectors;
      var tokenizerRaises: bool := *;
      if tokenizerRaises && !backend.reliable {
        return IngestionResult(0, 0, true), done;
      }
      var documents := ChunkedDocuments(a, content);
      if documents == [] {
        return IngestionResult(0, 0, false), done;
      }
      var upserted;
      upserted, done := backend.Upsert(documents, a, content);
      match upserted
      case None => result := IngestionResult(|documents|, 0, true);
      case Some(n) => result := IngestionResult(|documents|, n, false);
    }

    /** Deletes the chunk ids from `newCount` up to `oldCount`, unless the recorded count is missing or
        implausibly large; None when the delete raised. */
    method DeleteSurplusChunks(a: ArchiveId, oldCount: nat, newCount: nat) returns (deleted: Option<nat>, ghost done: nat)
      requires backend.Sound()
      requires a in backend.world.texts ==>
                 forall x <- backend.world.texts[a], n <- SurplusIds(oldCount, newCount) :: |backend.world.chunksOf(x)| <= n
      modifies backend
      ensures backend.Sound() && Keeps(backend.world, old(backend.vectors), backend.vectors)
      ensures backend.seen == old(backend.seen)
      ensures deleted.Some? ==> deleted.value == |SurplusIds(oldCount, newCount)|
      ensures backend.alone ==> backend.stored == old(backend.stored)
      ensures newCount <= done && Range(newCount, done) <= SurplusIds(oldCount, newCount)
      ensures deleted.Some? ==> Range(newCount, done) == SurplusIds(oldCount, newCount)
      ensures backend.alone ==> backend.vectors == Delete(old(backend.vectors), a, Range(newCount, done))
      ensures backend.reliable ==> deleted.Some?
    {
      done := newCount;
      assert Delete(backend.vectors, a, Range(newCount, newCount)) == backend.vectors;
      if oldCount == 0 || oldCount > newCount * 4 || oldCount <= newCount {
        return Some(0), done;
      }
      assert newCount in SurplusIds(oldCount, newCount);
      var ok;
      ok, done := backend.DeleteRange(a, newCount, oldCount);
      SizeOfRange(newCount, oldCount);
      deleted := if ok then Some(oldCount - newCount) else None;
    }

    static lemma {:induction false} SizeOfRange(lo: nat, hi: nat)
      requires lo <= hi
      ensures |Range(lo, hi)| == hi - lo
      decreases hi
    {
      if lo < hi {
        SizeOfRange(lo, hi - 1);
      }
    }

    /** `_ingest`: the chunk count, or None when it raised. Alone, it has then written the first `up`
        chunks and deleted the surplus up to `down`; otherwise all of both. */
    method Ingest(a: ArchiveId, content: Text, oldCount: nat) returns (r: Option<nat>, ghost up: nat, ghost down: nat)
      requires Valid() && backend.Sound()
      requires a in backend.world.texts ==> content in backend.world.texts[a]
      requires Harmless(backend.world, a, oldCount)
      modifies backend
      ensures backend.Sound() && Keeps(backend.world, old(backend.vectors), backend.vectors)
      ensures backend.seen == old(backend.seen)
      ensures r.Some? ==> r.value == |backend.world.chunksOf(content)|
      ensures r.Some? && a in backend.world.texts ==> Holds(backend.vectors, a, backend.world.chunksOf(content))
      ensures backend.alone ==> backend.stored == old(backend.stored)
      ensures backend.alone ==>
                var chunks := backend.world.chunksOf(content);
                backend.vectors == Delete(Write(old(backend.vectors), a, chunks, AllIds(up)), a, Range(|chunks|, down))
      ensures backend.alone && r.Some? ==>
                backend.vectors == IngestedVectors(backend.world, old(backend.vectors), a, content, oldCount)
      ensures backend.reliable ==> r.Some?
    {
      ghost var chunks := backend.world.chunksOf(content);
      var result;
      result, up := IngestDocument(a, content);
      down := |chunks|;
      assert Delete(backend.vectors, a, Range(|chunks|, |chunks|)) == backend.vectors;
      if result.failed || result.chunksUpserted < result.chunksCreated {
        return None, up, down;
      }
      ghost var before := backend.vectors;
      var deleted;
      deleted, down := DeleteSurplusChunks(a, oldCount, result.chunksCreated);
      HoldsFirstStays(backend.world, before, backend.vectors, a, content, |chunks|);
      r := if deleted.Some? then Some(result.chunksCreated) else None;
    }

    /** `_cached_field` for the text hash: what the record says now. `read` is what the read returned. */
    method ReadTextHash(a: ArchiveId, expectCache: bool) returns (r: CachedField, ghost read: Option<Record>)
      requires backend.Sound()
      modifies backend
      ensures backend.Sound() && Keeps(backend.world, old(backend.vectors), backend.vectors)
      ensures backend.writes == old(backend.writes)
      ensures backend.alone ==> backend.stored == old(backend.stored) && backend.vectors == old(backend.vectors)
      ensures backend.seen == old(backend.seen) + [backend.stored] && Returned(read, backend.stored)
      ensures backend.reliable || backend.readsAnswer ==> read == backend.stored
      ensures r == if read == None && expectCache then Unreadable else Field(EntryOf(Visible(read), a).textHash)
    {
      var latest := backend.Read();
      read := latest;
      if latest == None {
        r := if expectCache then Unreadable else Field(None);
      } else {
        r := Field(EntryOf(Visible(latest), a).textHash);
      }
    }

    /** The write of one wanted version whose recorded hash is not its text's: re-read the record, and
        ingest only if it still says what this call read. `read` is what the re-read returned and `seen`
        the record at that moment. */
    method WriteText(versions: seq<Version>, v: Version, entry: Entry, hadCache: bool)
      returns (outcome: Outcome, ghost read: Option<Record>, ghost seen: Option<Record>)
      requires Valid() && backend.Sound()
      requires v in versions && Embeddable(v) && Admits(backend.world, versions, None)
      requires Harmless(backend.world, v.archiveId.value, Count(entry))
      modifies backend
      ensures backend.Sound() && Keeps(backend.world, old(backend.vectors), backend.vectors)
      // what the re-read decides
      ensures backend.seen == old(backend.seen) + [seen] && Returned(read, seen)
      ensures read == None && hadCache ==> outcome.Undone?
      ensures outcome.Raced? <==>
                (hadCache ==> read.Some?) && EntryOf(Visible(read), v.archiveId.value).textHash != entry.textHash
      ensures outcome.Raced? || (read == None && hadCache) ==> backend.writes == old(backend.writes)
      ensures backend.alone ==> seen == old(backend.stored)
      // what it writes
      ensures outcome.Wrote? ==> outcome.chunks == |backend.world.chunksOf(VersionText(v))|
      ensures outcome.Wrote? && v.archiveId.value in backend.world.texts ==>
                Holds(backend.vectors, v.archiveId.value, backend.world.chunksOf(VersionText(v)))
      ensures backend.alone ==> backend.stored == old(backend.stored)
      ensures backend.alone ==> TouchedOnlyBy(backend.world, versions, {}, old(backend.vectors), backend.vectors)
      ensures backend.alone && outcome.Wrote? ==>
                backend.vectors == IngestedVectors(backend.world, old(backend.vectors), v.archiveId.value, VersionText(v), Count(entry))
      ensures (&& backend.alone && backend.reliable && (hadCache ==> backend.stored.Some?)
               && entry.textHash == EntryOf(Visible(backend.stored), v.archiveId.value).textHash) ==> outcome.Wrote?
    {
      var a, text := v.archiveId.value, VersionText(v);
      var current;
      current, read := ReadTextHash(a, hadCache);
      seen := backend.stored;
      if current == Unreadable {
        return Undone, read, seen;
      }
      if current.hash != entry.textHash {
        return Raced, read, seen;
      }
      ghost var before := backend.vectors;
      var n;
      ghost var up, down;
      n, up, down := Ingest(a, text, Count(entry));
      IngestTouches(backend.world, versions, v, before, up, down);
      outcome := if n == None then Undone else Wrote(n.value);
    }

    /** The text of an embeddable version that is to be written. */
    method EmbedWanted(versions: seq<Version>, scope: Scope, v: Version, hadCache: bool, docs: Documents, updates: Documents,
                       stats: Stats, ghost base: Documents)
      returns (docs': Documents, updates': Documents, stats': Stats)
      requires Valid() && backend.Sound() && v in versions && Embeddable(v) && Admits(backend.world, versions, None)
      requires GoodDocs(backend.world, backend.vectors, docs) && GoodUpdates(backend.world, backend.vectors, updates)
      requires PatchedAll(base, updates) == docs && Ingests(backend.world, scope, versions, v, docs)
      modifies backend
      ensures backend.Sound() && Keeps(backend.world, old(backend.vectors), backend.vectors)
      ensures GoodDocs(backend.world, backend.vectors, docs') && GoodUpdates(backend.world, backend.vectors, updates')
      ensures PatchedAll(base, updates') == docs' && OneEntryChanged(v, docs, docs')
      ensures Later(stats, stats') && stats'.noTextYet == stats.noTextYet
      ensures Quiet(stats, stats') ==>
                docs' == Embedded(backend.world, scope, versions, v, docs) && stats'.documents == stats.documents + 1
      ensures stats'.raced > stats.raced ==> docs' == docs && updates' == updates && backend.writes == old(backend.writes)
      ensures backend.alone ==> backend.stored == old(backend.stored)
      ensures backend.alone ==> TouchedOnlyBy(backend.world, versions, {}, old(backend.vectors), backend.vectors)
      ensures backend.alone && Quiet(stats, stats') ==>
                backend.vectors == IngestedVectors(backend.world, old(backend.vectors), v.archiveId.value, VersionText(v),
                                                   Count(EntryOf(docs, v.archiveId.value)))
      ensures (&& backend.alone && backend.reliable && (hadCache ==> backend.stored.Some?)
               && SameEntry(v, docs, Visible(backend.stored))) ==> Quiet(stats, stats')
      ensures backend.alone && CannotRace(v, hadCache, docs, Visible(backend.stored)) ==> stats'.raced == stats.raced
    {
      docs', updates', stats' := docs, updates, stats;
      var a, text := v.archiveId.value, VersionText(v);
      var entry := EntryOf(docs, a);
      assert Good(backend.world, backend.vectors, a, entry);
      var outcome;
      ghost var read, seen;
      outcome, read, seen := WriteText(versions, v, entry, hadCache);
      if outcome.Wrote? {
        TextWasWritten(backend.world, scope, versions, v, old(backend.vectors), backend.vectors, base, docs, updates);
        var fields := Entry(Some(hash(text)), Some(outcome.chunks), None);
        docs' := SetFields(docs, a, fields);
        updates' := SetFields(updates, a, fields);
        stats' := stats.(documents := stats.documents + 1);
      } else {
        GoodDocsStay(backend.world, old(backend.vectors), backend.vectors, docs);
        GoodDocsStay(backend.world, old(backend.vectors), backend.vectors, updates);
        stats' := if outcome.Raced? then stats.(raced := stats.raced + 1) else stats.(undone := stats.undone + 1);
      }
    }

    /** The text of an embeddable version: written if the scope wants it and the record has another hash. */
    method EmbedText(versions: seq<Version>, scope: Scope, v: Version, hadCache: bool, docs: Documents, updates: Documents,
                     stats: Stats, ghost base: Documents)
      returns (docs': Documents, updates': Documents, stats': Stats)
      requires Valid() && backend.Sound() && v in versions && Embeddable(v) && Admits(backend.world, versions, None)
      requires GoodDocs(backend.world, backend.vectors, docs) && GoodUpdates(backend.world, backend.vectors, updates)
      requires PatchedAll(base, updates) == docs
      modifies backend
      ensures backend.Sound() && Keeps(backend.world, old(backend.vectors), backend.vectors)
      ensures GoodDocs(backend.world, backend.vectors, docs') && GoodUpdates(backend.world, backend.vectors, updates')
      ensures PatchedAll(base, updates') == docs' && OneEntryChanged(v, docs, docs')
      ensures Later(stats, stats') && stats'.noTextYet == stats.noTextYet
      ensures Quiet(stats, stats') ==>
                && docs' == Embedded(backend.world, scope, versions, v, docs)
                && stats'.documents == stats.documents + Ingested1(backend.world, scope, versions, v, docs)
      ensures !Ingests(backend.world, scope, versions, v, docs) ==>
                docs' == docs && updates' == updates && backend.writes == old(backend.writes)
      ensures stats'.raced > stats.raced ==> docs' == docs && updates' == updates && backend.writes == old(backend.writes)
      ensures backend.alone ==> backend.stored == old(backend.stored)
      ensures backend.alone ==> TouchedOnlyBy(backend.world, versions, {}, old(backend.vectors), backend.vectors)
      ensures backend.alone && Quiet(stats, stats') ==>
                backend.vectors == VectorsAfter(backend.world, scope, versions, v, docs, old(backend.vectors))
      ensures (&& backend.alone && backend.reliable && (hadCache ==> backend.stored.Some?)
               && SameEntry(v, docs, Visible(backend.stored))) ==> Quiet(stats, stats')
      ensures backend.alone && CannotRace(v, hadCache, docs, Visible(backend.stored)) ==> stats'.raced == stats.raced
    {
      docs', updates', stats' := docs, updates, stats;
      if Wanted(scope, versions, v) && EntryOf(docs, v.archiveId.value).textHash != Some(hash(VersionText(v))) {
        docs', updates', stats' := EmbedWanted(versions, scope, v, hadCache, docs, updates, stats, base);
      }
    }

    /** What a call may note once a text is written. */
    static lemma TextWasWritten(w: World, scope: Scope, versions: seq<Version>, v: Version, before: Vectors, after: Vectors,
                                base: Documents, docs: Documents, updates: Documents)
      requires Compatible(w) && Embeddable(v) && Ingests(w, scope, versions, v, docs) && Keeps(w, before, after)
      requires GoodDocs(w, before, docs) && GoodUpdates(w, before, updates) && PatchedAll(base, updates) == docs
      requires var a, text := v.archiveId.value, VersionText(v);
               a in w.texts ==> text in w.texts[a] && Holds(after, a, w.chunksOf(text))
      ensures var a, fields := v.archiveId.value, TextPatch(w, VersionText(v));
              && GoodDocs(w, after, SetFields(docs, a, fields)) && GoodUpdates(w, after, SetFields(updates, a, fields))
              && PatchedAll(base, SetFields(updates, a, fields)) == SetFields(docs, a, fields)
              && OneEntryChanged(v, docs, SetFields(docs, a, fields))
              && SetFields(docs, a, fields) == Embedded(w, scope, versions, v, docs)
    {
      var a, fields := v.archiveId.value, TextPatch(w, VersionText(v));
      GoodDocsStay(w, before, after, docs);
      GoodDocsStay(w, before, after, updates);
      IngestedFieldsAreGood(w, after, a, VersionText(v));
      SettingFieldsKeepsGood(w, after, docs, a, fields);
      SettingFieldsKeepsGoodUpdates(w, after, updates, a, fields);
      SettingThenPatching(base, updates, a, fields);
    }

    /** The stamp of a version whose recorded text is the version's text. */
    method RecordStamp(v: Version, docs: Documents, updates: Documents, ghost base: Documents)
      returns (docs': Documents, updates': Documents)
      requires Valid() && Embeddable(v)
      requires GoodDocs(backend.world, backend.vectors, docs) && GoodUpdates(backend.world, backend.vectors, updates)
      requires PatchedAll(base, updates) == docs
      ensures GoodDocs(backend.world, backend.vectors, docs') && GoodUpdates(backend.world, backend.vectors, updates')
      ensures PatchedAll(base, updates') == docs'
      ensures docs' == Stamped(backend.world, v, docs)
      ensures docs' == docs ==> updates' == updates
    {
      docs', updates' := docs, updates;
      var a := v.archiveId.value;
      if NeedsStamp(docs, a, hash(VersionText(v)), v.updatedAt) {
        var fields := Entry(None, None, v.updatedAt);
        assert Good(backend.world, backend.vectors, a, fields);
        SettingFieldsKeepsGood(backend.world, backend.vectors, docs, a, fields);
        SettingFieldsKeepsGoodUpdates(backend.world, backend.vectors, updates, a, fields);
        SettingThenPatching(base, updates, a, fields);
        docs' := SetFields(docs, a, fields);
        updates' := SetFields(updates, a, fields);
        assert docs'[a].stamp != EntryOf(docs, a).stamp;
      }
    }

    /** One version's turn in the loop of `embed_bill`. `base` is what the call read at its start. */
    method EmbedVersion(versions: seq<Version>, scope: Scope, v: Version, hadCache: bool, docs: Documents, updates: Documents,
                        stats: Stats, ghost base: Documents)
      returns (docs': Documents, updates': Documents, stats': Stats)
      requires Valid() && backend.Sound() && v in versions && Admits(backend.world, versions, None)
      requires GoodDocs(backend.world, backend.vectors, docs) && GoodUpdates(backend.world, backend.vectors, updates)
      requires PatchedAll(base, updates) == docs
      modifies backend
      // whoever else writes
      ensures backend.Sound() && Keeps(backend.world, old(backend.vectors), backend.vectors)
      ensures GoodDocs(backend.world, backend.vectors, docs') && GoodUpdates(backend.world, backend.vectors, updates')
      ensures PatchedAll(base, updates') == docs' && OneEntryChanged(v, docs, docs')
      ensures Later(stats, stats')
      ensures stats'.noTextYet == stats.noTextYet + if HasNoText(v) then 1 else 0
      ensures stats'.undone == stats.undone ==> HasNoText(v) || v.archiveId.Some?
      ensures Quiet(stats, stats') ==>
                && docs' == DocsAfter(backend.world, scope, versions, v, docs)
                && stats'.documents == stats.documents + Ingested1(backend.world, scope, versions, v, docs)
      ensures stats'.raced > stats.raced ==> backend.writes == old(backend.writes)
      // alone
      ensures backend.alone ==> backend.stored == old(backend.stored)
      ensures backend.alone ==> TouchedOnlyBy(backend.world, versions, {}, old(backend.vectors), backend.vectors)
      ensures backend.alone && Quiet(stats, stats') ==>
                backend.vectors == VectorsAfter(backend.world, scope, versions, v, docs, old(backend.vectors))
      ensures DocsAfter(backend.world, scope, versions, v, docs) == docs ==>
                docs' == docs && updates' == updates && backend.writes == old(backend.writes)
      ensures (&& backend.alone && backend.reliable && (VersionText(v) != "" ==> v.archiveId.Some?)
               && (hadCache ==> backend.stored.Some?)
               && SameEntry(v, docs, Visible(backend.stored))) ==> Quiet(stats, stats')
      ensures backend.alone && CannotRace(v, hadCache, docs, Visible(backend.stored)) ==> stats'.raced == stats.raced
    {
      docs', updates', stats' := docs, updates, stats;
      TextIsTheFirst(v, "");
      var text := VersionText(v);
      if text == "" {
        stats' := stats'.(noTextYet := stats'.noTextYet + 1);
        return;
      }
      if v.archiveId == None {
        stats' := stats'.(undone := stats'.undone + 1);
        return;
      }
      if DocsAfter(backend.world, scope, versions, v, docs) == docs {
        NothingToDo(backend.world, scope, versions, v, docs);
      }
      docs', updates', stats' := EmbedText(versions, scope, v, hadCache, docs, updates, stats, base);
      StampingStaysWithin(backend.world, v, docs, docs');
      docs', updates' := RecordStamp(v, docs', updates', base);
    }

    /** The removal of up to `maxOrphans` of the recorded documents the response no longer lists, each
        only if the record still has the entry this call read. `seen` is the record at its reads. */
    method RemoveOrphans(docs: Documents, orphans: set<ArchiveId>, maxOrphans: nat, hadCache: bool)
      returns (gone: set<ArchiveId>, raced: nat, undone: nat, ghost seen: seq<Option<Record>>)
      requires backend.Sound() && orphans <= docs.Keys && orphans !! backend.world.texts.Keys
      modifies backend
      ensures backend.Sound()
      ensures gone <= orphans && |gone| + raced + undone == |orphans| - Excess(|orphans|, maxOrphans)
      ensures orphans == {} ==> backend.writes == old(backend.writes)
      ensures backend.seen == old(backend.seen) + seen && SawAll(seen, docs, gone)
      ensures Tallied(backend.reliable, hadCache, docs, orphans, seen, raced, undone)
      ensures RemovedSoFar(backend.world, docs, orphans, old(backend.Shared()), backend.Shared(), backend.alone, backend.reliable,
                           hadCache, gone, raced, undone)
    {
      gone, raced, undone, seen := {}, 0, 0, [];
      var left, tried := orphans, 0;
      assert WithoutVectors(backend.vectors, docs, gone) == backend.vectors;
      while left != {} && tried < maxOrphans
        invariant backend.Sound() && left <= orphans && gone <= orphans - left
        invariant |orphans| == |left| + tried && |gone| + raced + undone == tried <= maxOrphans
        invariant orphans == {} ==> backend.writes == old(backend.writes)
        invariant backend.seen == old(backend.seen) + seen && SawAll(seen, docs, gone)
        invariant Tallied(backend.reliable, hadCache, docs, orphans, seen, raced, undone)
        invariant RemovedSoFar(backend.world, docs, orphans, old(backend.Shared()), backend.Shared(), backend.alone, backend.reliable,
                               hadCache, gone, raced, undone)
        decreases |left|
      {
        var a :| a in left;
        left := left - {a};
        tried := tried + 1;
        gone, raced, undone, seen := RemoveNext(docs, orphans, a, hadCache, gone, raced, undone,
                                                old(backend.Shared()), old(backend.seen), seen);
      }
    }

    /** One orphan, and the count of how it ended. */
    method RemoveNext(docs: Documents, ghost orphans: set<ArchiveId>, a: ArchiveId, hadCache: bool,
                      gone: set<ArchiveId>, raced: nat, undone: nat,
                      ghost start: State, ghost earlier: seq<Option<Record>>, ghost seen: seq<Option<Record>>)
      returns (gone': set<ArchiveId>, raced': nat, undone': nat, ghost seen': seq<Option<Record>>)
      requires backend.Sound() && a in orphans && a !in gone && gone <= orphans <= docs.Keys && a !in backend.world.texts
      requires backend.seen == earlier + seen && SawAll(seen, docs, gone)
      requires Tallied(backend.reliable, hadCache, docs, orphans, seen, raced, undone)
      requires RemovedSoFar(backend.world, docs, orphans, start, backend.Shared(), backend.alone, backend.reliable,
                            hadCache, gone, raced, undone)
      modifies backend
      ensures backend.Sound() && gone <= gone' <= gone + {a} && |gone'| + raced' + undone' == |gone| + raced + undone + 1
      ensures backend.seen == earlier + seen' && SawAll(seen', docs, gone')
      ensures Tallied(backend.reliable, hadCache, docs, orphans, seen', raced', undone')
      ensures RemovedSoFar(backend.world, docs, orphans, start, backend.Shared(), backend.alone, backend.reliable,
                           hadCache, gone', raced', undone')
    {
      gone', raced', undone' := gone, raced, undone;
      var outcome;
      ghost var read, last;
      outcome, read, last := RemoveOrphan(a, docs[a], hadCache);
      RemovedOneMore(backend.world, docs, orphans, start, old(backend.Shared()), backend.Shared(), backend.alone, backend.reliable,
                     hadCache, gone, raced, undone, a, outcome);
      SawOneMore(earlier, seen, last, docs, gone, a);
      TalliedOneMore(backend.reliable, hadCache, docs, orphans, seen, raced, undone, a, outcome, last);
      seen' := seen + [last];
      match outcome
      case Undone => undone' := undone + 1;
      case Raced => raced' := raced + 1;
      case Wrote(_) => gone' := gone + {a};
    }

    /** The record had all these entries, each at one of these reads. */
    static predicate SawAll(seen: seq<Option<Record>>, docs: Documents, gone: set<ArchiveId>)
      requires gone <= docs.Keys
    {
      forall a <- gone :: SawEntry(seen, a, docs[a])
    }

    static lemma SawOneMore(before: seq<Option<Record>>, seen: seq<Option<Record>>, last: Option<Record>, docs: Documents,
                            gone: set<ArchiveId>, a: ArchiveId)
      requires gone <= docs.Keys && a in docs && SawAll(seen, docs, gone)
      ensures before + seen + [last] == before + (seen + [last])
      ensures SawAll(seen + [last], docs, gone)
      ensures SawEntry([last], a, docs[a]) ==> SawAll(seen + [last], docs, gone + {a})
    {
      assert last in seen + [last];
      forall q <- gone
        ensures SawEntry(seen + [last], q, docs[q])
      {
        var r :| r in seen && q in Visible(r) && Visible(r)[q] == docs[q];
        assert r in seen + [last];
      }
    }

    /** One orphan: `Wrote` when its vectors are deleted, which they are only if the record, read again
        just before, still has the entry this call read. */
    method RemoveOrphan(a: ArchiveId, recorded: Entry, hadCache: bool)
      returns (outcome: Outcome, ghost read: Option<Record>, ghost seen: Option<Record>)
      requires backend.Sound() && a !in backend.world.texts
      modifies backend
      ensures backend.Sound() && Keeps(backend.world, old(backend.vectors), backend.vectors)
      ensures backend.alone ==> backend.stored == old(backend.stored)
      ensures backend.seen == old(backend.seen) + [seen] && Returned(read, seen)
      ensures read == None && hadCache ==> outcome.Undone?
      ensures outcome.Raced? <==> (hadCache ==> read.Some?) && !SawEntry([read], a, recorded)
      ensures outcome.Raced? || (read == None && hadCache) ==> backend.writes == old(backend.writes)
      ensures outcome.Wrote? ==> SawEntry([seen], a, recorded)
      ensures outcome.Raced? && hadCache ==> !HasEntry(seen, a, recorded)
      ensures outcome.Undone? ==> !backend.reliable || seen == None
      ensures backend.alone ==> OnlyRemoves({a}, old(backend.vectors), backend.vectors)
      ensures backend.alone && outcome.Wrote? ==>
                backend.vectors == Delete(old(backend.vectors), a, Range(0, Count(recorded)))
      ensures (&& backend.alone && backend.reliable
               && a in Visible(backend.stored) && Visible(backend.stored)[a] == recorded) ==> outcome.Wrote?
      ensures (&& backend.alone && hadCache
               && a in Visible(backend.stored) && Visible(backend.stored)[a] == recorded) ==> !outcome.Raced?
    {
      var latest := backend.Read();
      read, seen := latest, backend.stored;
      if latest == None && hadCache {
        return Undone, read, seen;
      }
      if a !in Visible(latest) || Visible(latest)[a] != recorded {
        return Raced, read, seen;
      }
      assert latest in [read] && seen in [seen];
      var ok;
      ghost var done;
      ok, done := backend.DeleteRange(a, 0, Count(recorded));
      outcome := if ok then Wrote(Count(recorded)) else Undone;
    }

    /** The write of the record, last: what this call set, on top of a fresh read. */
    method Commit(updates: Documents, removed: Documents, hadCache: bool)
      returns (written: bool, ghost read: Option<Record>, ghost seen: Option<Record>)
      requires backend.Sound()
      requires GoodUpdates(backend.world, backend.vectors, updates)
      modifies backend
      ensures backend.Sound() && Keeps(backend.world, old(backend.vectors), backend.vectors)
      ensures backend.alone ==> backend.vectors == old(backend.vectors)
      ensures backend.seen == old(backend.seen) + [seen] && Returned(read, seen)
      ensures written ==>
                (hadCache ==> read.Some?) && backend.stored == Some(Record(CACHE_SCHEMA, Merged(Visible(read), updates, removed)))
      ensures read == None && hadCache ==> backend.writes == old(backend.writes)
      ensures backend.alone ==> seen == old(backend.stored)
      ensures backend.alone && !written ==> backend.stored == old(backend.stored)
      ensures backend.alone && backend.reliable && (hadCache ==> old(backend.stored).Some?) ==> written
    {
      var latest := backend.Read();
      read, seen := latest, backend.stored;
      if latest == None && hadCache {
        return false, read, seen;
      }
      GoodDocsStay(backend.world, old(backend.vectors), backend.vectors, updates);
      MergingKeepsGood(backend.world, backend.vectors, Visible(latest), updates, removed);
      written := backend.Store(Merged(Visible(latest), updates, removed));
    }

    /** Where the loop of `embed_bill` is after `i` versions, having started from `docs` in `start` after
        `writes` writes. */
    ghost predicate Looping(versions: seq<Version>, scope: Scope, hadCache: bool, docs: Documents, start: State, writes: nat,
                            i: nat, docs': Documents, updates: Documents, stats: Stats)
      requires i <= |versions|
      reads backend
    {
      && backend.Sound()
      && Progress(backend.world, scope, versions, docs, start, backend.alone, i, docs', updates, stats, backend.Shared())
      && Certain(backend.world, scope, versions, hadCache, docs, start.stored, backend.alone, backend.reliable,
                 i, docs', updates, stats, backend.writes == writes)
      && CountedTexts(versions, i, stats)
    }

    /** One turn of the loop of `embed_bill`. */
    method EmbedNext(versions: seq<Version>, scope: Scope, hadCache: bool, docs: Documents, i: nat, docs0: Documents,
                     updates0: Documents, stats0: Stats, ghost start: State, ghost writes: nat)
      returns (docs': Documents, updates: Documents, stats: Stats)
      requires Valid() && Admits(backend.world, versions, None) && i < |versions|
      requires Looping(versions, scope, hadCache, docs, start, writes, i, docs0, updates0, stats0)
      modifies backend
      ensures Looping(versions, scope, hadCache, docs, start, writes, i + 1, docs', updates, stats)
    {
      docs', updates, stats := EmbedVersion(versions, scope, versions[i], hadCache, docs0, updates0, stats0, docs);
      CountedOneMore(versions, i, stats0, stats);
      ProgressAdvances(backend.world, scope, versions, docs, start, backend.alone, i, docs0, updates0, stats0,
                       old(backend.Shared()), docs', updates, stats, backend.Shared());
      CertainAdvances(backend.world, scope, versions, hadCache, docs, start.stored, backend.alone, backend.reliable, i,
                      docs0, updates0, stats0, old(backend.writes) == writes, docs', updates, stats, backend.writes == writes);
    }

    /** The loop of `embed_bill` over a bill's versions; `docs` is what the first read returned. */
    method EmbedVersions(versions: seq<Version>, scope: Scope, hadCache: bool, docs: Documents)
      returns (docs': Documents, updates: Documents, stats: Stats)
      requires Valid() && backend.Sound() && Admits(backend.world, versions, None)
      requires GoodDocs(backend.world, backend.vectors, docs)
      modifies backend
      ensures Looping(versions, scope, hadCache, docs, old(backend.Shared()), old(backend.writes), |versions|, docs', updates, stats)
    {
      docs', updates, stats := docs, map[], NO_STATS;
      assert Textless(versions, 0) == {};
      for i := 0 to |versions|
        invariant Looping(versions, scope, hadCache, docs, old(backend.Shared()), old(backend.writes), i, docs', updates, stats)
      {
        docs', updates, stats := EmbedNext(versions, scope, hadCache, docs, i, docs', updates, stats,
                                           old(backend.Shared()), old(backend.writes));
      }
    }

    /** What `embed_bill` does after its loop, first: the orphans, when it is given a budget for them. */
    method Prune(versions: seq<Version>, maxOrphans: Option<nat>, hadCache: bool, docs: Documents, stats: Stats)
      returns (stats': Stats, gone: set<ArchiveId>)
      requires backend.Sound() && Admits(backend.world, versions, maxOrphans)
      modifies backend
      ensures backend.Sound()
      ensures stats'.documents == stats.documents && stats'.noTextYet == stats.noTextYet && stats.raced <= stats'.raced && stats.undone <= stats'.undone
      ensures gone <= Doomed(versions, maxOrphans, docs)
      ensures Removed(stats', |gone|, |Doomed(versions, maxOrphans, docs)|, maxOrphans, Quiet(stats, stats'))
      ensures Doomed(versions, maxOrphans, docs) == {} ==> backend.writes == old(backend.writes) && Quiet(stats, stats')
      ensures RemovedSoFar(backend.world, docs, Doomed(versions, maxOrphans, docs), old(backend.Shared()), backend.Shared(),
                           backend.alone, backend.reliable, hadCache, gone, stats'.raced - stats.raced, stats'.undone - stats.undone)
    {
      if maxOrphans == None {
        assert WithoutVectors(backend.vectors, docs, {}) == backend.vectors;
        return stats.(orphans := 0, orphansOverBudget := 0), {};
      }
      stats', gone := PruneUpTo(versions, maxOrphans.value, hadCache, docs, stats);
    }

    method PruneUpTo(versions: seq<Version>, limit: nat, hadCache: bool, docs: Documents, stats: Stats)
      returns (stats': Stats, gone: set<ArchiveId>)
      requires backend.Sound() && Admits(backend.world, versions, Some(limit))
      modifies backend
      ensures backend.Sound() && gone <= Orphans(versions, docs)
      ensures stats'.documents == stats.documents && stats'.noTextYet == stats.noTextYet && stats.raced <= stats'.raced && stats.undone <= stats'.undone
      ensures Removed(stats', |gone|, |Orphans(versions, docs)|, Some(limit), Quiet(stats, stats'))
      ensures Orphans(versions, docs) == {} ==> backend.writes == old(backend.writes) && Quiet(stats, stats')
      ensures RemovedSoFar(backend.world, docs, Orphans(versions, docs), old(backend.Shared()), backend.Shared(),
                           backend.alone, backend.reliable, hadCache, gone, stats'.raced - stats.raced, stats'.undone - stats.undone)
    {
      var orphans := Orphans(versions, docs);
      var raced, undone;
      ghost var seen;
      gone, raced, undone, seen := RemoveOrphans(docs, orphans, limit, hadCache);
      stats' := stats.(orphans := |gone|, orphansOverBudget := Excess(|orphans|, limit),
                       raced := stats.raced + raced, undone := stats.undone + undone);
    }

    /** Then, if there is anything to record, the record. */
    method Advance(hadCache: bool, docs: Documents, updates: Documents, gone: set<ArchiveId>)
      returns (written: bool, ghost latest: Option<Record>)
      requires backend.Sound() && GoodUpdates(backend.world, backend.vectors, updates) && gone <= docs.Keys
      modifies backend
      ensures backend.Sound() && Keeps(backend.world, old(backend.vectors), backend.vectors)
      ensures backend.alone ==> backend.vectors == old(backend.vectors)
      ensures backend.alone && !written ==> backend.stored == old(backend.stored)
      ensures updates == map[] && gone == {} ==> written && backend.writes == old(backend.writes)
      ensures backend.alone && written ==>
                && Visible(backend.stored) == Merged(Visible(latest), updates, EntriesOf(docs, gone))
                && Returned(latest, old(backend.stored)) && (hadCache ==> latest == old(backend.stored))
      ensures backend.alone && backend.reliable && (hadCache ==> old(backend.stored).Some?) ==> written
    {
      if updates == map[] && gone == {} {
        assert Merged(Visible(backend.stored), map[], map[]) == Visible(backend.stored);
        return true, backend.stored;
      }
      ghost var read, seen;
      written, read, seen := Commit(updates, EntriesOf(docs, gone), hadCache);
      latest := read;
    }

    /** The first read, and the loop over the versions. */
    method Scan(versions: seq<Version>, scope: Scope)
      returns (read: Option<Record>, docs: Documents, updates: Documents, stats: Stats)
      requires Valid() && backend.Sound() && Admits(backend.world, versions, None)
      modifies backend
      ensures backend.Sound()
      ensures CountedTexts(versions, |versions|, stats)
      ensures Progress(backend.world, scope, versions, Visible(read), old(backend.Shared()), backend.alone,
                       |versions|, docs, updates, stats, backend.Shared())
      ensures Settled(backend.world, scope, versions, Visible(read)) ==>
                docs == Visible(read) && updates == map[] && backend.writes == old(backend.writes)
      ensures backend.alone && backend.reliable && DistinctIds(versions) && IdsPresent(versions) ==>
                read == old(backend.stored) && Clean(stats)
      ensures backend.alone ==> Returned(read, old(backend.stored))
      ensures backend.alone && backend.readsAnswer ==> read == old(backend.stored)
      ensures (&& backend.alone && DistinctIds(versions)
               && (read == old(backend.stored) || !RecordsAHash(versions, Visible(old(backend.stored))))) ==> stats.raced == 0
    {
      read := backend.Read();
      docs, updates, stats := EmbedVersions(versions, scope, HadCache(read), Visible(read));
    }

    /** All of `embed_bill` up to the write of the record: what it has read, what it would record. */
    method Work(versions: seq<Version>, scope: Scope, maxOrphans: Option<nat>)
      returns (read: Option<Record>, docs: Documents, updates: Documents, stats: Stats, gone: set<ArchiveId>)
      requires Valid() && backend.Sound() && Admits(backend.world, versions, maxOrphans)
      modifies backend
      ensures backend.Sound() && Keeps(backend.world, old(backend.vectors), backend.vectors)
      ensures GoodUpdates(backend.world, backend.vectors, updates) && PatchedAll(Visible(read), updates) == docs
      ensures gone <= docs.Keys && gone <= Doomed(versions, maxOrphans, Visible(read))
      ensures Removed(stats, |gone|, |Doomed(versions, maxOrphans, Visible(read))|, maxOrphans, Clean(stats))
      ensures CountedTexts(versions, |versions|, stats)
      ensures Clean(stats) ==> WantedAreHeld(backend.world, scope, versions, backend.vectors, |versions|)
      ensures Settled(backend.world, scope, versions, Visible(read)) && Doomed(versions, maxOrphans, Visible(read)) == {} ==>
                updates == map[] && backend.writes == old(backend.writes)
      ensures backend.alone ==> backend.stored == old(backend.stored)
      ensures backend.alone ==>
                TouchedOnlyBy(backend.world, versions, Doomed(versions, maxOrphans, Visible(read)), old(backend.vectors), backend.vectors)
      ensures Clean(stats) ==>
                && docs == PassDocs(backend.world, scope, versions, Visible(read))
                && stats.documents == PassIngests(backend.world, scope, versions, Visible(read))
      ensures backend.alone && Clean(stats) ==>
                backend.vectors == WithoutVectors(PassVectors(backend.world, scope, versions, Visible(read), old(backend.vectors)), Visible(read), gone)
      ensures backend.alone && backend.reliable && DistinctIds(versions) && IdsPresent(versions) ==>
                read == old(backend.stored) && Clean(stats)
      ensures backend.alone ==> Returned(read, old(backend.stored))
      ensures backend.alone && backend.readsAnswer ==> read == old(backend.stored)
      ensures (&& backend.alone && DistinctIds(versions)
               && (read == old(backend.stored) || !RecordsAHash(versions, Visible(old(backend.stored))))) ==> stats.raced == 0
    {
      read, docs, updates, stats := Scan(versions, scope);
      ghost var middle, scanned := backend.Shared(), stats;
      SameOrphans(versions, Visible(read), docs, middle.vectors, {});
      stats, gone := Prune(versions, maxOrphans, HadCache(read), docs, stats);
      WorkIsDone(backend.world, scope, versions, maxOrphans, read, docs, updates, scanned, old(backend.Shared()), middle, backend.Shared(),
                 backend.alone, backend.reliable, gone, stats);
    }

    /** What the loop and the removal of orphans have done together. */
    static lemma WorkIsDone(w: World, scope: Scope, versions: seq<Version>, maxOrphans: Option<nat>, read: Option<Record>,
                            docs: Documents, updates: Documents, scanned: Stats, start: State, middle: State, now: State,
                            alone: bool, reliable: bool, gone: set<ArchiveId>, stats: Stats)
      requires Admits(w, versions, maxOrphans)
      requires Progress(w, scope, versions, Visible(read), start, alone, |versions|, docs, updates, scanned, middle)
      requires scanned.raced <= stats.raced && scanned.undone <= stats.undone && stats.documents == scanned.documents
      requires gone <= Doomed(versions, maxOrphans, docs)
      requires Doomed(versions, maxOrphans, docs) == {} ==> Quiet(scanned, stats)
      requires RemovedSoFar(w, docs, Doomed(versions, maxOrphans, docs), middle, now, alone, reliable, HadCache(read),
                            gone, stats.raced - scanned.raced, stats.undone - scanned.undone)
      ensures Keeps(w, start.vectors, now.vectors) && GoodUpdates(w, now.vectors, updates)
      ensures Doomed(versions, maxOrphans, docs) == Doomed(versions, maxOrphans, Visible(read))
      ensures alone ==> now.stored == start.stored
      ensures alone ==> TouchedOnlyBy(w, versions, Doomed(versions, maxOrphans, Visible(read)), start.vectors, now.vectors)
      ensures Clean(stats) ==>
                && WantedAreHeld(w, scope, versions, now.vectors, |versions|)
                && docs == PassDocs(w, scope, versions, Visible(read))
                && stats.documents == PassIngests(w, scope, versions, Visible(read))
      ensures alone && Clean(stats) ==>
                now.vectors == WithoutVectors(PassVectors(w, scope, versions, Visible(read), start.vectors), Visible(read), gone)
      ensures alone && reliable && read == start.stored ==> Quiet(scanned, stats)
      ensures alone && Returned(read, start.stored) ==> stats.raced == scanned.raced
    {
      SameOrphans(versions, Visible(read), docs, middle.vectors, {});
      SameOrphans(versions, Visible(read), docs, middle.vectors, gone);
      GoodDocsStay(w, middle.vectors, now.vectors, updates);
      if alone {
        RemovingTouches(w, versions, Doomed(versions, maxOrphans, docs), start.vectors, middle.vectors, now.vectors);
      }
      if Clean(stats) {
        HeldStays(w, scope, versions, middle.vectors, now.vectors, |versions|);
      }
    }

    /** The end of `embed_bill`: the record, unless something was left undone. */
    method Settle(versions: seq<Version>, scope: Scope, record: Option<Record>, docs: Documents, updates: Documents,
                  gone: set<ArchiveId>, stats: Stats)
      returns (stats': Stats, ghost reread: Option<Record>)
      requires backend.Sound() && GoodUpdates(backend.world, backend.vectors, updates) && gone <= docs.Keys
      requires gone !! ListedIds(versions) && docs == PatchedAll(Visible(record), updates)
      modifies backend
      ensures backend.Sound() && Keeps(backend.world, old(backend.vectors), backend.vectors)
      ensures stats' == stats || (stats.undone == 0 && stats' == stats.(undone := 1))
      ensures updates == map[] && gone == {} ==> stats' == stats && backend.writes == old(backend.writes)
      ensures backend.alone ==> backend.vectors == old(backend.vectors)
      ensures backend.alone && stats'.undone > 0 ==> backend.stored == old(backend.stored)
      ensures backend.alone && backend.reliable && record == old(backend.stored) ==> stats' == stats
      ensures backend.alone && stats'.undone == 0 && record == old(backend.stored) ==> Visible(backend.stored) == docs - gone
      ensures (&& backend.alone && stats'.undone == 0 && Returned(record, old(backend.stored)) && DistinctIds(versions)
               && docs == PassDocs(backend.world, scope, versions, Visible(record))) ==>
                && RecordsWanted(backend.world, scope, versions, Visible(backend.stored))
                && NamesCovered(backend.world, scope, versions, Visible(record), Visible(backend.stored))
      ensures backend.alone && Returned(record, old(backend.stored)) ==>
                forall a <- Visible(old(backend.stored)) ::
                  a in Visible(backend.stored) || a in gone || (record == None && reread == None)
    {
      stats', reread := stats, backend.stored;
      if stats.undone == 0 {
        var written;
        written, reread := Advance(HadCache(record), docs, updates, gone);
        if !written {
          stats' := stats.(undone := 1);
        } else if backend.alone && Returned(record, old(backend.stored)) {
          WhatIsRecorded(backend.world, scope, versions, old(backend.stored), record, reread, docs, updates, gone);
        }
      }
    }

    /** Reads the bill's record once, gives every version its turn, removes orphans, and writes the
        record last. `read` is what the first read returned, `gone` the documents deleted, and `reread` what
        the read before the write of the record returned, if there was one. */
    method EmbedBill(versions: seq<Version>, scope: Scope, maxOrphans: Option<nat>)
      returns (stats: Stats, ghost read: Option<Record>, ghost gone: set<ArchiveId>, ghost reread: Option<Record>)
      requires Valid() && backend.Sound() && Admits(backend.world, versions, maxOrphans)
      modifies backend
      ensures backend.Sound() && Keeps(backend.world, old(backend.vectors), backend.vectors)
      // whoever else writes
      ensures Clean(stats) ==> WantedAreHeld(backend.world, scope, versions, backend.vectors, |versions|)
      ensures Clean(stats) ==> forall v <- versions, t: Text | v.archiveId.Some? && IsText(v, t) && Covered(scope, versions, v) ::
                v.archiveId.value in backend.world.texts ==> Holds(backend.vectors, v.archiveId.value, backend.world.chunksOf(t))
      ensures stats.noTextYet == |set j: nat | j < |versions| && HasNoText(versions[j])|
      ensures Clean(stats) ==> forall j | 0 <= j < |versions| :: HasNoText(versions[j]) || versions[j].archiveId.Some?
      ensures Settled(backend.world, scope, versions, Visible(read)) && Doomed(versions, maxOrphans, Visible(read)) == {} ==>
                backend.writes == old(backend.writes)
      ensures gone <= Doomed(versions, maxOrphans, Visible(read))
      ensures forall a <- gone :: maxOrphans.Some? && a in Visible(read) && forall v <- versions :: v.archiveId != Some(a)
      ensures Removed(stats, |gone|, |Doomed(versions, maxOrphans, Visible(read))|, maxOrphans, Clean(stats))
      ensures Clean(stats) && maxOrphans.Some? && (exists v <- versions :: v.archiveId.Some?) ==>
                var unlisted := |Unlisted(versions, Visible(read))|;
                && stats.orphans == |gone| == (if unlisted <= maxOrphans.value then unlisted else maxOrphans.value)
                && stats.orphans + stats.orphansOverBudget == unlisted
      ensures maxOrphans == None || !(exists v <- versions :: v.archiveId.Some?) ==>
                gone == {} && stats.orphans == 0 && stats.orphansOverBudget == 0
      // alone
      ensures backend.alone && stats.undone > 0 ==> backend.stored == old(backend.stored)
      ensures backend.alone ==>
                TouchedOnlyBy(backend.world, versions, Doomed(versions, maxOrphans, Visible(read)), old(backend.vectors), backend.vectors)
      ensures backend.alone && read == old(backend.stored) && Clean(stats) ==>
                && Visible(backend.stored) == PassDocs(backend.world, scope, versions, Visible(read)) - gone
                && backend.vectors == WithoutVectors(PassVectors(backend.world, scope, versions, Visible(read), old(backend.vectors)), Visible(read), gone)
                && stats.documents == PassIngests(backend.world, scope, versions, Visible(read))
      ensures backend.alone && backend.reliable && DistinctIds(versions) && IdsPresent(versions) ==>
                read == old(backend.stored) && Clean(stats)
      ensures backend.alone && backend.readsAnswer ==> read == old(backend.stored)
      ensures backend.alone && DistinctIds(versions) && stats.raced > 0 ==>
                read == None && RecordsAHash(versions, Visible(old(backend.stored)))
      // an entry is lost only with its document's vectors, or when neither read returned the record
      ensures backend.alone ==>
                forall a <- Visible(old(backend.stored)) ::
                  a in Visible(backend.stored) || a in gone || (read == None && reread == None)
      ensures backend.alone && Clean(stats) && DistinctIds(versions) ==>
                && RecordsWanted(backend.world, scope, versions, Visible(backend.stored))
                && NamesCovered(backend.world, scope, versions, Visible(read), Visible(backend.stored))
                && HoldsCovered(backend.world, scope, versions, Visible(read), backend.vectors)
                && LeavesVectors(backend.world, scope, versions, Visible(read), gone, old(backend.vectors), backend.vectors)
      ensures backend.alone && Clean(stats) && DistinctIds(versions) && read == old(backend.stored) ==>
                LeavesTheRest(scope, versions, Visible(read), Visible(backend.stored), gone)
    {
      var record, docs, updates, deleted;
      record, docs, updates, stats, deleted := Work(versions, scope, maxOrphans);
      read, gone := record, deleted;
      ghost var middle := backend.vectors;
      stats, reread := Settle(versions, scope, record, docs, updates, deleted, stats);
      GoneIsUnlisted(versions, maxOrphans, Visible(read), gone);
      DoomedAreUnlisted(versions, maxOrphans, Visible(read));
      if Clean(stats) {
        HeldStays(backend.world, scope, versions, middle, backend.vectors, |versions|);
        CoveredAreHeld(backend.world, scope, versions, backend.vectors);
        if backend.alone && DistinctIds(versions) {
          PassHoldsCovered(backend.world, scope, versions, Visible(read), old(backend.vectors), gone);
          PassLeavesVectors(backend.world, scope, versions, Visible(read), old(backend.vectors), gone);
          PassLeavesTheRest(backend.world, scope, versions, Visible(read), gone);
        }
      }
    }
  }

  lemma GoneIsUnlisted(versions: seq<Version>, maxOrphans: Option<nat>, docs: Documents, gone: set<ArchiveId>)
    requires gone <= Doomed(versions, maxOrphans, docs)
    ensures gone !! ListedIds(versions)
    ensures forall a <- gone :: maxOrphans.Some? && a in docs && forall v <- versions :: v.archiveId != Some(a)
  {
    forall a <- gone, v <- versions
      ensures v.archiveId != Some(a)
    {
      assert v.archiveId.Some? ==> v.archiveId.value in ListedIds(versions);
    }
  }

  lemma CoveredAreHeld(w: World, scope: Scope, versions: seq<Version>, vectors: Vectors)
    requires WantedAreHeld(w, scope, versions, vectors, |versions|)
    ensures forall v <- versions, t: Text | v.archiveId.Some? && IsText(v, t) && Covered(scope, versions, v) ::
              v.archiveId.value in w.texts ==> Holds(vectors, v.archiveId.value, w.chunksOf(t))
  {
    forall v <- versions, t: Text | v.archiveId.Some? && IsText(v, t) && Covered(scope, versions, v)
      ensures v.archiveId.value in w.texts ==> Holds(vectors, v.archiveId.value, w.chunksOf(t))
    {
      TextIsTheFirst(v, t);
      WantedIsCovered(scope, versions, v);
      var j :| 0 <= j < |versions| && versions[j] == v;
      assert IsHeld(w, vectors, versions[j]);
    }
  }

  /** The record a call writes alone, by what its first read and the read before the write returned. */
  lemma WhatIsRecorded(w: World, scope: Scope, versions: seq<Version>, stored: Option<Record>, record: Option<Record>, reread: Option<Record>,
                       docs: Documents, updates: Documents, gone: set<ArchiveId>)
    requires Returned(record, stored) && Returned(reread, stored) && (HadCache(record) ==> reread == stored)
    requires docs == PatchedAll(Visible(record), updates) && gone <= docs.Keys && gone !! ListedIds(versions)
    ensures var after := Merged(Visible(reread), updates, EntriesOf(docs, gone));
            && (record == stored ==> after == docs - gone)
            && (DistinctIds(versions) && docs == PassDocs(w, scope, versions, Visible(record)) ==>
                  RecordsWanted(w, scope, versions, after) && NamesCovered(w, scope, versions, Visible(record), after))
            && (forall a <- Visible(stored) :: a in after || a in gone || (record == None && reread == None))
  {
    MergingOntoTheSame(Visible(record), updates, gone);
    if record == stored && !HadCache(record) {
      assert Visible(reread) == map[];
    }
    if DistinctIds(versions) && docs == PassDocs(w, scope, versions, Visible(record)) {
      CommitRecordsWanted(w, scope, versions, Visible(record), updates, Visible(reread), gone);
      forall v <- versions, t: Text | v.archiveId.Some? && IsText(v, t) && Covered(scope, versions, v)
        ensures Names(w, v, t, EntryOf(Visible(record), v.archiveId.value), Merged(Visible(reread), updates, EntriesOf(docs, gone)))
      {
        CommitNames(w, scope, versions, v, t, Visible(record), updates, Visible(reread), gone);
      }
    }
  }

  /** Two passes in a row with nobody else writing and nothing failing: the first leaves the record and
      the vectors of every wanted version as the source has them, and the second makes no write.
      `between` is how many writes the first had made. */
  method PassTwice(embedder: KnowledgeBaseEmbedder, versions: seq<Version>, scope: Scope)
    returns (first: Stats, second: Stats, ghost between: nat)
    requires embedder.Valid() && embedder.backend.Sound() && embedder.backend.alone && embedder.backend.reliable
    requires Admits(embedder.backend.world, versions, None) && DistinctIds(versions) && IdsPresent(versions)
    requires forall v <- versions :: Embeddable(v) ==>
               TellsTruth(embedder.backend.world, v, EntryOf(Visible(embedder.backend.stored), v.archiveId.value), embedder.backend.vectors)
    modifies embedder.backend
    ensures Clean(first) && Clean(second) && embedder.backend.writes == between
    ensures forall v <- versions :: Embeddable(v) && Wanted(scope, versions, v) ==>
              MatchesSource(embedder.backend.world, v, Visible(embedder.backend.stored), embedder.backend.vectors)
  {
    var backend := embedder.backend;
    ghost var docs, vectors := Visible(backend.stored), backend.vectors;
    ghost var read, gone, reread;
    first, read, gone, reread := embedder.EmbedBill(versions, scope, None);
    between := backend.writes;
    PassLaws.SecondPassWritesNothing(backend.world, scope, versions, None, docs);
    assert PassDocs(backend.world, scope, versions, docs) - {} == PassDocs(backend.world, scope, versions, docs);
    forall v | v in versions && Embeddable(v) && Wanted(scope, versions, v)
      ensures MatchesSource(backend.world, v, PassDocs(backend.world, scope, versions, docs),
                            PassVectors(backend.world, scope, versions, docs, vectors))
    {
      var j :| 0 <= j < |versions| && versions[j] == v;
      PassLaws.OneCleanPassHeals(backend.world, scope, versions, docs, {}, [vectors], j);
    }
    assert backend.vectors == PassVectors(backend.world, scope, versions, docs, vectors);
    ghost var after := backend.vectors;
    second, read, gone, reread := embedder.EmbedBill(versions, scope, None);
    SettledPass(backend.world, scope, versions, PassDocs(backend.world, scope, versions, docs), after, |versions|);
  }

  lemma NothingToDo(w: World, scope: Scope, versions: seq<Version>, v: Version, docs: Documents)
    requires Embeddable(v) && DocsAfter(w, scope, versions, v, docs) == docs
    ensures !Ingests(w, scope, versions, v, docs) && Stamped(w, v, docs) == docs
  {
    if Ingests(w, scope, versions, v, docs) {
      IngestingRecords(w, scope, versions, v, docs);
    }
  }

  /** A pass over settled documents changes neither them nor the vectors. */
  lemma {:induction false} SettledPass(w: World, scope: Scope, versions: seq<Version>, docs: Documents, vectors: Vectors, i: nat)
    requires i <= |versions| && Settled(w, scope, versions, docs)
    ensures CleanDocs(w, scope, versions, docs, i) == docs
    ensures CleanVectors(w, scope, versions, docs, vectors, i) == vectors
    ensures WithoutVectors(vectors, docs, {}) == vectors
  {
    if i > 0 {
      SettledPass(w, scope, versions, docs, vectors, i - 1);
      CleanStep(w, scope, versions, docs, vectors, i - 1);
      var v := versions[i - 1];
      assert DocsAfter(w, scope, versions, v, docs) == docs;
      if Embeddable(v) && Ingests(w, scope, versions, v, docs) {
        IngestingRecords(w, scope, versions, v, docs);
      }
    }
  }

  lemma IngestingRecords(w: World, scope: Scope, versions: seq<Version>, v: Version, docs: Documents)
    requires Embeddable(v) && Ingests(w, scope, versions, v, docs)
    ensures EntryOf(DocsAfter(w, scope, versions, v, docs), v.archiveId.value).textHash == Some(w.hash(VersionText(v)))
  {
  }
}
