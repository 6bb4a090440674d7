/** Redis and the vector index as `embed_bill` sees them: every call may fail, an upsert or delete may
    stop half way, and before every call the other writers may have run. */
module Backends {
  import opened Wrappers
  import opened KnowledgeBase
  import opened EmbeddingProtocol
  import opened EmbeddingAgreement
  import opened EmbeddingPass

  /** A vector to upsert. */
  datatype Document = Document(id: ChunkKey, content: Content)

  /** Chunk numbers from `lo` to `hi` are no chunk of any text the document can have. */
  predicate Spare(w: World, a: ArchiveId, lo: nat, hi: nat) {
    a in w.texts ==> forall x <- w.texts[a] :: hi <= lo || |w.chunksOf(x)| <= lo
  }

  /** The vectors of a document hold the first `count` chunks of a text. */
  predicate HoldsFirst(vectors: Vectors, a: ArchiveId, chunks: seq<Content>, count: nat) {
    forall n :: 0 <= n < count && n < |chunks| ==> HasChunk(vectors, a, n, chunks[n])
  }

  lemma HoldsFirstStays(w: World, before: Vectors, after: Vectors, a: ArchiveId, text: Text, count: nat)
    requires Keeps(w, before, after)
    requires a in w.texts ==> text in w.texts[a]
    ensures a in w.texts && HoldsFirst(before, a, w.chunksOf(text), count) ==> HoldsFirst(after, a, w.chunksOf(text), count)
  {
  }

  lemma PuttingKeeps(w: World, s: State, a: ArchiveId, text: Text, i: nat)
    requires Compatible(w) && Inv(w, s)
    requires (a in w.texts ==> text in w.texts[a]) && i < |w.chunksOf(text)|
    ensures var vectors := s.vectors[ChunkKey(a, i) := w.chunksOf(text)[i]];
            Keeps(w, s.vectors, vectors) && Inv(w, s.(vectors := vectors))
  {
    var vectors := s.vectors[ChunkKey(a, i) := w.chunksOf(text)[i]];
    assert vectors == Write(s.vectors, a, w.chunksOf(text), {i});
    WritingKeeps(w, s.vectors, a, text, {i});
    InvStays(w, s, vectors);
  }

  lemma WriteOneMore(vectors: Vectors, a: ArchiveId, chunks: seq<Content>, i: nat)
    requires i < |chunks|
    ensures Write(vectors, a, chunks, AllIds(i))[ChunkKey(a, i) := chunks[i]] == Write(vectors, a, chunks, AllIds(i + 1))
  {
  }

  lemma DeleteOneMore(vectors: Vectors, a: ArchiveId, lo: nat, i: nat)
    requires lo <= i
    ensures Delete(Delete(vectors, a, Range(lo, i)), a, {i}) == Delete(vectors, a, Range(lo, i + 1))
  {
  }

  class Backend {
    const world: World
    /** No other writer runs. */
    const alone: bool
    /** No call fails. */
    const reliable: bool
    /** No read of the record fails. */
    const readsAnswer: bool
    var stored: Option<Record>
    var vectors: Vectors
    /** The other writers on this bill, each wherever its `embed_bill` call has got to. */
    var others: map<WriterId, Writer>
    /** The calls this writer made that change Redis or the index. */
    ghost var writes: nat
    /** The record as it was at each of this writer's reads, whether they returned it or not. */
    ghost var seen: seq<Option<Record>>

    constructor (world: World, alone: bool, reliable: bool, readsAnswer: bool, stored: Option<Record>, vectors: Vectors)
      ensures this.world == world && this.alone == alone && this.reliable == reliable && this.readsAnswer == readsAnswer
      ensures this.stored == stored && this.vectors == vectors && others == map[] && writes == 0 && seen == []
    {
      this.world := world;
      this.alone, this.reliable, this.readsAnswer := alone, reliable, readsAnswer;
      this.stored, this.vectors, this.others, this.writes, this.seen := stored, vectors, map[], 0, [];
    }

    function Shared(): State
      reads this
    {
      State(stored, vectors, others)
    }

    /** The record tells the truth, and so does everything another writer could record. */
    ghost predicate Sound()
      reads this
    {
      Compatible(world) && Inv(world, Shared())
    }

    /** The other writers run: any number of steps of any number of them, started and crashed at will. */
    method Interfere()
      requires Sound()
      modifies this
      ensures Sound() && Keeps(world, old(vectors), vectors) && writes == old(writes) && seen == old(seen)
      ensures alone ==> stored == old(stored) && vectors == old(vectors)
    {
      if !alone {
        var steps: seq<Step> := *;
        RunKeepsInv(world, Shared(), steps);
        var s := Run(world, Shared(), steps);
        stored, vectors, others := s.stored, s.vectors, s.writers;
      }
    }

    /** `get_bill_version`: the stored value, or None, also when the read failed. */
    method Read() returns (r: Option<Record>)
      requires Sound()
      modifies this
      ensures Sound() && Keeps(world, old(vectors), vectors) && writes == old(writes)
      ensures alone ==> stored == old(stored) && vectors == old(vectors)
      ensures (r == stored || r == None) && seen == old(seen) + [stored]
      ensures reliable || readsAnswer ==> r == stored
    {
      Interfere();
      var failed: bool := *;
      seen := seen + [stored];
      r := if failed && !reliable && !readsAnswer then None else stored;
    }

    /** `set_bill_version`: true when the value was written. */
    method Store(docs: Documents) returns (written: bool)
      requires Sound() && GoodDocs(world, vectors, docs)
      modifies this
      ensures Sound() && Keeps(world, old(vectors), vectors) && writes == old(writes) + 1 && seen == old(seen)
      ensures alone ==> vectors == old(vectors)
      ensures written ==> stored == Some(Record(CACHE_SCHEMA, docs))
      ensures !written && alone ==> stored == old(stored)
      ensures reliable ==> written
    {
      Interfere();
      GoodDocsStay(world, old(vectors), vectors, docs);
      var failed: bool := *;
      writes := writes + 1;
      written := !failed || reliable;
      if written {
        stored := Some(Record(CACHE_SCHEMA, docs));
      }
    }

    /** `upsert_documents`: the number upserted, or None when it raised after the first `done`. */
    method Upsert(documents: seq<Document>, ghost a: ArchiveId, ghost text: Text) returns (r: Option<nat>, ghost done: nat)
      requires Sound()
      requires a in world.texts ==> text in world.texts[a]
      requires |documents| == |world.chunksOf(text)|
      requires forall k :: 0 <= k < |documents| ==> documents[k] == Document(ChunkKey(a, k), world.chunksOf(text)[k])
      modifies this
      ensures Sound() && Keeps(world, old(vectors), vectors)
      ensures seen == old(seen)
      ensures done <= |documents|
      ensures r.Some? ==> r.value == done == |documents|
      ensures a in world.texts ==> HoldsFirst(vectors, a, world.chunksOf(text), done)
      ensures alone ==> stored == old(stored) && vectors == Write(old(vectors), a, world.chunksOf(text), AllIds(done))
      ensures reliable ==> r.Some?
    {
      ghost var chunks := world.chunksOf(text);
      assert Write(vectors, a, chunks, AllIds(0)) == vectors;
      done := 0;
      for i := 0 to |documents|
        invariant done == i && seen == old(seen)
        invariant Sound() && Keeps(world, old(vectors), vectors)
        invariant a in world.texts ==> HoldsFirst(vectors, a, chunks, i)
        invariant alone ==> stored == old(stored) && vectors == Write(old(vectors), a, chunks, AllIds(i))
      {
        var ok := PutOne(documents[i], a, text, i);
        if !ok {
          return None, done;
        }
        WriteOneMore(old(vectors), a, chunks, i);
        done := i + 1;
      }
      r := Some(|documents|);
    }

    /** One vector of one document: false when the call failed before it. */
    method PutOne(document: Document, ghost a: ArchiveId, ghost text: Text, ghost i: nat) returns (ok: bool)
      requires Sound()
      requires a in world.texts ==> text in world.texts[a]
      requires i < |world.chunksOf(text)| && document == Document(ChunkKey(a, i), world.chunksOf(text)[i])
      modifies this
      ensures Sound() && Keeps(world, old(vectors), vectors)
      ensures seen == old(seen)
      ensures a in world.texts && HoldsFirst(old(vectors), a, world.chunksOf(text), i) ==>
                HoldsFirst(vectors, a, world.chunksOf(text), if ok then i + 1 else i)
      ensures alone ==>
                stored == old(stored) && vectors == if ok then old(vectors)[document.id := document.content] else old(vectors)
      ensures reliable ==> ok
    {
      Interfere();
      HoldsFirstStays(world, old(vectors), vectors, a, text, i);
      var failed: bool := *;
      if failed && !reliable {
        return false;
      }
      ghost var before := Shared();
      vectors := vectors[document.id := document.content];
      writes := writes + 1;
      PuttingKeeps(world, before, a, text, i);
      ok := true;
    }

    /** `delete(ids=...)` for the chunk numbers `lo` to `hi` of one document; false when it raised. */
    method DeleteRange(a: ArchiveId, lo: nat, hi: nat) returns (ok: bool, ghost done: nat)
      requires Sound() && Spare(world, a, lo, hi) && lo <= hi
      modifies this
      ensures Sound() && Keeps(world, old(vectors), vectors)
      ensures seen == old(seen)
      ensures lo <= done <= hi && (ok ==> done == hi)
      ensures alone ==> stored == old(stored) && vectors == Delete(old(vectors), a, Range(lo, done))
      ensures lo == hi ==> writes == old(writes)
      ensures reliable ==> ok
    {
      assert Delete(vectors, a, Range(lo, lo)) == vectors;
      done := lo;
      for n := lo to hi
        invariant done == n && seen == old(seen)
        invariant Sound() && Keeps(world, old(vectors), vectors)
        invariant alone ==> stored == old(stored) && vectors == Delete(old(vectors), a, Range(lo, n))
        invariant n == lo ==> writes == old(writes)
      {
        Interfere();
        var failed: bool := *;
        if failed && !reliable {
          return false, done;
        }
        ghost var before := Shared();
        vectors := Delete(vectors, a, {n});
        writes := writes + 1;
        assert Keeps(world, before.vectors, vectors);
        InvStays(world, before, vectors);
        DeleteOneMore(old(vectors), a, lo, n);
        done := n + 1;
      }
      ok := true;
    }
  }
}
