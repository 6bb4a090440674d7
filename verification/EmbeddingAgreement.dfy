/** When the record can be trusted: every interleaving of `embed_bill` calls keeps it truthful exactly
    when the texts its writers may hold are compatible, and a fixed source always is. */
module EmbeddingAgreement {
  import opened Wrappers
  import opened KnowledgeBase
  import opened EmbeddingProtocol

  // ---------------------------------------------------------------------------------------------
  // Compatible texts
  // ---------------------------------------------------------------------------------------------

  /** Two chunk lists a document can switch between without a moment of disagreement: the same list,
      or one that starts with the other and is more than four times as long, so that
      `delete_surplus_chunks` refuses to trim it. */
  predicate Reconcilable(u: seq<Content>, v: seq<Content>) {
    || u == v
    || (u <= v && |v| > 4 * |u|)
    || (v <= u && |u| > 4 * |v|)
  }

  predicate Compatible(w: World) {
    forall a <- w.texts, x <- w.texts[a], y <- w.texts[a] ::
      && Reconcilable(w.chunksOf(x), w.chunksOf(y))
      && (w.hash(x) == w.hash(y) ==> w.chunksOf(x) == w.chunksOf(y))
  }

  /** Trimming a document from this recorded count never reaches a chunk of one of its texts. */
  predicate Harmless(w: World, a: ArchiveId, count: nat) {
    a in w.texts ==>
      forall x <- w.texts[a], y <- w.texts[a], n <- SurplusIds(count, |w.chunksOf(y)|) :: |w.chunksOf(x)| <= n
  }

  // ---------------------------------------------------------------------------------------------
  // The invariant
  // ---------------------------------------------------------------------------------------------

  predicate Good(w: World, vectors: Vectors, a: ArchiveId, e: Entry) {
    Truthful(w, vectors, a, e) && Harmless(w, a, Count(e))
  }

  predicate GoodDocs(w: World, vectors: Vectors, docs: Documents) {
    forall a <- docs :: Good(w, vectors, a, docs[a])
  }

  /** Pending fields: the hash and the count always travel together. */
  predicate GoodUpdates(w: World, vectors: Vectors, updates: Documents) {
    && GoodDocs(w, vectors, updates)
    && forall a <- updates :: updates[a].textHash.Some? == updates[a].chunks.Some?
  }

  predicate GoodPc(w: World, vectors: Vectors, c: Writer) {
    match c.pc
    case Upserting(i, written) =>
      InVersion(c) && c.versions[i].archiveId.value in w.texts ==>
        var chunks := w.chunksOf(VersionText(c.versions[i]));
        forall n <- written :: n < |chunks| ==> HasChunk(vectors, c.versions[i].archiveId.value, n, chunks[n])
    case Trimming(i, _) =>
      InVersion(c) && c.versions[i].archiveId.value in w.texts ==>
        Holds(vectors, c.versions[i].archiveId.value, w.chunksOf(VersionText(c.versions[i])))
    case AtOrphans(queue) => forall a <- queue :: a !in w.texts
    case DeletingOrphan(doc, queue, _) => doc !in w.texts && forall a <- queue :: a !in w.texts
    case Storing(latest) => GoodDocs(w, vectors, latest)
    case _ => true
  }

  predicate GoodWriter(w: World, vectors: Vectors, c: Writer) {
    && Admits(w, c.versions, c.maxOrphans)
    && GoodDocs(w, vectors, c.docs)
    && GoodUpdates(w, vectors, c.updates)
    && (forall a <- c.removed :: a !in w.texts)
    && GoodPc(w, vectors, c)
  }

  predicate Inv(w: World, s: State) {
    && GoodDocs(w, s.vectors, Visible(s.stored))
    && forall id <- s.writers :: GoodWriter(w, s.vectors, s.writers[id])
  }

  // ---------------------------------------------------------------------------------------------
  // Vectors only ever change in ways no held text notices
  // ---------------------------------------------------------------------------------------------

  predicate Keeps(w: World, before: Vectors, after: Vectors) {
    forall a <- w.texts, x <- w.texts[a], n | 0 <= n < |w.chunksOf(x)| ::
      HasChunk(before, a, n, w.chunksOf(x)[n]) ==> HasChunk(after, a, n, w.chunksOf(x)[n])
  }

  lemma GoodDocsStay(w: World, before: Vectors, after: Vectors, docs: Documents)
    requires Keeps(w, before, after) && GoodDocs(w, before, docs)
    ensures GoodDocs(w, after, docs)
  {
    forall a <- docs
      ensures Good(w, after, a, docs[a])
    {
      assert Good(w, before, a, docs[a]);
    }
  }

  lemma GoodWriterStays(w: World, before: Vectors, after: Vectors, c: Writer)
    requires Keeps(w, before, after) && GoodWriter(w, before, c)
    ensures GoodWriter(w, after, c)
  {
    GoodDocsStay(w, before, after, c.docs);
    GoodDocsStay(w, before, after, c.updates);
    if c.pc.Storing? {
      GoodDocsStay(w, before, after, c.pc.latest);
    }
    if InVersion(c) && c.versions[c.pc.i].archiveId.value in w.texts {
      assert VersionText(c.versions[c.pc.i]) in w.texts[c.versions[c.pc.i].archiveId.value];
    }
  }

  /** A change to the vectors that every held text survives leaves the whole invariant in place. */
  lemma InvStays(w: World, s: State, vectors: Vectors)
    requires Inv(w, s) && Keeps(w, s.vectors, vectors)
    ensures Inv(w, s.(vectors := vectors))
  {
    GoodDocsStay(w, s.vectors, vectors, Visible(s.stored));
    forall q <- s.writers
      ensures GoodWriter(w, vectors, s.writers[q])
    {
      GoodWriterStays(w, s.vectors, vectors, s.writers[q]);
    }
  }

  lemma WritingKeeps(w: World, vectors: Vectors, a: ArchiveId, y: Text, ids: set<nat>)
    requires Compatible(w)
    requires a in w.texts ==> y in w.texts[a]
    ensures Keeps(w, vectors, Write(vectors, a, w.chunksOf(y), ids))
  {
    if a in w.texts {
      forall x <- w.texts[a], n | 0 <= n < |w.chunksOf(x)| && n < |w.chunksOf(y)|
        ensures w.chunksOf(x)[n] == w.chunksOf(y)[n]
      {
        assert Reconcilable(w.chunksOf(x), w.chunksOf(y));
      }
    }
  }

  lemma TrimmingKeeps(w: World, vectors: Vectors, a: ArchiveId, y: Text, count: nat, ids: set<nat>)
    requires Harmless(w, a, count)
    requires a in w.texts ==> y in w.texts[a]
    requires ids <= SurplusIds(count, |w.chunksOf(y)|)
    ensures Keeps(w, vectors, Delete(vectors, a, ids))
  {
  }

  /** A count the writers themselves record is harmless: the guard refuses every trim it could start. */
  lemma OwnCountsAreHarmless(w: World, a: ArchiveId, z: Text)
    requires Compatible(w)
    requires a in w.texts ==> z in w.texts[a]
    ensures Harmless(w, a, |w.chunksOf(z)|)
  {
    if a in w.texts {
      forall y <- w.texts[a]
        ensures SurplusIds(|w.chunksOf(z)|, |w.chunksOf(y)|) == {}
      {
        assert Reconcilable(w.chunksOf(z), w.chunksOf(y));
      }
    }
  }

  // ---------------------------------------------------------------------------------------------
  // Every step keeps the invariant
  // ---------------------------------------------------------------------------------------------

  lemma SettingFieldsKeepsGood(w: World, vectors: Vectors, docs: Documents, a: ArchiveId, patch: Entry)
    requires GoodDocs(w, vectors, docs)
    requires Good(w, vectors, a, patch) && patch.textHash.Some? == patch.chunks.Some?
    ensures GoodDocs(w, vectors, SetFields(docs, a, patch))
  {
  }

  lemma SettingFieldsKeepsGoodUpdates(w: World, vectors: Vectors, updates: Documents, a: ArchiveId, patch: Entry)
    requires GoodUpdates(w, vectors, updates)
    requires Good(w, vectors, a, patch) && patch.textHash.Some? == patch.chunks.Some?
    ensures GoodUpdates(w, vectors, SetFields(updates, a, patch))
  {
    SettingFieldsKeepsGood(w, vectors, updates, a, patch);
  }

  lemma NextVersionKeepsGood(w: World, vectors: Vectors, c: Writer, i: nat)
    requires i < |c.versions|
    requires GoodWriter(w, vectors, c)
    ensures GoodWriter(w, vectors, NextVersion(w, c, i))
  {
    var v := c.versions[i];
    if Embeddable(v) && NeedsStamp(c.docs, v.archiveId.value, w.hash(VersionText(v)), v.updatedAt) {
      var patch := Entry(None, None, v.updatedAt);
      SettingFieldsKeepsGood(w, vectors, c.docs, v.archiveId.value, patch);
      SettingFieldsKeepsGoodUpdates(w, vectors, c.updates, v.archiveId.value, patch);
    }
  }

  lemma IngestedFieldsAreGood(w: World, vectors: Vectors, a: ArchiveId, text: Text)
    requires Compatible(w)
    requires a in w.texts ==> text in w.texts[a] && Holds(vectors, a, w.chunksOf(text))
    ensures Good(w, vectors, a, Entry(Some(w.hash(text)), Some(|w.chunksOf(text)|), None))
  {
    OwnCountsAreHarmless(w, a, text);
  }

  lemma IngestedKeepsGood(w: World, vectors: Vectors, c: Writer, i: nat)
    requires Compatible(w)
    requires c.pc.Trimming? && c.pc.i == i && InVersion(c)
    requires GoodWriter(w, vectors, c)
    ensures GoodWriter(w, vectors, Ingested(w, c, i))
  {
    var a, text := c.versions[i].archiveId.value, VersionText(c.versions[i]);
    var patch := Entry(Some(w.hash(text)), Some(|w.chunksOf(text)|), None);
    assert a in w.texts ==> text in w.texts[a];
    IngestedFieldsAreGood(w, vectors, a, text);
    SettingFieldsKeepsGood(w, vectors, c.docs, a, patch);
    SettingFieldsKeepsGoodUpdates(w, vectors, c.updates, a, patch);
    var set_ := c.(pc := AtVersion(i), docs := SetFields(c.docs, a, patch), updates := SetFields(c.updates, a, patch));
    NextVersionKeepsGood(w, vectors, set_, i);
  }

  lemma MergingKeepsGood(w: World, vectors: Vectors, latest: Documents, updates: Documents, removed: Documents)
    requires GoodDocs(w, vectors, latest) && GoodUpdates(w, vectors, updates)
    ensures GoodDocs(w, vectors, Merged(latest, updates, removed))
  {
    forall a <- Merged(latest, updates, removed)
      ensures Good(w, vectors, a, Merged(latest, updates, removed)[a])
    {
      if a in updates {
        SettingFieldsKeepsGood(w, vectors, latest, a, updates[a]);
        assert SetFields(latest, a, updates[a])[a] == Merged(latest, updates, removed)[a];
      }
    }
  }

  /** What one step of one writer may do to what the writers share. */
  predicate Steps(w: World, s: State, s': State, id: WriterId) {
    && Keeps(w, s.vectors, s'.vectors)
    && GoodDocs(w, s'.vectors, Visible(s'.stored))
    && id in s'.writers && GoodWriter(w, s'.vectors, s'.writers[id])
    && s'.writers == s.writers[id := s'.writers[id]]
  }

  lemma LocalStepKeeps(w: World, s: State, id: WriterId, c: Writer)
    requires Inv(w, s) && GoodWriter(w, s.vectors, c)
    ensures Steps(w, s, Become(s, id, c), id)
  {
  }

  /** A step that changes vectors and where the writer is, nothing else. */
  lemma VectorStepKeeps(w: World, s: State, id: WriterId, c: Writer, vectors: Vectors)
    requires Inv(w, s) && Keeps(w, s.vectors, vectors) && GoodWriter(w, vectors, c)
    ensures Steps(w, s, Become(s, id, c).(vectors := vectors), id)
  {
    GoodDocsStay(w, s.vectors, vectors, Visible(s.stored));
  }

  lemma UpsertSomeKeeps(w: World, s: State, id: WriterId, ids: set<nat>)
    requires Compatible(w) && Inv(w, s) && id in s.writers
    ensures Steps(w, s, UpsertSomeAct(w, s, id, ids), id)
  {
    var c := s.writers[id];
    assert GoodWriter(w, s.vectors, c);
    if c.pc.Upserting? && InVersion(c) {
      var a, text := c.versions[c.pc.i].archiveId.value, VersionText(c.versions[c.pc.i]);
      var some := ids * AllIds(|w.chunksOf(text)|);
      var vectors := Write(s.vectors, a, w.chunksOf(text), some);
      WritingKeeps(w, s.vectors, a, text, some);
      GoodWriterStays(w, s.vectors, vectors, c);
      var c' := c.(pc := Upserting(c.pc.i, c.pc.written + some));
      assert GoodPc(w, vectors, c');
      VectorStepKeeps(w, s, id, c', vectors);
    }
  }

  lemma TrimSomeKeeps(w: World, s: State, id: WriterId, ids: set<nat>)
    requires Compatible(w) && Inv(w, s) && id in s.writers
    ensures Steps(w, s, TrimSomeAct(w, s, id, ids), id)
  {
    var c := s.writers[id];
    assert GoodWriter(w, s.vectors, c);
    if c.pc.Trimming? && InVersion(c) {
      var a, text := c.versions[c.pc.i].archiveId.value, VersionText(c.versions[c.pc.i]);
      var e := EntryOf(c.docs, a);
      assert Harmless(w, a, Count(e)) by {
        if a in c.docs {
          assert Good(w, s.vectors, a, c.docs[a]);
        }
      }
      var some := ids * SurplusOf(w, c);
      var vectors := Delete(s.vectors, a, some);
      TrimmingKeeps(w, s.vectors, a, text, Count(e), some);
      GoodWriterStays(w, s.vectors, vectors, c);
      VectorStepKeeps(w, s, id, c.(pc := Trimming(c.pc.i, c.pc.deleted + some)), vectors);
    }
  }

  lemma UpsertDoneKeeps(w: World, s: State, id: WriterId)
    requires Inv(w, s) && id in s.writers
    ensures Steps(w, s, UpsertDoneAct(w, s, id), id)
  {
    var c := s.writers[id];
    assert GoodWriter(w, s.vectors, c);
    if UpsertDoneAct(w, s, id) != s {
      var chunks := w.chunksOf(VersionText(c.versions[c.pc.i]));
      assert forall n :: 0 <= n < |chunks| ==> n in c.pc.written;
      LocalStepKeeps(w, s, id, c.(pc := Trimming(c.pc.i, {})));
    }
  }

  lemma TrimDoneKeeps(w: World, s: State, id: WriterId)
    requires Compatible(w) && Inv(w, s) && id in s.writers
    ensures Steps(w, s, TrimDoneAct(w, s, id), id)
  {
    var c := s.writers[id];
    assert GoodWriter(w, s.vectors, c);
    if c.pc.Trimming? && InVersion(c) {
      IngestedKeepsGood(w, s.vectors, c, c.pc.i);
      LocalStepKeeps(w, s, id, Ingested(w, c, c.pc.i));
    }
  }

  lemma IngestFailsKeeps(w: World, s: State, id: WriterId)
    requires Inv(w, s) && id in s.writers
    ensures Steps(w, s, IngestFailsAct(w, s, id), id)
  {
    var c := s.writers[id];
    assert GoodWriter(w, s.vectors, c);
    if InVersion(c) {
      NextVersionKeepsGood(w, s.vectors, c, c.pc.i);
      LocalStepKeeps(w, s, id, NextVersion(w, c, c.pc.i).(undone := true));
    }
  }

  lemma ReadRecordKeeps(w: World, s: State, id: WriterId, ok: bool)
    requires Inv(w, s) && id in s.writers
    ensures Steps(w, s, ReadRecordAct(w, s, id, ok), id)
  {
    var c := s.writers[id];
    assert GoodWriter(w, s.vectors, c);
    var s' := ReadRecordAct(w, s, id, ok);
    if c.pc.AtStart? {
      var c' := s'.writers[id];
      assert GoodWriter(w, s.vectors, c');
      LocalStepKeeps(w, s, id, c');
    }
  }

  lemma VisitKeeps(w: World, s: State, id: WriterId)
    requires Inv(w, s) && id in s.writers
    ensures Steps(w, s, VisitAct(w, s, id), id)
  {
    var c := s.writers[id];
    assert GoodWriter(w, s.vectors, c);
    if c.pc.AtVersion? && c.pc.i < |c.versions| {
      var next := NextVersion(w, c, c.pc.i);
      NextVersionKeepsGood(w, s.vectors, c, c.pc.i);
      LocalStepKeeps(w, s, id, next);
      LocalStepKeeps(w, s, id, next.(undone := true));
      LocalStepKeeps(w, s, id, c.(pc := Rechecking(c.pc.i)));
    }
  }

  lemma RecheckKeeps(w: World, s: State, id: WriterId, ok: bool)
    requires Inv(w, s) && id in s.writers
    ensures Steps(w, s, RecheckAct(w, s, id, ok), id)
  {
    var c := s.writers[id];
    assert GoodWriter(w, s.vectors, c);
    if c.pc.Rechecking? && InVersion(c) {
      var next := NextVersion(w, c, c.pc.i);
      NextVersionKeepsGood(w, s.vectors, c, c.pc.i);
      LocalStepKeeps(w, s, id, next);
      LocalStepKeeps(w, s, id, next.(undone := true));
      LocalStepKeeps(w, s, id, c.(pc := Upserting(c.pc.i, {})));
    }
  }

  lemma QueueOrphansKeeps(w: World, s: State, id: WriterId, queue: seq<ArchiveId>)
    requires Inv(w, s) && id in s.writers
    ensures Steps(w, s, QueueOrphansAct(w, s, id, queue), id)
  {
    var c := s.writers[id];
    assert GoodWriter(w, s.vectors, c);
    if forall a <- queue :: a !in w.texts {
      LocalStepKeeps(w, s, id, c.(pc := AtOrphans(queue)));
    } else if c.maxOrphans.None? {
      assert |queue| > 0;
    }
  }

  lemma CheckOrphanKeeps(w: World, s: State, id: WriterId, ok: bool)
    requires Inv(w, s) && id in s.writers
    ensures Steps(w, s, CheckOrphanAct(w, s, id, ok), id)
  {
    var c := s.writers[id];
    assert GoodWriter(w, s.vectors, c);
    if c.pc.AtOrphans? && c.pc.queue != [] {
      var a, rest := c.pc.queue[0], c.pc.queue[1..];
      assert a !in w.texts && forall q <- rest :: q !in w.texts;
      LocalStepKeeps(w, s, id, c.(pc := AtOrphans(rest), undone := true));
      LocalStepKeeps(w, s, id, c.(pc := AtOrphans(rest)));
      LocalStepKeeps(w, s, id, c.(pc := DeletingOrphan(a, rest, {})));
    }
  }

  lemma DeleteOrphanSomeKeeps(w: World, s: State, id: WriterId, ids: set<nat>)
    requires Inv(w, s) && id in s.writers
    ensures Steps(w, s, DeleteOrphanSomeAct(w, s, id, ids), id)
  {
    var c := s.writers[id];
    assert GoodWriter(w, s.vectors, c);
    if c.pc.DeletingOrphan? {
      var some := ids * AllIds(Count(EntryOf(c.docs, c.pc.doc)));
      var vectors := Delete(s.vectors, c.pc.doc, some);
      assert Keeps(w, s.vectors, vectors);
      GoodWriterStays(w, s.vectors, vectors, c);
      VectorStepKeeps(w, s, id, c.(pc := DeletingOrphan(c.pc.doc, c.pc.queue, c.pc.deleted + some)), vectors);
    }
  }

  lemma OrphanDoneKeeps(w: World, s: State, id: WriterId)
    requires Inv(w, s) && id in s.writers
    ensures Steps(w, s, OrphanDoneAct(w, s, id), id)
  {
    var c := s.writers[id];
    assert GoodWriter(w, s.vectors, c);
    if c.pc.DeletingOrphan? {
      var removed := c.removed[c.pc.doc := EntryOf(c.docs, c.pc.doc)];
      LocalStepKeeps(w, s, id, c.(pc := AtOrphans(c.pc.queue), removed := removed));
    }
  }

  lemma OrphanFailsKeeps(w: World, s: State, id: WriterId)
    requires Inv(w, s) && id in s.writers
    ensures Steps(w, s, OrphanFailsAct(w, s, id), id)
  {
    var c := s.writers[id];
    assert GoodWriter(w, s.vectors, c);
    if c.pc.DeletingOrphan? {
      LocalStepKeeps(w, s, id, c.(pc := AtOrphans(c.pc.queue), undone := true));
    }
  }

  lemma RereadKeeps(w: World, s: State, id: WriterId, ok: bool)
    requires Inv(w, s) && id in s.writers
    ensures Steps(w, s, RereadAct(w, s, id, ok), id)
  {
    var c := s.writers[id];
    assert GoodWriter(w, s.vectors, c);
    if c.pc.AtOrphans? && c.pc.queue == [] {
      if c.undone || (c.updates == map[] && c.removed == map[]) {
        LocalStepKeeps(w, s, id, c.(pc := Finished));
      } else if (!ok || s.stored.None?) && c.hadRecord {
        LocalStepKeeps(w, s, id, c.(pc := Finished, undone := true));
      } else {
        LocalStepKeeps(w, s, id, c.(pc := Storing(if ok then Visible(s.stored) else map[])));
      }
    }
  }

  lemma StoreKeeps(w: World, s: State, id: WriterId, applied: bool)
    requires Inv(w, s) && id in s.writers
    ensures Steps(w, s, StoreAct(w, s, id, applied), id)
  {
    var c := s.writers[id];
    assert GoodWriter(w, s.vectors, c);
    if c.pc.Storing? {
      MergingKeepsGood(w, s.vectors, c.pc.latest, c.updates, c.removed);
      LocalStepKeeps(w, s, id, c.(pc := Finished));
      LocalStepKeeps(w, s, id, c.(pc := Finished, undone := true));
    }
  }

  lemma VersionStepKeeps(w: World, s: State, step: Step)
    requires Inv(w, s) && step.id in s.writers
    requires step.ReadRecord? || step.Visit? || step.Recheck?
    ensures Steps(w, s, Act(w, s, step), step.id)
  {
    match step {
      case ReadRecord(_, ok) => ReadRecordKeeps(w, s, step.id, ok);
      case Visit(_) => VisitKeeps(w, s, step.id);
      case Recheck(_, ok) => RecheckKeeps(w, s, step.id, ok);
    }
  }

  lemma IngestStepKeeps(w: World, s: State, step: Step)
    requires Compatible(w) && Inv(w, s) && step.id in s.writers
    requires step.UpsertSome? || step.UpsertDone? || step.TrimSome? || step.TrimDone? || step.IngestFails?
    ensures Steps(w, s, Act(w, s, step), step.id)
  {
    match step {
      case UpsertSome(_, ids) => UpsertSomeKeeps(w, s, step.id, ids);
      case UpsertDone(_) => UpsertDoneKeeps(w, s, step.id);
      case TrimSome(_, ids) => TrimSomeKeeps(w, s, step.id, ids);
      case TrimDone(_) => TrimDoneKeeps(w, s, step.id);
      case IngestFails(_) => IngestFailsKeeps(w, s, step.id);
    }
  }

  lemma OrphanStepKeeps(w: World, s: State, step: Step)
    requires Inv(w, s) && step.id in s.writers
    requires step.QueueOrphans? || step.CheckOrphan? || step.DeleteOrphanSome? || step.OrphanDone? || step.OrphanFails?
    ensures Steps(w, s, Act(w, s, step), step.id)
  {
    match step {
      case QueueOrphans(_, queue) => QueueOrphansKeeps(w, s, step.id, queue);
      case CheckOrphan(_, ok) => CheckOrphanKeeps(w, s, step.id, ok);
      case DeleteOrphanSome(_, ids) => DeleteOrphanSomeKeeps(w, s, step.id, ids);
      case OrphanDone(_) => OrphanDoneKeeps(w, s, step.id);
      case OrphanFails(_) => OrphanFailsKeeps(w, s, step.id);
    }
  }

  /** Writers come with nothing recorded, and go without a trace. */
  lemma ComingAndGoingKeeps(w: World, s: State, step: Step)
    requires Inv(w, s) && (step.Launch? || step.Crash?)
    ensures Inv(w, Do(w, s, step)) && Do(w, s, step).vectors == s.vectors
  {
  }

  lemma StepKeepsInv(w: World, s: State, step: Step)
    requires Compatible(w) && Inv(w, s)
    ensures Inv(w, Do(w, s, step)) && Keeps(w, s.vectors, Do(w, s, step).vectors)
  {
    if step.Launch? || step.Crash? {
      ComingAndGoingKeeps(w, s, step);
    } else if step.id in s.writers {
      ActingKeeps(w, s, step);
      OthersStay(w, s, Act(w, s, step), step.id);
    }
  }

  lemma ActingKeeps(w: World, s: State, step: Step)
    requires Compatible(w) && Inv(w, s) && !step.Launch? && !step.Crash? && step.id in s.writers
    ensures Steps(w, s, Act(w, s, step), step.id)
  {
    match step {
      case Reread(_, ok) => RereadKeeps(w, s, step.id, ok);
      case Store(_, applied) => StoreKeeps(w, s, step.id, applied);
      case _ =>
        if step.ReadRecord? || step.Visit? || step.Recheck? {
          VersionStepKeeps(w, s, step);
        } else if step.UpsertSome? || step.UpsertDone? || step.TrimSome? || step.TrimDone? || step.IngestFails? {
          IngestStepKeeps(w, s, step);
        } else {
          OrphanStepKeeps(w, s, step);
        }
    }
  }

  lemma OthersStay(w: World, s: State, s': State, id: WriterId)
    requires Inv(w, s) && Steps(w, s, s', id)
    ensures Inv(w, s') && Keeps(w, s.vectors, s'.vectors)
  {
    forall q <- s'.writers
      ensures GoodWriter(w, s'.vectors, s'.writers[q])
    {
      if q != id {
        GoodWriterStays(w, s.vectors, s'.vectors, s.writers[q]);
      }
    }
  }

  // ---------------------------------------------------------------------------------------------
  // Over whole runs
  // ---------------------------------------------------------------------------------------------

  /** Compatible texts keep the invariant through any interleaving of any number of writers, with any
      calls failing, any upserts and deletes partly done, and crashes between any two steps; and a
      text whose chunks are all there stays there. */
  lemma {:induction false} RunKeepsInv(w: World, s: State, steps: seq<Step>)
    requires Compatible(w) && Inv(w, s)
    ensures Inv(w, Run(w, s, steps)) && Keeps(w, s.vectors, Run(w, s, steps).vectors)
    decreases |steps|
  {
    if steps != [] {
      StepKeepsInv(w, s, steps[0]);
      RunKeepsInv(w, Do(w, s, steps[0]), steps[1..]);
    }
  }

  predicate FixedSource(w: World) {
    forall a <- w.texts, x <- w.texts[a], y <- w.texts[a] :: x == y
  }

  /** With the source fixed, a truthful record stays truthful: at every moment of every run, a recorded
      hash that is the hash of the source's text means that the recorded count is its number of chunks
      and that chunk ids 0..chunks-1 hold exactly those chunks. Nothing is asked of the hash. */
  lemma FixedSourceAlwaysAgrees(w: World, s: State, steps: seq<Step>)
    requires FixedSource(w)
    requires s.writers == map[] && Agrees(w, s)
    ensures Agrees(w, Run(w, s, steps))
  {
    forall a <- w.texts, x <- w.texts[a], y <- w.texts[a]
      ensures Reconcilable(w.chunksOf(x), w.chunksOf(y))
      ensures w.hash(x) == w.hash(y) ==> w.chunksOf(x) == w.chunksOf(y)
    {
      assert x == y;
    }
    forall a <- Visible(s.stored)
      ensures Good(w, s.vectors, a, Visible(s.stored)[a])
    {
      var e := Visible(s.stored)[a];
      if a in w.texts {
        forall x <- w.texts[a], y <- w.texts[a], n <- SurplusIds(Count(e), |w.chunksOf(y)|)
          ensures |w.chunksOf(x)| <= n
        {
          assert x == y;
        }
      }
    }
    RunKeepsInv(w, s, steps);
  }

  const EMPTY := State(None, map[], map[])

  /** No run from an empty store ever shows a record that lies. */
  ghost predicate NeverDisagrees(w: World) {
    forall steps :: Agrees(w, Run(w, EMPTY, steps))
  }
}
