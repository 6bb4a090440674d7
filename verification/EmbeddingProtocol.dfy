/** Any number of `embed_bill` calls on one bill, interleaved step by step, with every call to Redis
    or the index free to fail and every writer free to crash between two steps. */
module EmbeddingProtocol {
  import opened Wrappers
  import opened KnowledgeBase

  /** What the writers share: the hash, the chunker, and for every archived id the responses list,
      the texts a writer may be holding for it. A fixed source is one text for each id. */
  datatype World = World(hash: Text -> Hash, chunksOf: Text -> seq<Content>, texts: map<ArchiveId, set<Text>>)

  /** Where one `embed_bill` call is. */
  datatype Pc =
    | AtStart
    | AtVersion(i: nat)
    | Rechecking(i: nat)
    | Upserting(i: nat, written: set<nat>)
    | Trimming(i: nat, deleted: set<nat>)
    | AtOrphans(queue: seq<ArchiveId>)
    | DeletingOrphan(doc: ArchiveId, queue: seq<ArchiveId>, deleted: set<nat>)
    | Storing(latest: Documents)
    | Finished

  /** The local variables of one `embed_bill` call. */
  datatype Writer = Writer(
    versions: seq<Version>, scope: Scope, maxOrphans: Option<nat>, pc: Pc,
    docs: Documents, hadRecord: bool, updates: Documents, removed: Documents, undone: bool)

  type WriterId = nat

  datatype State = State(stored: Option<Record>, vectors: Vectors, writers: map<WriterId, Writer>)

  datatype Step =
    | Launch(id: WriterId, versions: seq<Version>, scope: Scope, maxOrphans: Option<nat>)
    | Crash(id: WriterId)
    | ReadRecord(id: WriterId, ok: bool)
    | Visit(id: WriterId)
    | Recheck(id: WriterId, ok: bool)
    | UpsertSome(id: WriterId, ids: set<nat>)
    | UpsertDone(id: WriterId)
    | TrimSome(id: WriterId, ids: set<nat>)
    | TrimDone(id: WriterId)
    | IngestFails(id: WriterId)
    | QueueOrphans(id: WriterId, queue: seq<ArchiveId>)
    | CheckOrphan(id: WriterId, ok: bool)
    | DeleteOrphanSome(id: WriterId, ids: set<nat>)
    | OrphanDone(id: WriterId)
    | OrphanFails(id: WriterId)
    | Reread(id: WriterId, ok: bool)
    | Store(id: WriterId, applied: bool)

  // ---------------------------------------------------------------------------------------------
  // The steps
  // ---------------------------------------------------------------------------------------------

  /** The responses a writer may hold: known ids come with one of their texts, and a writer that
      removes orphans holds a response that lists every known id. */
  predicate Admits(w: World, versions: seq<Version>, maxOrphans: Option<nat>) {
    && (forall v <- versions :: Embeddable(v) && v.archiveId.value in w.texts ==> VersionText(v) in w.texts[v.archiveId.value])
    && (maxOrphans.Some? ==> w.texts.Keys <= ListedIds(versions))
  }

  /** The end of a version's turn: the stamp, then the next version. */
  function NextVersion(w: World, c: Writer, i: nat): Writer
    requires i < |c.versions|
  {
    var v := c.versions[i];
    var stamped :=
      if Embeddable(v) && NeedsStamp(c.docs, v.archiveId.value, w.hash(VersionText(v)), v.updatedAt) then
        var patch := Entry(None, None, v.updatedAt);
        c.(docs := SetFields(c.docs, v.archiveId.value, patch),
           updates := SetFields(c.updates, v.archiveId.value, patch))
      else c;
    stamped.(pc := AtVersion(i + 1))
  }

  function Ingested(w: World, c: Writer, i: nat): Writer
    requires i < |c.versions| && Embeddable(c.versions[i])
  {
    var a, text := c.versions[i].archiveId.value, VersionText(c.versions[i]);
    var patch := Entry(Some(w.hash(text)), Some(|w.chunksOf(text)|), None);
    NextVersion(w, c.(docs := SetFields(c.docs, a, patch), updates := SetFields(c.updates, a, patch)), i)
  }

  predicate InVersion(c: Writer) {
    && (c.pc.Rechecking? || c.pc.Upserting? || c.pc.Trimming?)
    && c.pc.i < |c.versions| && Embeddable(c.versions[c.pc.i])
  }

  function AllIds(count: nat): set<nat> {
    Range(0, count)
  }

  /** Surplus chunk numbers of the document the writer is on. */
  function SurplusOf(w: World, c: Writer): set<nat>
    requires InVersion(c)
  {
    var v := c.versions[c.pc.i];
    SurplusIds(Count(EntryOf(c.docs, v.archiveId.value)), |w.chunksOf(VersionText(v))|)
  }

  function Write(vectors: Vectors, a: ArchiveId, chunks: seq<Content>, ids: set<nat>): Vectors {
    vectors + map n | n in ids && n < |chunks| :: ChunkKey(a, n) := chunks[n]
  }

  function Delete(vectors: Vectors, a: ArchiveId, ids: set<nat>): Vectors {
    map k | k in vectors && !(k.doc == a && k.n in ids) :: vectors[k]
  }

  /** The effect of one step. A step that is not enabled where the writer is changes nothing, so any
      sequence of steps is a run. */
  function Do(w: World, s: State, step: Step): State {
    match step
    case Launch(id, versions, scope, maxOrphans) =>
      if id !in s.writers && Admits(w, versions, maxOrphans) then
        s.(writers := s.writers[id := Writer(versions, scope, maxOrphans, AtStart, map[], false, map[], map[], false)])
      else s
    case Crash(id) => s.(writers := map q | q in s.writers && q != id :: s.writers[q])
    case _ => if step.id in s.writers then Act(w, s, step) else s
  }

  function Become(s: State, id: WriterId, c: Writer): State {
    s.(writers := s.writers[id := c])
  }

  function ReadRecordAct(w: World, s: State, id: WriterId, ok: bool): State
    requires id in s.writers
  {
    var c := s.writers[id];
    if !c.pc.AtStart? then s
    else
      var docs := if ok then Visible(s.stored) else map[];
      var had := ok && s.stored.Some? && s.stored.value.schema == CACHE_SCHEMA;
      Become(s, id, c.(pc := AtVersion(0), docs := docs, hadRecord := had))
  }

  function VisitAct(w: World, s: State, id: WriterId): State
    requires id in s.writers
  {
    var c := s.writers[id];
    if !(c.pc.AtVersion? && c.pc.i < |c.versions|) then s
    else
      var v := c.versions[c.pc.i];
      if VersionText(v) == "" then Become(s, id, NextVersion(w, c, c.pc.i))
      else if v.archiveId.None? then Become(s, id, NextVersion(w, c, c.pc.i).(undone := true))
      else if && Wanted(c.scope, c.versions, v)
              && EntryOf(c.docs, v.archiveId.value).textHash != Some(w.hash(VersionText(v)))
      then Become(s, id, c.(pc := Rechecking(c.pc.i)))
      else Become(s, id, NextVersion(w, c, c.pc.i))
  }

  function RecheckAct(w: World, s: State, id: WriterId, ok: bool): State
    requires id in s.writers
  {
    var c := s.writers[id];
    if !(c.pc.Rechecking? && InVersion(c)) then s
    else
      var a := c.versions[c.pc.i].archiveId.value;
      var lost := !ok || s.stored.None?;  // a failed read and no record look the same
      if lost && c.hadRecord then Become(s, id, NextVersion(w, c, c.pc.i).(undone := true))
      else
        var current := if lost then None else EntryOf(Visible(s.stored), a).textHash;
        if current != EntryOf(c.docs, a).textHash then Become(s, id, NextVersion(w, c, c.pc.i))  // raced
        else Become(s, id, c.(pc := Upserting(c.pc.i, {})))
  }

  function UpsertSomeAct(w: World, s: State, id: WriterId, ids: set<nat>): State
    requires id in s.writers
  {
    var c := s.writers[id];
    if !(c.pc.Upserting? && InVersion(c)) then s
    else
      var v := c.versions[c.pc.i];
      var chunks := w.chunksOf(VersionText(v));
      var some := ids * AllIds(|chunks|);
      Become(s, id, c.(pc := Upserting(c.pc.i, c.pc.written + some)))
        .(vectors := Write(s.vectors, v.archiveId.value, chunks, some))
  }

  function UpsertDoneAct(w: World, s: State, id: WriterId): State
    requires id in s.writers
  {
    var c := s.writers[id];
    if && c.pc.Upserting? && InVersion(c)
       && c.pc.written == AllIds(|w.chunksOf(VersionText(c.versions[c.pc.i]))|)
    then Become(s, id, c.(pc := Trimming(c.pc.i, {})))
    else s
  }

  function TrimSomeAct(w: World, s: State, id: WriterId, ids: set<nat>): State
    requires id in s.writers
  {
    var c := s.writers[id];
    if !(c.pc.Trimming? && InVersion(c)) then s
    else
      var some := ids * SurplusOf(w, c);
      Become(s, id, c.(pc := Trimming(c.pc.i, c.pc.deleted + some)))
        .(vectors := Delete(s.vectors, c.versions[c.pc.i].archiveId.value, some))
  }

  function TrimDoneAct(w: World, s: State, id: WriterId): State
    requires id in s.writers
  {
    var c := s.writers[id];
    if c.pc.Trimming? && InVersion(c) && c.pc.deleted == SurplusOf(w, c)
    then Become(s, id, Ingested(w, c, c.pc.i))
    else s
  }

  function IngestFailsAct(w: World, s: State, id: WriterId): State
    requires id in s.writers
  {
    var c := s.writers[id];
    if (c.pc.Upserting? || c.pc.Trimming?) && InVersion(c)
    then Become(s, id, NextVersion(w, c, c.pc.i).(undone := true))
    else s
  }

  function QueueOrphansAct(w: World, s: State, id: WriterId, queue: seq<ArchiveId>): State
    requires id in s.writers
  {
    var c := s.writers[id];
    if && c.pc.AtVersion? && c.pc.i == |c.versions|
       && (forall a <- queue :: a in c.docs && a !in ListedIds(c.versions))
       && (queue != [] ==> ListedIds(c.versions) != {})
       && |queue| <= c.maxOrphans.GetOr(0)
    then Become(s, id, c.(pc := AtOrphans(queue)))
    else s
  }

  function CheckOrphanAct(w: World, s: State, id: WriterId, ok: bool): State
    requires id in s.writers
  {
    var c := s.writers[id];
    if !(c.pc.AtOrphans? && c.pc.queue != []) then s
    else
      var a, rest := c.pc.queue[0], c.pc.queue[1..];
      var lost := !ok || s.stored.None?;
      if lost && c.hadRecord then Become(s, id, c.(pc := AtOrphans(rest), undone := true))
      else if lost || a !in Visible(s.stored) || Visible(s.stored)[a] != EntryOf(c.docs, a)
      then Become(s, id, c.(pc := AtOrphans(rest)))  // raced
      else Become(s, id, c.(pc := DeletingOrphan(a, rest, {})))
  }

  function DeleteOrphanSomeAct(w: World, s: State, id: WriterId, ids: set<nat>): State
    requires id in s.writers
  {
    var c := s.writers[id];
    if !c.pc.DeletingOrphan? then s
    else
      var some := ids * AllIds(Count(EntryOf(c.docs, c.pc.doc)));
      Become(s, id, c.(pc := DeletingOrphan(c.pc.doc, c.pc.queue, c.pc.deleted + some)))
        .(vectors := Delete(s.vectors, c.pc.doc, some))
  }

  function OrphanDoneAct(w: World, s: State, id: WriterId): State
    requires id in s.writers
  {
    var c := s.writers[id];
    if c.pc.DeletingOrphan? && c.pc.deleted == AllIds(Count(EntryOf(c.docs, c.pc.doc)))
    then Become(s, id, c.(pc := AtOrphans(c.pc.queue), removed := c.removed[c.pc.doc := EntryOf(c.docs, c.pc.doc)]))
    else s
  }

  function OrphanFailsAct(w: World, s: State, id: WriterId): State
    requires id in s.writers
  {
    var c := s.writers[id];
    if c.pc.DeletingOrphan? then Become(s, id, c.(pc := AtOrphans(c.pc.queue), undone := true)) else s
  }

  function RereadAct(w: World, s: State, id: WriterId, ok: bool): State
    requires id in s.writers
  {
    var c := s.writers[id];
    if !(c.pc.AtOrphans? && c.pc.queue == []) then s
    else if c.undone || (c.updates == map[] && c.removed == map[]) then Become(s, id, c.(pc := Finished))
    else if (!ok || s.stored.None?) && c.hadRecord then Become(s, id, c.(pc := Finished, undone := true))
    else Become(s, id, c.(pc := Storing(if ok then Visible(s.stored) else map[])))
  }

  function StoreAct(w: World, s: State, id: WriterId, applied: bool): State
    requires id in s.writers
  {
    var c := s.writers[id];
    if !c.pc.Storing? then s
    else
      var written := Become(s, id, c.(pc := Finished));
      if applied then written.(stored := Some(Record(CACHE_SCHEMA, Merged(c.pc.latest, c.updates, c.removed))))
      else written.(writers := s.writers[id := c.(pc := Finished, undone := true)])
  }

  function Act(w: World, s: State, step: Step): State
    requires !step.Launch? && !step.Crash? && step.id in s.writers
  {
    match step
    case ReadRecord(id, ok) => ReadRecordAct(w, s, id, ok)
    case Visit(id) => VisitAct(w, s, id)
    case Recheck(id, ok) => RecheckAct(w, s, id, ok)
    case UpsertSome(id, ids) => UpsertSomeAct(w, s, id, ids)
    case UpsertDone(id) => UpsertDoneAct(w, s, id)
    case TrimSome(id, ids) => TrimSomeAct(w, s, id, ids)
    case TrimDone(id) => TrimDoneAct(w, s, id)
    case IngestFails(id) => IngestFailsAct(w, s, id)
    case QueueOrphans(id, queue) => QueueOrphansAct(w, s, id, queue)
    case CheckOrphan(id, ok) => CheckOrphanAct(w, s, id, ok)
    case DeleteOrphanSome(id, ids) => DeleteOrphanSomeAct(w, s, id, ids)
    case OrphanDone(id) => OrphanDoneAct(w, s, id)
    case OrphanFails(id) => OrphanFailsAct(w, s, id)
    case Reread(id, ok) => RereadAct(w, s, id, ok)
    case Store(id, applied) => StoreAct(w, s, id, applied)
  }

  function Run(w: World, s: State, steps: seq<Step>): State
    decreases |steps|
  {
    if steps == [] then s else Run(w, Do(w, s, steps[0]), steps[1..])
  }

  // ---------------------------------------------------------------------------------------------
  // Agreement
  // ---------------------------------------------------------------------------------------------

  predicate HasChunk(vectors: Vectors, a: ArchiveId, n: nat, content: Content) {
    ChunkKey(a, n) in vectors && vectors[ChunkKey(a, n)] == content
  }

  /** The vectors of a document hold all chunks of a text. */
  predicate Holds(vectors: Vectors, a: ArchiveId, chunks: seq<Content>) {
    forall n :: 0 <= n < |chunks| ==> HasChunk(vectors, a, n, chunks[n])
  }

  /** An entry tells the truth: a hash of a text means that text's chunks are the document's chunks. */
  predicate Truthful(w: World, vectors: Vectors, a: ArchiveId, e: Entry) {
    a in w.texts ==>
      forall x <- w.texts[a] :: e.textHash == Some(w.hash(x)) ==>
        e.chunks == Some(|w.chunksOf(x)|) && Holds(vectors, a, w.chunksOf(x))
  }

  /** The record tells the truth about every document. */
  predicate Agrees(w: World, s: State) {
    forall a <- Visible(s.stored) :: Truthful(w, s.vectors, a, Visible(s.stored)[a])
  }
}
