/** One `embed_bill` call alone, in full scope and without orphan removal, with every call free to fail:
    which texts it is sure to record, and which entries of other documents it can lose. */
module LoneWriter {
  import opened Wrappers
  import opened KnowledgeBase
  import opened EmbeddingProtocol
  import opened EmbeddingPass
  import opened PassLaws

  // ---------------------------------------------------------------------------------------------
  // Runs of one writer
  // ---------------------------------------------------------------------------------------------

  /** Steps that this writer takes itself. */
  predicate IsOwn(id: WriterId, step: Step) {
    !step.Launch? && !step.Crash? && step.id == id
  }

  predicate Own(id: WriterId, steps: seq<Step>) {
    forall step <- steps :: IsOwn(id, step)
  }

  function Started(versions: seq<Version>): Writer {
    Writer(versions, AllText, None, AtStart, map[], false, map[], map[], false)
  }

  /** The writer is the only one. */
  function Lone(stored: Option<Record>, vectors: Vectors, id: WriterId, c: Writer): State {
    State(stored, vectors, map[id := c])
  }

  predicate Leaves(end: State, id: WriterId, after: Option<Record>) {
    id in end.writers && end.writers[id].pc == Finished && !end.writers[id].undone && end.stored == after
  }

  /** A call on the bill, with nobody else writing, can end with nothing undone and leave this record. */
  ghost predicate CanLeave(w: World, s: State, id: WriterId, versions: seq<Version>, after: Option<Record>) {
    exists steps: seq<Step> :: Own(id, steps) && Leaves(Run(w, Do(w, s, Launch(id, versions, AllText, None)), steps), id, after)
  }

  lemma Launched(w: World, s: State, id: WriterId, versions: seq<Version>)
    requires s.writers == map[] && Admits(w, versions, None)
    ensures Do(w, s, Launch(id, versions, AllText, None)) == Lone(s.stored, s.vectors, id, Started(versions))
  {
  }

  // ---------------------------------------------------------------------------------------------
  // What such a call is sure to record
  // ---------------------------------------------------------------------------------------------

  /** A text the call can write, for whose document no hash is recorded. */
  predicate Unrecorded(v: Version, recorded: Documents) {
    Embeddable(v) && EntryOf(recorded, v.archiveId.value).textHash == None
  }

  predicate EachRecorded(w: World, versions: seq<Version>, n: nat, recorded: Documents, docs: Documents)
    requires n <= |versions|
  {
    forall j | 0 <= j < n && Unrecorded(versions[j], recorded) :: RecordsText(w, versions[j], docs)
  }

  /** The call has no hash for any such document whose turn is still to come. */
  predicate NoneSeen(versions: seq<Version>, n: nat, recorded: Documents, docs: Documents) {
    forall j | n <= j < |versions| && Unrecorded(versions[j], recorded) ::
      EntryOf(docs, versions[j].archiveId.value).textHash == None
  }

  predicate HasDocument(versions: seq<Version>, a: ArchiveId) {
    exists v <- versions :: Embeddable(v) && v.archiveId.value == a
  }

  /** What the call read at its start. */
  function FirstRead(before: Option<Record>, c: Writer): Documents {
    if c.hadRecord then Visible(before) else map[]
  }

  /** A lone call that started from the record `before`: the turns of the first `n` versions are over, and
      those from the `m`-th on are still to come. */
  predicate Underway(w: World, before: Option<Record>, versions: seq<Version>, n: nat, m: nat, c: Writer)
    requires n <= |versions|
  {
    && c.versions == versions && c.scope == AllText && c.maxOrphans == None && c.removed == map[]
    && c.docs == PatchedAll(FirstRead(before, c), c.updates)
    && (forall a <- c.updates :: HasDocument(versions, a))
    && (!c.undone ==> EachRecorded(w, versions, n, Visible(before), c.docs))
    && NoneSeen(versions, m, Visible(before), c.docs)
  }

  /** It has ended: the record is as it was, or has what the call set. */
  predicate Ended(w: World, before: Option<Record>, versions: seq<Version>, stored: Option<Record>, c: Writer) {
    && (stored == before || (c.updates != map[] && c.updates.Keys <= Visible(stored).Keys))
    && (forall a <- c.updates :: HasDocument(versions, a))
    && (!c.undone ==> EachRecorded(w, versions, |versions|, Visible(before), Visible(stored)))
  }

  /** Where a lone call is. */
  predicate Tracked(w: World, before: Option<Record>, versions: seq<Version>, stored: Option<Record>, c: Writer) {
    match c.pc
    case AtStart => stored == before && c == Started(versions)
    case AtVersion(i) => stored == before && i <= |versions| && Underway(w, before, versions, i, i, c)
    case Rechecking(i) => stored == before && i < |versions| && Underway(w, before, versions, i, i, c)
    case Upserting(i, _) => stored == before && i < |versions| && Underway(w, before, versions, i, i, c)
    case Trimming(i, _) => stored == before && i < |versions| && Underway(w, before, versions, i, i, c)
    case AtOrphans(queue) => stored == before && queue == [] && Underway(w, before, versions, |versions|, |versions|, c)
    case DeletingOrphan(_, _, _) => false
    case Storing(latest) =>
      && stored == before && !c.undone && c.updates != map[]
      && (c.hadRecord ==> latest == Visible(before)) && Underway(w, before, versions, |versions|, |versions|, c)
    case Finished => Ended(w, before, versions, stored, c)
  }

  /** Setting fields of its own document leaves what the call knows of the others. */
  lemma SetsOwn(w: World, before: Option<Record>, versions: seq<Version>, i: nat, m: nat, c: Writer, patch: Entry)
    requires DistinctIds(versions) && i < |versions| && Embeddable(versions[i]) && i <= m <= i + 1
    requires Underway(w, before, versions, i, m, c)
    ensures var a := versions[i].archiveId.value;
            Underway(w, before, versions, i, i + 1, c.(docs := SetFields(c.docs, a, patch), updates := SetFields(c.updates, a, patch)))
  {
    var a := versions[i].archiveId.value;
    SettingThenPatching(FirstRead(before, c), c.updates, a, patch);
    assert HasDocument(versions, a);
  }

  lemma NextVersionFollows(w: World, before: Option<Record>, versions: seq<Version>, i: nat, m: nat, c: Writer)
    requires DistinctIds(versions) && i < |versions| && i <= m <= i + 1
    requires Underway(w, before, versions, i, m, c)
    ensures Underway(w, before, versions, i, i + 1, NextVersion(w, c, i))
  {
    if Embeddable(versions[i]) {
      SetsOwn(w, before, versions, i, m, c, Entry(None, None, versions[i].updatedAt));
    }
  }

  /** The end of a turn leaves the text recorded that the call has for the document, with its stamp. */
  lemma StampFollowsText(w: World, c: Writer, i: nat)
    requires i < |c.versions| && Embeddable(c.versions[i]) && c.versions[i].archiveId.value in c.docs
    requires c.docs[c.versions[i].archiveId.value].textHash == Some(w.hash(VersionText(c.versions[i])))
    ensures RecordsText(w, c.versions[i], NextVersion(w, c, i).docs)
  {
  }

  /** A turn that leaves nothing recorded that it was to record, or leaves something undone. */
  lemma TurnEnds(w: World, before: Option<Record>, versions: seq<Version>, i: nat, c: Writer)
    requires i < |versions| && Underway(w, before, versions, i, i + 1, c)
    requires Unrecorded(versions[i], Visible(before)) && !c.undone ==> RecordsText(w, versions[i], c.docs)
    ensures Underway(w, before, versions, i + 1, i + 1, c)
  {
  }

  lemma UndoneStays(w: World, before: Option<Record>, versions: seq<Version>, i: nat, c: Writer)
    requires DistinctIds(versions) && i < |versions| && Underway(w, before, versions, i, i, c)
    ensures Underway(w, before, versions, i + 1, i + 1, NextVersion(w, c, i).(undone := true))
  {
    NextVersionFollows(w, before, versions, i, i, c);
    TurnEnds(w, before, versions, i, NextVersion(w, c, i).(undone := true));
  }

  lemma SkippedStays(w: World, before: Option<Record>, versions: seq<Version>, i: nat, c: Writer)
    requires DistinctIds(versions) && i < |versions| && Underway(w, before, versions, i, i, c)
    requires !Unrecorded(versions[i], Visible(before))
    ensures Underway(w, before, versions, i + 1, i + 1, NextVersion(w, c, i))
  {
    NextVersionFollows(w, before, versions, i, i, c);
    TurnEnds(w, before, versions, i, NextVersion(w, c, i));
  }

  lemma IngestedStays(w: World, before: Option<Record>, versions: seq<Version>, i: nat, c: Writer)
    requires DistinctIds(versions) && i < |versions| && Embeddable(versions[i]) && Underway(w, before, versions, i, i, c)
    ensures Underway(w, before, versions, i + 1, i + 1, Ingested(w, c, i))
  {
    var a, text := versions[i].archiveId.value, VersionText(versions[i]);
    var patch := Entry(Some(w.hash(text)), Some(|w.chunksOf(text)|), None);
    var written := c.(docs := SetFields(c.docs, a, patch), updates := SetFields(c.updates, a, patch));
    SetsOwn(w, before, versions, i, i, c, patch);
    NextVersionFollows(w, before, versions, i, i + 1, written);
    StampFollowsText(w, written, i);
    TurnEnds(w, before, versions, i, Ingested(w, c, i));
  }

  /** The state of a lone call that is tracked. */
  predicate LoneTracked(w: World, before: Option<Record>, versions: seq<Version>, id: WriterId, s: State) {
    s.writers.Keys == {id} && Tracked(w, before, versions, s.stored, s.writers[id])
  }

  lemma BecomingStays(w: World, before: Option<Record>, versions: seq<Version>, s: State, id: WriterId, c: Writer, next: Writer,
                      stored: Option<Record>, vectors: Vectors)
    requires s.writers == map[id := c] && Tracked(w, before, versions, stored, next)
    ensures LoneTracked(w, before, versions, id, Become(s, id, next).(stored := stored, vectors := vectors))
  {
  }

  lemma ReadStays(w: World, before: Option<Record>, versions: seq<Version>, s: State, id: WriterId, c: Writer, ok: bool)
    requires s.writers == map[id := c] && Tracked(w, before, versions, s.stored, c)
    ensures LoneTracked(w, before, versions, id, ReadRecordAct(w, s, id, ok))
  {
    if c.pc.AtStart? {
      var docs := if ok then Visible(s.stored) else map[];
      var had := ok && s.stored.Some? && s.stored.value.schema == CACHE_SCHEMA;
      var next := c.(pc := AtVersion(0), docs := docs, hadRecord := had);
      assert PatchedAll(FirstRead(before, next), map[]) == FirstRead(before, next);
      BecomingStays(w, before, versions, s, id, c, next, s.stored, s.vectors);
    }
  }

  /** Where the turn of version `i` can take the writer: on to the next version, with nothing to record or
      with something undone, or further into the turn. */
  predicate Turns(w: World, before: Option<Record>, i: nat, c: Writer, next: Writer)
    requires i < |c.versions|
  {
    || next == NextVersion(w, c, i).(undone := true)
    || (next == NextVersion(w, c, i) && !Unrecorded(c.versions[i], Visible(before)))
    || (next.pc.Rechecking? && next.pc.i == i && next == c.(pc := next.pc))
    || (next.pc.Upserting? && next.pc.i == i && next == c.(pc := next.pc))
    || (next.pc.Trimming? && next.pc.i == i && next == c.(pc := next.pc))
    || (Embeddable(c.versions[i]) && next == Ingested(w, c, i))
  }

  lemma TurningStays(w: World, before: Option<Record>, versions: seq<Version>, i: nat, c: Writer, next: Writer)
    requires DistinctIds(versions) && i < |versions| && Underway(w, before, versions, i, i, c) && Turns(w, before, i, c, next)
    ensures Tracked(w, before, versions, before, next)
  {
    UndoneStays(w, before, versions, i, c);
    if !Unrecorded(versions[i], Visible(before)) {
      SkippedStays(w, before, versions, i, c);
    }
    if Embeddable(versions[i]) {
      IngestedStays(w, before, versions, i, c);
    }
  }

  lemma TurnedStays(w: World, before: Option<Record>, versions: seq<Version>, s: State, id: WriterId, c: Writer, i: nat,
                    next: Writer, vectors: Vectors)
    requires DistinctIds(versions) && i < |versions| && Underway(w, before, versions, i, i, c) && Turns(w, before, i, c, next)
    requires s.writers == map[id := c] && s.stored == before
    ensures LoneTracked(w, before, versions, id, Become(s, id, next).(vectors := vectors))
  {
    TurningStays(w, before, versions, i, c, next);
    BecomingStays(w, before, versions, s, id, c, next, s.stored, vectors);
  }

  /** Where a visit takes the writer. */
  function AfterVisit(w: World, c: Writer, i: nat): Writer
    requires i < |c.versions|
  {
    var v := c.versions[i];
    if VersionText(v) != "" && v.archiveId == None then NextVersion(w, c, i).(undone := true)
    else if && Embeddable(v) && Wanted(c.scope, c.versions, v)
            && EntryOf(c.docs, v.archiveId.value).textHash != Some(w.hash(VersionText(v)))
    then c.(pc := Rechecking(i))
    else NextVersion(w, c, i)
  }

  lemma VisitTakesTo(w: World, s: State, id: WriterId)
    requires id in s.writers && s.writers[id].pc.AtVersion? && s.writers[id].pc.i < |s.writers[id].versions|
    ensures VisitAct(w, s, id) == Become(s, id, AfterVisit(w, s.writers[id], s.writers[id].pc.i))
  {
  }

  lemma VisitTurns(w: World, before: Option<Record>, versions: seq<Version>, c: Writer, i: nat)
    requires i < |versions| && Underway(w, before, versions, i, i, c)
    ensures Turns(w, before, i, c, AfterVisit(w, c, i))
  {
    if Unrecorded(versions[i], Visible(before)) {
      assert EntryOf(c.docs, versions[i].archiveId.value).textHash == None;
    }
  }

  lemma VisitStays(w: World, before: Option<Record>, versions: seq<Version>, s: State, id: WriterId, c: Writer)
    requires DistinctIds(versions) && s.writers == map[id := c] && Tracked(w, before, versions, s.stored, c)
    ensures LoneTracked(w, before, versions, id, VisitAct(w, s, id))
  {
    if c.pc.AtVersion? && c.pc.i < |versions| {
      VisitTakesTo(w, s, id);
      VisitTurns(w, before, versions, c, c.pc.i);
      TurnedStays(w, before, versions, s, id, c, c.pc.i, AfterVisit(w, c, c.pc.i), s.vectors);
    }
  }

  lemma RecheckStays(w: World, before: Option<Record>, versions: seq<Version>, s: State, id: WriterId, c: Writer, ok: bool)
    requires DistinctIds(versions) && s.writers == map[id := c] && Tracked(w, before, versions, s.stored, c)
    ensures LoneTracked(w, before, versions, id, RecheckAct(w, s, id, ok))
  {
    if c.pc.Rechecking? && InVersion(c) {
      var i, v := c.pc.i, versions[c.pc.i];
      assert Unrecorded(v, Visible(before)) ==> EntryOf(c.docs, v.archiveId.value).textHash == None;
      var lost := !ok || s.stored.None?;
      var current := if lost then None else EntryOf(Visible(s.stored), v.archiveId.value).textHash;
      var next :=
        if lost && c.hadRecord then NextVersion(w, c, i).(undone := true)
        else if current != EntryOf(c.docs, v.archiveId.value).textHash then NextVersion(w, c, i)
        else c.(pc := Upserting(i, {}));
      assert RecheckAct(w, s, id, ok) == Become(s, id, next);
      TurnedStays(w, before, versions, s, id, c, i, next, s.vectors);
    }
  }

  lemma UpsertSomeStays(w: World, before: Option<Record>, versions: seq<Version>, s: State, id: WriterId, c: Writer, ids: set<nat>)
    requires DistinctIds(versions) && s.writers == map[id := c] && Tracked(w, before, versions, s.stored, c)
    ensures LoneTracked(w, before, versions, id, UpsertSomeAct(w, s, id, ids))
  {
    if c.pc.Upserting? && InVersion(c) {
      var i, after := c.pc.i, UpsertSomeAct(w, s, id, ids);
      var some := ids * AllIds(|w.chunksOf(VersionText(versions[i]))|);
      TurnedStays(w, before, versions, s, id, c, i, c.(pc := Upserting(i, c.pc.written + some)), after.vectors);
    }
  }

  lemma UpsertDoneStays(w: World, before: Option<Record>, versions: seq<Version>, s: State, id: WriterId, c: Writer)
    requires DistinctIds(versions) && s.writers == map[id := c] && Tracked(w, before, versions, s.stored, c)
    ensures LoneTracked(w, before, versions, id, UpsertDoneAct(w, s, id))
  {
    if c.pc.Upserting? && InVersion(c) {
      TurnedStays(w, before, versions, s, id, c, c.pc.i, c.(pc := Trimming(c.pc.i, {})), s.vectors);
    }
  }

  lemma TrimSomeStays(w: World, before: Option<Record>, versions: seq<Version>, s: State, id: WriterId, c: Writer, ids: set<nat>)
    requires DistinctIds(versions) && s.writers == map[id := c] && Tracked(w, before, versions, s.stored, c)
    ensures LoneTracked(w, before, versions, id, TrimSomeAct(w, s, id, ids))
  {
    if c.pc.Trimming? && InVersion(c) {
      var i, after := c.pc.i, TrimSomeAct(w, s, id, ids);
      TurnedStays(w, before, versions, s, id, c, i, c.(pc := Trimming(i, c.pc.deleted + ids * SurplusOf(w, c))), after.vectors);
    }
  }

  lemma TrimDoneStays(w: World, before: Option<Record>, versions: seq<Version>, s: State, id: WriterId, c: Writer)
    requires DistinctIds(versions) && s.writers == map[id := c] && Tracked(w, before, versions, s.stored, c)
    ensures LoneTracked(w, before, versions, id, TrimDoneAct(w, s, id))
  {
    if c.pc.Trimming? && InVersion(c) {
      TurnedStays(w, before, versions, s, id, c, c.pc.i, Ingested(w, c, c.pc.i), s.vectors);
    }
  }

  lemma IngestFailsStays(w: World, before: Option<Record>, versions: seq<Version>, s: State, id: WriterId, c: Writer)
    requires DistinctIds(versions) && s.writers == map[id := c] && Tracked(w, before, versions, s.stored, c)
    ensures LoneTracked(w, before, versions, id, IngestFailsAct(w, s, id))
  {
    if (c.pc.Upserting? || c.pc.Trimming?) && InVersion(c) {
      TurnedStays(w, before, versions, s, id, c, c.pc.i, NextVersion(w, c, c.pc.i).(undone := true), s.vectors);
    }
  }

  lemma QueueOrphansStays(w: World, before: Option<Record>, versions: seq<Version>, s: State, id: WriterId, c: Writer, queue: seq<ArchiveId>)
    requires s.writers == map[id := c] && Tracked(w, before, versions, s.stored, c)
    ensures LoneTracked(w, before, versions, id, QueueOrphansAct(w, s, id, queue))
  {
    if c.pc.AtVersion? && c.pc.i == |versions| && queue == [] {
      BecomingStays(w, before, versions, s, id, c, c.(pc := AtOrphans([])), s.stored, s.vectors);
    }
  }

  lemma RereadStays(w: World, before: Option<Record>, versions: seq<Version>, s: State, id: WriterId, c: Writer, ok: bool)
    requires s.writers == map[id := c] && Tracked(w, before, versions, s.stored, c)
    ensures LoneTracked(w, before, versions, id, RereadAct(w, s, id, ok))
  {
    if c.pc.AtOrphans? {
      if c.updates == map[] {
        assert c.docs == FirstRead(before, c);
        assert !c.undone ==> EachRecorded(w, versions, |versions|, Visible(before), Visible(before));
      }
      if c.undone || c.updates == map[] {
        BecomingStays(w, before, versions, s, id, c, c.(pc := Finished), s.stored, s.vectors);
      } else {
        var latest := if ok then Visible(s.stored) else map[];
        BecomingStays(w, before, versions, s, id, c, c.(pc := Finished, undone := true), s.stored, s.vectors);
        if c.hadRecord ==> ok {
          BecomingStays(w, before, versions, s, id, c, c.(pc := Storing(latest)), s.stored, s.vectors);
        }
      }
    }
  }

  lemma StoreStays(w: World, before: Option<Record>, versions: seq<Version>, s: State, id: WriterId, c: Writer, applied: bool)
    requires s.writers == map[id := c] && Tracked(w, before, versions, s.stored, c)
    ensures LoneTracked(w, before, versions, id, StoreAct(w, s, id, applied))
  {
    if c.pc.Storing? {
      var after := Merged(c.pc.latest, c.updates, map[]);
      forall j | 0 <= j < |versions| && Unrecorded(versions[j], Visible(before))
        ensures RecordsText(w, versions[j], after)
      {
        assert RecordsText(w, versions[j], c.docs);
        SetFieldsSurvive(w, versions[j], FirstRead(before, c), c.pc.latest, c.updates);
      }
      BecomingStays(w, before, versions, s, id, c, c.(pc := Finished, undone := true), s.stored, s.vectors);
      BecomingStays(w, before, versions, s, id, c, c.(pc := Finished), Some(Record(CACHE_SCHEMA, after)), s.vectors);
    }
  }

  /** What the call has of a text is in the record it writes, if it merges onto what it read first, or read
      nothing then. */
  lemma SetFieldsSurvive(w: World, v: Version, first: Documents, latest: Documents, updates: Documents)
    requires Embeddable(v) && RecordsText(w, v, PatchedAll(first, updates))
    requires first == map[] || latest == first
    ensures RecordsText(w, v, Merged(latest, updates, map[]))
  {
  }

  /** A step in the middle of a version. */
  predicate IsTurn(step: Step) {
    step.Visit? || step.Recheck? || step.UpsertSome? || step.UpsertDone? || step.TrimSome? || step.TrimDone? || step.IngestFails?
  }

  lemma TurnStays(w: World, before: Option<Record>, versions: seq<Version>, s: State, id: WriterId, c: Writer, step: Step)
    requires DistinctIds(versions) && IsOwn(id, step) && s.writers == map[id := c] && Tracked(w, before, versions, s.stored, c)
    requires IsTurn(step)
    ensures LoneTracked(w, before, versions, id, Act(w, s, step))
  {
    match step {
      case Visit(_) => VisitStays(w, before, versions, s, id, c);
      case Recheck(_, ok) => RecheckStays(w, before, versions, s, id, c, ok);
      case UpsertSome(_, ids) => UpsertSomeStays(w, before, versions, s, id, c, ids);
      case UpsertDone(_) => UpsertDoneStays(w, before, versions, s, id, c);
      case TrimSome(_, ids) => TrimSomeStays(w, before, versions, s, id, c, ids);
      case TrimDone(_) => TrimDoneStays(w, before, versions, s, id, c);
      case IngestFails(_) => IngestFailsStays(w, before, versions, s, id, c);
    }
  }

  /** Every step of a lone call keeps track. */
  lemma StepStays(w: World, before: Option<Record>, versions: seq<Version>, s: State, id: WriterId, c: Writer, step: Step)
    requires DistinctIds(versions) && IsOwn(id, step) && s.writers == map[id := c] && Tracked(w, before, versions, s.stored, c)
    ensures LoneTracked(w, before, versions, id, Act(w, s, step))
  {
    if IsTurn(step) {
      TurnStays(w, before, versions, s, id, c, step);
    } else {
      match step {
        case ReadRecord(_, ok) => ReadStays(w, before, versions, s, id, c, ok);
        case QueueOrphans(_, queue) => QueueOrphansStays(w, before, versions, s, id, c, queue);
        case Reread(_, ok) => RereadStays(w, before, versions, s, id, c, ok);
        case Store(_, applied) => StoreStays(w, before, versions, s, id, c, applied);
        case _ =>  // there is no orphan to remove
      }
    }
  }

  lemma {:induction false} RunStays(w: World, before: Option<Record>, versions: seq<Version>, s: State, id: WriterId, c: Writer, steps: seq<Step>)
    requires DistinctIds(versions) && Own(id, steps) && s.writers == map[id := c] && Tracked(w, before, versions, s.stored, c)
    ensures LoneTracked(w, before, versions, id, Run(w, s, steps))
    decreases |steps|
  {
    if steps != [] {
      var next := Do(w, s, steps[0]);
      StepStays(w, before, versions, s, id, c, steps[0]);
      assert next.writers == map[id := next.writers[id]];
      RunStays(w, before, versions, next, id, next.writers[id], steps[1..]);
    }
  }

  /** However its reads fail, a call that ends with nothing undone has recorded every text for whose
      document no hash was recorded, and if it wrote the record at all, a document of the bill is in it. */
  lemma UnrecordedTextsAreRecorded(w: World, s: State, id: WriterId, versions: seq<Version>, after: Option<Record>)
    requires s.writers == map[] && Admits(w, versions, None) && DistinctIds(versions)
    requires CanLeave(w, s, id, versions, after)
    ensures EachRecorded(w, versions, |versions|, Visible(s.stored), Visible(after))
    ensures after == s.stored || exists a <- Visible(after) :: HasDocument(versions, a)
  {
    Launched(w, s, id, versions);
    var steps: seq<Step> :| Own(id, steps) && Leaves(Run(w, Do(w, s, Launch(id, versions, AllText, None)), steps), id, after);
    RunStays(w, s.stored, versions, Lone(s.stored, s.vectors, id, Started(versions)), id, Started(versions), steps);
    var c := Run(w, Lone(s.stored, s.vectors, id, Started(versions)), steps).writers[id];
    if after != s.stored {
      var a :| a in c.updates;
      assert a in Visible(after) && HasDocument(versions, a);
    }
  }

  // ---------------------------------------------------------------------------------------------
  // A run in which the record is never read but for some documents
  // ---------------------------------------------------------------------------------------------

  /** Some steps of its own take the writer from one state to the other. */
  ghost predicate Gets(w: World, id: WriterId, s: State, next: State) {
    exists steps: seq<Step> :: Own(id, steps) && Run(w, s, steps) == next
  }

  lemma {:induction false} RunInTwo(w: World, s: State, first: seq<Step>, last: seq<Step>)
    ensures Run(w, s, first + last) == Run(w, Run(w, s, first), last)
    decreases |first|
  {
    if first == [] {
      assert first + last == last;
    } else {
      RunInTwo(w, Do(w, s, first[0]), first[1..], last);
      assert (first + last)[1..] == first[1..] + last;
    }
  }

  lemma GetsNowhere(w: World, id: WriterId, s: State)
    ensures Gets(w, id, s, s)
  {
    assert Own(id, []) && Run(w, s, []) == s;
  }

  lemma GetsFurther(w: World, id: WriterId, s: State, middle: State, next: State)
    requires Gets(w, id, s, middle) && Gets(w, id, middle, next)
    ensures Gets(w, id, s, next)
  {
    var first: seq<Step> :| Own(id, first) && Run(w, s, first) == middle;
    var last: seq<Step> :| Own(id, last) && Run(w, middle, last) == next;
    RunInTwo(w, s, first, last);
    assert Own(id, first + last);
  }

  /** One step of the lone writer. */
  lemma Steps1(w: World, s: State, id: WriterId, stored: Option<Record>, vectors: Vectors, c: Writer, step: Step,
               stored': Option<Record>, vectors': Vectors, c': Writer)
    requires Gets(w, id, s, Lone(stored, vectors, id, c)) && IsOwn(id, step)
    requires Act(w, Lone(stored, vectors, id, c), step)
             == Become(Lone(stored, vectors, id, c), id, c').(stored := stored', vectors := vectors')
    ensures Gets(w, id, s, Lone(stored', vectors', id, c'))
  {
    var here, there := Lone(stored, vectors, id, c), Lone(stored', vectors', id, c');
    assert map[id := c][id := c'] == map[id := c'];
    assert Run(w, here, [step]) == Run(w, Do(w, here, step), []) && Own(id, [step]);
    assert Gets(w, id, here, there);
    GetsFurther(w, id, s, here, there);
  }

  /** The re-read before the write finds the hash that is recorded, and the call has seen none. */
  predicate Races(v: Version, recorded: Documents, seen: set<ArchiveId>)
    requires Embeddable(v)
  {
    v.archiveId.value in seen && EntryOf(recorded, v.archiveId.value).textHash.Some?
  }

  /** The fields a call sets for a text it writes from nothing. */
  function AllFields(w: World, v: Version): Entry {
    Entry(Some(w.hash(VersionText(v))), Some(|w.chunksOf(VersionText(v))|),
          if v.updatedAt.Some? && v.updatedAt.value != "" then v.updatedAt else None)
  }

  /** What a blind call has set after `i` versions: its first read failed, and of the re-reads those
      succeed that are for the documents `seen`. */
  function BlindDocs(w: World, versions: seq<Version>, recorded: Documents, seen: set<ArchiveId>, i: nat): Documents
    requires i <= |versions|
  {
    if i == 0 then map[]
    else
      var v, before := versions[i - 1], BlindDocs(w, versions, recorded, seen, i - 1);
      if Embeddable(v) && !Races(v, recorded, seen) then before[v.archiveId.value := AllFields(w, v)] else before
  }

  predicate Writes(versions: seq<Version>, recorded: Documents, seen: set<ArchiveId>, j: nat, a: ArchiveId)
    requires j < |versions|
  {
    Embeddable(versions[j]) && versions[j].archiveId.value == a && !Races(versions[j], recorded, seen)
  }

  lemma {:induction false} BlindDocsAre(w: World, versions: seq<Version>, recorded: Documents, seen: set<ArchiveId>, i: nat, a: ArchiveId)
    requires i <= |versions|
    ensures a in BlindDocs(w, versions, recorded, seen, i) <==> exists j | 0 <= j < i :: Writes(versions, recorded, seen, j, a)
  {
    if i > 0 {
      BlindDocsAre(w, versions, recorded, seen, i - 1, a);
      assert Writes(versions, recorded, seen, i - 1, a)
             <==> Embeddable(versions[i - 1]) && versions[i - 1].archiveId.value == a && !Races(versions[i - 1], recorded, seen);
    }
  }

  function Blind(w: World, versions: seq<Version>, recorded: Documents, seen: set<ArchiveId>, i: nat, pc: Pc): Writer
    requires i <= |versions|
  {
    var docs := BlindDocs(w, versions, recorded, seen, i);
    Started(versions).(pc := pc, docs := docs, updates := docs)
  }

  /** Before a version's turn nothing is set for its document. */
  lemma NotSetYet(w: World, versions: seq<Version>, recorded: Documents, seen: set<ArchiveId>, i: nat)
    requires DistinctIds(versions) && i < |versions| && Embeddable(versions[i])
    ensures versions[i].archiveId.value !in BlindDocs(w, versions, recorded, seen, i)
  {
    BlindDocsAre(w, versions, recorded, seen, i, versions[i].archiveId.value);
  }

  lemma BlindSkips(w: World, s: State, id: WriterId, versions: seq<Version>, stored: Option<Record>, vectors: Vectors, seen: set<ArchiveId>, i: nat)
    requires i < |versions| && VersionText(versions[i]) == ""
    requires Gets(w, id, s, Lone(stored, vectors, id, Blind(w, versions, Visible(stored), seen, i, AtVersion(i))))
    ensures Gets(w, id, s, Lone(stored, vectors, id, Blind(w, versions, Visible(stored), seen, i + 1, AtVersion(i + 1))))
  {
    Steps1(w, s, id, stored, vectors, Blind(w, versions, Visible(stored), seen, i, AtVersion(i)), Visit(id),
           stored, vectors, Blind(w, versions, Visible(stored), seen, i + 1, AtVersion(i + 1)));
  }

  lemma BlindVisits(w: World, s: State, id: WriterId, versions: seq<Version>, stored: Option<Record>, vectors: Vectors, seen: set<ArchiveId>, i: nat)
    requires DistinctIds(versions) && i < |versions| && Embeddable(versions[i])
    requires Gets(w, id, s, Lone(stored, vectors, id, Blind(w, versions, Visible(stored), seen, i, AtVersion(i))))
    ensures Gets(w, id, s, Lone(stored, vectors, id, Blind(w, versions, Visible(stored), seen, i, Rechecking(i))))
  {
    NotSetYet(w, versions, Visible(stored), seen, i);
    Steps1(w, s, id, stored, vectors, Blind(w, versions, Visible(stored), seen, i, AtVersion(i)), Visit(id),
           stored, vectors, Blind(w, versions, Visible(stored), seen, i, Rechecking(i)));
  }

  lemma BlindRaces(w: World, s: State, id: WriterId, versions: seq<Version>, stored: Option<Record>, vectors: Vectors, seen: set<ArchiveId>, i: nat)
    requires DistinctIds(versions) && i < |versions| && Embeddable(versions[i]) && Races(versions[i], Visible(stored), seen)
    requires Gets(w, id, s, Lone(stored, vectors, id, Blind(w, versions, Visible(stored), seen, i, Rechecking(i))))
    ensures Gets(w, id, s, Lone(stored, vectors, id, Blind(w, versions, Visible(stored), seen, i + 1, AtVersion(i + 1))))
  {
    NotSetYet(w, versions, Visible(stored), seen, i);
    Steps1(w, s, id, stored, vectors, Blind(w, versions, Visible(stored), seen, i, Rechecking(i)), Recheck(id, true),
           stored, vectors, Blind(w, versions, Visible(stored), seen, i + 1, AtVersion(i + 1)));
  }

  lemma BlindGoesOn(w: World, s: State, id: WriterId, versions: seq<Version>, stored: Option<Record>, vectors: Vectors, seen: set<ArchiveId>, i: nat)
    requires DistinctIds(versions) && i < |versions| && Embeddable(versions[i]) && !Races(versions[i], Visible(stored), seen)
    requires Gets(w, id, s, Lone(stored, vectors, id, Blind(w, versions, Visible(stored), seen, i, Rechecking(i))))
    ensures Gets(w, id, s, Lone(stored, vectors, id, Blind(w, versions, Visible(stored), seen, i, Upserting(i, {}))))
  {
    NotSetYet(w, versions, Visible(stored), seen, i);
    var ok := versions[i].archiveId.value in seen;
    Steps1(w, s, id, stored, vectors, Blind(w, versions, Visible(stored), seen, i, Rechecking(i)), Recheck(id, ok),
           stored, vectors, Blind(w, versions, Visible(stored), seen, i, Upserting(i, {})));
  }

  lemma BlindUploads(w: World, s: State, id: WriterId, versions: seq<Version>, stored: Option<Record>, vectors: Vectors, seen: set<ArchiveId>, i: nat)
    returns (vectors': Vectors)
    requires i < |versions| && Embeddable(versions[i])
    requires Gets(w, id, s, Lone(stored, vectors, id, Blind(w, versions, Visible(stored), seen, i, Upserting(i, {}))))
    ensures Gets(w, id, s, Lone(stored, vectors', id, Blind(w, versions, Visible(stored), seen, i, Trimming(i, {}))))
  {
    var chunks := w.chunksOf(VersionText(versions[i]));
    var ids := AllIds(|chunks|);
    vectors' := Write(vectors, versions[i].archiveId.value, chunks, ids);
    var c, c' := Blind(w, versions, Visible(stored), seen, i, Upserting(i, {})), Blind(w, versions, Visible(stored), seen, i, Upserting(i, ids));
    assert ids * ids == ids && {} + ids == ids && InVersion(c) && InVersion(c');
    Steps1(w, s, id, stored, vectors, c, UpsertSome(id, ids), stored, vectors', c');
    Steps1(w, s, id, stored, vectors', c', UpsertDone(id), stored, vectors', Blind(w, versions, Visible(stored), seen, i, Trimming(i, {})));
  }

  lemma BlindIngests(w: World, s: State, id: WriterId, versions: seq<Version>, stored: Option<Record>, vectors: Vectors, seen: set<ArchiveId>, i: nat)
    requires DistinctIds(versions) && i < |versions| && Embeddable(versions[i]) && !Races(versions[i], Visible(stored), seen)
    requires Gets(w, id, s, Lone(stored, vectors, id, Blind(w, versions, Visible(stored), seen, i, Trimming(i, {}))))
    ensures Gets(w, id, s, Lone(stored, vectors, id, Blind(w, versions, Visible(stored), seen, i + 1, AtVersion(i + 1))))
  {
    NotSetYet(w, versions, Visible(stored), seen, i);
    var c := Blind(w, versions, Visible(stored), seen, i, Trimming(i, {}));
    assert InVersion(c) && SurplusOf(w, c) == {};
    IngestsAllFields(w, c, i);
    Steps1(w, s, id, stored, vectors, c, TrimDone(id), stored, vectors, Blind(w, versions, Visible(stored), seen, i + 1, AtVersion(i + 1)));
  }

  lemma IngestsAllFields(w: World, c: Writer, i: nat)
    requires i < |c.versions| && Embeddable(c.versions[i]) && c.versions[i].archiveId.value !in c.docs && c.updates == c.docs
    ensures var docs := c.docs[c.versions[i].archiveId.value := AllFields(w, c.versions[i])];
            Ingested(w, c, i) == c.(pc := AtVersion(i + 1), docs := docs, updates := docs)
  {
  }

  /** The whole loop. */
  lemma {:induction false} BlindLoop(w: World, s: State, id: WriterId, versions: seq<Version>, seen: set<ArchiveId>, i: nat)
    returns (vectors: Vectors)
    requires DistinctIds(versions) && IdsPresent(versions) && i <= |versions| && s == Lone(s.stored, s.vectors, id, Started(versions))
    ensures Gets(w, id, s, Lone(s.stored, vectors, id, Blind(w, versions, Visible(s.stored), seen, i, AtVersion(i))))
  {
    if i == 0 {
      GetsNowhere(w, id, s);
      Steps1(w, s, id, s.stored, s.vectors, Started(versions), ReadRecord(id, false), s.stored, s.vectors,
             Blind(w, versions, Visible(s.stored), seen, 0, AtVersion(0)));
      return s.vectors;
    }
    vectors := BlindLoop(w, s, id, versions, seen, i - 1);
    assert versions[i - 1] in versions;
    if !Embeddable(versions[i - 1]) {
      BlindSkips(w, s, id, versions, s.stored, vectors, seen, i - 1);
    } else {
      BlindVisits(w, s, id, versions, s.stored, vectors, seen, i - 1);
      if Races(versions[i - 1], Visible(s.stored), seen) {
        BlindRaces(w, s, id, versions, s.stored, vectors, seen, i - 1);
      } else {
        BlindGoesOn(w, s, id, versions, s.stored, vectors, seen, i - 1);
        vectors := BlindUploads(w, s, id, versions, s.stored, vectors, seen, i - 1);
        BlindIngests(w, s, id, versions, s.stored, vectors, seen, i - 1);
      }
    }
  }

  /** The record such a call leaves, when its last read fails too: what it set, and nothing else, or the
      record as it was if it set nothing. */
  function BlindRecord(w: World, versions: seq<Version>, before: Option<Record>, seen: set<ArchiveId>): Option<Record> {
    var docs := BlindDocs(w, versions, Visible(before), seen, |versions|);
    if docs == map[] then before else Some(Record(CACHE_SCHEMA, docs))
  }

  lemma BlindQueues(w: World, s: State, id: WriterId, versions: seq<Version>, stored: Option<Record>, vectors: Vectors, seen: set<ArchiveId>)
    requires Gets(w, id, s, Lone(stored, vectors, id, Blind(w, versions, Visible(stored), seen, |versions|, AtVersion(|versions|))))
    ensures Gets(w, id, s, Lone(stored, vectors, id, Blind(w, versions, Visible(stored), seen, |versions|, AtOrphans([]))))
  {
    var n := |versions|;
    Steps1(w, s, id, stored, vectors, Blind(w, versions, Visible(stored), seen, n, AtVersion(n)), QueueOrphans(id, []),
           stored, vectors, Blind(w, versions, Visible(stored), seen, n, AtOrphans([])));
  }

  lemma BlindRereads(w: World, s: State, id: WriterId, versions: seq<Version>, stored: Option<Record>, vectors: Vectors, seen: set<ArchiveId>)
    requires BlindDocs(w, versions, Visible(stored), seen, |versions|) != map[]
    requires Gets(w, id, s, Lone(stored, vectors, id, Blind(w, versions, Visible(stored), seen, |versions|, AtOrphans([]))))
    ensures Gets(w, id, s, Lone(stored, vectors, id, Blind(w, versions, Visible(stored), seen, |versions|, Storing(map[]))))
  {
    var n := |versions|;
    Steps1(w, s, id, stored, vectors, Blind(w, versions, Visible(stored), seen, n, AtOrphans([])), Reread(id, false),
           stored, vectors, Blind(w, versions, Visible(stored), seen, n, Storing(map[])));
  }

  lemma BlindStores(w: World, s: State, id: WriterId, versions: seq<Version>, stored: Option<Record>, vectors: Vectors, seen: set<ArchiveId>)
    requires BlindDocs(w, versions, Visible(stored), seen, |versions|) != map[]
    requires Gets(w, id, s, Lone(stored, vectors, id, Blind(w, versions, Visible(stored), seen, |versions|, Storing(map[]))))
    ensures Gets(w, id, s, Lone(BlindRecord(w, versions, stored, seen), vectors, id,
                                Blind(w, versions, Visible(stored), seen, |versions|, Finished)))
  {
    var n, docs := |versions|, BlindDocs(w, versions, Visible(stored), seen, |versions|);
    var c := Blind(w, versions, Visible(stored), seen, n, Storing(map[]));
    StoresAll(w, stored, vectors, id, c, docs);
    Steps1(w, s, id, stored, vectors, c, Store(id, true), Some(Record(CACHE_SCHEMA, docs)), vectors, c.(pc := Finished));
  }

  /** A writer whose last read failed records what it has set, and nothing else. */
  lemma StoresAll(w: World, stored: Option<Record>, vectors: Vectors, id: WriterId, c: Writer, docs: Documents)
    requires c.pc == Storing(map[]) && c.updates == docs && c.removed == map[]
    ensures Act(w, Lone(stored, vectors, id, c), Store(id, true))
            == Become(Lone(stored, vectors, id, c), id, c.(pc := Finished)).(stored := Some(Record(CACHE_SCHEMA, docs)), vectors := vectors)
  {
    assert Merged(map[], docs, map[]) == docs;
  }

  lemma BlindEnd(w: World, s: State, id: WriterId, versions: seq<Version>, stored: Option<Record>, vectors: Vectors, seen: set<ArchiveId>)
    requires Gets(w, id, s, Lone(stored, vectors, id, Blind(w, versions, Visible(stored), seen, |versions|, AtVersion(|versions|))))
    ensures Gets(w, id, s, Lone(BlindRecord(w, versions, stored, seen), vectors, id,
                                Blind(w, versions, Visible(stored), seen, |versions|, Finished)))
  {
    BlindQueues(w, s, id, versions, stored, vectors, seen);
    if BlindDocs(w, versions, Visible(stored), seen, |versions|) == map[] {
      var n := |versions|;
      Steps1(w, s, id, stored, vectors, Blind(w, versions, Visible(stored), seen, n, AtOrphans([])), Reread(id, false),
             stored, vectors, Blind(w, versions, Visible(stored), seen, n, Finished));
    } else {
      BlindRereads(w, s, id, versions, stored, vectors, seen);
      BlindStores(w, s, id, versions, stored, vectors, seen);
    }
  }

  /** So a lone call can leave that record, with nothing undone. */
  lemma CanLeaveBlindRecord(w: World, s: State, id: WriterId, versions: seq<Version>, seen: set<ArchiveId>)
    requires s.writers == map[] && Admits(w, versions, None) && DistinctIds(versions) && IdsPresent(versions)
    ensures CanLeave(w, s, id, versions, BlindRecord(w, versions, s.stored, seen))
  {
    var start := Lone(s.stored, s.vectors, id, Started(versions));
    Launched(w, s, id, versions);
    var vectors := BlindLoop(w, start, id, versions, seen, |versions|);
    BlindEnd(w, start, id, versions, s.stored, vectors, seen);
    var end := Lone(BlindRecord(w, versions, s.stored, seen), vectors, id, Blind(w, versions, Visible(s.stored), seen, |versions|, Finished));
    var steps: seq<Step> :| Own(id, steps) && Run(w, start, steps) == end;
  }

  // ---------------------------------------------------------------------------------------------
  // Which entries a lone call can lose
  // ---------------------------------------------------------------------------------------------

  /** The call writes the text of some other document, and can leave this one's unset: it has no text of
      this one, or a hash is recorded that a re-read can find. */
  predicate CanLose(versions: seq<Version>, recorded: Documents, a: ArchiveId) {
    && (exists v <- versions :: Embeddable(v) && v.archiveId.value != a)
    && (HasDocument(versions, a) ==> EntryOf(recorded, a).textHash.Some?)
  }

  /** A recorded entry can be lost by a call that writes alone, removes no orphan and leaves nothing undone,
      exactly when that holds. */
  lemma EntriesAreLostExactly(w: World, s: State, id: WriterId, versions: seq<Version>, a: ArchiveId)
    requires s.writers == map[] && Admits(w, versions, None) && DistinctIds(versions) && IdsPresent(versions)
    requires a in Visible(s.stored)
    ensures (exists after :: CanLeave(w, s, id, versions, after) && a !in Visible(after)) <==> CanLose(versions, Visible(s.stored), a)
  {
    if after :| CanLeave(w, s, id, versions, after) && a !in Visible(after) {
      LosingNeedsAnother(w, s, id, versions, after, a);
    }
    if CanLose(versions, Visible(s.stored), a) {
      var docs := BlindDocs(w, versions, Visible(s.stored), {a}, |versions|);
      CanLeaveBlindRecord(w, s, id, versions, {a});
      BlindDocsAre(w, versions, Visible(s.stored), {a}, |versions|, a);
      var v :| v in versions && Embeddable(v) && v.archiveId.value != a;
      var j :| 0 <= j < |versions| && versions[j] == v;
      BlindDocsAre(w, versions, Visible(s.stored), {a}, |versions|, v.archiveId.value);
      assert Writes(versions, Visible(s.stored), {a}, j, v.archiveId.value);
    }
  }

  lemma LosingNeedsAnother(w: World, s: State, id: WriterId, versions: seq<Version>, after: Option<Record>, a: ArchiveId)
    requires s.writers == map[] && Admits(w, versions, None) && DistinctIds(versions)
    requires CanLeave(w, s, id, versions, after) && a in Visible(s.stored) && a !in Visible(after)
    ensures CanLose(versions, Visible(s.stored), a)
  {
    UnrecordedTextsAreRecorded(w, s, id, versions, after);
    var b :| b in Visible(after) && HasDocument(versions, b);
    var v :| v in versions && Embeddable(v) && v.archiveId.value == b;
    if HasDocument(versions, a) {
      var u :| u in versions && Embeddable(u) && u.archiveId.value == a;
      var j :| 0 <= j < |versions| && versions[j] == u;
      assert !Unrecorded(versions[j], Visible(s.stored));
    }
  }

  /** Two documents, one recorded and in order, the other new: a call whose first and last reads fail records
      the new one and loses the other. */
  lemma ARecordedTextIsLost(w: World, s: State, id: WriterId, u: Version, v: Version)
    requires s.writers == map[] && Admits(w, [u, v], None) && Embeddable(u) && Embeddable(v) && u.archiveId != v.archiveId
    requires RecordsText(w, u, Visible(s.stored)) && Unrecorded(v, Visible(s.stored))
    ensures exists after :: CanLeave(w, s, id, [u, v], after) && u.archiveId.value !in Visible(after) && RecordsText(w, v, Visible(after))
  {
    EntriesAreLostExactly(w, s, id, [u, v], u.archiveId.value);
    assert u in [u, v] && v in [u, v];
    var after :| CanLeave(w, s, id, [u, v], after) && u.archiveId.value !in Visible(after);
    UnrecordedTextsAreRecorded(w, s, id, [u, v], after);
    assert Unrecorded([u, v][1], Visible(s.stored));
  }
}
