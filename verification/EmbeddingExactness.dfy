/** The other half: texts that are not compatible do make writers leave a record that lies, although no
    call fails, no writer dies, and every writer finishes with nothing undone. */
module EmbeddingExactness {
  import opened Wrappers
  import opened KnowledgeBase
  import opened EmbeddingProtocol
  import opened EmbeddingAgreement

  // ---------------------------------------------------------------------------------------------
  // Runs in which nothing goes wrong
  // ---------------------------------------------------------------------------------------------

  /** A step in which no call fails and no writer dies. */
  predicate Smooth(step: Step) {
    match step
    case Crash(_) => false
    case IngestFails(_) => false
    case OrphanFails(_) => false
    case ReadRecord(_, ok) => ok
    case Recheck(_, ok) => ok
    case CheckOrphan(_, ok) => ok
    case Reread(_, ok) => ok
    case Store(_, applied) => applied
    case _ => true
  }

  predicate AllSmooth(steps: seq<Step>) {
    forall step <- steps :: Smooth(step)
  }

  /** Every writer has finished, with nothing undone. */
  predicate AllFinished(s: State) {
    forall id <- s.writers :: s.writers[id].pc == Finished && !s.writers[id].undone
  }

  /** Once every writer has finished, in a run from nothing in which nothing went wrong, the record tells
      the truth. */
  ghost predicate FinishedWritersAgree(w: World) {
    forall steps :: AllSmooth(steps) && AllFinished(Run(w, EMPTY, steps)) ==> Agrees(w, Run(w, EMPTY, steps))
  }

  ghost predicate Reachable(w: World, s: State) {
    exists steps :: AllSmooth(steps) && Run(w, EMPTY, steps) == s
  }

  lemma {:induction false} RunThenStep(w: World, s: State, steps: seq<Step>, step: Step)
    ensures Run(w, s, steps + [step]) == Do(w, Run(w, s, steps), step)
    decreases |steps|
  {
    if steps == [] {
      assert steps + [step] == [step];
      assert Run(w, s, [step]) == Run(w, Do(w, s, step), []);
    } else {
      RunThenStep(w, Do(w, s, steps[0]), steps[1..], step);
      assert (steps + [step])[1..] == steps[1..] + [step];
    }
  }

  /** One more step from a reachable state, when its outcome is `s'`. */
  lemma ThenStep(w: World, s: State, step: Step, s': State)
    requires Reachable(w, s) && Smooth(step) && Do(w, s, step) == s'
    ensures Reachable(w, s')
  {
    var steps :| AllSmooth(steps) && Run(w, EMPTY, steps) == s;
    RunThenStep(w, EMPTY, steps, step);
    assert AllSmooth(steps + [step]);
  }

  /** One more step of writer `id`, whatever the others are at. */
  lemma ThenAct(w: World, s: State, id: WriterId, c: Writer, step: Step, stored: Option<Record>, vectors: Vectors, c': Writer)
    requires Reachable(w, s.(writers := s.writers[id := c]))
    requires Smooth(step) && !step.Launch? && !step.Crash? && step.id == id
    requires Act(w, s.(writers := s.writers[id := c]), step)
             == Become(s.(writers := s.writers[id := c]), id, c').(stored := stored, vectors := vectors)
    ensures Reachable(w, State(stored, vectors, s.writers[id := c']))
  {
    assert s.writers[id := c][id := c'] == s.writers[id := c'];
    ThenStep(w, s.(writers := s.writers[id := c]), step, State(stored, vectors, s.writers[id := c']));
  }

  // ---------------------------------------------------------------------------------------------
  // One writer's pass over one document, beside others that stand still
  // ---------------------------------------------------------------------------------------------

  /** A bill with one archived document, whose text is `text`. */
  function OneDocument(a: ArchiveId, text: Text): seq<Version> {
    [Version(Some(a), [], text, false, None, None)]
  }

  function EntryFor(w: World, text: Text): Entry {
    Entry(Some(w.hash(text)), Some(|w.chunksOf(text)|), None)
  }

  /** Nothing recorded, or this text. */
  function Holding(w: World, a: ArchiveId, text: Option<Text>): Option<Record> {
    if text.Some? then Some(Record(CACHE_SCHEMA, map[a := EntryFor(w, text.value)])) else None
  }

  /** A writer on `text` that found `read` recorded when it started. */
  function At(w: World, a: ArchiveId, text: Text, read: Option<Text>, pc: Pc): Writer {
    Writer(OneDocument(a, text), AllText, None, pc, Visible(Holding(w, a, read)), read.Some?, map[], map[], false)
  }

  /** The same, once it has ingested its text. */
  function Done(w: World, a: ArchiveId, text: Text, read: Option<Text>, pc: Pc): Writer {
    var docs: Documents := map[a := EntryFor(w, text)];
    At(w, a, text, read, pc).(docs := docs, updates := docs)
  }

  predicate CanStart(w: World, a: ArchiveId, text: Text, read: Option<Text>) {
    && a in w.texts && text in w.texts[a] && text != ""
    && (read.Some? ==> w.hash(read.value) != w.hash(text))
  }

  /** It starts, reads the record, and finds that its text is not the one recorded. */
  lemma Starts(w: World, s: State, id: WriterId, a: ArchiveId, text: Text, read: Option<Text>)
    requires CanStart(w, a, text, read) && id !in s.writers
    requires Reachable(w, s) && s.stored == Holding(w, a, read)
    ensures Reachable(w, s.(writers := s.writers[id := At(w, a, text, read, AtVersion(0))]))
  {
    var c := Writer(OneDocument(a, text), AllText, None, AtStart, map[], false, map[], map[], false);
    ThenStep(w, s, Launch(id, OneDocument(a, text), AllText, None), s.(writers := s.writers[id := c]));
    ThenAct(w, s, id, c, ReadRecord(id, true), s.stored, s.vectors, At(w, a, text, read, AtVersion(0)));
  }

  lemma Rechecks(w: World, s: State, id: WriterId, a: ArchiveId, text: Text, read: Option<Text>)
    requires CanStart(w, a, text, read) && s.stored == Holding(w, a, read)
    requires Reachable(w, s.(writers := s.writers[id := At(w, a, text, read, AtVersion(0))]))
    ensures Reachable(w, s.(writers := s.writers[id := At(w, a, text, read, Upserting(0, {}))]))
  {
    ThenAct(w, s, id, At(w, a, text, read, AtVersion(0)), Visit(id), s.stored, s.vectors, At(w, a, text, read, Rechecking(0)));
    ThenAct(w, s, id, At(w, a, text, read, Rechecking(0)), Recheck(id, true), s.stored, s.vectors,
            At(w, a, text, read, Upserting(0, {})));
  }

  function WithAll(w: World, vectors: Vectors, a: ArchiveId, text: Text): Vectors {
    Write(vectors, a, w.chunksOf(text), AllIds(|w.chunksOf(text)|))
  }

  /** It upserts every chunk of its text. */
  lemma Upserts(w: World, s: State, id: WriterId, a: ArchiveId, text: Text, read: Option<Text>)
    requires text != ""
    requires Reachable(w, s.(writers := s.writers[id := At(w, a, text, read, Upserting(0, {}))]))
    ensures Reachable(w, State(s.stored, WithAll(w, s.vectors, a, text), s.writers[id := At(w, a, text, read, Trimming(0, {}))]))
  {
    var ids, vectors := AllIds(|w.chunksOf(text)|), WithAll(w, s.vectors, a, text);
    var c, c' := At(w, a, text, read, Upserting(0, {})), At(w, a, text, read, Upserting(0, ids));
    assert ids * ids == ids && {} + ids == ids && InVersion(c);
    ThenAct(w, s, id, c, UpsertSome(id, ids), s.stored, vectors, c');
    ThenAct(w, s.(vectors := vectors), id, c', UpsertDone(id), s.stored, vectors, At(w, a, text, read, Trimming(0, {})));
  }

  function Surplus(w: World, text: Text, read: Option<Text>): set<nat> {
    SurplusIds(if read.Some? then |w.chunksOf(read.value)| else 0, |w.chunksOf(text)|)
  }

  /** It trims what the count it had read leaves over. */
  lemma Trims(w: World, s: State, id: WriterId, a: ArchiveId, text: Text, read: Option<Text>)
    requires text != ""
    requires Reachable(w, s.(writers := s.writers[id := At(w, a, text, read, Trimming(0, {}))]))
    ensures Reachable(w, State(s.stored, Delete(s.vectors, a, Surplus(w, text, read)),
                               s.writers[id := Done(w, a, text, read, AtVersion(1))]))
  {
    var ids := Surplus(w, text, read);
    var vectors := Delete(s.vectors, a, ids);
    var c, c' := At(w, a, text, read, Trimming(0, {})), At(w, a, text, read, Trimming(0, ids));
    assert InVersion(c) && SurplusOf(w, c) == ids && ids * ids == ids && {} + ids == ids;
    ThenAct(w, s, id, c, TrimSome(id, ids), s.stored, vectors, c');
    assert InVersion(c') && SurplusOf(w, c') == ids;
    assert Ingested(w, c', 0) == Done(w, a, text, read, AtVersion(1));
    ThenAct(w, s.(vectors := vectors), id, c', TrimDone(id), s.stored, vectors, Done(w, a, text, read, AtVersion(1)));
  }

  /** It finds no orphans. */
  lemma PassesOrphans(w: World, s: State, id: WriterId, a: ArchiveId, text: Text, read: Option<Text>)
    requires Reachable(w, s.(writers := s.writers[id := Done(w, a, text, read, AtVersion(1))]))
    ensures Reachable(w, s.(writers := s.writers[id := Done(w, a, text, read, AtOrphans([]))]))
  {
    ThenAct(w, s, id, Done(w, a, text, read, AtVersion(1)), QueueOrphans(id, []), s.stored, s.vectors,
            Done(w, a, text, read, AtOrphans([])));
  }

  lemma Rereads(w: World, s: State, id: WriterId, a: ArchiveId, text: Text, read: Option<Text>)
    requires read.Some? ==> s.stored.Some?
    requires Reachable(w, s.(writers := s.writers[id := Done(w, a, text, read, AtOrphans([]))]))
    ensures Reachable(w, s.(writers := s.writers[id := Done(w, a, text, read, Storing(Visible(s.stored)))]))
  {
    var c := Done(w, a, text, read, AtOrphans([]));
    assert a in c.updates;
    ThenAct(w, s, id, c, Reread(id, true), s.stored, s.vectors, Done(w, a, text, read, Storing(Visible(s.stored))));
  }

  /** It records its text over whatever text is recorded by then. */
  lemma Stores(w: World, s: State, id: WriterId, a: ArchiveId, text: Text, read: Option<Text>, latest: Option<Text>)
    requires s.stored == Holding(w, a, latest)
    requires Reachable(w, s.(writers := s.writers[id := Done(w, a, text, read, Storing(Visible(s.stored)))]))
    ensures Reachable(w, State(Holding(w, a, Some(text)), s.vectors, s.writers[id := Done(w, a, text, read, Finished)]))
  {
    var c := Done(w, a, text, read, Storing(Visible(s.stored)));
    assert Merged(Visible(s.stored), c.updates, map[]) == map[a := EntryFor(w, text)];
    ThenAct(w, s, id, c, Store(id, true), Holding(w, a, Some(text)), s.vectors, Done(w, a, text, read, Finished));
  }

  // ---------------------------------------------------------------------------------------------
  // Whole passes
  // ---------------------------------------------------------------------------------------------

  /** It gets as far as having upserted every chunk of its text. */
  lemma Uploads(w: World, s: State, id: WriterId, a: ArchiveId, text: Text, read: Option<Text>)
    requires CanStart(w, a, text, read) && id !in s.writers && Reachable(w, s) && s.stored == Holding(w, a, read)
    ensures Reachable(w, State(s.stored, WithAll(w, s.vectors, a, text), s.writers[id := At(w, a, text, read, Trimming(0, {}))]))
  {
    Starts(w, s, id, a, text, read);
    Rechecks(w, s, id, a, text, read);
    Upserts(w, s, id, a, text, read);
  }

  /** From there it finishes, over whatever text has been recorded in the meantime. */
  lemma Finishes(w: World, s: State, id: WriterId, a: ArchiveId, text: Text, read: Option<Text>, latest: Option<Text>)
    requires text != "" && s.stored == Holding(w, a, latest) && (read.Some? ==> latest.Some?)
    requires Reachable(w, s.(writers := s.writers[id := At(w, a, text, read, Trimming(0, {}))]))
    ensures Reachable(w, State(Holding(w, a, Some(text)), Delete(s.vectors, a, Surplus(w, text, read)),
                               s.writers[id := Done(w, a, text, read, Finished)]))
  {
    var trimmed := s.(vectors := Delete(s.vectors, a, Surplus(w, text, read)));
    Trims(w, s, id, a, text, read);
    PassesOrphans(w, trimmed, id, a, text, read);
    Rereads(w, trimmed, id, a, text, read);
    Stores(w, trimmed, id, a, text, read, latest);
  }

  /** A pass from beginning to end. */
  lemma Passes(w: World, s: State, id: WriterId, a: ArchiveId, text: Text, read: Option<Text>)
    requires CanStart(w, a, text, read) && id !in s.writers && Reachable(w, s) && s.stored == Holding(w, a, read)
    ensures Reachable(w, State(Holding(w, a, Some(text)), Delete(WithAll(w, s.vectors, a, text), a, Surplus(w, text, read)),
                               s.writers[id := Done(w, a, text, read, Finished)]))
  {
    Uploads(w, s, id, a, text, read);
    Finishes(w, s.(vectors := WithAll(w, s.vectors, a, text)), id, a, text, read, read);
  }

  // ---------------------------------------------------------------------------------------------
  // Two runs that end badly
  // ---------------------------------------------------------------------------------------------

  /** Some run in which nothing goes wrong ends with every writer finished and a record that lies. */
  ghost predicate FinishesLying(w: World) {
    exists s :: Reachable(w, s) && AllFinished(s) && !Agrees(w, s)
  }

  lemma RecordLies(w: World, a: ArchiveId, y: Text, s: State, n: nat)
    requires a in w.texts && y in w.texts[a] && s.stored == Holding(w, a, Some(y))
    requires n < |w.chunksOf(y)| && !HasChunk(s.vectors, a, n, w.chunksOf(y)[n])
    ensures !Agrees(w, s)
  {
    assert !Holds(s.vectors, a, w.chunksOf(y));
    assert !Truthful(w, s.vectors, a, Visible(s.stored)[a]);
  }

  /** A writer that is still where it was after uploading finishes from there. */
  lemma FinishesNow(w: World, s: State, id: WriterId, a: ArchiveId, text: Text, latest: Text)
    requires text != "" && s.stored == Holding(w, a, Some(latest)) && Reachable(w, s)
    requires id in s.writers && s.writers[id] == At(w, a, text, None, Trimming(0, {}))
    ensures Reachable(w, State(Holding(w, a, Some(text)), s.vectors, s.writers[id := Done(w, a, text, None, Finished)]))
  {
    assert s.writers[id := s.writers[id]] == s.writers;
    assert Delete(s.vectors, a, {}) == s.vectors;
    Finishes(w, s, id, a, text, None, Some(latest));
  }

  /** A first writer uploads `x`, and a second one then passes over `y` from beginning to end. */
  lemma UploadsThenPasses(w: World, a: ArchiveId, x: Text, y: Text)
    requires CanStart(w, a, x, None) && CanStart(w, a, y, None)
    ensures Reachable(w, State(Holding(w, a, Some(y)), WithAll(w, WithAll(w, map[], a, x), a, y),
                               map[0 := At(w, a, x, None, Trimming(0, {})), 1 := Done(w, a, y, None, Finished)]))
  {
    assert Run(w, EMPTY, []) == EMPTY && AllSmooth([]);
    var first, second := At(w, a, x, None, Trimming(0, {})), Done(w, a, y, None, Finished);
    Uploads(w, EMPTY, 0, a, x, None);
    assert EMPTY.writers[0 := first] == map[0 := first];
    Passes(w, State(None, WithAll(w, map[], a, x), map[0 := first]), 1, a, y, None);
    var vectors := WithAll(w, WithAll(w, map[], a, x), a, y);
    assert Delete(vectors, a, {}) == vectors;
    assert map[0 := first][1 := second] == map[0 := first, 1 := second];
  }

  /** Where two writers leave things, the first of which uploaded `x` before the other's whole pass over
      `y` and recorded it after: `x` is recorded, and `y` was written last. */
  lemma DifferingRun(w: World, a: ArchiveId, x: Text, y: Text) returns (end: State, before: Vectors)
    requires CanStart(w, a, x, None) && CanStart(w, a, y, None)
    ensures Reachable(w, end) && AllFinished(end)
    ensures end.stored == Holding(w, a, Some(x)) && end.vectors == WithAll(w, before, a, y)
  {
    var writers := map[0 := At(w, a, x, None, Trimming(0, {})), 1 := Done(w, a, y, None, Finished)];
    before := WithAll(w, map[], a, x);
    UploadsThenPasses(w, a, x, y);
    FinishesNow(w, State(Holding(w, a, Some(y)), WithAll(w, before, a, y), writers), 0, a, x, y);
    end := State(Holding(w, a, Some(x)), WithAll(w, before, a, y), writers[0 := Done(w, a, x, None, Finished)]);
  }

  lemma LastWritten(w: World, vectors: Vectors, a: ArchiveId, y: Text, n: nat)
    requires n < |w.chunksOf(y)|
    ensures HasChunk(WithAll(w, vectors, a, y), a, n, w.chunksOf(y)[n])
  {
    assert n in AllIds(|w.chunksOf(y)|);
  }

  /** Two texts that differ in a chunk: the record names the first, and the vectors hold the second's. */
  lemma DifferingChunkLies(w: World, a: ArchiveId, x: Text, y: Text, n: nat)
    requires CanStart(w, a, x, None) && CanStart(w, a, y, None)
    requires n < |w.chunksOf(x)| && n < |w.chunksOf(y)| && w.chunksOf(x)[n] != w.chunksOf(y)[n]
    ensures FinishesLying(w)
  {
    var end, before := DifferingRun(w, a, x, y);
    LastWritten(w, before, a, y, n);
    RecordLies(w, a, x, end, n);
  }

  /** A third writer passes over `x` once two are on `y`, and trims what `y` has more. */
  lemma ThirdPasses(w: World, s: State, a: ArchiveId, x: Text, y: Text) returns (next: State, before: Vectors)
    requires CanStart(w, a, x, Some(y)) && s.stored == Holding(w, a, Some(y)) && Reachable(w, s) && 2 !in s.writers
    ensures Reachable(w, next) && next.stored == Holding(w, a, Some(x))
    ensures next.vectors == Delete(before, a, Surplus(w, x, Some(y))) && next.writers == s.writers[2 := Done(w, a, x, Some(y), Finished)]
  {
    before := WithAll(w, s.vectors, a, x);
    Passes(w, s, 2, a, x, Some(y));
    next := State(Holding(w, a, Some(x)), Delete(before, a, Surplus(w, x, Some(y))), s.writers[2 := Done(w, a, x, Some(y), Finished)]);
  }

  /** Where three writers leave things: the first uploaded `y` before the second recorded it, the third
      then passed over `x`, and the first recorded `y` after all. */
  lemma TrimmingRun(w: World, a: ArchiveId, x: Text, y: Text) returns (end: State, before: Vectors)
    requires CanStart(w, a, x, Some(y)) && CanStart(w, a, y, None)
    ensures Reachable(w, end) && AllFinished(end)
    ensures end.stored == Holding(w, a, Some(y)) && end.vectors == Delete(before, a, Surplus(w, x, Some(y)))
  {
    var first, second := At(w, a, y, None, Trimming(0, {})), Done(w, a, y, None, Finished);
    UploadsThenPasses(w, a, y, y);
    var two := State(Holding(w, a, Some(y)), WithAll(w, WithAll(w, map[], a, y), a, y), map[0 := first, 1 := second]);
    var next;
    next, before := ThirdPasses(w, two, a, x, y);
    FinishesNow(w, next, 0, a, y, x);
    end := State(Holding(w, a, Some(y)), next.vectors, next.writers[0 := Done(w, a, y, None, Finished)]);
  }

  lemma TailIsGone(w: World, vectors: Vectors, a: ArchiveId, x: Text, y: Text)
    requires |w.chunksOf(x)| < |w.chunksOf(y)| <= 4 * |w.chunksOf(x)|
    ensures ChunkKey(a, |w.chunksOf(x)|) !in Delete(vectors, a, Surplus(w, x, Some(y)))
  {
    assert |w.chunksOf(x)| in Surplus(w, x, Some(y));
  }

  /** A text that is the beginning of a longer one, but not of one more than four times as long: the
      record names the longer one, and its tail is trimmed. */
  lemma TrimmedTailLies(w: World, a: ArchiveId, x: Text, y: Text)
    requires CanStart(w, a, x, Some(y)) && CanStart(w, a, y, None)
    requires w.chunksOf(x) < w.chunksOf(y) && |w.chunksOf(y)| <= 4 * |w.chunksOf(x)|
    ensures FinishesLying(w)
  {
    var end, before := TrimmingRun(w, a, x, y);
    TailIsGone(w, before, a, x, y);
    RecordLies(w, a, y, end, |w.chunksOf(x)|);
  }

  // ---------------------------------------------------------------------------------------------
  // Exactly
  // ---------------------------------------------------------------------------------------------

  lemma IrreconcilableTextsLie(w: World, a: ArchiveId, x: Text, y: Text)
    requires a in w.texts && x in w.texts[a] && y in w.texts[a] && x != "" && y != ""
    requires w.hash(x) != w.hash(y)
    requires !Reconcilable(w.chunksOf(x), w.chunksOf(y))
    ensures FinishesLying(w) && !FinishedWritersAgree(w) && !NeverDisagrees(w)
  {
    var u, v := w.chunksOf(x), w.chunksOf(y);
    if n :| 0 <= n < |u| && n < |v| && u[n] != v[n] {
      DifferingChunkLies(w, a, x, y, n);
    } else if |u| < |v| {
      assert u <= v;
      TrimmedTailLies(w, a, x, y);
    } else {
      assert v <= u && v != u;
      TrimmedTailLies(w, a, y, x);
    }
    var s :| Reachable(w, s) && AllFinished(s) && !Agrees(w, s);
    var steps :| AllSmooth(steps) && Run(w, EMPTY, steps) == s;
  }

  predicate AllReconcilable(w: World) {
    forall a <- w.texts, x <- w.texts[a], y <- w.texts[a] :: Reconcilable(w.chunksOf(x), w.chunksOf(y))
  }

  lemma ReconcilableTextsAgree(w: World)
    requires AllReconcilable(w)
    requires forall a <- w.texts, x <- w.texts[a], y <- w.texts[a] :: w.hash(x) == w.hash(y) ==> x == y
    ensures NeverDisagrees(w) && FinishedWritersAgree(w)
  {
    forall steps
      ensures Agrees(w, Run(w, EMPTY, steps))
    {
      RunKeepsInv(w, EMPTY, steps);
    }
  }

  /** Agreement, exactly. Take any world whose documents have non-empty texts and whose hash tells the
      texts of one document apart. No run from an empty store ever shows a lying record, with any calls
      failing and any writers dying, if and only if any two texts a writer may hold for a document have
      the same chunks, or one's chunks start with the other's and are more than four times as many. */
  lemma AgreementExactly(w: World)
    requires forall a <- w.texts, x <- w.texts[a] :: x != ""
    requires forall a <- w.texts, x <- w.texts[a], y <- w.texts[a] :: w.hash(x) == w.hash(y) ==> x == y
    ensures NeverDisagrees(w) <==> AllReconcilable(w)
  {
    if AllReconcilable(w) {
      ReconcilableTextsAgree(w);
    } else {
      var a, x, y :| a in w.texts && x in w.texts[a] && y in w.texts[a] && !Reconcilable(w.chunksOf(x), w.chunksOf(y));
      IrreconcilableTextsLie(w, a, x, y);
    }
  }

  /** And it is not only a passing state: the same condition decides whether writers that all finish, in
      a run in which no call fails and nobody dies, can leave a lying record behind. */
  lemma FinishedWritersAgreeExactly(w: World)
    requires forall a <- w.texts, x <- w.texts[a] :: x != ""
    requires forall a <- w.texts, x <- w.texts[a], y <- w.texts[a] :: w.hash(x) == w.hash(y) ==> x == y
    ensures FinishedWritersAgree(w) <==> AllReconcilable(w)
  {
    if AllReconcilable(w) {
      ReconcilableTextsAgree(w);
    } else {
      var a, x, y :| a in w.texts && x in w.texts[a] && y in w.texts[a] && !Reconcilable(w.chunksOf(x), w.chunksOf(y));
      IrreconcilableTextsLie(w, a, x, y);
    }
  }
}
