# Embedding, dispatch and scheduling protocols of ddp-sync

A Dafny project about the parts of ddp-sync that must not lose or misstate work when calls fail,
processes die and writers interleave. `dafny verify dfyconfig.toml` checks all of it.

## What is modelled

**The knowledge-base embedding store.** `embed_bill` keeps three things in step: the versions api-v3
returns for a bill, a vector index keyed by document and chunk number, and a Redis record of hashes,
chunk counts and stamps.

* `Chunking.dfy`, `DocumentKeys.dfy`: the chunker and the vector ids.
* `KnowledgeBase.dfy`: versions, vectors, the record.
* `EmbeddingProtocol.dfy`, `EmbeddingAgreement.dfy`, `EmbeddingExactness.dfy`: any number of `embed_bill`
  calls on one bill as a step machine, with every call free to fail or stop half way and every writer
  free to die between two steps. The record tells the truth in every reachable state when the source is
  fixed; when it is not, the condition on the texts is exact, both for every moment of a run and for what
  writers leave behind that all finish without a failure.
* `Backend.dfy`, `Embedder.dfy`: `embed_bill` itself, imperatively. The backend really runs the other
  writers' protocol steps between any two calls, so the contracts hold under any interference; when a
  writer is alone, they tie the new record and vectors to functions of the old ones.
* `EmbeddingPass.dfy`, `PassLaws.dfy`, `StagedBackfill.dfy`: those functions, and what follows for passes
  in a row.
* `LoneWriter.dfy`: one `embed_bill` call with nobody else writing and every call free to fail, in the step
  machine: what it is sure to record, and what it can lose.
* `Watermark.dfy`, `Ledger.dfy`, `LedgerBlips.dfy`, `Backfill.dfy`: the three drivers above it. The ledger
  pass runs the contract of `embed_bill` itself, on each bill's own record and vectors.

**Protocols that must not lose work.** `FargateJobs.dfy` (launch, record, wait, load, clear, resume),
`StaleDispatch.dfy` (tracked LegBot tasks and the recovery sweep), `Changelog.dfy` (the version walk, its
foreign-key rule and the on-demand placeholder). The first two are step machines with crash steps, and
methods that take those steps in the order the code does.

**Scheduling and filtering.** `ScrapeSchedule.dfy` (re-registering scrape jobs, the cadence review) and
`BillTopics.dfy`.

## Where the code does not do what its comments promise

Each of these has a lemma that says exactly when the code does.

* Writers that hold different texts for one document can leave a record that names a text the vectors do
  not hold, with every writer finished, nothing undone and no call failed. `FinishedWritersAgreeExactly`,
  `AgreementExactly`: it never happens precisely when any two texts have the same chunks, or one's chunks
  start with the other's and are more than four times as many.
* A read of the record that fails looks like no record, and a first read that does switches off the guards
  of the later ones. With nobody else writing:
  * a pending bill can be left pending by a call that leaves nothing undone, if and only if a hash is recorded
    for one of its listed documents. `StaysPendingExactly`. Its re-read finds that hash, takes it for another
    writer's, and the version counts as raced;
  * a ledger run that reports itself complete has tried every pending bill and failed none. It can still leave
    bills pending, if and only if that holds of one of them, and those are bills it raced.
    `CompleteRunsLeaveBillsExactly`, `ReconcileFromLedger`;
  * when the read before the write fails too, the record that is written holds what the call set and nothing
    else. A recorded entry can be lost like this if and only if the call writes some other document, and this
    one has no text or a recorded hash. `EntriesAreLostExactly`, `ARecordedTextIsLost`. Nothing is lost
    unless both of those reads return nothing. `EmbedBill`.
* A stored watermark that is not returned (a Redis error reads as none) makes the run start at its own
  start and then advance past changes nobody read. `NeverLosesExactly`.
* A re-ingestion that shrinks a document more than four times leaves old chunks live. `IngestIsExact`,
  `LiveIdsExactly`. So does one whose recorded count is missing, which is what a failed first read of the
  record looks like. `IngestLeaves`.
* `run_cloud_scrape` clears its record in the inner `finally` before its outer handler alerts, so a crash
  between the two loses the job silently. `JobsAreLostExactlyInTheWindow`, `OneJobCanBeLost`.
* An HTTP error of the CAMS client is none of the exceptions the on-demand caller catches. The placeholder
  stays pending for good exactly when the requested version is the latest and the first dispatch without
  an answer ends in one. `DispatchAndRecord`, `OneHttpErrorStrandsThePlaceholder`.
* A secondary jurisdiction that is also an enabled primary is scraped by two jobs. `ExactlyOneJobAlways`.
  An excluded one with a nightly floor goes to the weekly batch, not to its floor.
* A stored cadence override is said to be applied again by the first review after a restart. That review
  re-registers only when it raises some jurisdiction anew, so the override is in force again if and only
  if it does. `RestartAndReview`, `RestartLosesAnOverride`.
* A complete changelog row whose tracking record was not deleted is marked failed by a later sweep once CAMS
  has forgotten the task. `CompleteRowSurvivesExactly`.
* A backfill that dies between the bill that completes a batch and the save after it repeats the whole
  batch. `Walk`, `RepeatsAsManyAsItMay`.
* A text that fits one chunk gets a last character offset that is two too high.
  `OneParagraphIsSlidingWindow`.

## Hypotheses

* Archived document ids are distinct within a bill (`DistinctIds`); version keys are distinct and notes
  non-empty (`DistinctKeys`, `NotesPresent`); `chunk_size >= 1`, `max_topics >= 1`; bare bill ids hold no
  colon, or no id followed by a colon begins another (`BillsCanShareAnIdExactly`).
* The hash, the tokenizer and case folding are parameters. Only `AgreementExactly` asks that the hash tell
  apart the texts of one document, and only `OneParagraphIsSlidingWindow` that decoding undo encoding.
  `FilteringIsIdempotent` asks that no canonical topic name be empty. The exactness lemmas of
  `EmbeddingExactness` ask that no text be empty, which `embed_bill` never writes.
* How a call ends is an input where a claim says what must follow: the launch, the polls and the load of a
  scrape, the result on disk, the dispatches of a walk, the listing, the unclean bills and the death of a
  backfill. Elsewhere it is free, and a clause that promises success names what has to answer: `reliable`,
  `redisAnswers`, `camsAnswers`, `brokerAccepts`, `neverRaises`.
* `ReconcileFromLedger` and `Drain` ask that ledger and details agree (`Agree`), and are about a pass that
  is the only writer. That all of its reads answer (`readsAnswer`), or that no call fails (`reliable`), is
  asked only where a clause says so.
* CAMS gives no task id twice.
* A response that removes orphans lists every document whose source is being watched: api-v3 returns all
  versions of a bill in one answer.

## Model

| member | source | states |
|---|---|---|
| Chunking.CleanTextIsOneLine | src/ddp_sync/ingestion/chunking.py:134-142 | cleaning removes every newline, strips both ends, and leaves nothing only of a blank text |
| Chunking.CleanTextIsItsWords | src/ddp_sync/ingestion/chunking.py:134-142 | cleaning leaves exactly the words of a text, in order, with one blank between them |
| Chunking.CleanTextIsOneParagraph | src/ddp_sync/ingestion/chunking.py:144-148 | a cleaned non-blank text splits into exactly one paragraph, itself |
| Chunking.WindowsRebuildTokens | src/ddp_sync/ingestion/chunking.py:239-283 | the first window and each later one without the tokens it shares rebuild the token sequence, for every overlap |
| Chunking.WindowCount | src/ddp_sync/ingestion/chunking.py:249-281 | n > size tokens give 1 + ceil((n-size)/(size-overlap)) windows when overlap < size, and n-size+1 otherwise |
| Chunking.WindowIsStretch | src/ddp_sync/ingestion/chunking.py:251-281 | window k is the stretch of at most size tokens that starts at token k times the stride |
| Chunking.WindowChunksHoldWindows | src/ddp_sync/ingestion/chunking.py:261-270 | chunk k is numbered k, and its content and token count are window k's |
| Chunking.ChunkIsCut | src/ddp_sync/ingestion/chunking.py:249-281 | chunk k starts at token k times size - overlap (k itself when the overlap is not below the size), ends size tokens on or at the end, and carries the character offsets of both |
| Chunking.OneParagraphIsSlidingWindow | src/ddp_sync/ingestion/chunking.py:54-82 | chunk_text of any non-blank text gives the sliding window of the cleaned text, chunk for chunk; only the last offset of a text that fits one chunk is two too high |
| Chunking.ChunkingService.ChunkByTokens | src/ddp_sync/ingestion/chunking.py:239-283 | the loop computes the closed-form windows |
| Chunking.ChunkingService.ChunkByParagraphs | src/ddp_sync/ingestion/chunking.py:150-237 | for any paragraphs: they are packed in order, each group takes every paragraph that still fits and begins with the last tokens of the one before, a paragraph that is too long is cut on its own, and that decides every chunk, its tokens and its offsets; none is lost and the numbering has no gap |
| Chunking.ChunkingService.ChunkText | src/ddp_sync/ingestion/chunking.py:54-82 | nothing for a blank text, else one paragraph's chunks, numbered from 0 |
| DocumentKeys.ChunkIdsCollideExactly | src/ddp_sync/pipelines/knowledge_base_embedding.py:60-65 | whatever the ids are, two vectors share an id if and only if kind and chunk number agree and bill and archived ids read the same once joined by a colon |
| DocumentKeys.ChunkIdsNeverCollide | src/ddp_sync/pipelines/knowledge_base_embedding.py:60-65 | with colon-free bill ids two vectors share an id only when they are the same chunk of the same document of the same bill |
| DocumentKeys.BillsCanShareAnIdExactly | src/ddp_sync/pipelines/knowledge_base_embedding.py:60-65 | two bills can claim one vector if and only if one bill id, followed by a colon, begins the other |
| DocumentKeys.ChunkIdReads | src/ddp_sync/ingestion/pipeline.py:134 | how an id reads, of either kind |
| DocumentKeys.DecimalReadsBack | src/ddp_sync/ingestion/pipeline.py:134 | the chunk number in it is in decimal and reads back |
| KnowledgeBase.TextIsTheFirst | src/ddp_sync/pipelines/knowledge_base_embedding.py:72-78 | the text of a version is its first link that is not empty, or the archived raw text when all are; it has none exactly when all of them are empty |
| KnowledgeBase.WantedIsCovered | src/ddp_sync/pipelines/knowledge_base_embedding.py:262-292 | the full scope covers every version, the current one the classified versions whose ordinal no other classified one exceeds, or, when none of them has one, those |
| KnowledgeBase.MergeKeepsTheOthers | src/ddp_sync/pipelines/knowledge_base_embedding.py:386-396 | the written record field by field: entries and fields this call did not set are the fresh read's, its own replace them, and a deleted document goes only if its entry is still the one deleted |
| EmbeddingAgreement.FixedSourceAlwaysAgrees | src/ddp_sync/pipelines/knowledge_base_embedding.py:251-400 | with the source fixed, in every state of every interleaving with failures, partial writes and crashes, a recorded hash of the source's text means chunk ids 0..chunks-1 hold exactly its chunks |
| EmbeddingAgreement.RunKeepsInv | src/ddp_sync/pipelines/knowledge_base_embedding.py:224-400 | the invariant behind it is kept by any run when the texts are compatible, and a text whose chunks are all there stays there |
| EmbeddingExactness.AgreementExactly | src/ddp_sync/pipelines/knowledge_base_embedding.py:232-235 | no run from an empty store, with any failures and crashes, ever shows a lying record if and only if any two texts of a document are reconcilable |
| EmbeddingExactness.FinishedWritersAgreeExactly | src/ddp_sync/pipelines/knowledge_base_embedding.py:229-235 | and exactly then writers that all finish with nothing undone, in a run without a failure or a crash, cannot leave one behind |
| EmbeddingExactness.IrreconcilableTextsLie | src/ddp_sync/pipelines/bill_version.py:98-118 | two texts that are not reconcilable have a run of overlapping writers that all finish clean and leave a lying record |
| EmbeddingExactness.DifferingChunkLies | src/ddp_sync/pipelines/knowledge_base_embedding.py:294-314 | two texts that differ in a chunk: the writer that uploads first records last |
| EmbeddingExactness.TrimmedTailLies | src/ddp_sync/pipelines/bill_version.py:98-118 | a text that is the beginning of a longer one: the longer one is recorded after its tail was trimmed |
| Backends.Backend.Interfere | src/ddp_sync/pipelines/knowledge_base_embedding.py:230-235 | other writers may take any steps; the record stays truthful and every held text stays held |
| Embedder.KnowledgeBaseEmbedder.IngestDocument | src/ddp_sync/ingestion/pipeline.py:103-163 | chunk n goes under id n from 0; on failure exactly a prefix is written |
| Embedder.KnowledgeBaseEmbedder.DeleteSurplusChunks | src/ddp_sync/pipelines/bill_version.py:83-126 | exactly the ids from the new count to the old are deleted, and none when the count is missing or implausibly large |
| Embedder.KnowledgeBaseEmbedder.Ingest | src/ddp_sync/pipelines/knowledge_base_embedding.py:138-147 | a returned count means every chunk is held and the surplus is gone |
| Embedder.KnowledgeBaseEmbedder.ReadTextHash | src/ddp_sync/pipelines/knowledge_base_embedding.py:209-222 | whatever fails: unreadable when an entry was expected and none was read, otherwise the hash in what was read, which is the record as it was then or nothing |
| Embedder.KnowledgeBaseEmbedder.WriteText | src/ddp_sync/pipelines/knowledge_base_embedding.py:294-307 | raced exactly when the re-read shows another hash than the call read first, and then nothing is written; undone when it cannot be read; otherwise the text is ingested |
| Embedder.KnowledgeBaseEmbedder.EmbedVersion | src/ddp_sync/pipelines/knowledge_base_embedding.py:270-322 | one version's turn, against its function; nothing is written when there is nothing to do or the version is raced, and alone nothing is raced while the call still has the record's entry |
| Embedder.KnowledgeBaseEmbedder.RemoveOrphans | src/ddp_sync/pipelines/knowledge_base_embedding.py:356-378 | at most the budget of unlisted documents goes, each only after a read at which the record still had the entry this call read; one counts as raced only after a read that found another; nothing else changes |
| Embedder.KnowledgeBaseEmbedder.RemoveOrphan | src/ddp_sync/pipelines/knowledge_base_embedding.py:362-378 | raced exactly when the re-read shows another entry, and then nothing is written; deleted only when it shows the same |
| Embedder.KnowledgeBaseEmbedder.Commit | src/ddp_sync/pipelines/knowledge_base_embedding.py:379-400 | whoever else writes, a written record is this call's fields merged onto a fresh read; it is left alone when an entry existed and that read shows none |
| Embedder.KnowledgeBaseEmbedder.EmbedBill | src/ddp_sync/pipelines/knowledge_base_embedding.py:224-407 | under interference: a clean call leaves the text of every covered version held, versions without a text are counted and every other one had an id, only unlisted recorded documents go, as many as the budget allows, and a call on settled documents writes nothing; alone: an undone call leaves the record and touches only the bill's own chunks; a clean one records hash, chunk count and stamp of each covered version's first link (or raw text), whether or not its first read was answered, holds its chunks if the hash was new, and leaves every other entry and vector; something is raced only when the first read failed and a hash is recorded, and an entry is lost only with its document's vectors or when neither the first read nor the one before the write returned the record |
| Embedder.PassTwice | src/ddp_sync/pipelines/knowledge_base_embedding.py:224-407 | alone and without failures, the first pass makes record and vectors match the source and an immediate second one writes nothing |
| PassLaws.PassIsPointwise | src/ddp_sync/pipelines/knowledge_base_embedding.py:270-322 | with distinct ids, a clean pass gives every document the entry its own turn alone would have |
| PassLaws.TurnMeans | src/ddp_sync/pipelines/knowledge_base_embedding.py:289-322 | one turn in terms of the text alone: hash and chunk count only if the version is covered and the hash is new, the stamp only while the recorded hash is the text's |
| PassLaws.CommitRecordsWanted | src/ddp_sync/pipelines/knowledge_base_embedding.py:379-396 | a clean pass records every wanted text and stamp, whether or not its first read was answered |
| PassLaws.CommitNames | src/ddp_sync/pipelines/knowledge_base_embedding.py:379-400 | the record a clean pass writes names the text of every covered version |
| PassLaws.PassHoldsText | src/ddp_sync/pipelines/knowledge_base_embedding.py:302-314 | and the vectors hold its chunks if the hash was new |
| PassLaws.PassLeavesTheRest | src/ddp_sync/pipelines/knowledge_base_embedding.py:289-400 | no other document gains, loses or changes its hash and count, unlisted ones keep their whole entry, and the deleted ones are gone |
| PassLaws.PassLeavesVectors | src/ddp_sync/pipelines/knowledge_base_embedding.py:289-378 | and no vector changes of a document that is not covered or has its text recorded already |
| PassLaws.SecondPassWritesNothing | src/ddp_sync/pipelines/knowledge_base_embedding.py:289-322 | after a clean pass every version is settled and no orphan is left |
| PassLaws.OneCleanPassHeals | src/ddp_sync/pipelines/knowledge_base_embedding.py:289-400 | after any failed passes one clean pass makes entry and chunks match the source, and the live ids exact if and only if the old count was at most four times the new or nothing was live beyond it |
| PassLaws.IngestLeaves | src/ddp_sync/pipelines/bill_version.py:98-118 | no id below the new count is ever deleted, and above it exactly the ids the guard spares are left |
| PassLaws.IngestIsExact | src/ddp_sync/pipelines/bill_version.py:100-109 | when the live ids after one ingestion are exactly 0..count-1 |
| PassLaws.LiveIdsExactly | src/ddp_sync/pipelines/bill_version.py:83-126 | over any sequence of re-ingestions the live ids are exact after every step if and only if no step shrinks by more than a factor of four |
| PassLaws.FailuresAreHarmless | src/ddp_sync/pipelines/knowledge_base_embedding.py:304-307 | failed passes leave a document's chunks in place and add only the source's |
| StagedBackfill.SelectBills | src/ddp_sync/pipelines/knowledge_base_backfill.py:128-158 | the bills of each stage, and none when a listing it needs failed or was cut short |
| StagedBackfill.StageRecords | src/ddp_sync/pipelines/knowledge_base_backfill.py:71-76 | what a stage leaves of one text: history records and holds all, the other two only the current one, and none touches a bill it did not select |
| StagedBackfill.StagesEqualOneFullPass | src/ddp_sync/pipelines/knowledge_base_backfill.py:67-76 | current, prior-sessions, history leave every listed bill as history alone would |
| StagedBackfill.EachDocumentIsIngestedOnce | src/ddp_sync/pipelines/knowledge_base_backfill.py:37-39 | the full pass ingests exactly what the narrow one did not |
| StagedBackfill.FromNothingAllAreIngested | src/ddp_sync/pipelines/knowledge_base_embedding.py:289-314 | from nothing recorded, every embeddable document is ingested exactly once |
| StagedBackfill.StagesIngestOnce | src/ddp_sync/pipelines/knowledge_base_backfill.py:37-39 | over all listed bills the three stages together ingest what the full stage alone would |
| StagedBackfill.AllStagesIngestEveryDocumentOnce | src/ddp_sync/pipelines/knowledge_base_backfill.py:67-76 | from nothing recorded, the three stages ingest every embeddable document of every listed bill exactly once in all |
| Watermark.AllRunsStaySafe | src/ddp_sync/pipelines/knowledge_base_embedding.py:761-800 | over all runs, every change from the first watermark up to the current one was in a bill read that left nothing undone |
| Watermark.NeverLosesExactly | src/ddp_sync/services/redis_store.py:472-481 | a run can lose nothing if and only if the stored watermark was returned, there was none, or the run started no later than it |
| Watermark.OnlyVisitsCover | src/ddp_sync/pipelines/knowledge_base_embedding.py:780-797 | a change counts as covered only through a read of its own bill that left nothing undone |
| Watermark.ArchivedBills.EmbedArchivedBills | src/ddp_sync/pipelines/knowledge_base_embedding.py:761-808 | the run is one of those, advances exactly on a complete listing with no failed bill, removes at most 200 orphans, and when complete has covered every change since its start and since an earlier watermark it could read; it succeeds when no call fails |
| Ledger.OnePassSettlesExactly | src/ddp_sync/pipelines/knowledge_base_embedding.py:610-628 | one clean pass empties a bill's findings if and only if listed stamps are the ones it will carry and other listed documents are in order |
| Ledger.ConsistentBillsSettle | src/ddp_sync/pipelines/knowledge_base_embedding.py:648-659 | a bill whose ledger and detail agree and whose documents all have text is quiet after one clean pass |
| Ledger.LedgerReconcile.LedgerFindings | src/ddp_sync/pipelines/knowledge_base_embedding.py:610-628 | a bill is found exactly if the ledger lists a document the record lacks, a stamp the record does not carry, or (with orphan removal) not a document it has; the counts are those of these three sets, each under its own name |
| Ledger.LedgerReconcile.FetchAndEmbed | src/ddp_sync/pipelines/knowledge_base_embedding.py:531-542 | one bill through embed_bill: undone or unread leaves the record, clean records all its texts, and something is raced only when a read failed and a hash is recorded |
| LoneWriter.UnrecordedTextsAreRecorded | src/ddp_sync/pipelines/knowledge_base_embedding.py:270-400 | however its reads fail, a lone call that leaves nothing undone records every text for whose document no hash was recorded |
| LoneWriter.EntriesAreLostExactly | src/ddp_sync/pipelines/knowledge_base_embedding.py:381-396 | which recorded entries a lone call that leaves nothing undone can lose, and no others |
| LoneWriter.ARecordedTextIsLost | src/ddp_sync/pipelines/knowledge_base_embedding.py:381-396 | two documents, one recorded and in order, one new: the first can be lost |
| LedgerBlips.StaysPendingExactly | src/ddp_sync/pipelines/knowledge_base_embedding.py:289-314 | a pending bill with any number of versions can stay pending after a lone call with nothing undone if and only if a hash is recorded for a listed document |
| LedgerBlips.ABlipLooksLikeARace | src/ddp_sync/pipelines/knowledge_base_embedding.py:251-300 | the run in which it does |
| LedgerBlips.CompleteRunsLeaveBillsExactly | src/ddp_sync/pipelines/knowledge_base_embedding.py:676-691 | a run over the whole backlog with nothing undone can leave bills pending if and only if that holds of a pending bill |
| Ledger.LedgerReconcile.ReconcileFromLedger | src/ddp_sync/pipelines/knowledge_base_embedding.py:648-691 | min(cap, pending) bills are selected; the backlog loses exactly the selected that neither failed nor raced, and of the raced perhaps some; only a bill with a recorded hash is raced, and none when every read answers; complete is reported exactly when every pending bill was tried and none failed, so whatever is still pending was raced; no other record changes |
| Ledger.LedgerReconcile.Drain | src/ddp_sync/pipelines/knowledge_base_embedding.py:655-659 | k runs in which nothing failed or raced, as when no call fails, empty the backlog if and only if k caps cover it |
| Backfill.SaveCovers | src/ddp_sync/pipelines/knowledge_base_backfill.py:209-215 | every save keeps each listed bill up to the cursor succeeded or in the failed list, which stays distinct and within 201 |
| Backfill.SaveRemembers | src/ddp_sync/pipelines/knowledge_base_backfill.py:209-232 | a carried-over failure is kept until it is retried |
| Backfill.EndCovers | src/ddp_sync/pipelines/knowledge_base_backfill.py:252-253 | a walk that ends without a failure leaves no listed bill out |
| Backfill.StageBackfill.BackfillStage | src/ddp_sync/pipelines/knowledge_base_backfill.py:168-258 | with crashes between any two calls, failed reads and failed saves anywhere, the stored checkpoint never loses a bill; it tries the listed bills beyond the cursor and the failed ones; it is complete only if none of those left anything undone, incomplete with 1 to 200 of them, aborted with more, and the stored failed list is exactly those; with no trouble it completes |
| Backfill.StageBackfill.Walk | src/ddp_sync/pipelines/knowledge_base_backfill.py:195-258 | the walk from a found checkpoint or from nothing keeps that; when Redis answers, a crash repeats at most 50 bills, and 50 exactly when it falls between the bill that completes them and its save, an abort stores 201 failures, and the stage is stored done exactly when it completed |
| Backfill.RepeatsAsManyAsItMay | src/ddp_sync/pipelines/knowledge_base_backfill.py:218-250 | the bound is reached by any stage of at least 50 bills |
| Backfill.RunBackfill | src/ddp_sync/pipelines/knowledge_base_backfill.py:309-335 | a complete run means every bill of every stage succeeded; one whose stages meet no trouble is complete; a stage after one that failed, aborted or crashed is not touched |
| Backfill.BlackoutSecondsLeft | src/ddp_sync/pipelines/knowledge_base_backfill.py:110-125 | something is left exactly inside the window, across midnight too, and it ends when the window does |
| Backfill.WaitingEndsTheBlackout | src/ddp_sync/pipelines/knowledge_base_backfill.py:161-165 | waiting ends at the window's end, which is outside it unless the window is the whole day |
| FargateJobs.JobsAreLostExactlyInTheWindow | src/ddp_sync/pipelines/cloud_scrape_trigger.py:722-758 | over every run a recorded job stays recorded, loaded, alerted or about to be, if and only if no crash falls between clear and alert |
| FargateJobs.LoadsOnlyAfterExitZero | src/ddp_sync/pipelines/cloud_scrape_trigger.py:413-442 | a load only follows exit code 0 |
| FargateJobs.OneJobCanBeLost | src/ddp_sync/pipelines/cloud_scrape_trigger.py:740-758 | the losing run |
| FargateJobs.CloudScraper.WaitForTaskStop | src/ddp_sync/pipelines/cloud_scrape_trigger.py:276-309 | the wait ends at the first poll that raises, sees the task stopped or falls past the deadline, with what that poll saw, or with no exit code |
| FargateJobs.CloudScraper.FinishAfterLaunch | src/ddp_sync/pipelines/cloud_scrape_trigger.py:382-474 | exit code 0 and a load that works: loaded and no alert; any other stop, or a load that fails: an alert and no load; an incomplete record or an exception: neither, and it raises |
| FargateJobs.CloudScraper.RunCloudScrape | src/ddp_sync/pipelines/cloud_scrape_trigger.py:611-758 | success and a load exactly when the launch, exit code 0 and the load all come about, failure and an alert in every other case; the record is made and cleared when Redis answers |
| FargateJobs.CloudScraper.ResumeJob | src/ddp_sync/pipelines/cloud_scrape_trigger.py:477-546 | the same for a resumed job, alerting before it clears |
| FargateJobs.CloudScraper.ReconcileInflightJobs | src/ddp_sync/pipelines/cloud_scrape_trigger.py:572-608 | exactly one new watcher for every parseable record when Redis answers, and no running one is disturbed |
| FargateJobs.CloudScraper.RecordStarted | src/ddp_sync/pipelines/inflight_fargate_jobs.py:73-102 | best effort: the record step, done or failed |
| FargateJobs.CloudScraper.ClearRecord | src/ddp_sync/pipelines/inflight_fargate_jobs.py:105-118 | best effort: the clear step, done or failed |
| StaleDispatch.TrackedTasksAreResolved | src/ddp_sync/pipelines/bill_artifact_generation.py:785-853 | a tracked task stays tracked until it has a terminal row or its live dispatcher handled it, and no task still active in CAMS was marked failed |
| StaleDispatch.AbandonedTasksWaitForASweep | src/ddp_sync/pipelines/bill_artifact_generation.py:856-1084 | over every run, a tracked task whose dispatcher died gets a row if and only if some later sweep finds it stale, CAMS says it is over or unknown, and the row could be written; until then its record stays as it was |
| StaleDispatch.CompleteRowSurvivesExactly | src/ddp_sync/pipelines/bill_artifact_generation.py:821-1082 | a complete row survives every run if and only if no usable tracking record is left and no dispatcher may yet track the task or write an answer of its own |
| StaleDispatch.SweepWritesWhatCamsLeft | src/ddp_sync/pipelines/bill_artifact_generation.py:937-1082 | a sweep turn by CAMS's status and the result on disk: a completed task with a sufficient answer gets a complete row, with another answer a failed one, every other task that is over is marked failed, and one that is active, out of reach or cannot be written is left as it is |
| StaleDispatch.DispatcherWritesItsAnswer | src/ddp_sync/pipelines/bill_artifact_generation.py:828-849 | the row a live dispatcher writes for its own answer |
| StaleDispatch.DispatchStore.CreateAndTrack | src/ddp_sync/pipelines/bill_artifact_generation.py:785-826 | the task is recorded, with its time, before any polling |
| StaleDispatch.DispatchStore.HandleOutcome | src/ddp_sync/pipelines/bill_artifact_generation.py:821-853 | a sufficient answer becomes a complete row and any other answer a failed one, unless the broker refuses it; the record goes once a row is written or no answer came, and is kept when an answer could not be written |
| StaleDispatch.DispatchStore.SweepOne | src/ddp_sync/pipelines/bill_artifact_generation.py:937-1082 | the branches of one sweep turn are that step, on the result that is on disk |
| StaleDispatch.DispatchStore.RecoverStale | src/ddp_sync/pipelines/bill_artifact_generation.py:856-1084 | the listed stale tasks are dealt out into recovered, failed and left, which the counters count; a recovered one has the row its answer deserves, a failed one, without an answer and not active, a failed row; the rest is as it was, and with CAMS and the broker there only active ones are left |
| Changelog.BaselineIsEarlier | src/ddp_sync/services/local_openstates_client.py:458-487 | the baseline is the latest earlier version in the diff lineage, else the earliest with text |
| Changelog.TransitionExactly | src/ddp_sync/services/local_openstates_client.py:597-625 | a version has a transition if and only if its diff is not empty and what it was taken against is there and not known to be of another media type |
| Changelog.ArchivedTransitions | src/ddp_sync/services/local_openstates_client.py:597-639 | transitions run forward, oldest first, one for each version that has one, from what its diff was taken against |
| Changelog.BackfillMissingVersions | src/ddp_sync/pipelines/bill_version.py:773-870 | rows for every older version with a note, or for some of them when writes fail |
| Changelog.OlderVersionsAreListed | src/ddp_sync/pipelines/bill_artifact_generation.py:1509-1515 | the older version of a transition is never the latest, so the backfill covers it |
| Changelog.ChangelogWalk.Walk | src/ddp_sync/pipelines/bill_artifact_generation.py:1526-1588 | every write names a version the broker had or an earlier write made, and lands on the placeholder for the requested version and on the target's own row otherwise; only a transition whose older version is unknown can be refused; no failed transition hides behind a later success; it ends where the first dispatch without an answer ends it |
| Changelog.ChangelogWalk.GenerateAndStore | src/ddp_sync/pipelines/bill_artifact_generation.py:1318-1588 | exactly the transitions not covered yet are walked; a sufficient answer writes a complete row and any other a failed one, and the result is complete exactly when every dispatch sufficed; when there is nothing to do, or the version is not the latest, it says so and writes nothing; with a reliable broker nothing is refused, and the placeholder's write is the last |
| Changelog.RequestedIsLast | src/ddp_sync/pipelines/bill_artifact_generation.py:1347-1368 | only the last transition can be to the requested version |
| Changelog.ChangelogWalk.DispatchAndRecord | src/ddp_sync/pipelines/bill_artifact_generation.py:1646-1765 | with a reliable broker the placeholder ends complete if and only if the requested version is the latest and has a transition, every dispatch answered and the last one sufficed; it is pending for good if and only if it is the latest and the first dispatch without an answer is an HTTP error; a complete one is never overwritten |
| Changelog.OneHttpErrorStrandsThePlaceholder | src/ddp_sync/pipelines/bill_artifact_generation.py:1745-1765 | two versions and one HTTP error leave it pending |
| ScrapeSchedule.ScrapeIdsNeverCollide | src/ddp_sync/scheduler.py:783-824 | no two scrape jobs share an id |
| ScrapeSchedule.OnlyTheLastRegistrationCounts | src/ddp_sync/scheduler.py:557-562 | after any sequence of registrations the scrape jobs are the last one's layout |
| ScrapeSchedule.ExactlyOneJobAlways | src/ddp_sync/scheduler.py:600-845 | after any non-empty sequence of registrations with any cadences, a secondary jurisdiction has exactly one job, the one the last cadences mean for it, if and only if it is not also an enabled primary; an excluded one is never nightly |
| ScrapeSchedule.JobsOfEveryJurisdiction | src/ddp_sync/scheduler.py:644-845 | the jobs of any jurisdiction, read off the last cadences: its own nightly one or the weekly batch, a primary its own, and the only weekly dedicated job is Florida's, with a day configured and not to be nightly |
| ScrapeSchedule.Scheduler.RegisterInTurn | src/ddp_sync/scheduler.py:557-562 | the same of the scheduler's own jobs, with the start at any point of the sequence; it succeeds when nothing raises |
| ScrapeSchedule.Scheduler.AddReplacing | src/ddp_sync/scheduler.py:977-998 | one job per id, before the start as after it; a call that raises leaves the old job of a running scheduler |
| ScrapeSchedule.Scheduler.RegisterScrapeJobs | src/ddp_sync/scheduler.py:641-845 | the code registers that layout, from any state, and does so when nothing raises; if it raises anywhere, each job is as it was or as it was going to be, and a running scheduler has lost none that both have |
| ScrapeSchedule.ReviewOnlyRaises | src/ddp_sync/services/scrape_cadence.py:129-200 | a review never lowers a cadence, and raises exactly a jurisdiction that is weekly by floor and override, is not excluded, and filed recently |
| ScrapeSchedule.EscalatesOnTheLatestRuns | src/ddp_sync/services/scrape_cadence.py:87-101 | recently: some run imported new bills and fewer than window runs after it were measured |
| ScrapeSchedule.CadenceReview.RunCadenceReview | src/ddp_sync/scheduler.py:1058-1212 | a nightly job has a stored override or a nightly floor behind it; a review that cannot read changes nothing; one that cannot apply keeps what it stored; when Redis answers, exactly the jurisdictions to be raised get a stored override, and the jobs change if and only if there is one: then a jurisdiction has its own nightly job exactly if its floor, its override or its latest runs say so and it is not excluded, and is in the batch otherwise |
| ScrapeSchedule.RestartAndReview | src/ddp_sync/scheduler.py:1177-1187 | after a restart and its review, a stored override is in force again if and only if that review raises someone |
| ScrapeSchedule.RestartLosesAnOverride | src/ddp_sync/scheduler.py:1177-1192 | one stored override, nothing else to raise: the jurisdiction stays in the weekly batch |
| BillTopics.SelectionIsSound | src/ddp_sync/pipelines/bill_artifact_generation.py:224-294 | distinct canonical names, at most max_topics, containing the primary; a valid answered primary survives the cap; none exactly when nothing is canonical |
| BillTopics.NothingFittingIsCut | src/ddp_sync/pipelines/bill_artifact_generation.py:273-277 | below the cap no canonical name of the answer is missing |
| BillTopics.CanonicalIsTheName | src/ddp_sync/pipelines/bill_artifact_generation.py:217-242 | a raw name stands for the last name of the list that folds like it, and for none if none does |
| BillTopics.FirstNamedSurvive | src/ddp_sync/pipelines/bill_artifact_generation.py:243-294 | which names survive and in what order: those the answer names first, in that order, with an established primary in front when it was not named or something is cut; without one the first is promoted |
| BillTopics.FilteringIsIdempotent | src/ddp_sync/pipelines/bill_artifact_generation.py:224-294 | filtering its own output changes nothing |
| BillTopics.FilterBillTopics | src/ddp_sync/pipelines/bill_artifact_generation.py:242-294 | the loops compute the selection those lemmas are about |

## Left out

- Embedder.KnowledgeBaseEmbedder.EmbedBill: does not model version diffs, which are off by default, nor metadata, labels and character totals.
- Embedder.KnowledgeBaseEmbedder.IngestDocument: does not model the duplicate check, which this path switches off, nor batches; a partial upsert may stop after any vector.
- PassLaws.OneCleanPassHeals: does not cover a pass whose first read of the record failed; the record still tells the truth after it (`RunKeepsInv`), but surplus chunks may stay.
- Watermark.AllRunsStaySafe: counts a bill whose version raced as read with nothing undone, as the code does; does not let two runs of one jurisdiction overlap; an expired watermark counts as one that is not returned.
- Backfill.StageBackfill.BackfillStage: does not model a listing that changes between runs, nor two backfills of one stage at once, which the lease is there to prevent.
- LedgerBlips.StaysPendingExactly: is about calls in full scope without orphan removal, as the ledger pass makes them when orphan removal is off.
- Ledger.LedgerReconcile.ReconcileFromLedger: does not model orphan removal in the ledger pass, whose budget is in `Watermark`, nor other writers beside it, whose effect on one bill is in `EmbedBill`.
- StaleDispatch.TrackedTasksAreResolved: does not model the tracking record's seven-day expiry.
- FargateJobs.JobsAreLostExactlyInTheWindow: takes all watchers to live in one process, so a crash ends them all; a job whose record could not be written is outside its claim.
- Changelog.ChangelogWalk.DispatchAndRecord: does not model the artifact types other than the changelog.
- ScrapeSchedule.Scheduler.RegisterScrapeJobs: takes the dedicated, primary and secondary sections to be enabled; does not model the patch, people and review jobs, which may only raise.
- ScrapeSchedule.Scheduler.RegisterInTurn: stops at a registration that raises; what that one leaves is in `RegisterScrapeJobs`.
- The redis expiry times, the backfill lease and its heartbeat, organization embedding, the dry-run plan and its cost estimate.
- The unrecorded-bill pass beside the watermark: it selects and embeds like the ledger pass and would add only easier members. The empty record it sets for a bill with nothing to embed, if there is none yet, is no step of the protocol.
- HTTP, ECS, S3, Slack, OpenAI and Pinecone: only their outcomes, as inputs or as nondeterministic choices.
- Configuration loading, logging, alert texts and the Markdown templates.
