/** The ledger pass (`_reconcile_from_ledger`): what makes a bill disagree with api-v3's ledger, when one
    clean `embed_bill` settles it, and how many capped runs empty the backlog. */
module Ledger {
  import opened Wrappers
  import opened KnowledgeBase
  import opened EmbeddingProtocol
  import opened EmbeddingAgreement
  import opened EmbeddingPass
  import opened PassLaws
  import Backends
  import Embedder
  import Chunking

  type BillId = string

  /** What api-v3 lists for one bill: its archived documents, each with its row's `updated_at`. */
  type Listed = map<ArchiveId, Option<Stamp>>

  // ---------------------------------------------------------------------------------------------
  // Findings
  // ---------------------------------------------------------------------------------------------

  datatype Finding = Finding(missing: nat, changed: nat, orphaned: nat)

  predicate IsMissing(listed: Listed, recorded: Documents, a: ArchiveId) {
    a in listed && a !in recorded
  }

  predicate IsChanged(listed: Listed, recorded: Documents, a: ArchiveId) {
    a in listed && a in recorded && listed[a].Some? && recorded[a].stamp != listed[a]
  }

  predicate IsOrphaned(listed: Listed, recorded: Documents, a: ArchiveId) {
    a in recorded && a !in listed
  }

  function FindingOf(listed: Listed, recorded: Documents, deleteOrphans: bool): Finding {
    Finding(|set a | a in listed && IsMissing(listed, recorded, a)|,
            |set a | a in listed && IsChanged(listed, recorded, a)|,
            if deleteOrphans then |set a | a in recorded && IsOrphaned(listed, recorded, a)| else 0)
  }

  /** No document of the bill disagrees. */
  predicate Quiet(listed: Listed, recorded: Documents, deleteOrphans: bool) {
    && (forall a <- listed :: !IsMissing(listed, recorded, a) && !IsChanged(listed, recorded, a))
    && (deleteOrphans ==> forall a <- recorded :: !IsOrphaned(listed, recorded, a))
  }

  lemma QuietMeansNothingFound(listed: Listed, recorded: Documents, deleteOrphans: bool)
    ensures Quiet(listed, recorded, deleteOrphans) <==> FindingOf(listed, recorded, deleteOrphans) == Finding(0, 0, 0)
  {
    var missing := set a | a in listed && IsMissing(listed, recorded, a);
    var changed := set a | a in listed && IsChanged(listed, recorded, a);
    var orphaned := set a | a in recorded && IsOrphaned(listed, recorded, a);
    if Quiet(listed, recorded, deleteOrphans) {
      assert missing == {} && changed == {};
      assert deleteOrphans ==> orphaned == {};
    } else if a :| a in listed && (IsMissing(listed, recorded, a) || IsChanged(listed, recorded, a)) {
      assert a in missing || a in changed;
    } else {
      var a :| a in recorded && IsOrphaned(listed, recorded, a);
      assert a in orphaned;
    }
  }

  /** The three counts in terms of the two listings: missing is listed and not recorded, orphaned the other
      way round, and changed is in both with a stamp that is not the listed one. */
  lemma FindingMeans(listed: Listed, recorded: Documents, deleteOrphans: bool)
    ensures var f := FindingOf(listed, recorded, deleteOrphans);
            && f.missing == |listed.Keys - recorded.Keys|
            && f.changed == |set a | a in listed && a in recorded && listed[a].Some? && recorded[a].stamp != listed[a]|
            && f.orphaned == (if deleteOrphans then |recorded.Keys - listed.Keys| else 0)
  {
    MissingMeans(listed, recorded);
    ChangedMeans(listed, recorded);
    OrphanedMeans(listed, recorded);
  }

  lemma MissingMeans(listed: Listed, recorded: Documents)
    ensures (set a | a in listed && IsMissing(listed, recorded, a)) == listed.Keys - recorded.Keys
  {
  }

  lemma ChangedMeans(listed: Listed, recorded: Documents)
    ensures (set a | a in listed && IsChanged(listed, recorded, a))
            == set a | a in listed && a in recorded && listed[a].Some? && recorded[a].stamp != listed[a]
  {
  }

  lemma OrphanedMeans(listed: Listed, recorded: Documents)
    ensures (set a | a in recorded && IsOrphaned(listed, recorded, a)) == recorded.Keys - listed.Keys
  {
  }

  lemma QuietMeans(listed: Listed, recorded: Documents, deleteOrphans: bool)
    ensures Quiet(listed, recorded, deleteOrphans) <==>
              && listed.Keys <= recorded.Keys
              && (forall a <- listed :: listed[a].Some? && a in recorded ==> recorded[a].stamp == listed[a])
              && (deleteOrphans ==> recorded.Keys <= listed.Keys)
  {
    forall a <- listed
      ensures !IsMissing(listed, recorded, a) <==> a in recorded
      ensures !IsChanged(listed, recorded, a) <==> (listed[a].Some? && a in recorded ==> recorded[a].stamp == listed[a])
    {
    }
    forall a <- recorded
      ensures !IsOrphaned(listed, recorded, a) <==> a in listed
    {
    }
  }

  function RecordOf(records: map<BillId, Documents>, b: BillId): Documents {
    if b in records then records[b] else map[]
  }

  /** The bills with a disagreement. */
  function Pending(ledger: map<BillId, Listed>, records: map<BillId, Documents>, deleteOrphans: bool): set<BillId> {
    set b | b in ledger && !Quiet(ledger[b], RecordOf(records, b), deleteOrphans)
  }

  // ---------------------------------------------------------------------------------------------
  // What one clean pass does to a bill's findings
  // ---------------------------------------------------------------------------------------------

  /** The stamp a document has after a clean pass over a version with text. */
  function StampAfter(v: Version, e: Entry): Option<Stamp> {
    if v.updatedAt.Some? && v.updatedAt.value != "" then v.updatedAt else e.stamp
  }

  predicate HasText(versions: seq<Version>, a: ArchiveId) {
    exists v <- versions :: Embeddable(v) && v.archiveId.value == a
  }

  /** What a caller can check before the pass: every listed document that the bill's detail has text for
      will carry the stamp the ledger lists, and every other one is already in order. */
  predicate WillSettle(listed: Listed, versions: seq<Version>, recorded: Documents) {
    && (forall v <- versions :: Embeddable(v) && v.archiveId.value in listed && listed[v.archiveId.value].Some? ==>
          StampAfter(v, EntryOf(recorded, v.archiveId.value)) == listed[v.archiveId.value])
    && (forall a <- listed :: !HasText(versions, a) ==> !IsMissing(listed, recorded, a) && !IsChanged(listed, recorded, a))
  }

  /** With orphan removal off, one clean pass settles a bill exactly when that holds. */
  lemma OnePassSettlesExactly(w: World, listed: Listed, versions: seq<Version>, recorded: Documents)
    requires DistinctIds(versions)
    ensures Quiet(listed, PassDocs(w, AllText, versions, recorded), false) <==> WillSettle(listed, versions, recorded)
  {
    var after := PassDocs(w, AllText, versions, recorded);
    forall v | v in versions && Embeddable(v)
      ensures v.archiveId.value in after
      ensures EntryOf(after, v.archiveId.value).stamp == StampAfter(v, EntryOf(recorded, v.archiveId.value))
    {
      var j :| 0 <= j < |versions| && versions[j] == v;
      PassIsPointwise(w, AllText, versions, recorded, map[], |versions|, j);
    }
    forall a | a in listed && !HasText(versions, a)
      ensures (a in after <==> a in recorded) && EntryOf(after, a) == EntryOf(recorded, a)
    {
      AheadIsUntouched(w, AllText, versions, recorded, |versions|, a);
    }
    forall a <- listed
      ensures (!IsMissing(listed, after, a) && !IsChanged(listed, after, a)) <==>
              if HasText(versions, a)
              then forall v <- versions :: Embeddable(v) && v.archiveId.value == a && listed[a].Some? ==>
                     StampAfter(v, EntryOf(recorded, a)) == listed[a]
              else !IsMissing(listed, recorded, a) && !IsChanged(listed, recorded, a)
    {
      if HasText(versions, a) {
        var v :| v in versions && Embeddable(v) && v.archiveId.value == a;
        forall u | u in versions && Embeddable(u) && u.archiveId.value == a
          ensures u == v
        {
        }
      }
    }
  }

  /** The ledger and the bill's detail list the same documents with the same stamps, and all have text. */
  predicate Consistent(listed: Listed, versions: seq<Version>) {
    && (forall a <- listed :: HasText(versions, a))
    && (forall v <- versions :: Embeddable(v) && v.archiveId.value in listed ==>
          && listed[v.archiveId.value] == v.updatedAt
          && v.updatedAt != Some(""))
  }

  lemma ConsistentBillsSettle(w: World, listed: Listed, versions: seq<Version>, recorded: Documents)
    requires DistinctIds(versions) && Consistent(listed, versions)
    ensures Quiet(listed, PassDocs(w, AllText, versions, recorded), false)
  {
    OnePassSettlesExactly(w, listed, versions, recorded);
  }

  /** What a record has to have for such a bill to be quiet. */
  lemma RecordedBillsAreQuiet(w: World, listed: Listed, versions: seq<Version>, recorded: Documents)
    requires Consistent(listed, versions) && RecordsWanted(w, AllText, versions, recorded)
    ensures Quiet(listed, recorded, false)
  {
    forall a <- listed
      ensures !IsMissing(listed, recorded, a) && !IsChanged(listed, recorded, a)
    {
      var v :| v in versions && Embeddable(v) && v.archiveId.value == a;
      assert RecordsText(w, v, recorded);
    }
  }

  // ---------------------------------------------------------------------------------------------
  // Runs
  // ---------------------------------------------------------------------------------------------

  function Least(a: nat, b: nat): nat {
    if a < b then a else b
  }

  /** The sizes of the backlog before and after runs in which nothing failed (`ReconcileFromLedger`). */
  predicate CleanRuns(cap: nat, sizes: seq<nat>) {
    sizes != [] && forall k | 0 < k < |sizes| :: sizes[k] == sizes[k - 1] - Least(cap, sizes[k - 1])
  }

  /** The backlog is empty after `k` such runs if and only if `k` caps cover it: after its size divided
      by the cap, rounded up, and not one run earlier. */
  lemma {:induction false} BacklogEmptiesExactly(cap: nat, sizes: seq<nat>)
    requires CleanRuns(cap, sizes)
    ensures sizes[|sizes| - 1] == 0 <==> sizes[0] <= (|sizes| - 1) * cap
    decreases |sizes|
  {
    if |sizes| > 1 {
      var rest := sizes[1..];
      assert rest[|rest| - 1] == sizes[|sizes| - 1];
      BacklogEmptiesExactly(cap, rest);
      assert (|sizes| - 1) * cap == (|rest| - 1) * cap + cap;
    }
  }

  /** A bill that goes quiet leaves the backlog, and no other bill does; whatever becomes of its record,
      the backlog is otherwise the same. */
  lemma SettlingLeavesTheRest(ledger: map<BillId, Listed>, before: map<BillId, Documents>, after: map<BillId, Documents>, b: BillId)
    requires forall q :: q != b ==> RecordOf(after, q) == RecordOf(before, q)
    ensures Pending(ledger, after, false) - {b} == Pending(ledger, before, false) - {b}
    ensures b in ledger && Quiet(ledger[b], RecordOf(after, b), false) ==> b !in Pending(ledger, after, false)
  {
  }

  /** How a selected bill ended: its record is as the source has it, its detail could not be read or it
      left something undone, or one of its versions counted as raced. */
  datatype Ending = Settled | Failed | Raced

  /** A set dealt out into four. */
  predicate Dealt<T>(all: set<T>, left: set<T>, settled: set<T>, failed: set<T>, raced: set<T>) {
    && all == left + settled + failed + raced
    && left !! settled && left !! failed && left !! raced && settled !! failed && settled !! raced && failed !! raced
  }

  lemma DealOne<T>(all: set<T>, left: set<T>, settled: set<T>, failed: set<T>, raced: set<T>, x: T)
    requires Dealt(all, left, settled, failed, raced) && x in left
    ensures Dealt(all, left - {x}, settled + {x}, failed, raced)
    ensures Dealt(all, left - {x}, settled, failed + {x}, raced)
    ensures Dealt(all, left - {x}, settled, failed, raced + {x})
  {
  }

  /** The backlog without what settled, give or take what was raced. */
  predicate Backlog<T>(before: set<T>, settled: set<T>, raced: set<T>, now: set<T>) {
    before - settled - raced <= now <= before - settled
  }

  lemma BacklogOneLess<T>(before: set<T>, settled: set<T>, raced: set<T>, now: set<T>, next: set<T>, x: T)
    requires Backlog(before, settled, raced, now) && next - {x} == now - {x} && x in before && x !in settled
    ensures x !in next ==> Backlog(before, settled + {x}, raced, next)
    ensures Backlog(before, settled, raced + {x}, next)
  {
    forall y | y != x
      ensures y in next <==> y in now
    {
      assert y in next - {x} <==> y in now - {x};
    }
  }

  lemma SizeOfDifference<T>(a: set<T>, b: set<T>)
    requires b <= a
    ensures |a - b| == |a| - |b|
  {
    assert a == (a - b) + b;
  }

  /** What is found about a bill, read off the two listings: nothing if they agree, and the counts of what
      they disagree about otherwise. */
  predicate FoundRight(listed: Listed, recorded: Documents, deleteOrphans: bool, found: Option<Finding>) {
    && (found.None? <==>
          && listed.Keys <= recorded.Keys
          && (forall a <- listed :: listed[a].Some? && a in recorded ==> recorded[a].stamp == listed[a])
          && (deleteOrphans ==> recorded.Keys <= listed.Keys))
    && (found.Some? ==>
          && found.value.missing == |listed.Keys - recorded.Keys|
          && found.value.changed == |set a | a in listed && a in recorded && listed[a].Some? && recorded[a].stamp != listed[a]|
          && found.value.orphaned == if deleteOrphans then |recorded.Keys - listed.Keys| else 0)
  }

  function FoundOf(listed: Listed, recorded: Documents, deleteOrphans: bool): Option<Finding> {
    if Quiet(listed, recorded, deleteOrphans) then None else Some(FindingOf(listed, recorded, deleteOrphans))
  }

  lemma FoundIsRight(listed: Listed, recorded: Documents, deleteOrphans: bool)
    ensures FoundRight(listed, recorded, deleteOrphans, FoundOf(listed, recorded, deleteOrphans))
  {
    FindingMeans(listed, recorded, deleteOrphans);
    QuietMeans(listed, recorded, deleteOrphans);
  }

  class LedgerReconcile {
    const world: World
    const chunking: Chunking.ChunkingService
    /** The bills whose detail api-v3 returns, with their versions. */
    const source: map<BillId, seq<Version>>
    /** No call fails. */
    const reliable: bool
    /** No read of a record fails. */
    const readsAnswer: bool
    /** Redis and the vector index, bill by bill. */
    var stored: map<BillId, Record>
    var vectors: map<BillId, Vectors>

    constructor (world: World, chunking: Chunking.ChunkingService, source: map<BillId, seq<Version>>, reliable: bool, readsAnswer: bool)
      requires ChunksAs(world, chunking) && Compatible(world) && forall b <- source :: Admits(world, source[b], None)
      ensures Valid() && this.world == world && this.chunking == chunking && this.source == source
      ensures this.reliable == reliable && this.readsAnswer == readsAnswer && stored == map[] && vectors == map[]
    {
      this.world, this.chunking, this.source, this.reliable, this.readsAnswer := world, chunking, source, reliable, readsAnswer;
      stored, vectors := map[], map[];
    }

    /** The chunker is the one that the world's chunks come from. */
    static ghost predicate ChunksAs(world: World, chunking: Chunking.ChunkingService) {
      && chunking.chunkSize >= 1
      && (forall text {:trigger Chunking.ChunkTexts(chunking.encoding, chunking.chunkSize, chunking.chunkOverlap, text)} ::
            world.chunksOf(text)
            == Chunking.ChunkTexts(chunking.encoding, chunking.chunkSize, chunking.chunkOverlap, text))
    }

    /** Every bill's record tells the truth. */
    ghost predicate Valid()
      reads this
    {
      && ChunksAs(world, chunking) && Compatible(world) && (forall b <- source :: Admits(world, source[b], None))
      && forall b: BillId {:trigger StoredOf(b)} :: GoodDocs(world, VectorsOf(b), Visible(StoredOf(b)))
    }

    function StoredOf(b: BillId): Option<Record>
      reads this
    {
      if b in stored then Some(stored[b]) else None
    }

    function VectorsOf(b: BillId): Vectors
      reads this
    {
      if b in vectors then vectors[b] else map[]
    }

    /** What `embed_bill` recorded for each bill that has a record. */
    function Records(): map<BillId, Documents>
      reads this
    {
      map b | b in stored :: Visible(Some(stored[b]))
    }

    /** `ledger_findings`. */
    method LedgerFindings(ledger: map<BillId, Listed>, deleteOrphans: bool) returns (findings: map<BillId, Finding>)
      ensures findings.Keys == Pending(ledger, Records(), deleteOrphans)
      ensures forall b <- ledger ::
                FoundRight(ledger[b], if b in stored && stored[b].schema == 2 then stored[b].documents else map[], deleteOrphans,
                           if b in findings then Some(findings[b]) else None)
    {
      findings := map[];
      var records := Records();
      var left := ledger.Keys;
      while left != {}
        invariant left <= ledger.Keys
        invariant findings.Keys == Pending(ledger, records, deleteOrphans) - left
        invariant forall b <- findings :: Some(findings[b]) == FoundOf(ledger[b], RecordOf(records, b), deleteOrphans)
        decreases |left|
      {
        var b :| b in left;
        left := left - {b};
        var finding := FindingOf(ledger[b], RecordOf(records, b), deleteOrphans);
        QuietMeansNothingFound(ledger[b], RecordOf(records, b), deleteOrphans);
        if finding.missing > 0 || finding.changed > 0 || finding.orphaned > 0 {
          findings := findings[b := finding];
        }
      }
      forall b <- ledger
        ensures FoundRight(ledger[b], if b in stored && stored[b].schema == 2 then stored[b].documents else map[], deleteOrphans,
                           if b in findings then Some(findings[b]) else None)
      {
        assert RecordOf(records, b) == if b in stored && stored[b].schema == 2 then stored[b].documents else map[];
        assert (if b in findings then Some(findings[b]) else None) == FoundOf(ledger[b], RecordOf(records, b), deleteOrphans);
        FoundIsRight(ledger[b], RecordOf(records, b), deleteOrphans);
      }
    }

    /** `random.sample(pending, n)`: any `n` of them. */
    method Sample(pending: set<BillId>, n: nat) returns (chosen: set<BillId>)
      requires n <= |pending|
      ensures chosen <= pending && |chosen| == n
    {
      chosen := {};
      var left := pending;
      while |chosen| < n
        invariant chosen <= pending && left == pending - chosen && |chosen| <= n
        decreases n - |chosen|
      {
        assert |left| == |pending| - |chosen|;
        var b :| b in left;
        chosen, left := chosen + {b}, left - {b};
      }
    }

    /** `_fetch_and_embed` in full, orphan removal off: `embed_bill` on the bill's own record and vectors.
        None when the bill's detail could not be read. */
    method FetchAndEmbed(b: BillId) returns (stats: Option<Embedder.Stats>)
      requires Valid()
      modifies this
      ensures Valid() && stored - {b} == old(stored) - {b} && vectors - {b} == old(vectors) - {b}
      ensures stats.None? || stats.value.undone > 0 ==> stored == old(stored)
      ensures stats.Some? ==> b in source
      ensures stats.Some? && DistinctIds(source[b]) && Embedder.Clean(stats.value) ==>
                RecordsWanted(world, AllText, source[b], Visible(StoredOf(b)))
      ensures stats.Some? && DistinctIds(source[b]) && stats.value.raced > 0 ==>
                !readsAnswer && Embedder.RecordsAHash(source[b], Visible(old(StoredOf(b))))
      ensures reliable && b in source && DistinctIds(source[b]) && IdsPresent(source[b]) ==>
                stats.Some? && Embedder.Clean(stats.value)
    {
      var failed: bool := *;
      if b !in source || (failed && !reliable) {
        return None;
      }
      assert GoodDocs(world, VectorsOf(b), Visible(StoredOf(b)));
      var backend := new Backends.Backend(world, true, reliable, readsAnswer, StoredOf(b), VectorsOf(b));
      var embedder := new Embedder.KnowledgeBaseEmbedder(backend, chunking, world.hash);
      var result;
      ghost var read, gone, reread;
      result, read, gone, reread := embedder.EmbedBill(source[b], AllText, None);
      Put(b, backend.stored, backend.vectors);
      stats := Some(result);
    }

    method Put(b: BillId, record: Option<Record>, chunks: Vectors)
      requires Valid() && GoodDocs(world, chunks, Visible(record))
      modifies this
      ensures Valid() && stored - {b} == old(stored) - {b} && vectors - {b} == old(vectors) - {b}
      ensures StoredOf(b) == record && (record == old(StoredOf(b)) ==> stored == old(stored))
    {
      stored := if record.Some? then stored[b := record.value] else stored - {b};
      vectors := vectors[b := chunks];
      forall q: BillId
        ensures GoodDocs(world, VectorsOf(q), Visible(StoredOf(q)))
      {
        assert q != b ==> StoredOf(q) == old(StoredOf(q)) && VectorsOf(q) == old(VectorsOf(q));
      }
    }

    /** One selected bill: gone from the backlog if it left nothing undone and nothing raced. */
    method EmbedSelected(ledger: map<BillId, Listed>, b: BillId) returns (ending: Ending)
      requires Valid() && b in ledger && (b in source ==> DistinctIds(source[b]) && Consistent(ledger[b], source[b]))
      modifies this
      ensures Valid() && forall q :: q != b ==> RecordOf(Records(), q) == RecordOf(old(Records()), q)
      ensures ending.Settled? ==> b !in Pending(ledger, Records(), false)
      ensures ending.Failed? ==> Records() == old(Records())
      ensures ending.Raced? ==> !readsAnswer && CanRace(b, RecordOf(old(Records()), b))
      ensures reliable && b in source && IdsPresent(source[b]) ==> ending.Settled?
    {
      var stats := FetchAndEmbed(b);
      forall q | q != b
        ensures RecordOf(Records(), q) == RecordOf(old(Records()), q)
      {
        assert q in stored - {b} <==> q in old(stored) - {b};
      }
      if stats == None || stats.value.undone > 0 {
        return Failed;
      }
      if stats.value.raced > 0 {
        return Raced;
      }
      RecordedBillsAreQuiet(world, ledger[b], source[b], RecordOf(Records(), b));
      SettlingLeavesTheRest(ledger, old(Records()), Records(), b);
      ending := Settled;
    }

    /** A version of the bill can look raced: a hash is recorded for it. */
    ghost predicate CanRace(b: BillId, recorded: Documents) {
      b in source && Embedder.RecordsAHash(source[b], recorded)
    }

    /** The ledger and the details agree, and no archived document id comes twice in a bill. */
    predicate Agree(ledger: map<BillId, Listed>) {
      forall b <- source :: DistinctIds(source[b]) && (b in ledger ==> Consistent(ledger[b], source[b]))
    }

    /** Every listed bill can be read and has an archived document id for every text. */
    predicate Complete(ledger: map<BillId, Listed>) {
      forall b <- ledger :: b in source && IdsPresent(source[b])
    }

    /** The loop over the selected bills. */
    method EmbedAll(ledger: map<BillId, Listed>, chosen: set<BillId>) returns (failed: set<BillId>, ghost raced: set<BillId>)
      requires Valid() && Agree(ledger) && chosen <= Pending(ledger, Records(), false)
      modifies this
      ensures Valid() && failed <= chosen && raced <= chosen && failed !! raced
      ensures Backlog(Pending(ledger, old(Records()), false), chosen - failed - raced, raced, Pending(ledger, Records(), false))
      ensures forall b :: b !in chosen || b in failed ==> RecordOf(Records(), b) == RecordOf(old(Records()), b)
      ensures forall b <- raced :: !readsAnswer && CanRace(b, RecordOf(old(Records()), b))
      ensures reliable && Complete(ledger) ==> failed == {} && raced == {}
    {
      failed, raced := {}, {};
      var left := chosen;
      ghost var settled: set<BillId> := {};
      while left != {}
        invariant Valid() && Dealt(chosen, left, settled, failed, raced)
        invariant Backlog(Pending(ledger, old(Records()), false), settled, raced, Pending(ledger, Records(), false))
        invariant forall b :: b !in settled + raced ==> RecordOf(Records(), b) == RecordOf(old(Records()), b)
        invariant forall b <- raced :: !readsAnswer && CanRace(b, RecordOf(old(Records()), b))
        invariant reliable && Complete(ledger) ==> failed == {} && raced == {}
        decreases left
      {
        var b :| b in left;
        DealOne(chosen, left, settled, failed, raced, b);
        left := left - {b};
        ghost var before := Records();
        var ending := EmbedSelected(ledger, b);
        SettlingLeavesTheRest(ledger, before, Records(), b);
        BacklogOneLess(Pending(ledger, old(Records()), false), settled, raced,
                       Pending(ledger, before, false), Pending(ledger, Records(), false), b);
        match ending
        case Settled => settled := settled + {b};
        case Failed => failed := failed + {b};
        case Raced => raced := raced + {b};
      }
      assert settled == chosen - failed - raced;
    }

    /** `_reconcile_from_ledger` with orphan removal off. `chosen` is the sample, `failed` the bills of it
        that left something undone and `raced` those that left nothing undone but raced; `complete` is what
        the run reports. */
    method ReconcileFromLedger(ledger: map<BillId, Listed>, maxBills: nat, listingComplete: bool)
      returns (checked: nat, selected: nat, failures: nat, complete: bool,
               ghost chosen: set<BillId>, ghost failed: set<BillId>, ghost raced: set<BillId>)
      requires Valid() && Agree(ledger)
      modifies this
      ensures Valid() && checked == |Pending(ledger, old(Records()), false)| && selected == |chosen| && failures == |failed|
      ensures failed <= chosen && raced <= chosen <= Pending(ledger, old(Records()), false) && failed !! raced
      ensures |chosen| == Least(maxBills, checked)
      // the backlog loses the chosen that neither failed nor raced, and of the raced perhaps some
      ensures Backlog(Pending(ledger, old(Records()), false), chosen - failed - raced, raced, Pending(ledger, Records(), false))
      ensures forall b :: b !in chosen || b in failed ==> RecordOf(Records(), b) == RecordOf(old(Records()), b)
      // only a bill with a recorded hash is raced, and none when every read answers
      ensures forall b <- raced :: !readsAnswer && CanRace(b, RecordOf(old(Records()), b))
      ensures reliable && Complete(ledger) ==> failed == {} && raced == {}
      ensures raced == {} ==> |Pending(ledger, Records(), false)| == checked - selected + failures
      // what is reported: every pending bill was tried and none failed, so what is still pending was raced
      ensures complete <==> listingComplete && failed == {} && chosen == Pending(ledger, old(Records()), false)
      ensures complete ==> Pending(ledger, Records(), false) <= raced
      ensures raced == {} ==> (complete <==> listingComplete && Pending(ledger, Records(), false) == {})
    {
      var findings := LedgerFindings(ledger, false);
      var pending := findings.Keys;
      checked := |pending|;
      var todo;
      if |pending| <= maxBills {
        todo := pending;
      } else {
        todo := Sample(pending, maxBills);
      }
      var undone;
      undone, raced := EmbedAll(ledger, todo);
      selected, failures := |todo|, |undone|;
      complete := listingComplete && failures == 0 && selected == checked;
      chosen, failed := todo, undone;
      if selected == checked {
        SizeOfDifference(pending, chosen);
      }
      if raced == {} {
        CountBacklog(pending, chosen, failed, Pending(ledger, Records(), false));
      }
    }

    static lemma CountBacklog(pending: set<BillId>, chosen: set<BillId>, failed: set<BillId>, now: set<BillId>)
      requires failed <= chosen <= pending && Backlog(pending, chosen - failed - {}, {}, now)
      ensures |now| == |pending| - |chosen| + |failed|
      ensures now == {} <==> |failed| == 0 && |chosen| == |pending|
    {
      assert chosen - failed - {} == chosen - failed;
      assert now == pending - (chosen - failed);
      SizeOfDifference(chosen, failed);
      SizeOfDifference(pending, chosen - failed);
    }

    /** `k` runs in a row over one ledger. When none of them had a bill fail or raced, they empty the
        backlog if and only if `k` caps cover it. */
    method Drain(ledger: map<BillId, Listed>, maxBills: nat, k: nat) returns (ghost clean: bool)
      requires Valid() && Agree(ledger)
      modifies this
      ensures clean ==> (Pending(ledger, Records(), false) == {} <==> |Pending(ledger, old(Records()), false)| <= k * maxBills)
      ensures reliable && Complete(ledger) ==> clean
    {
      clean := true;
      ghost var sizes: seq<nat> := [|Pending(ledger, Records(), false)|];
      for i := 0 to k
        invariant Valid() && |sizes| == i + 1
        invariant sizes[0] == |Pending(ledger, old(Records()), false)| && sizes[i] == |Pending(ledger, Records(), false)|
        invariant clean ==> CleanRuns(maxBills, sizes)
        invariant reliable && Complete(ledger) ==> clean
      {
        var checked, selected, failures, complete;
        ghost var chosen, failed, raced;
        checked, selected, failures, complete, chosen, failed, raced := ReconcileFromLedger(ledger, maxBills, true);
        clean := clean && failed == {} && raced == {};
        sizes := sizes + [|Pending(ledger, Records(), false)|];
      }
      if clean {
        BacklogEmptiesExactly(maxBills, sizes);
      }
    }
  }
}
