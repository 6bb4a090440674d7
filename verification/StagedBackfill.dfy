/** The stages of the backfill (`pipelines/knowledge_base_backfill.py`): which bills each one selects,
    and that the three default stages together are one full pass. */
module StagedBackfill {
  import opened Wrappers
  import opened KnowledgeBase
  import opened EmbeddingProtocol
  import opened EmbeddingAgreement
  import opened EmbeddingPass
  import opened PassLaws

  type BillId = string

  datatype Stage = Current | PriorSessions | History

  /** `STAGE_SCOPES` for the default stages. */
  function ScopeOf(stage: Stage): Scope {
    if stage == History then AllText else CurrentText
  }

  // ---------------------------------------------------------------------------------------------
  // The bills of a stage
  // ---------------------------------------------------------------------------------------------

  /** A listing api-v3 gave, and whether it was complete. */
  datatype Listing = Listing(ids: set<BillId>, complete: bool)

  function Union(listings: seq<Option<Listing>>): set<BillId> {
    set k, b | 0 <= k < |listings| && listings[k].Some? && b in listings[k].value.ids :: b
  }

  predicate Usable(listing: Option<Listing>) {
    listing.Some? && listing.value.complete
  }

  /** The bills of a stage, given what listing each current session and listing everything return:
      None when a listing the stage needs failed or was truncated, or no session is current. */
  method SelectBills(stage: Stage, sessions: seq<Option<Listing>>, everything: Option<Listing>) returns (r: Option<set<BillId>>)
    ensures r.Some? <==>
              && (stage != History ==> sessions != [] && forall s <- sessions :: Usable(s))
              && (stage != Current ==> Usable(everything))
    ensures r.Some? && stage == Current ==> forall b :: b in r.value <==> exists k :: 0 <= k < |sessions| && sessions[k].Some? && b in sessions[k].value.ids
    ensures r.Some? && stage == PriorSessions ==>
              forall b :: b in r.value <==> b in everything.value.ids && !(exists k :: 0 <= k < |sessions| && sessions[k].Some? && b in sessions[k].value.ids)
    ensures r.Some? && stage == History ==> r.value == everything.value.ids
  {
    if stage != History {
      if sessions == [] {
        return None;
      }
      var current := {};
      for k := 0 to |sessions|
        invariant forall j :: 0 <= j < k ==> Usable(sessions[j])
        invariant current == Union(sessions[..k])
      {
        if !Usable(sessions[k]) {
          return None;
        }
        current := current + sessions[k].value.ids;
        assert sessions[..k + 1] == sessions[..k] + [sessions[k]];
        OneMoreListing(sessions[..k], sessions[k]);
      }
      assert sessions[..|sessions|] == sessions;
      assert forall b :: b in current <==> exists k :: 0 <= k < |sessions| && sessions[k].Some? && b in sessions[k].value.ids;
      if stage == Current {
        return Some(current);
      }
      if !Usable(everything) {
        return None;
      }
      return Some(everything.value.ids - current);
    }
    r := if Usable(everything) then Some(everything.value.ids) else None;
  }

  lemma OneMoreListing(listings: seq<Option<Listing>>, listing: Option<Listing>)
    requires listing.Some?
    ensures Union(listings + [listing]) == Union(listings) + listing.value.ids
  {
    forall b
      ensures b in Union(listings + [listing]) <==> b in Union(listings) + listing.value.ids
    {
      if b in Union(listings) {
        var k :| 0 <= k < |listings| && listings[k].Some? && b in listings[k].value.ids;
        assert (listings + [listing])[k] == listings[k];
      }
      if b in listing.value.ids {
        assert (listings + [listing])[|listings|] == listing;
      }
    }
  }

  // ---------------------------------------------------------------------------------------------
  // One bill: a narrow pass and then a full one
  // ---------------------------------------------------------------------------------------------

  lemma FullTurnAbsorbs(w: World, wanted: bool, v: Version, e: Entry, vectors: Vectors)
    requires Embeddable(v)
    ensures EntryTurn(w, true, v, EntryTurn(w, wanted, v, e)) == EntryTurn(w, true, v, e)
    ensures VectorTurn(w, true, v, EntryTurn(w, wanted, v, e), VectorTurn(w, wanted, v, e, vectors)) == VectorTurn(w, true, v, e, vectors)
  {
  }

  predicate IsDocument(versions: seq<Version>, j: nat, a: ArchiveId) {
    j < |versions| && Embeddable(versions[j]) && versions[j].archiveId.value == a
  }

  /** A full pass after a pass of any scope leaves the documents a full pass alone leaves. */
  lemma FullPassAbsorbsDocs(w: World, scope: Scope, versions: seq<Version>, docs: Documents)
    requires DistinctIds(versions)
    ensures PassDocs(w, AllText, versions, PassDocs(w, scope, versions, docs)) == PassDocs(w, AllText, versions, docs)
  {
    var first := PassDocs(w, scope, versions, docs);
    var staged, full := PassDocs(w, AllText, versions, first), PassDocs(w, AllText, versions, docs);
    forall a: ArchiveId
      ensures (a in staged <==> a in full) && EntryOf(staged, a) == EntryOf(full, a)
    {
      if j: nat :| IsDocument(versions, j, a) {
        PassIsPointwise(w, scope, versions, docs, map[], |versions|, j);
        PassIsPointwise(w, AllText, versions, first, map[], |versions|, j);
        PassIsPointwise(w, AllText, versions, docs, map[], |versions|, j);
        FullTurnAbsorbs(w, Wanted(scope, versions, versions[j]), versions[j], EntryOf(docs, a), map[]);
      } else {
        assert forall j | 0 <= j < |versions| && Embeddable(versions[j]) :: versions[j].archiveId.value == a ==> IsDocument(versions, j, a);
        AheadIsUntouched(w, scope, versions, docs, |versions|, a);
        AheadIsUntouched(w, AllText, versions, first, |versions|, a);
        AheadIsUntouched(w, AllText, versions, docs, |versions|, a);
      }
    }
    SameEntriesSameDocs(staged, full);
  }

  lemma SameEntriesSameDocs(one: Documents, two: Documents)
    requires forall a :: (a in one <==> a in two) && EntryOf(one, a) == EntryOf(two, a)
    ensures one == two
  {
    forall a | a in one
      ensures one[a] == two[a]
    {
      assert EntryOf(one, a) == EntryOf(two, a);
    }
  }

  /** And the vectors. */
  lemma FullPassAbsorbsVectors(w: World, scope: Scope, versions: seq<Version>, docs: Documents, vectors: Vectors)
    requires DistinctIds(versions)
    ensures PassVectors(w, AllText, versions, PassDocs(w, scope, versions, docs), PassVectors(w, scope, versions, docs, vectors))
            == PassVectors(w, AllText, versions, docs, vectors)
  {
    var firstDocs, first := PassDocs(w, scope, versions, docs), PassVectors(w, scope, versions, docs, vectors);
    var staged, full := PassVectors(w, AllText, versions, firstDocs, first), PassVectors(w, AllText, versions, docs, vectors);
    forall a: ArchiveId
      ensures SameFor(a, staged, full)
    {
      if j: nat :| IsDocument(versions, j, a) {
        FullPassAbsorbsOneDocument(w, scope, versions, docs, vectors, j);
      } else {
        assert forall j | 0 <= j < |versions| && Embeddable(versions[j]) :: versions[j].archiveId.value == a ==> IsDocument(versions, j, a);
        AheadKeepsVectors(w, scope, versions, docs, vectors, |versions|, a);
        AheadKeepsVectors(w, AllText, versions, firstDocs, first, |versions|, a);
        AheadKeepsVectors(w, AllText, versions, docs, vectors, |versions|, a);
        SameForComposes(a, vectors, first, staged);
        SameForFlips(a, vectors, staged);
        SameForComposes(a, staged, vectors, full);
      }
    }
    SameForAllMeansSame(staged, full);
  }

  lemma SameForFlips(a: ArchiveId, one: Vectors, two: Vectors)
    requires SameFor(a, one, two)
    ensures SameFor(a, two, one)
  {
  }

  lemma SameForAllMeansSame(one: Vectors, two: Vectors)
    requires forall a :: SameFor(a, one, two)
    ensures one == two
  {
    forall k | k in one.Keys + two.Keys
      ensures k in one && k in two && one[k] == two[k]
    {
      assert SameFor(k.doc, one, two);
    }
  }

  lemma FullPassAbsorbsOneDocument(w: World, scope: Scope, versions: seq<Version>, docs: Documents, vectors: Vectors, j: nat)
    requires DistinctIds(versions) && j < |versions| && Embeddable(versions[j])
    ensures SameFor(versions[j].archiveId.value,
                    PassVectors(w, AllText, versions, PassDocs(w, scope, versions, docs), PassVectors(w, scope, versions, docs, vectors)),
                    PassVectors(w, AllText, versions, docs, vectors))
  {
    var v, a, n := versions[j], versions[j].archiveId.value, |versions|;
    var firstDocs, first := PassDocs(w, scope, versions, docs), PassVectors(w, scope, versions, docs, vectors);
    var staged, full := PassVectors(w, AllText, versions, firstDocs, first), PassVectors(w, AllText, versions, docs, vectors);
    var e, wanted := EntryOf(docs, a), Wanted(scope, versions, v);
    PassIsPointwise(w, scope, versions, docs, vectors, n, j);
    VectorsArePointwise(w, scope, versions, docs, vectors, n, j);
    VectorsArePointwise(w, AllText, versions, firstDocs, first, n, j);
    VectorsArePointwise(w, AllText, versions, docs, vectors, n, j);
    FullTurnAbsorbs(w, wanted, v, e, vectors);
    var turned := VectorTurn(w, wanted, v, e, vectors);
    TurnsOnSameVectors(w, true, v, EntryTurn(w, wanted, v, e), turned, first);
    SameForComposes(a, VectorTurn(w, true, v, e, vectors), VectorTurn(w, true, v, EntryTurn(w, wanted, v, e), first), staged);
    SameForFlips(a, VectorTurn(w, true, v, e, vectors), staged);
    SameForComposes(a, staged, VectorTurn(w, true, v, e, vectors), full);
  }

  /** No document is ingested twice: what the narrow pass ingested, the full pass after it skips. */
  lemma {:induction false} EachDocumentIsIngestedOnce(w: World, scope: Scope, versions: seq<Version>, docs: Documents, i: nat)
    requires DistinctIds(versions) && i <= |versions|
    ensures CleanIngests(w, scope, versions, docs, i) + CleanIngests(w, AllText, versions, PassDocs(w, scope, versions, docs), i)
            == CleanIngests(w, AllText, versions, docs, i)
  {
    if i > 0 {
      EachDocumentIsIngestedOnce(w, scope, versions, docs, i - 1);
      TurnsIngestOnce(w, scope, versions, docs, i - 1);
    }
  }

  lemma TurnsIngestOnce(w: World, scope: Scope, versions: seq<Version>, docs: Documents, j: nat)
    requires DistinctIds(versions) && j < |versions|
    ensures var v, first := versions[j], PassDocs(w, scope, versions, docs);
            Ingested1(w, scope, versions, v, CleanDocs(w, scope, versions, docs, j))
            + Ingested1(w, AllText, versions, v, CleanDocs(w, AllText, versions, first, j))
            == Ingested1(w, AllText, versions, v, CleanDocs(w, AllText, versions, docs, j))
  {
    if Embeddable(versions[j]) {
      TurnFindsFirstEntry(w, scope, versions, docs, j);
      TurnFindsFirstEntry(w, AllText, versions, PassDocs(w, scope, versions, docs), j);
      TurnFindsFirstEntry(w, AllText, versions, docs, j);
      PassIsPointwise(w, scope, versions, docs, map[], |versions|, j);
    }
  }

  /** How many of the first `i` versions have a document to embed. */
  function Embeddables(versions: seq<Version>, i: nat): nat
    requires i <= |versions|
  {
    if i == 0 then 0 else Embeddables(versions, i - 1) + if Embeddable(versions[i - 1]) then 1 else 0
  }

  /** From nothing recorded, the two passes together ingest every document exactly once. */
  lemma {:induction false} FromNothingAllAreIngested(w: World, versions: seq<Version>, i: nat)
    requires DistinctIds(versions) && i <= |versions|
    ensures CleanIngests(w, AllText, versions, map[], i) == Embeddables(versions, i)
  {
    if i > 0 {
      FromNothingAllAreIngested(w, versions, i - 1);
      if Embeddable(versions[i - 1]) {
        TurnFindsFirstEntry(w, AllText, versions, map[], i - 1);
      }
    }
  }

  // ---------------------------------------------------------------------------------------------
  // All bills
  // ---------------------------------------------------------------------------------------------

  /** What is stored about one bill. */
  datatype Embedded = Embedded(docs: Documents, vectors: Vectors)

  type Corpus = map<BillId, Embedded>

  function Pass(w: World, scope: Scope, versions: seq<Version>, bill: Embedded): Embedded {
    Embedded(PassDocs(w, scope, versions, bill.docs), PassVectors(w, scope, versions, bill.docs, bill.vectors))
  }

  /** A stage in which no call fails: `embed_bill` at the stage's scope for every selected bill. */
  function RunStage(w: World, stage: Stage, source: map<BillId, seq<Version>>, selected: set<BillId>, corpus: Corpus): (r: Corpus)
    ensures r.Keys == corpus.Keys
  {
    map b | b in corpus :: if b in selected && b in source then Pass(w, ScopeOf(stage), source[b], corpus[b]) else corpus[b]
  }

  lemma FullPassAbsorbs(w: World, scope: Scope, versions: seq<Version>, bill: Embedded)
    requires DistinctIds(versions)
    ensures Pass(w, AllText, versions, Pass(w, scope, versions, bill)) == Pass(w, AllText, versions, bill)
  {
    FullPassAbsorbsDocs(w, scope, versions, bill.docs);
    FullPassAbsorbsVectors(w, scope, versions, bill.docs, bill.vectors);
  }

  /** `current`, then `prior-sessions`, then `history` leave every listed bill as `history` alone would,
      and every other bill of a current session with its current text only. */
  lemma StagesEqualOneFullPass(w: World, source: map<BillId, seq<Version>>, corpus: Corpus,
                               current: set<BillId>, everything: set<BillId>)
    requires forall b <- source :: DistinctIds(source[b])
    ensures var staged := RunStage(w, History, source, everything,
                            RunStage(w, PriorSessions, source, everything - current,
                              RunStage(w, Current, source, current, corpus)));
            && (forall b <- corpus :: b in everything ==> staged[b] == RunStage(w, History, source, everything, corpus)[b])
            && (forall b <- corpus :: b !in everything ==> staged[b] == RunStage(w, Current, source, current, corpus)[b])
            && (current <= everything ==> staged == RunStage(w, History, source, everything, corpus))
  {
    var one := RunStage(w, Current, source, current, corpus);
    var two := RunStage(w, PriorSessions, source, everything - current, one);
    var staged := RunStage(w, History, source, everything, two);
    forall b | b in corpus && b in everything
      ensures staged[b] == RunStage(w, History, source, everything, corpus)[b]
    {
      if b in source {
        FullPassAbsorbs(w, CurrentText, source[b], corpus[b]);
        assert two[b] == Pass(w, CurrentText, source[b], corpus[b]);
      }
    }
  }

  /** What a stage leaves of one version's text: the history stage records and holds every text, the other
      two only the current one, and no stage touches a bill it did not select. */
  lemma StageRecords(w: World, stage: Stage, source: map<BillId, seq<Version>>, selected: set<BillId>, corpus: Corpus,
                     b: BillId, v: Version, t: Text)
    requires b in corpus && b in source && DistinctIds(source[b])
    requires v in source[b] && v.archiveId.Some? && IsText(v, t)
    ensures var a, before, after := v.archiveId.value, corpus[b], RunStage(w, stage, source, selected, corpus)[b];
            var current := v.classified
                           && forall u <- source[b] :: u.classified && u.ordinal.Some? ==> v.ordinal.Some? && u.ordinal.value <= v.ordinal.value;
            var was, hash := EntryOf(before.docs, a), Some(w.hash(t));
            if b !in selected then after == before
            else if stage == History || current then
              && EntryOf(after.docs, a).textHash == hash
              && (was.textHash != hash ==> EntryOf(after.docs, a).chunks == Some(|w.chunksOf(t)|) && Holds(after.vectors, a, w.chunksOf(t)))
              && (was.textHash == hash ==> SameFor(a, before.vectors, after.vectors))
            else EntryOf(after.docs, a).textHash == was.textHash && SameFor(a, before.vectors, after.vectors)
  {
    if b in selected {
      var versions, scope := source[b], ScopeOf(stage);
      TextIsTheFirst(v, t);
      WantedIsCovered(scope, versions, v);
      var j :| 0 <= j < |versions| && versions[j] == v;
      var a, e := v.archiveId.value, EntryOf(corpus[b].docs, v.archiveId.value);
      PassIsPointwise(w, scope, versions, corpus[b].docs, corpus[b].vectors, |versions|, j);
      VectorsArePointwise(w, scope, versions, corpus[b].docs, corpus[b].vectors, |versions|, j);
      TurnMeans(w, Wanted(scope, versions, v), v, t, e);
      IngestHolds(w, corpus[b].vectors, a, t, Count(e));
      SameForMeansSame(a, VectorTurn(w, Wanted(scope, versions, v), v, e, corpus[b].vectors),
                       PassVectors(w, scope, versions, corpus[b].docs, corpus[b].vectors), w.chunksOf(t));
    }
  }

  /** How many documents a stage ingests of one bill. */
  function BillIngests(w: World, stage: Stage, source: map<BillId, seq<Version>>, selected: set<BillId>, corpus: Corpus, b: BillId): nat {
    if b in selected && b in source && b in corpus then PassIngests(w, ScopeOf(stage), source[b], corpus[b].docs) else 0
  }

  /** And of some bills. */
  function StageIngests(w: World, stage: Stage, source: map<BillId, seq<Version>>, selected: set<BillId>, corpus: Corpus,
                        bills: seq<BillId>): nat
  {
    if bills == [] then 0
    else StageIngests(w, stage, source, selected, corpus, bills[..|bills| - 1])
         + BillIngests(w, stage, source, selected, corpus, bills[|bills| - 1])
  }

  /** The documents of some bills that can be embedded. */
  function DocumentsOf(source: map<BillId, seq<Version>>, bills: seq<BillId>): nat {
    if bills == [] then 0
    else
      var b := bills[|bills| - 1];
      DocumentsOf(source, bills[..|bills| - 1]) + if b in source then Embeddables(source[b], |source[b]|) else 0
  }

  lemma BillIsIngestedOnce(w: World, source: map<BillId, seq<Version>>, corpus: Corpus,
                           current: set<BillId>, everything: set<BillId>, b: BillId)
    requires forall q <- source :: DistinctIds(source[q])
    requires b in everything
    ensures var one := RunStage(w, Current, source, current, corpus);
            var two := RunStage(w, PriorSessions, source, everything - current, one);
            BillIngests(w, Current, source, current, corpus, b)
            + BillIngests(w, PriorSessions, source, everything - current, one, b)
            + BillIngests(w, History, source, everything, two, b)
            == BillIngests(w, History, source, everything, corpus, b)
  {
    if b in source && b in corpus {
      EachDocumentIsIngestedOnce(w, CurrentText, source[b], corpus[b].docs, |source[b]|);
    }
  }

  /** Over all listed bills, the three stages together ingest what the full stage alone would: no
      document twice, and none that was recorded already. */
  lemma {:induction false} StagesIngestOnce(w: World, source: map<BillId, seq<Version>>, corpus: Corpus,
                                            current: set<BillId>, everything: set<BillId>, bills: seq<BillId>)
    requires forall b <- source :: DistinctIds(source[b])
    requires forall b <- bills :: b in everything
    ensures var one := RunStage(w, Current, source, current, corpus);
            var two := RunStage(w, PriorSessions, source, everything - current, one);
            StageIngests(w, Current, source, current, corpus, bills)
            + StageIngests(w, PriorSessions, source, everything - current, one, bills)
            + StageIngests(w, History, source, everything, two, bills)
            == StageIngests(w, History, source, everything, corpus, bills)
  {
    if bills != [] {
      StagesIngestOnce(w, source, corpus, current, everything, bills[..|bills| - 1]);
      BillIsIngestedOnce(w, source, corpus, current, everything, bills[|bills| - 1]);
    }
  }

  lemma {:induction false} FullStageIngestsAll(w: World, source: map<BillId, seq<Version>>, corpus: Corpus,
                                               everything: set<BillId>, bills: seq<BillId>)
    requires forall b <- source :: DistinctIds(source[b])
    requires forall b <- bills :: b in everything && b in corpus && corpus[b].docs == map[]
    ensures StageIngests(w, History, source, everything, corpus, bills) == DocumentsOf(source, bills)
  {
    if bills != [] {
      var b := bills[|bills| - 1];
      FullStageIngestsAll(w, source, corpus, everything, bills[..|bills| - 1]);
      if b in source {
        FromNothingAllAreIngested(w, source[b], |source[b]|);
      }
    }
  }

  /** From nothing recorded, the three stages ingest every embeddable document of every listed bill
      exactly once in all. */
  lemma AllStagesIngestEveryDocumentOnce(w: World, source: map<BillId, seq<Version>>, corpus: Corpus,
                                         current: set<BillId>, everything: set<BillId>, bills: seq<BillId>)
    requires forall b <- source :: DistinctIds(source[b])
    requires forall b <- bills :: b in everything && b in corpus && corpus[b].docs == map[]
    ensures var one := RunStage(w, Current, source, current, corpus);
            var two := RunStage(w, PriorSessions, source, everything - current, one);
            StageIngests(w, Current, source, current, corpus, bills)
            + StageIngests(w, PriorSessions, source, everything - current, one, bills)
            + StageIngests(w, History, source, everything, two, bills)
            == DocumentsOf(source, bills)
  {
    StagesIngestOnce(w, source, corpus, current, everything, bills);
    FullStageIngestsAll(w, source, corpus, everything, bills);
  }
}
