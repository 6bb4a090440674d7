/** What a read that fails once can do to the ledger pass: exactly which bills one call can leave pending
    with nothing undone and nobody else writing, and when a run that reports itself complete can leave
    bills behind. */
module LedgerBlips {
  import opened Wrappers
  import opened KnowledgeBase
  import opened EmbeddingProtocol
  import opened EmbeddingAgreement
  import opened EmbeddingPass
  import opened PassLaws
  import opened LoneWriter
  import opened Ledger

  /** A listed document with text has a hash recorded, of this text or another. */
  predicate RecordsListedHash(listed: Listed, versions: seq<Version>, recorded: Documents) {
    exists v <- versions :: Embeddable(v) && v.archiveId.value in listed && EntryOf(recorded, v.archiveId.value).textHash.Some?
  }

  /** A bill that the ledger and its detail agree on, and of which every text can be written. */
  predicate InOrder(w: World, listed: Listed, versions: seq<Version>) {
    Consistent(listed, versions) && DistinctIds(versions) && IdsPresent(versions) && Admits(w, versions, None)
  }

  /** With no hash recorded for any listed document, however its reads fail, a call that leaves nothing
      undone settles the bill. */
  lemma UnseenBillsSettle(w: World, s: State, id: WriterId, listed: Listed, versions: seq<Version>, after: Option<Record>)
    requires s.writers == map[] && InOrder(w, listed, versions)
    requires CanLeave(w, s, id, versions, after) && !RecordsListedHash(listed, versions, Visible(s.stored))
    ensures Quiet(listed, Visible(after), false)
  {
    UnrecordedTextsAreRecorded(w, s, id, versions, after);
    forall a <- listed
      ensures !IsMissing(listed, Visible(after), a) && !IsChanged(listed, Visible(after), a)
    {
      var v :| v in versions && Embeddable(v) && v.archiveId.value == a;
      var j :| 0 <= j < |versions| && versions[j] == v;
      assert Unrecorded(versions[j], Visible(s.stored));
      assert RecordsText(w, versions[j], Visible(after));
    }
  }

  /** What a call leaves of a bill whose first read fails, whose re-reads succeed, and whose last read fails
      if it comes to that. */
  function Blip(w: World, versions: seq<Version>, stored: Option<Record>): Option<Record> {
    BlindRecord(w, versions, stored, ListedIds(versions))
  }

  /** Then every version with a recorded hash counts as raced, and a pending bill with such a document
      stays pending: its record is as it was, or holds what the call wrote and the raced document no more. */
  lemma ABlipLooksLikeARace(w: World, s: State, id: WriterId, listed: Listed, versions: seq<Version>)
    requires s.writers == map[] && InOrder(w, listed, versions)
    requires !Quiet(listed, Visible(s.stored), false) && RecordsListedHash(listed, versions, Visible(s.stored))
    ensures CanLeave(w, s, id, versions, Blip(w, versions, s.stored)) && !Quiet(listed, Visible(Blip(w, versions, s.stored)), false)
  {
    var seen, recorded := ListedIds(versions), Visible(s.stored);
    CanLeaveBlindRecord(w, s, id, versions, seen);
    var q :| q in versions && Embeddable(q) && q.archiveId.value in listed && EntryOf(recorded, q.archiveId.value).textHash.Some?;
    var a := q.archiveId.value;
    BlindDocsAre(w, versions, recorded, seen, |versions|, a);
    forall j | 0 <= j < |versions|
      ensures !Writes(versions, recorded, seen, j, a)
    {
      assert versions[j] in versions;
    }
    if BlindDocs(w, versions, recorded, seen, |versions|) != map[] {
      assert IsMissing(listed, Visible(Blip(w, versions, s.stored)), a);
    }
  }

  /** A pending bill can be left pending by a call that leaves nothing undone, with nobody else writing, if
      and only if a hash is recorded for one of its listed documents. */
  lemma StaysPendingExactly(w: World, s: State, id: WriterId, listed: Listed, versions: seq<Version>)
    requires s.writers == map[] && InOrder(w, listed, versions) && !Quiet(listed, Visible(s.stored), false)
    ensures (exists after :: CanLeave(w, s, id, versions, after) && !Quiet(listed, Visible(after), false))
            <==> RecordsListedHash(listed, versions, Visible(s.stored))
  {
    if after :| CanLeave(w, s, id, versions, after) && !Quiet(listed, Visible(after), false) {
      if !RecordsListedHash(listed, versions, Visible(s.stored)) {
        UnseenBillsSettle(w, s, id, listed, versions, after);
      }
    }
    if RecordsListedHash(listed, versions, Visible(s.stored)) {
      ABlipLooksLikeARace(w, s, id, listed, versions);
    }
  }

  // ---------------------------------------------------------------------------------------------
  // A whole run that reports itself complete
  // ---------------------------------------------------------------------------------------------

  /** What is stored about a bill before the run. */
  function StateOf(before: map<BillId, State>, b: BillId): State {
    if b in before then before[b] else EMPTY
  }

  function RecordsOf(before: map<BillId, State>): map<BillId, Documents> {
    map b | b in before :: Visible(before[b].stored)
  }

  /** A call on the bill can leave these documents recorded, with nothing undone. */
  ghost predicate CanRecord(w: World, s: State, id: WriterId, versions: seq<Version>, docs: Documents) {
    exists after :: CanLeave(w, s, id, versions, after) && Visible(after) == docs
  }

  /** Every pending bill was called once, alone and with nothing undone, and no other bill was touched:
      what a run reports as complete. */
  ghost predicate CompleteRun(w: World, id: WriterId, source: map<BillId, seq<Version>>, before: map<BillId, State>,
                              pending: set<BillId>, after: map<BillId, Documents>)
    requires pending <= source.Keys
  {
    && (forall b <- pending :: CanRecord(w, StateOf(before, b), id, source[b], RecordOf(after, b)))
    && (forall b: BillId :: b !in pending ==> RecordOf(after, b) == RecordOf(RecordsOf(before), b))
  }

  ghost predicate AllInOrder(w: World, ledger: map<BillId, Listed>, source: map<BillId, seq<Version>>, before: map<BillId, State>) {
    && (forall b <- ledger :: b in source && InOrder(w, ledger[b], source[b]))
    && (forall b <- before :: before[b].writers == map[])
  }

  lemma WhatIsStored(before: map<BillId, State>, b: BillId)
    ensures Visible(StateOf(before, b).stored) == RecordOf(RecordsOf(before), b)
  {
  }

  /** A run that reports itself complete can leave bills pending if and only if a hash is recorded for a
      listed document of some pending bill. */
  lemma CompleteRunsLeaveBillsExactly(w: World, id: WriterId, ledger: map<BillId, Listed>, source: map<BillId, seq<Version>>,
                                      before: map<BillId, State>)
    requires AllInOrder(w, ledger, source, before)
    ensures var pending := Pending(ledger, RecordsOf(before), false);
            (exists after :: CompleteRun(w, id, source, before, pending, after) && Pending(ledger, after, false) != {})
            <==> exists b <- pending :: RecordsListedHash(ledger[b], source[b], RecordOf(RecordsOf(before), b))
  {
    var pending := Pending(ledger, RecordsOf(before), false);
    if after :| CompleteRun(w, id, source, before, pending, after) && Pending(ledger, after, false) != {} {
      var b :| b in Pending(ledger, after, false);
      LeftBehindWasSeen(w, id, ledger, source, before, after, b);
    }
    if b :| b in pending && RecordsListedHash(ledger[b], source[b], RecordOf(RecordsOf(before), b)) {
      BlipRunIsComplete(w, id, ledger, source, before);
      BlipRunLeavesBehind(w, id, ledger, source, before, b);
    }
  }

  lemma LeftBehindWasSeen(w: World, id: WriterId, ledger: map<BillId, Listed>, source: map<BillId, seq<Version>>,
                          before: map<BillId, State>, after: map<BillId, Documents>, b: BillId)
    requires AllInOrder(w, ledger, source, before)
    requires CompleteRun(w, id, source, before, Pending(ledger, RecordsOf(before), false), after) && b in Pending(ledger, after, false)
    ensures b in Pending(ledger, RecordsOf(before), false) && RecordsListedHash(ledger[b], source[b], RecordOf(RecordsOf(before), b))
  {
    var s := StateOf(before, b);
    WhatIsStored(before, b);
    assert b in Pending(ledger, RecordsOf(before), false);
    var left :| CanLeave(w, s, id, source[b], left) && Visible(left) == RecordOf(after, b);
    StaysPendingExactly(w, s, id, ledger[b], source[b]);
  }

  /** The run in which every call is such a blip. */
  function BlipRun(w: World, source: map<BillId, seq<Version>>, before: map<BillId, State>, pending: set<BillId>): map<BillId, Documents>
    requires pending <= source.Keys
  {
    map b | b in before.Keys + pending ::
      if b in pending then Visible(Blip(w, source[b], StateOf(before, b).stored)) else Visible(before[b].stored)
  }

  lemma BlipRunLeavesBehind(w: World, id: WriterId, ledger: map<BillId, Listed>, source: map<BillId, seq<Version>>,
                            before: map<BillId, State>, b: BillId)
    requires AllInOrder(w, ledger, source, before)
    requires b in Pending(ledger, RecordsOf(before), false) && RecordsListedHash(ledger[b], source[b], RecordOf(RecordsOf(before), b))
    ensures b in Pending(ledger, BlipRun(w, source, before, Pending(ledger, RecordsOf(before), false)), false)
  {
    WhatIsStored(before, b);
    ABlipLooksLikeARace(w, StateOf(before, b), id, ledger[b], source[b]);
  }

  lemma BlipRunIsComplete(w: World, id: WriterId, ledger: map<BillId, Listed>, source: map<BillId, seq<Version>>,
                          before: map<BillId, State>)
    requires AllInOrder(w, ledger, source, before)
    ensures var pending := Pending(ledger, RecordsOf(before), false);
            CompleteRun(w, id, source, before, pending, BlipRun(w, source, before, pending))
  {
    var pending := Pending(ledger, RecordsOf(before), false);
    forall b: BillId
      ensures b in pending ==> CanRecord(w, StateOf(before, b), id, source[b], RecordOf(BlipRun(w, source, before, pending), b))
      ensures b !in pending ==> RecordOf(BlipRun(w, source, before, pending), b) == RecordOf(RecordsOf(before), b)
    {
      BlipRunAt(w, source, before, pending, b);
      if b in pending {
        CanLeaveBlindRecord(w, StateOf(before, b), id, source[b], ListedIds(source[b]));
      }
    }
  }

  lemma BlipRunAt(w: World, source: map<BillId, seq<Version>>, before: map<BillId, State>, pending: set<BillId>, b: BillId)
    requires pending <= source.Keys
    ensures RecordOf(BlipRun(w, source, before, pending), b)
            == if b in pending then Visible(Blip(w, source[b], StateOf(before, b).stored)) else RecordOf(RecordsOf(before), b)
  {
  }
}
