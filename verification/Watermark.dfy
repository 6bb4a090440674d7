/** The watermark of the live embedding hook (`embed_archived_bills`): which archived changes it can
    leave behind, over any sequence of runs that fail, stop or overlap with new changes. */
module Watermark {
  import opened Wrappers

  type BillId = string
  type Time = int

  const MAX_ORPHAN_DOCUMENTS_PER_RUN := 200

  /** A document of `bill` changed in the archive at `at`. */
  datatype Change = Change(bill: BillId, at: Time)

  /** The archive, the stored watermark, the first watermark ever stored, and the changes that are in a
      bill read which left nothing undone. */
  datatype Desk = Desk(now: Time, changes: set<Change>, watermark: Option<Time>, first: Option<Time>, covered: set<Change>)

  predicate Valid(s: Desk) {
    && (forall c <- s.changes :: c.at <= s.now)
    && (s.watermark.Some? <==> s.first.Some?)
    && (s.watermark.Some? ==> s.watermark.value <= s.now)
  }

  /** Every change from the first watermark up to the current one is covered. */
  predicate Safe(s: Desk) {
    s.watermark.Some? && s.first.Some? ==>
      forall c <- s.changes :: s.first.value <= c.at < s.watermark.value ==> c in s.covered
  }

  // ---------------------------------------------------------------------------------------------
  // What a run does
  // ---------------------------------------------------------------------------------------------

  /** Time passes, and these bills change. */
  function Tick(s: Desk, to: Time, changed: set<BillId>): Desk {
    if to < s.now then s else s.(now := to, changes := s.changes + set b <- changed :: Change(b, to))
  }

  /** One bill of a run: what happens in the archive before it is read, and whether `embed_bill` left
      nothing undone. */
  datatype Visit = Visit(to: Time, changed: set<BillId>, bill: BillId, clean: bool)

  function VisitOne(s: Desk, v: Visit): Desk {
    var t := Tick(s, v.to, v.changed);
    if v.clean then t.(covered := t.covered + set c <- t.changes | c.bill == v.bill) else t
  }

  function VisitAll(s: Desk, visits: seq<Visit>): Desk {
    if visits == [] then s else VisitOne(VisitAll(s, visits[..|visits| - 1]), visits[|visits| - 1])
  }

  /** One call of `embed_archived_bills`. `readOk` is false when a stored watermark was not returned (a
      Redis error, or it has expired), `complete` is false when the listing was cut short or the call
      never reached its end, `stored` is false when the new watermark was not written. */
  datatype Run = Run(startedAt: Time, readOk: bool, complete: bool, visits: seq<Visit>, stored: bool)

  function Since(watermark: Option<Time>, startedAt: Time): Time {
    if watermark.Some? && watermark.value < startedAt then watermark.value else startedAt
  }

  /** What the listing promises, when it is complete. */
  predicate Admitted(s: Desk, run: Run) {
    && run.startedAt <= s.now
    && (run.complete ==>
          forall c <- s.changes :: Since(if run.readOk then s.watermark else None, run.startedAt) <= c.at ==>
            exists v <- run.visits :: v.bill == c.bill)
  }

  predicate Advances(run: Run) {
    run.complete && run.stored && forall v <- run.visits :: v.clean
  }

  function After(s: Desk, run: Run): Desk {
    var t := VisitAll(s, run.visits);
    if !Advances(run) then t
    else t.(watermark := Some(run.startedAt), first := if t.first.None? then Some(run.startedAt) else t.first)
  }

  // ---------------------------------------------------------------------------------------------
  // Safety
  // ---------------------------------------------------------------------------------------------

  /** Visiting bills only ever adds changes, none of them in the past, and covers more. */
  lemma {:induction false} VisitsOnlyAdd(s: Desk, visits: seq<Visit>)
    requires Valid(s)
    ensures var t := VisitAll(s, visits);
            && Valid(t) && s.now <= t.now && t.watermark == s.watermark && t.first == s.first
            && s.changes <= t.changes && s.covered <= t.covered
            && (forall c <- t.changes :: c in s.changes || s.now <= c.at)
            && (forall c <- s.changes, v <- visits :: v.clean && v.bill == c.bill ==> c in t.covered)
  {
    if visits != [] {
      VisitsOnlyAdd(s, visits[..|visits| - 1]);
    }
  }

  /** The branch under which one run keeps the watermark safe. */
  predicate KeepsGap(watermark: Option<Time>, startedAt: Time, readOk: bool) {
    readOk || watermark.None? || startedAt <= watermark.value
  }

  lemma RunStaysSafe(s: Desk, run: Run)
    requires Valid(s) && Safe(s) && Admitted(s, run)
    requires KeepsGap(s.watermark, run.startedAt, run.readOk)
    ensures Valid(After(s, run)) && Safe(After(s, run))
  {
    VisitsOnlyAdd(s, run.visits);
    var t := After(s, run);
    if t.watermark.Some? && t.first.Some? {
      forall c <- t.changes | t.first.value <= c.at < t.watermark.value
        ensures c in t.covered
      {
        assert c in s.changes;
        if Advances(run) && Since(if run.readOk then s.watermark else None, run.startedAt) <= c.at {
          var v :| v in run.visits && v.bill == c.bill;
        }
      }
    }
  }

  /** Over all runs: whenever every run could read the watermark there was, or started no later than it,
      every change from the first watermark up to the current one was in a bill read that left nothing
      undone. */
  lemma {:induction false} AllRunsStaySafe(s: Desk, runs: seq<Run>)
    requires Valid(s) && Safe(s)
    requires Possible(s, runs)
    ensures Safe(AfterAll(s, runs))
    decreases |runs|
  {
    if runs != [] {
      RunStaysSafe(s, runs[0]);
      AllRunsStaySafe(After(s, runs[0]), runs[1..]);
    }
  }

  function AfterAll(s: Desk, runs: seq<Run>): Desk
    decreases |runs|
  {
    if runs == [] then s else AfterAll(After(s, runs[0]), runs[1..])
  }

  predicate Possible(s: Desk, runs: seq<Run>)
    decreases |runs|
  {
    runs == [] || (&& Admitted(s, runs[0]) && KeepsGap(s.watermark, runs[0].startedAt, runs[0].readOk)
                   && Possible(After(s, runs[0]), runs[1..]))
  }

  /** A run with this watermark, start and read can lose nothing. */
  ghost predicate NeverLoses(watermark: Option<Time>, startedAt: Time, readOk: bool) {
    forall s, run |
      && Valid(s) && Safe(s) && Admitted(s, run)
      && s.watermark == watermark && run.startedAt == startedAt && run.readOk == readOk ::
      Safe(After(s, run))
  }

  /** Exactly when: a watermark that exists but is not returned makes the run start from its own start,
      and a change between the two is left behind for good. */
  lemma NeverLosesExactly(watermark: Option<Time>, startedAt: Time, readOk: bool)
    ensures NeverLoses(watermark, startedAt, readOk) <==> KeepsGap(watermark, startedAt, readOk)
  {
    if KeepsGap(watermark, startedAt, readOk) {
      forall s, run |
        && Valid(s) && Safe(s) && Admitted(s, run)
        && s.watermark == watermark && run.startedAt == startedAt && run.readOk == readOk
        ensures Safe(After(s, run))
      {
        RunStaysSafe(s, run);
      }
    } else {
      var missed := Change("b", watermark.value);
      var s := Desk(startedAt, {missed}, watermark, watermark, {});
      var run := Run(startedAt, false, true, [], true);
      assert Admitted(s, run);
      assert missed in After(s, run).changes && !Safe(After(s, run));
    }
  }

  // ---------------------------------------------------------------------------------------------
  // The run itself
  // ---------------------------------------------------------------------------------------------

  /** The visits that left something undone. */
  function Unclean(visits: seq<Visit>): set<nat> {
    set k: nat | k < |visits| && !visits[k].clean
  }

  lemma UncleanOneMore(visits: seq<Visit>, visit: Visit)
    ensures Unclean(visits + [visit]) == if visit.clean then Unclean(visits) else Unclean(visits) + {|visits|}
  {
  }

  lemma NoneUnclean(visits: seq<Visit>)
    ensures |Unclean(visits)| == 0 <==> forall v <- visits :: v.clean
  {
    forall k: nat | k < |visits|
      ensures k in Unclean(visits) <==> !visits[k].clean
    {
    }
    if Unclean(visits) == {} {
      assert forall k: nat | k < |visits| :: k !in Unclean(visits);
    } else {
      var k: nat :| k in Unclean(visits);
      assert visits[k] in visits;
    }
  }

  /** A visit that leaves nothing undone covers every change of its bill there was at the start. */
  lemma {:induction false} VisitsCover(s: Desk, visits: seq<Visit>)
    ensures s.changes <= VisitAll(s, visits).changes && s.covered <= VisitAll(s, visits).covered
    ensures forall c <- s.changes, v <- visits :: v.clean && v.bill == c.bill ==> c in VisitAll(s, visits).covered
  {
    if visits != [] {
      VisitsCover(s, visits[..|visits| - 1]);
    }
  }

  /** And nothing else is covered: only changes of a bill that was read and left nothing undone. */
  lemma {:induction false} OnlyVisitsCover(s: Desk, visits: seq<Visit>, c: Change)
    requires c in VisitAll(s, visits).covered
    ensures c in s.covered || (c in VisitAll(s, visits).changes && exists v <- visits :: v.clean && v.bill == c.bill)
  {
    if visits != [] {
      var last := visits[|visits| - 1];
      if c in VisitAll(s, visits[..|visits| - 1]).covered {
        OnlyVisitsCover(s, visits[..|visits| - 1], c);
      } else {
        assert last in visits && last.clean && last.bill == c.bill;
      }
    }
  }

  lemma CompleteRunCovers(s: Desk, run: Run)
    requires Admitted(s, run) && run.complete && forall v <- run.visits :: v.clean
    ensures forall c <- s.changes |
              run.startedAt <= c.at || (run.readOk && s.watermark.Some? && s.watermark.value <= c.at) :: c in VisitAll(s, run.visits).covered
  {
    VisitsCover(s, run.visits);
    forall c <- s.changes | run.startedAt <= c.at || (run.readOk && s.watermark.Some? && s.watermark.value <= c.at)
      ensures c in VisitAll(s, run.visits).covered
    {
      var v :| v in run.visits && v.bill == c.bill;
    }
  }

  datatype Listing = Listing(ids: seq<BillId>, complete: bool)

  datatype Totals = Totals(bills: nat, orphans: nat, failedBills: nat, complete: bool)

  class ArchivedBills {
    /** No call fails, and no run stops early. */
    const reliable: bool
    var now: Time
    var changes: set<Change>
    var watermark: Option<Time>
    ghost var first: Option<Time>
    ghost var covered: set<Change>

    constructor (reliable: bool, now: Time)
      ensures this.reliable == reliable && Contents() == Desk(now, {}, None, None, {})
    {
      this.reliable := reliable;
      this.now, changes, watermark, first, covered := now, {}, None, None, {};
    }

    ghost function Contents(): Desk
      reads this
    {
      Desk(now, changes, watermark, first, covered)
    }

    /** `get_kb_embed_watermark`: None when there is none, and when it could not be read. */
    method GetWatermark() returns (r: Option<Time>, ghost ok: bool)
      ensures r == if ok then watermark else None
      ensures reliable ==> ok
    {
      var failed: bool := *;
      ok := !failed || reliable;
      r := if failed && !reliable then None else watermark;
    }

    /** `list_touched_bill_ids`: None when nothing could be read. */
    method ListTouched(since: Time) returns (r: Option<Listing>)
      ensures r.Some? && r.value.complete ==> forall c <- changes :: since <= c.at ==> c.bill in r.value.ids
      ensures reliable ==> r.Some? && r.value.complete
    {
      var ids := Touched(since);
      var failed: bool, cut: nat := *, *;
      if reliable {
        return Some(Listing(ids, true));
      }
      r := if failed then None else if cut < |ids| then Some(Listing(ids[..cut], false)) else Some(Listing(ids, true));
    }

    /** The bills api-v3 would list. */
    method Touched(since: Time) returns (ids: seq<BillId>)
      ensures forall c <- changes :: since <= c.at ==> c.bill in ids
    {
      ids := [];
      var left := changes;
      while left != {}
        invariant left <= changes
        invariant forall c <- changes - left :: since <= c.at ==> c.bill in ids
        decreases left
      {
        var c :| c in left;
        left := left - {c};
        ids := if since <= c.at && c.bill !in ids then ids + [c.bill] else ids;
      }
    }

    /** `_fetch_and_embed`, after whatever happens in the archive before it. */
    method FetchAndEmbed(bill: BillId, maxOrphans: Option<nat>) returns (clean: bool, orphans: nat, ghost visit: Visit)
      modifies this
      ensures Contents() == VisitOne(old(Contents()), visit) && visit.bill == bill && visit.clean == clean
      ensures orphans <= maxOrphans.GetOr(0)
      ensures reliable ==> clean
    {
      var to: Time, changed: set<BillId> := *, *;
      if now <= to {
        now, changes := to, changes + set b <- changed :: Change(b, to);
      }
      clean := *;
      clean := clean || reliable;
      orphans := *;
      if orphans > maxOrphans.GetOr(0) {
        orphans := 0;
      }
      visit := Visit(to, changed, bill, clean);
      covered := if clean then covered + set c <- changes | c.bill == bill else covered;
    }

    /** `set_kb_embed_watermark`. */
    method SetWatermark(to: Time) returns (ghost stored: bool)
      modifies this
      ensures Contents() == if stored
                            then old(Contents()).(watermark := Some(to), first := if old(first).None? then Some(to) else old(first))
                            else old(Contents())
      ensures reliable ==> stored
    {
      var failed: bool := *;
      stored := !failed || reliable;
      if !failed || reliable {
        watermark := Some(to);
        first := if first.None? then Some(to) else first;
      }
    }

    /** What the loop has counted. */
    ghost predicate Counted(ids: seq<BillId>, deleteOrphans: bool, visits: seq<Visit>, totals: Totals) {
      && totals.bills == |visits| <= |ids|
      && (forall k :: 0 <= k < |visits| ==> visits[k].bill == ids[k])
      && totals.failedBills == |Unclean(visits)|
      && totals.orphans <= (if deleteOrphans then MAX_ORPHAN_DOCUMENTS_PER_RUN else 0)
      && !totals.complete && (reliable ==> totals.failedBills == 0)
    }

    /** One bill of the run, with what is left of the budget for orphans. */
    method VisitBill(ids: seq<BillId>, deleteOrphans: bool, totals: Totals, ghost start: Desk, ghost visits: seq<Visit>)
      returns (totals': Totals, ghost visits': seq<Visit>)
      requires Counted(ids, deleteOrphans, visits, totals) && |visits| < |ids| && Contents() == VisitAll(start, visits)
      modifies this
      ensures Counted(ids, deleteOrphans, visits', totals') && |visits'| == |visits| + 1 && Contents() == VisitAll(start, visits')
      ensures watermark == old(watermark)
    {
      var budget := if deleteOrphans then Some(MAX_ORPHAN_DOCUMENTS_PER_RUN - totals.orphans) else None;
      var clean, orphans;
      ghost var visit;
      clean, orphans, visit := FetchAndEmbed(ids[totals.bills], budget);
      visits' := visits + [visit];
      assert visits'[..|visits|] == visits;
      UncleanOneMore(visits, visit);
      totals' := totals.(bills := totals.bills + 1, orphans := totals.orphans + orphans,
                         failedBills := totals.failedBills + if clean then 0 else 1);
    }

    /** The loop over the listed bills; it can stop after any of them. */
    method VisitBills(ids: seq<BillId>, deleteOrphans: bool) returns (totals: Totals, stopped: bool, ghost visits: seq<Visit>)
      modifies this
      ensures Counted(ids, deleteOrphans, visits, totals) && Contents() == VisitAll(old(Contents()), visits)
      ensures watermark == old(watermark) && (!stopped ==> |visits| == |ids|) && (reliable ==> !stopped)
    {
      totals, visits := Totals(0, 0, 0, false), [];
      assert Unclean(visits) == {};
      for i := 0 to |ids|
        invariant |visits| == i && Counted(ids, deleteOrphans, visits, totals) && Contents() == VisitAll(old(Contents()), visits)
        invariant watermark == old(watermark)
      {
        stopped := *;
        if stopped && !reliable {
          return;
        }
        totals, visits := VisitBill(ids, deleteOrphans, totals, old(Contents()), visits);
      }
      stopped := false;
    }

    /** `embed_archived_bills` on the watermark path. */
    method EmbedArchivedBills(startedAt: Time, deleteOrphans: bool) returns (totals: Totals, ghost run: Run)
      requires startedAt <= now
      modifies this
      ensures Contents() == After(old(Contents()), run)
      ensures run.startedAt == startedAt && Admitted(old(Contents()), run)
      ensures totals.complete ==> run.complete && forall v <- run.visits :: v.clean
      ensures Advances(run) ==> totals.complete
      ensures totals.orphans <= if deleteOrphans then 200 else 0
      ensures totals.bills == |run.visits| && totals.failedBills == |Unclean(run.visits)|
      // a complete run has covered every change since its start, and since an earlier watermark it could read
      ensures totals.complete ==>
                forall c <- old(changes) |
                  startedAt <= c.at || (run.readOk && old(watermark).Some? && old(watermark).value <= c.at) :: c in covered
      ensures watermark == old(watermark) || (totals.complete && watermark == Some(startedAt))
      ensures reliable ==> totals.complete && watermark == Some(startedAt)
    {
      totals := Totals(0, 0, 0, false);
      assert Unclean([]) == {};
      var previous;
      ghost var readOk;
      previous, readOk := GetWatermark();
      var since := Since(previous, startedAt);
      run := Run(startedAt, readOk, false, [], false);
      var listed := ListTouched(since);
      if listed == None {
        return;
      }
      ghost var start := Contents();
      var stopped;
      ghost var visits;
      totals, stopped, visits := VisitBills(listed.value.ids, deleteOrphans);
      NoneUnclean(visits);
      if stopped {
        run := Run(startedAt, readOk, false, visits, false);
        return;
      }
      totals := totals.(complete := listed.value.complete && totals.failedBills == 0);
      run := Run(startedAt, readOk, listed.value.complete, visits, false);
      assert Admitted(start, run) by {
        forall c <- start.changes | run.complete && since <= c.at
          ensures exists v <- visits :: v.bill == c.bill
        {
          var k :| 0 <= k < |listed.value.ids| && listed.value.ids[k] == c.bill;
          assert visits[k] in visits;
        }
      }
      if totals.complete {
        CompleteRunCovers(start, run);
        ghost var stored;
        stored := SetWatermark(startedAt);
        run := run.(stored := stored);
      }
    }
  }
}
