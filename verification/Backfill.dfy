/** The resumable walk of one backfill stage (`backfill_stage`): what its stored checkpoint promises,
    whatever crashes, failed saves, aborts and restarts come between the runs. */
module Backfill {
  import opened Wrappers

  /** A bill id, as its place in the order of Python's strings; the cursor before the first is -1. */
  type BillId = nat

  const CHECKPOINT_EVERY := 50
  const MAX_FAILED_BILLS := 200

  datatype Checkpoint = Checkpoint(last: int, failed: seq<BillId>, done: bool)

  predicate Distinct(s: seq<BillId>) {
    forall i, j :: 0 <= i < j < |s| ==> s[i] != s[j]
  }

  predicate Ascending(s: seq<BillId>) {
    forall i, j :: 0 <= i < j < |s| ==> s[i] < s[j]
  }

  /** A checkpoint loses no bill: each listed one up to the cursor has succeeded or is in the failed list,
      and when it says done, all have. The failed list has no duplicates and is short. */
  predicate Covers(ids: seq<BillId>, c: Checkpoint, succeeded: set<BillId>) {
    && Distinct(c.failed) && |c.failed| <= MAX_FAILED_BILLS + 1
    && (forall f <- c.failed :: f <= c.last && f in ids)
    && (forall i <- ids :: i <= c.last ==> i in succeeded || i in c.failed)
    && (c.done ==> AllSucceeded(ids, succeeded))
  }

  predicate AllSucceeded(ids: seq<BillId>, succeeded: set<BillId>) {
    forall i <- ids :: i in succeeded
  }

  // ---------------------------------------------------------------------------------------------
  // What a run has to do
  // ---------------------------------------------------------------------------------------------

  /** The listed bills beyond the cursor that are not retried anyway. */
  function Beyond(ids: seq<BillId>, last: int, retry: seq<BillId>): seq<BillId> {
    if ids == [] then []
    else (if ids[0] > last && ids[0] !in retry then [ids[0]] else []) + Beyond(ids[1..], last, retry)
  }

  lemma {:induction false} BeyondHolds(ids: seq<BillId>, last: int, retry: seq<BillId>)
    requires Ascending(ids)
    ensures Ascending(Beyond(ids, last, retry))
    ensures forall i :: i in Beyond(ids, last, retry) <==> i in ids && i > last && i !in retry
  {
    if ids != [] {
      BeyondHolds(ids[1..], last, retry);
      var rest := Beyond(ids[1..], last, retry);
      assert forall i :: i in ids <==> i == ids[0] || i in ids[1..];
      forall k | 0 <= k < |rest|
        ensures ids[0] < rest[k]
      {
        assert rest[k] in rest;
        var j :| 0 <= j < |ids[1..]| && ids[1..][j] == rest[k];
      }
    }
  }

  /** `list.remove`: without the first occurrence. */
  function Without(s: seq<BillId>, x: BillId): seq<BillId> {
    if s == [] then [] else if s[0] == x then s[1..] else [s[0]] + Without(s[1..], x)
  }

  /** Where a run is after `k` of its bills: `failed` are those of them that failed. */
  predicate Reached(todo: seq<BillId>, k: nat, failed: seq<BillId>, succeeded: set<BillId>)
    requires k <= |todo|
  {
    && Distinct(failed) && |failed| <= k
    && (forall f <- failed :: f in todo[..k])
    && (forall x <- todo[..k] :: x in succeeded || x in failed)
  }

  lemma ReachesNext(todo: seq<BillId>, k: nat, failed: seq<BillId>, succeeded: set<BillId>)
    requires k < |todo| && Distinct(todo) && Reached(todo, k, failed, succeeded)
    ensures Reached(todo, k + 1, failed + [todo[k]], succeeded)
    ensures todo[k] in succeeded ==> Reached(todo, k + 1, failed, succeeded)
  {
    assert todo[..k + 1] == todo[..k] + [todo[k]];
    assert todo[k] !in todo[..k];
  }

  lemma ReachedStays(todo: seq<BillId>, k: nat, failed: seq<BillId>, before: set<BillId>, after: set<BillId>)
    requires k <= |todo| && Reached(todo, k, failed, before) && before <= after
    ensures Reached(todo, k, failed, after)
  {
  }

  /** The cursor after `k` bills: retries lie below it already. */
  function Cursor(last: int, retry: seq<BillId>, todo: seq<BillId>, k: nat): int
    requires k <= |todo|
  {
    if k <= |retry| then last else todo[k - 1]
  }

  function RetryLeft(retry: seq<BillId>, k: nat): seq<BillId> {
    if k <= |retry| then retry[k..] else []
  }

  lemma TodoIsDistinct(ids: seq<BillId>, last: int, retry: seq<BillId>)
    requires Ascending(ids) && Distinct(retry)
    ensures Distinct(retry + Beyond(ids, last, retry))
  {
    BeyondHolds(ids, last, retry);
    var beyond := Beyond(ids, last, retry);
    assert forall j | 0 <= j < |beyond| :: beyond[j] in beyond && beyond[j] !in retry;
  }

  /** What a save writes after `k` bills loses no bill, if what the run started from did not. */
  lemma SaveCovers(ids: seq<BillId>, start: Checkpoint, todo: seq<BillId>, k: nat, failed: seq<BillId>, succeeded: set<BillId>)
    requires Ascending(ids) && Covers(ids, start, succeeded)
    requires todo == start.failed + Beyond(ids, start.last, start.failed) && k <= |todo|
    requires Reached(todo, k, failed, succeeded) && |failed| <= MAX_FAILED_BILLS + 1
    ensures Covers(ids, Checkpoint(Cursor(start.last, start.failed, todo, k), failed + RetryLeft(start.failed, k), false), succeeded)
  {
    TodoIsDistinct(ids, start.last, start.failed);
    var left, cursor := RetryLeft(start.failed, k), Cursor(start.last, start.failed, todo, k);
    KeptApart(todo, start.failed, k, failed, succeeded);
    forall f <- failed + left
      ensures f <= cursor && f in ids
    {
      SavedFailureIsListed(ids, start, todo, k, f);
    }
    forall i <- ids | i <= cursor && i !in succeeded
      ensures i in failed + left
    {
      ReachedOrLeft(ids, start.last, start.failed, todo, k, i);
    }
  }

  lemma SavedFailureIsListed(ids: seq<BillId>, start: Checkpoint, todo: seq<BillId>, k: nat, f: BillId)
    requires Ascending(ids) && (forall x <- start.failed :: x <= start.last && x in ids)
    requires todo == start.failed + Beyond(ids, start.last, start.failed) && k <= |todo|
    requires f in todo[..k] || f in RetryLeft(start.failed, k)
    ensures f <= Cursor(start.last, start.failed, todo, k) && f in ids
  {
    BeyondHolds(ids, start.last, start.failed);
    if f in todo[..k] {
      var j :| 0 <= j < k && todo[j] == f;
      BelowCursor(ids, start.last, start.failed, todo, j, k);
      assert f in start.failed || f in Beyond(ids, start.last, start.failed);
    } else {
      assert k <= |start.failed| && f in start.failed[k..];
      assert f in start.failed;
    }
  }

  lemma KeptApart(todo: seq<BillId>, retry: seq<BillId>, k: nat, failed: seq<BillId>, succeeded: set<BillId>)
    requires retry <= todo && Distinct(todo) && k <= |todo| && Reached(todo, k, failed, succeeded)
    requires |failed| <= MAX_FAILED_BILLS + 1 && |retry| <= MAX_FAILED_BILLS + 1
    ensures Distinct(failed + RetryLeft(retry, k)) && |failed + RetryLeft(retry, k)| <= MAX_FAILED_BILLS + 1
  {
    var left := RetryLeft(retry, k);
    forall i, j | 0 <= i < |failed| && 0 <= j < |left|
      ensures failed[i] != left[j]
    {
      assert left[j] == todo[k + j];
      assert failed[i] in todo[..k];
    }
  }

  lemma BelowCursor(ids: seq<BillId>, last: int, retry: seq<BillId>, todo: seq<BillId>, j: nat, k: nat)
    requires Ascending(ids) && (forall f <- retry :: f <= last)
    requires todo == retry + Beyond(ids, last, retry) && j < k <= |todo|
    ensures todo[j] <= Cursor(last, retry, todo, k)
  {
    BeyondHolds(ids, last, retry);
    var beyond := Beyond(ids, last, retry);
    if j < |retry| {
      assert todo[j] in retry;
      if k > |retry| {
        assert todo[k - 1] == beyond[k - 1 - |retry|];
        assert todo[k - 1] in beyond;
      }
    } else {
      assert todo[j] == beyond[j - |retry|] && todo[k - 1] == beyond[k - 1 - |retry|];
    }
  }

  /** A listed bill up to the cursor has been reached, is a retry still to come, or was below the cursor
      the run started from. */
  lemma ReachedOrLeft(ids: seq<BillId>, last: int, retry: seq<BillId>, todo: seq<BillId>, k: nat, i: BillId)
    requires Ascending(ids)
    requires todo == retry + Beyond(ids, last, retry) && k <= |todo|
    requires i in ids && i <= Cursor(last, retry, todo, k) && (i > last || i in retry)
    ensures i in todo[..k] || i in RetryLeft(retry, k)
  {
    BeyondHolds(ids, last, retry);
    var beyond := Beyond(ids, last, retry);
    if i in retry {
      var j :| 0 <= j < |retry| && retry[j] == i;
      if j < k {
        assert todo[..k][j] == i;
      } else {
        assert RetryLeft(retry, k)[j - k] == i;
      }
    } else {
      var j :| 0 <= j < |beyond| && beyond[j] == i;
      assert beyond[k - 1 - |retry|] == todo[k - 1];
      assert j <= k - 1 - |retry|;
      assert todo[..k][|retry| + j] == i;
    }
  }

  /** A run that got through all its bills without a failure leaves none out. */
  lemma EndCovers(ids: seq<BillId>, start: Checkpoint, todo: seq<BillId>, failed: seq<BillId>, succeeded: set<BillId>)
    requires Ascending(ids) && Covers(ids, start, succeeded)
    requires todo == start.failed + Beyond(ids, start.last, start.failed)
    requires Reached(todo, |todo|, failed, succeeded) && failed == []
    ensures AllSucceeded(ids, succeeded)
  {
    BeyondHolds(ids, start.last, start.failed);
    assert todo[..|todo|] == todo;
    forall i <- ids
      ensures i in succeeded
    {
      assert i > start.last && i !in start.failed ==> i in Beyond(ids, start.last, start.failed);
    }
  }

  // ---------------------------------------------------------------------------------------------
  // One stage
  // ---------------------------------------------------------------------------------------------

  datatype Status = Complete | Incomplete | AlreadyComplete | Aborted | Failed | Crashed

  /** Where the process dies: once the old checkpoint is deleted, before a bill is read (or, after the last
      bill, before the final save), once a bill is embedded and before anything more, or after the save
      that ends the walk. */
  datatype Death = Never | AfterDelete | Before(bill: nat) | After(bill: nat) | AtEnd

  /** It dies on the way through the first `n` bills. */
  predicate Struck(death: Death, n: nat) {
    match death
    case Before(k) => k < n
    case After(k) => k < n
    case _ => false
  }

  /** It dies on the way through `n` bills or at their end. */
  predicate Strikes(death: Death, n: nat) {
    Struck(death, n) || death == Before(n) || death == AtEnd
  }

  /** How many bills a run that dies, or gives up, has tried. */
  predicate Stopped(status: Status, death: Death, n: nat) {
    if status == Aborted then n > 200 && !Struck(death, n) && death != AtEnd
    else
      && status == Crashed
      && match death
         case Before(k) => n == k
         case After(k) => n == k + 1
         case AfterDelete => n == 0
         case AtEnd => true
         case Never => false
  }

  /** How a walk that tried some of the bills due, ended like this, can have gone. */
  ghost predicate Did(status: Status, due: set<BillId>, tried: seq<BillId>, undone: set<BillId>, before: set<BillId>, after: set<BillId>) {
    && (forall i <- tried :: i in due)
    && (forall i :: i in after <==> i in before || (i in tried && i !in undone))
    && (status.Complete? || status.Incomplete? ==> Elements(tried) == due)
    && (status.Complete? ==> due !! undone)
    && (status.Incomplete? ==> 0 < |due * undone| <= 200)
    && (status.Aborted? ==> |due * undone| > 200)
  }

  const NO_CHECKPOINT := Checkpoint(-1, [], false)

  class StageBackfill {
    /** No call to Redis fails. */
    const redisAnswers: bool
    /** The bills api-v3 lists for the stage. */
    const ids: seq<BillId>
    var checkpoint: Option<Checkpoint>
    /** The bills for which some `embed_bill` call at this stage's scope left nothing undone. */
    ghost var succeeded: set<BillId>

    constructor (redisAnswers: bool, ids: seq<BillId>)
      requires Ascending(ids)
      ensures Valid() && this.redisAnswers == redisAnswers && this.ids == ids && checkpoint == None
    {
      this.redisAnswers, this.ids, checkpoint, succeeded := redisAnswers, ids, None, {};
    }

    ghost predicate Valid()
      reads this
    {
      Ascending(ids) && Covers(ids, Stored(), succeeded)
    }

    function Stored(): Checkpoint
      reads this
    {
      checkpoint.GetOr(NO_CHECKPOINT)
    }

    /** `get_kb_backfill_checkpoint`: None also when the read failed. */
    method GetCheckpoint() returns (r: Option<Checkpoint>)
      ensures r == checkpoint || r == None
      ensures redisAnswers ==> r == checkpoint
    {
      var failed: bool := *;
      r := if failed && !redisAnswers then None else checkpoint;
    }

    /** `delete_kb_backfill_checkpoint`, which may fail. */
    method DeleteCheckpoint()
      requires Valid()
      modifies this`checkpoint
      ensures Valid() && (checkpoint == old(checkpoint) || checkpoint == None)
      ensures redisAnswers ==> checkpoint == None
    {
      var failed: bool := *;
      if !failed || redisAnswers {
        checkpoint := None;
      }
    }

    /** One bill: read and embedded, and something left undone if it is one of `undone`. */
    method Embed(b: BillId, undone: set<BillId>) returns (clean: bool)
      requires Valid()
      modifies this`succeeded
      ensures Valid() && clean == (b !in undone)
      ensures succeeded == old(succeeded) + if clean then {b} else {}
    {
      clean := b !in undone;
      succeeded := succeeded + if clean then {b} else {};
    }

    /** `save`, which may fail and then leaves the stored checkpoint as it was. */
    method Save(c: Checkpoint)
      requires Valid() && Covers(ids, c, succeeded)
      modifies this`checkpoint
      ensures Valid() && (checkpoint == old(checkpoint) || checkpoint == Some(c))
      ensures redisAnswers ==> checkpoint == Some(c)
    {
      var failed: bool := *;
      if !failed || redisAnswers {
        checkpoint := Some(c);
      }
    }

    /** No bill that failed earlier is forgotten: it is still in the failed list, was tried again, or
        lies beyond the stored cursor. */
    ghost predicate Remembers(failed: seq<BillId>, tried: set<BillId>)
      reads this
    {
      checkpoint == None || forall f <- failed :: f in Stored().failed || f in tried || f > Stored().last
    }

    /** The first `saved` bills of those tried lie below the stored cursor. */
    ghost predicate Saved(tried: seq<BillId>, saved: nat)
      reads this
    {
      saved <= |tried| && forall x <- tried[..saved] :: x <= Stored().last
    }

    /** What a walk that ended like this has stored, when Redis answers: a crash repeats at most
        fifty of the bills it tried, and that many exactly when it fell between the bill that
        completes the number and the save due after it. */
    ghost predicate Recorded(status: Status, death: Death, tried: seq<BillId>, saved: nat)
      reads this
    {
      match status
      case Crashed =>
        && Saved(tried, saved) && |tried| <= saved + 50
        && (|tried| == saved + 50 <==> death.After? && (death.bill + 1) % 50 == 0)
      case Aborted => |Stored().failed| == 201 && !Stored().done
      case Incomplete => Stored().failed != [] && !Stored().done
      case Complete => Stored().failed == [] && Stored().done
      case _ => true
    }

    /** After `k` bills: the failed ones are those that left something undone, and the others succeeded. */
    ghost predicate TriedSoFar(todo: seq<BillId>, k: nat, failed: seq<BillId>, undone: set<BillId>, before: set<BillId>)
      requires k <= |todo|
      reads this`succeeded
    {
      Split(todo[..k], failed, undone, before, succeeded)
    }

    /** `backfill_stage`, which a crash can end between any two calls. `listed` says whether the bills could
        be listed, `undone` for which bills a try leaves something undone; `tried` are the bills it tried, and
        `due` those it has to try: the listed ones that the checkpoint does not say succeeded. */
    method BackfillStage(restart: bool, listed: bool, undone: set<BillId>, death: Death)
      returns (status: Status, ghost due: set<BillId>, ghost tried: seq<BillId>, ghost saved: nat)
      requires Valid()
      modifies this
      // which bills it tries, and what becomes of them
      ensures redisAnswers ==> forall i :: i in due <==>
                i in ids && (restart || old(checkpoint) == None || i > old(checkpoint.value.last) || i in old(checkpoint.value.failed))
      ensures forall i <- due :: i in ids
      ensures Did(status, due, tried, undone, old(succeeded), succeeded)
      // how it ends
      ensures restart && death == AfterDelete ==> status == Crashed && tried == []
      ensures redisAnswers && !restart && old(checkpoint).Some? && old(checkpoint.value.done) ==> status == AlreadyComplete && tried == []
      ensures status.AlreadyComplete? ==> !restart && old(checkpoint).Some? && old(checkpoint.value.done)
      ensures status.Failed? ==> !listed && tried == []
      ensures !listed ==> status == Failed || status == AlreadyComplete || (restart && death == AfterDelete)
      ensures death == Never && listed && due !! undone ==> status.Complete? || status.AlreadyComplete?
      ensures redisAnswers && (status.Complete? || status.Incomplete?) ==>
                && checkpoint.Some? && (checkpoint.value.done <==> status.Complete?)
                && Elements(checkpoint.value.failed) == due * undone
      ensures Valid() && old(succeeded) <= succeeded
      ensures Remembers(old(Stored()).failed, Elements(tried))
      ensures status.Complete? || status.AlreadyComplete? ==> AllSucceeded(ids, succeeded)
      ensures status.Crashed? || status.Aborted? ==> Stopped(status, death, |tried|)
      ensures status.Complete? || status.Incomplete? ==> !Strikes(death, |tried|)
      ensures redisAnswers ==> Recorded(status, death, tried, saved)
    {
      tried, saved, due := [], 0, {};
      ghost var earlier := Stored().failed;
      ghost var before := succeeded;
      ghost var was := checkpoint;
      if restart {
        DeleteCheckpoint();
      }
      var found: Option<Checkpoint> := None;
      if !restart {
        found := GetCheckpoint();
      }
      ghost var start := found.GetOr(NO_CHECKPOINT);
      due := Elements(start.failed + Beyond(ids, start.last, start.failed));
      DueIsListed(ids, start);
      if restart && death == AfterDelete {
        return Crashed, due, tried, saved;
      }
      if found.Some? && found.value.done {
        return AlreadyComplete, due, tried, saved;
      }
      if !listed {
        return Failed, due, tried, saved;
      }
      status, tried, saved := WalkDue(found.GetOr(NO_CHECKPOINT), undone, death, earlier, due);
    }

    /** The walk, with what it had to do. */
    method WalkDue(start: Checkpoint, undone: set<BillId>, death: Death, ghost earlier: seq<BillId>, ghost due: set<BillId>)
      returns (status: Status, ghost tried: seq<BillId>, ghost saved: nat)
      requires Valid() && !start.done && Covers(ids, start, succeeded)
      requires (start.failed == earlier || start == NO_CHECKPOINT) && forall f <- earlier :: f in ids
      requires Remembers(earlier, {}) && due == Elements(start.failed + Beyond(ids, start.last, start.failed))
      modifies this
      ensures Valid() && old(succeeded) <= succeeded
      ensures Remembers(earlier, Elements(tried))
      ensures !status.AlreadyComplete? && !status.Failed? && (status.Complete? ==> AllSucceeded(ids, succeeded))
      ensures status.Complete? || status.Incomplete? ==> !Strikes(death, |tried|)
      ensures status.Crashed? || status.Aborted? ==> Stopped(status, death, |tried|)
      ensures redisAnswers ==> Recorded(status, death, tried, saved)
      ensures Did(status, due, tried, undone, old(succeeded), succeeded)
      ensures redisAnswers && (status.Complete? || status.Incomplete?) ==>
                checkpoint.Some? && Elements(checkpoint.value.failed) == due * undone
    {
      ghost var failed;
      status, tried, failed, saved := Walk(start, undone, death, earlier);
      assert tried[..|tried|] == tried;
      DidAsCounted(status, start.failed + Beyond(ids, start.last, start.failed), tried, failed, undone, old(succeeded), succeeded);
    }

    /** Where a walk from `start` is after `k` of its bills. */
    ghost predicate Walking(start: Checkpoint, todo: seq<BillId>, k: nat, last: int, failed: seq<BillId>, left: seq<BillId>)
      requires k <= |todo|
      reads this
    {
      && Covers(ids, start, succeeded)
      && todo == start.failed + Beyond(ids, start.last, start.failed)
      && Reached(todo, k, failed, succeeded)
      && last == Cursor(start.last, start.failed, todo, k)
      && left == RetryLeft(start.failed, k)
    }

    /** One bill of the walk. */
    method WalkOne(start: Checkpoint, todo: seq<BillId>, k: nat, last: int, failed: seq<BillId>, left: seq<BillId>,
                   undone: set<BillId>, ghost before: set<BillId>)
      returns (last': int, failed': seq<BillId>, left': seq<BillId>)
      requires Valid() && k < |todo| && Walking(start, todo, k, last, failed, left)
      requires TriedSoFar(todo, k, failed, undone, before)
      modifies this`succeeded
      ensures TriedSoFar(todo, k + 1, failed', undone, before)
      ensures Valid() && old(succeeded) <= succeeded && Walking(start, todo, k + 1, last', failed', left')
      ensures |failed'| <= |failed| + 1
    {
      TodoIsDistinct(ids, start.last, start.failed);
      var b := todo[k];
      var clean := Embed(b, undone);
      ReachedStays(todo, k, failed, old(succeeded), succeeded);
      ReachesNext(todo, k, failed, succeeded);
      RemovesNext(start.failed, todo, k);
      CursorGrows(ids, start.last, start.failed, todo, k);
      left' := if b in left then Without(left, b) else left;
      failed' := if clean then failed else failed + [b];
      last' := if b > last then b else last;
      assert todo[..k + 1] == todo[..k] + [b];
      assert b !in todo[..k];
      SplitOneMore(todo[..k], failed, undone, before, old(succeeded), b);
    }

    /** A save in the middle of a walk. */
    method SaveProgress(start: Checkpoint, todo: seq<BillId>, k: nat, last: int, failed: seq<BillId>, left: seq<BillId>,
                        done: bool, ghost earlier: seq<BillId>)
      requires Valid() && k <= |todo| && Walking(start, todo, k, last, failed, left)
      requires |failed| <= MAX_FAILED_BILLS + 1 && (done ==> AllSucceeded(ids, succeeded))
      requires (start.failed == earlier || start == NO_CHECKPOINT) && forall f <- earlier :: f in ids
      modifies this`checkpoint
      ensures Valid() && (Remembers(earlier, Elements(todo[..k])) || checkpoint == old(checkpoint))
      ensures redisAnswers ==> checkpoint == Some(Checkpoint(last, failed + left, done))
    {
      SaveCovers(ids, start, todo, k, failed, succeeded);
      SaveRemembers(ids, start, todo, k, earlier);
      Save(Checkpoint(last, failed + left, done));
    }

    /** What the save after the first `saved` bills stored is still the cursor. */
    ghost predicate Keeps(start: Checkpoint, todo: seq<BillId>, saved: nat)
      requires saved <= |todo|
      reads this
    {
      redisAnswers && saved > 0 ==> Stored().last == Cursor(start.last, start.failed, todo, saved)
    }

    /** How a turn ended the walk after `k` bills, the last save having been after `saved` of them. */
    ghost predicate EndsAt(start: Checkpoint, todo: seq<BillId>, k: nat, saved: nat, failed: seq<BillId>, left: seq<BillId>,
                           status: Status, death: Death)
      requires 0 < k <= |todo|
      reads this
    {
      && saved <= k && Keeps(start, todo, saved)
      && match status
         case Crashed =>
           || (death == After(k - 1) && saved == LastSave(k - 1))
           || (death == AtEnd && saved == k)
         case Aborted =>
           && |failed| == MAX_FAILED_BILLS + 1 && death != AtEnd && death != After(k - 1)
           && (redisAnswers ==> Stored().failed == failed + left && !Stored().done)
         case _ => false
    }

    /** What follows a bill, the `k`-th: giving up, or the save that is due. */
    method SaveWhenDue(start: Checkpoint, todo: seq<BillId>, k: nat, last: int, failed: seq<BillId>, left: seq<BillId>,
                       death: Death, ghost earlier: seq<BillId>, ghost saved: nat)
      returns (ended: Option<Status>, ghost saved': nat)
      requires Valid() && 0 < k <= |todo| && Walking(start, todo, k, last, failed, left) && |failed| <= MAX_FAILED_BILLS + 1
      requires (start.failed == earlier || start == NO_CHECKPOINT) && forall f <- earlier :: f in ids
      requires Remembers(earlier, Elements(todo[..k]))
      requires saved == LastSave(k - 1) && Keeps(start, todo, saved)
      modifies this`checkpoint
      ensures Valid() && Remembers(earlier, Elements(todo[..k]))
      ensures ended.Some? ==> EndsAt(start, todo, k, saved', failed, left, ended.value, death)
      ensures ended == Some(Aborted) ==> |failed| > MAX_FAILED_BILLS
      ensures ended.None? ==> |failed| <= MAX_FAILED_BILLS && death != After(k - 1)
      ensures ended.None? ==> saved' == LastSave(k) && Keeps(start, todo, saved')
      ensures saved' == 0 ==> saved == 0 && checkpoint == old(checkpoint)
    {
      NextSave(k - 1);
      if death == After(k - 1) {
        return Some(Crashed), saved;
      }
      if |failed| > MAX_FAILED_BILLS {
        SaveProgress(start, todo, k, last, failed, left, false, earlier);
        return Some(if death == AtEnd then Crashed else Aborted), k;
      }
      if k % CHECKPOINT_EVERY == 0 {
        SaveProgress(start, todo, k, last, failed, left, false, earlier);
        return None, k;
      }
      return None, saved;
    }

    /** One turn of the loop: a bill, and the save that is due after it. */
    method Turn(start: Checkpoint, todo: seq<BillId>, k: nat, last: int, failed: seq<BillId>, left: seq<BillId>,
                undone: set<BillId>, death: Death, ghost earlier: seq<BillId>, ghost saved: nat, ghost before: set<BillId>)
      returns (last': int, failed': seq<BillId>, left': seq<BillId>, ended: Option<Status>, ghost saved': nat)
      requires Valid() && k < |todo| && Walking(start, todo, k, last, failed, left) && |failed| <= MAX_FAILED_BILLS
      requires TriedSoFar(todo, k, failed, undone, before)
      requires (start.failed == earlier || start == NO_CHECKPOINT) && forall f <- earlier :: f in ids
      requires Remembers(earlier, Elements(todo[..k]))
      requires saved == LastSave(k) && Keeps(start, todo, saved) && !Struck(death, k) && death != Before(k)
      modifies this
      ensures Valid() && old(succeeded) <= succeeded
      ensures Remembers(earlier, Elements(todo[..k + 1]))
      ensures TriedSoFar(todo, k + 1, failed', undone, before) && (ended == Some(Aborted) ==> |failed'| > MAX_FAILED_BILLS)
      ensures ended.Some? ==> saved' <= k + 1 && Stopped(ended.value, death, k + 1)
      ensures ended.Some? && redisAnswers ==> Recorded(ended.value, death, todo[..k + 1], saved')
      ensures ended.None? ==> Walking(start, todo, k + 1, last', failed', left') && |failed'| <= MAX_FAILED_BILLS
      ensures ended.None? ==> saved' == LastSave(k + 1) && Keeps(start, todo, saved') && !Struck(death, k + 1)
      ensures saved' == 0 ==> saved == 0 && checkpoint == old(checkpoint)
    {
      last', failed', left' := WalkOne(start, todo, k, last, failed, left, undone, before);
      TriesOneMore(todo, k);
      ended, saved' := SaveWhenDue(start, todo, k + 1, last', failed', left', death, earlier, saved);
      if ended.Some? {
        EndRecorded(start, todo, k + 1, saved', failed', left', ended.value, death);
      }
    }

    /** The next turn, unless the process dies before it. */
    method Next(start: Checkpoint, todo: seq<BillId>, k: nat, last: int, failed: seq<BillId>, left: seq<BillId>,
                undone: set<BillId>, death: Death, ghost earlier: seq<BillId>, ghost saved: nat, ghost before: set<BillId>)
      returns (last': int, failed': seq<BillId>, left': seq<BillId>, ended: Option<Status>, ghost k': nat, ghost saved': nat)
      requires Valid() && k < |todo| && Walking(start, todo, k, last, failed, left) && |failed| <= MAX_FAILED_BILLS
      requires TriedSoFar(todo, k, failed, undone, before)
      requires (start.failed == earlier || start == NO_CHECKPOINT) && forall f <- earlier :: f in ids
      requires Remembers(earlier, Elements(todo[..k]))
      requires saved == LastSave(k) && Keeps(start, todo, saved) && !Struck(death, k)
      modifies this
      ensures Valid() && old(succeeded) <= succeeded
      ensures k' <= |todo| && Remembers(earlier, Elements(todo[..k']))
      ensures TriedSoFar(todo, k', failed', undone, before) && (ended == Some(Aborted) ==> |failed'| > MAX_FAILED_BILLS)
      ensures ended.Some? ==> saved' <= k' && Stopped(ended.value, death, k')
      ensures ended.Some? && redisAnswers ==> Recorded(ended.value, death, todo[..k'], saved')
      ensures ended.None? ==> k' == k + 1 && Walking(start, todo, k', last', failed', left') && |failed'| <= MAX_FAILED_BILLS
      ensures ended.None? ==> saved' == LastSave(k') && Keeps(start, todo, saved') && !Struck(death, k')
      ensures saved' == 0 ==> saved == 0 && checkpoint == old(checkpoint)
    {
      if death == Before(k) {
        last', failed', left', ended, k', saved' := last, failed, left, Some(Crashed), k, saved;
        CrashRecorded(start, todo, k, saved, death);
      } else {
        last', failed', left', ended, saved' := Turn(start, todo, k, last, failed, left, undone, death, earlier, saved, before);
        k' := k + 1;
      }
    }

    /** The loop over the bills of a walk: all of them, or the first `k` when it ended early. */
    method WalkBills(start: Checkpoint, todo: seq<BillId>, undone: set<BillId>, death: Death, ghost earlier: seq<BillId>)
      returns (ended: Option<Status>, last: int, failed: seq<BillId>, left: seq<BillId>, ghost k: nat, ghost saved: nat)
      requires Valid() && Walking(start, todo, 0, start.last, [], start.failed)
      requires (start.failed == earlier || start == NO_CHECKPOINT) && forall f <- earlier :: f in ids
      requires Remembers(earlier, {})
      modifies this
      ensures Valid() && old(succeeded) <= succeeded
      ensures saved <= k <= |todo| && Remembers(earlier, Elements(todo[..k]))
      ensures TriedSoFar(todo, k, failed, undone, old(succeeded)) && (ended == Some(Aborted) ==> |failed| > MAX_FAILED_BILLS)
      ensures saved == 0 ==> checkpoint == old(checkpoint)
      ensures ended.Some? ==> Stopped(ended.value, death, k)
      ensures ended.Some? && redisAnswers ==> Recorded(ended.value, death, todo[..k], saved)
      ensures ended.None? ==> k == |todo| && Walking(start, todo, k, last, failed, left) && |failed| <= MAX_FAILED_BILLS
      ensures ended.None? ==> !Struck(death, k) && death != Before(k)
    {
      last, left, failed, k, saved := start.last, start.failed, [], 0, 0;
      for i := 0 to |todo|
        invariant k == i && Valid() && old(succeeded) <= succeeded
        invariant Walking(start, todo, k, last, failed, left) && |failed| <= MAX_FAILED_BILLS
        invariant TriedSoFar(todo, k, failed, undone, old(succeeded))
        invariant Remembers(earlier, Elements(todo[..k]))
        invariant saved == LastSave(k) && Keeps(start, todo, saved) && !Struck(death, k)
        invariant saved == 0 ==> checkpoint == old(checkpoint)
      {
        last, failed, left, ended, k, saved := Next(start, todo, i, last, failed, left, undone, death, earlier, saved, old(succeeded));
        if ended.Some? {
          return;
        }
      }
      ended := None;
      if death == Before(|todo|) {
        CrashRecorded(start, todo, k, saved, death);
        ended := Some(Crashed);
      }
    }

    /** The walk itself, from a checkpoint that was found, or from nothing. */
    method Walk(start: Checkpoint, undone: set<BillId>, death: Death, ghost earlier: seq<BillId>)
      returns (status: Status, ghost tried: seq<BillId>, ghost failed: seq<BillId>, ghost saved: nat)
      requires Valid() && !start.done && Covers(ids, start, succeeded)
      requires (start.failed == earlier || start == NO_CHECKPOINT) && forall f <- earlier :: f in ids
      requires Remembers(earlier, {})
      modifies this
      ensures Valid() && old(succeeded) <= succeeded
      ensures Remembers(earlier, Elements(tried))
      ensures tried <= start.failed + Beyond(ids, start.last, start.failed)
      ensures !status.AlreadyComplete? && !status.Failed? && (status.Complete? ==> AllSucceeded(ids, succeeded))
      ensures status.Complete? || status.Incomplete? ==>
                tried == start.failed + Beyond(ids, start.last, start.failed) && !Strikes(death, |tried|)
      ensures status.Crashed? || status.Aborted? ==> Stopped(status, death, |tried|)
      ensures redisAnswers ==> Recorded(status, death, tried, saved)
      ensures TriedSoFar(tried, |tried|, failed, undone, old(succeeded))
      ensures Counts(status, failed)
      ensures redisAnswers && (status.Complete? || status.Incomplete?) ==> checkpoint.Some? && checkpoint.value.failed == failed
      ensures saved == 0 && tried != [] ==> checkpoint == old(checkpoint)
    {
      var todo := start.failed + Beyond(ids, start.last, start.failed);
      var ended, last, failures, left;
      ghost var k;
      ended, last, failures, left, k, saved := WalkBills(start, todo, undone, death, earlier);
      tried, failed := todo[..k], failures;
      assert tried[..|tried|] == todo[..k];
      if ended.Some? {
        return ended.value, tried, failed, saved;
      }
      assert tried == todo;
      status := Finish(start, todo, last, failures, left, death, earlier);
      saved := |todo|;
    }

    /** The save that ends a walk through all its bills. */
    method Finish(start: Checkpoint, todo: seq<BillId>, last: int, failed: seq<BillId>, left: seq<BillId>,
                  death: Death, ghost earlier: seq<BillId>)
      returns (status: Status)
      requires Valid() && Walking(start, todo, |todo|, last, failed, left) && |failed| <= MAX_FAILED_BILLS
      requires (start.failed == earlier || start == NO_CHECKPOINT) && forall f <- earlier :: f in ids
      requires Remembers(earlier, Elements(todo))
      modifies this`checkpoint
      ensures Valid() && Remembers(earlier, Elements(todo))
      ensures if death == AtEnd then status == Crashed else status == Complete || status == Incomplete
      ensures status.Complete? ==> AllSucceeded(ids, succeeded)
      ensures redisAnswers ==> Recorded(status, death, todo, |todo|)
      ensures status.Complete? ==> failed == []
      ensures status.Incomplete? ==> failed != []
      ensures redisAnswers ==> checkpoint.Some? && checkpoint.value.failed == failed
    {
      assert left == [];
      assert failed + left == failed;
      assert todo[..|todo|] == todo;
      var done := failed == [] && left == [];
      if failed == [] {
        EndCovers(ids, start, todo, failed, succeeded);
      }
      SaveProgress(start, todo, |todo|, last, failed, left, done, earlier);
      KeepsCoverSaved(start, todo, |todo|, |todo|);
      status := if death == AtEnd then Crashed else if done then Complete else Incomplete;
    }

    lemma CrashRecorded(start: Checkpoint, todo: seq<BillId>, k: nat, saved: nat, death: Death)
      requires Ascending(ids) && Covers(ids, start, succeeded)
      requires todo == start.failed + Beyond(ids, start.last, start.failed)
      requires k <= |todo| && saved == LastSave(k) && Keeps(start, todo, saved)
      requires death == Before(k)
      ensures redisAnswers ==> Recorded(Crashed, death, todo[..k], saved)
    {
      KeepsCoverSaved(start, todo, k, saved);
    }

    lemma EndRecorded(start: Checkpoint, todo: seq<BillId>, k: nat, saved: nat, failed: seq<BillId>, left: seq<BillId>,
                      status: Status, death: Death)
      requires Valid() && Covers(ids, start, succeeded)
      requires todo == start.failed + Beyond(ids, start.last, start.failed)
      requires 0 < k <= |todo| && EndsAt(start, todo, k, saved, failed, left, status, death)
      ensures redisAnswers ==> Recorded(status, death, todo[..k], saved)
    {
      KeepsCoverSaved(start, todo, k, saved);
      NextSave(k - 1);
    }

    lemma KeepsCoverSaved(start: Checkpoint, todo: seq<BillId>, k: nat, saved: nat)
      requires Ascending(ids) && Covers(ids, start, succeeded)
      requires todo == start.failed + Beyond(ids, start.last, start.failed)
      requires saved <= k <= |todo| && Keeps(start, todo, saved)
      ensures redisAnswers ==> Saved(todo[..k], saved)
    {
      SavedBelowCursor(ids, start.last, start.failed, todo, saved);
      assert todo[..k][..saved] == todo[..saved];
    }
  }

  /** The bound is reached by every stage that lists enough bills and dies right after the bill that
      completes the number: all of them were tried, and nothing is stored. */
  method RepeatsAsManyAsItMay(stage: StageBackfill) returns (status: Status, ghost tried: seq<BillId>, ghost saved: nat)
    requires stage.Valid() && stage.redisAnswers && stage.checkpoint == None && |stage.ids| >= 50
    modifies stage
    ensures status == Crashed && stage.checkpoint == None
    ensures tried == stage.ids[..50] && saved == 0
  {
    BeyondNothing(stage.ids);
    ghost var failed;
    status, tried, failed, saved := stage.Walk(NO_CHECKPOINT, {}, After(CHECKPOINT_EVERY - 1), []);
  }

  lemma {:induction false} BeyondNothing(ids: seq<BillId>)
    ensures Beyond(ids, -1, []) == ids
  {
    if ids != [] {
      BeyondNothing(ids[1..]);
    }
  }

  /** How many bills a walk had tried at its last periodic save, after `k` of them. */
  function LastSave(k: nat): nat {
    k - k % CHECKPOINT_EVERY
  }

  lemma NextSave(k: nat)
    ensures LastSave(k + 1) == if (k + 1) % CHECKPOINT_EVERY == 0 then k + 1 else LastSave(k)
  {
  }

  /** The first bills of a walk lie below the cursor a save after them writes. */
  lemma SavedBelowCursor(ids: seq<BillId>, last: int, retry: seq<BillId>, todo: seq<BillId>, k: nat)
    requires Ascending(ids) && (forall f <- retry :: f <= last)
    requires todo == retry + Beyond(ids, last, retry) && k <= |todo|
    ensures forall x <- todo[..k] :: x <= Cursor(last, retry, todo, k)
  {
    forall j | 0 <= j < k
      ensures todo[j] <= Cursor(last, retry, todo, k)
    {
      BelowCursor(ids, last, retry, todo, j, k);
    }
  }

  lemma {:induction false} SizeOfElements(s: seq<BillId>)
    requires Distinct(s)
    ensures |Elements(s)| == |s|
  {
    if s == [] {
      assert Elements(s) == {};
    } else {
      var n := |s| - 1;
      SizeOfElements(s[..n]);
      assert s == s[..n] + [s[n]];
      assert Elements(s) == Elements(s[..n]) + {s[n]};
    }
  }

  /** The failed ones of these bills are those that left something undone, and the others succeeded. */
  ghost predicate Split(tried: seq<BillId>, failed: seq<BillId>, undone: set<BillId>, before: set<BillId>, after: set<BillId>) {
    && Distinct(failed)
    && (forall x :: x in failed <==> x in tried && x in undone)
    && (forall x :: x in after <==> x in before || (x in tried && x !in undone))
  }

  lemma SplitOneMore(tried: seq<BillId>, failed: seq<BillId>, undone: set<BillId>, before: set<BillId>, after: set<BillId>, b: BillId)
    requires Split(tried, failed, undone, before, after) && b !in tried
    ensures if b in undone then Split(tried + [b], failed + [b], undone, before, after)
            else Split(tried + [b], failed, undone, before, after + {b})
  {
    assert forall x :: x in tried + [b] <==> x in tried || x == b;
    assert forall x :: x in failed + [b] <==> x in failed || x == b;
  }

  lemma FailedAreCounted(tried: seq<BillId>, failed: seq<BillId>, undone: set<BillId>)
    requires Distinct(failed) && forall x :: x in failed <==> x in tried && x in undone
    ensures Elements(failed) == Elements(tried) * undone && |failed| == |Elements(tried) * undone|
  {
    SizeOfElements(failed);
    assert Elements(failed) == Elements(tried) * undone;
  }

  predicate Counts(status: Status, failed: seq<BillId>) {
    && (status.Complete? ==> failed == [])
    && (status.Incomplete? ==> 0 < |failed| <= MAX_FAILED_BILLS)
    && (status.Aborted? ==> |failed| > MAX_FAILED_BILLS)
  }

  lemma DidAsCounted(status: Status, todo: seq<BillId>, tried: seq<BillId>, failed: seq<BillId>, undone: set<BillId>,
                     before: set<BillId>, after: set<BillId>)
    requires tried <= todo && (status.Complete? || status.Incomplete? ==> tried == todo)
    requires Distinct(failed) && (forall x :: x in failed <==> x in tried && x in undone) && Counts(status, failed)
    requires forall x :: x in after <==> x in before || (x in tried && x !in undone)
    ensures Did(status, Elements(todo), tried, undone, before, after)
    ensures tried == todo ==> Elements(failed) == Elements(todo) * undone
  {
    FailedAreCounted(tried, failed, undone);
    PrefixIsDue(todo, tried, undone);
    if status.Complete? {
      forall x <- todo
        ensures x !in undone
      {
        assert x in tried && x !in failed;
      }
    }
  }

  lemma PrefixIsDue(todo: seq<BillId>, tried: seq<BillId>, undone: set<BillId>)
    requires tried <= todo
    ensures Elements(tried) <= Elements(todo) && |Elements(tried) * undone| <= |Elements(todo) * undone|
  {
    assert forall x <- tried :: x in todo;
    SubsetIsSmaller(Elements(tried) * undone, Elements(todo) * undone);
  }

  lemma SubsetIsSmaller(a: set<BillId>, b: set<BillId>)
    requires a <= b
    ensures |a| <= |b|
  {
    assert b == a + (b - a);
  }

  /** What a run has to try from a checkpoint. */
  lemma DueIsListed(ids: seq<BillId>, start: Checkpoint)
    requires Ascending(ids) && forall f <- start.failed :: f in ids
    ensures forall i :: i in Elements(start.failed + Beyond(ids, start.last, start.failed)) <==> i in ids && (i > start.last || i in start.failed)
  {
    BeyondHolds(ids, start.last, start.failed);
  }

  ghost function Elements(s: seq<BillId>): set<BillId> {
    set x <- s
  }

  lemma TriesOneMore(todo: seq<BillId>, k: nat)
    requires k < |todo|
    ensures Elements(todo[..k]) <= Elements(todo[..k + 1])
  {
    assert todo[..k + 1] == todo[..k] + [todo[k]];
  }

  lemma RemovesNext(retry: seq<BillId>, todo: seq<BillId>, k: nat)
    requires retry <= todo && Distinct(todo) && k < |todo|
    ensures RetryLeft(retry, k + 1)
            == if todo[k] in RetryLeft(retry, k) then Without(RetryLeft(retry, k), todo[k]) else RetryLeft(retry, k)
  {
    if k < |retry| {
      assert RetryLeft(retry, k)[0] == todo[k];
    }
  }

  lemma CursorGrows(ids: seq<BillId>, last: int, retry: seq<BillId>, todo: seq<BillId>, k: nat)
    requires Ascending(ids) && (forall f <- retry :: f <= last)
    requires todo == retry + Beyond(ids, last, retry) && k < |todo|
    ensures Cursor(last, retry, todo, k + 1)
            == if todo[k] > Cursor(last, retry, todo, k) then todo[k] else Cursor(last, retry, todo, k)
  {
    BeyondHolds(ids, last, retry);
    var beyond := Beyond(ids, last, retry);
    if k < |retry| {
      assert todo[k] in retry;
    } else {
      assert todo[k] == beyond[k - |retry|] && todo[k] in beyond;
      if k > |retry| {
        assert todo[k - 1] == beyond[k - 1 - |retry|];
      }
    }
  }

  /** A save forgets no failure of an earlier run: it is retried in this one, still carried over, or
      beyond the cursor because this run starts over. */
  lemma SaveRemembers(ids: seq<BillId>, start: Checkpoint, todo: seq<BillId>, k: nat, earlier: seq<BillId>)
    requires Ascending(ids) && k <= |todo| && todo == start.failed + Beyond(ids, start.last, start.failed)
    requires start.failed == earlier || start == NO_CHECKPOINT
    requires forall f <- earlier :: f in ids
    ensures forall f <- earlier :: f in RetryLeft(start.failed, k) || f in todo[..k] || f > Cursor(start.last, start.failed, todo, k)
  {
    forall f <- earlier | f <= Cursor(start.last, start.failed, todo, k)
      ensures f in todo[..k] || f in RetryLeft(start.failed, k)
    {
      ReachedOrLeft(ids, start.last, start.failed, todo, k, f);
    }
  }

  // ---------------------------------------------------------------------------------------------
  // A whole run
  // ---------------------------------------------------------------------------------------------

  /** What a stage of a run meets: whether its bills can be listed, for which of them a try leaves something
      undone, and where the process dies. */
  datatype Fate = Fate(listed: bool, undone: set<BillId>, death: Death)

  predicate NoTrouble(ids: seq<BillId>, fate: Fate) {
    fate.listed && fate.death == Never && forall i <- ids :: i !in fate.undone
  }

  predicate IsDone(status: Status) {
    status == Complete || status == AlreadyComplete
  }

  /** A stage that ended like this lets the next one run. */
  predicate GoesOn(status: Status) {
    IsDone(status) || status == Incomplete
  }

  /** One stage of a run. */
  method RunStage(stage: StageBackfill, restart: bool, fate: Fate) returns (status: Status)
    requires stage.Valid()
    modifies stage
    ensures stage.Valid() && old(stage.succeeded) <= stage.succeeded
    ensures IsDone(status) ==> AllSucceeded(stage.ids, stage.succeeded)
    ensures NoTrouble(stage.ids, fate) ==> IsDone(status)
  {
    ghost var due, tried, saved;
    status, due, tried, saved := stage.BackfillStage(restart, fate.listed, fate.undone, fate.death);
  }

  /** The first stages have run, all but the last of them so that the next one runs. */
  ghost predicate Ran(stages: seq<StageBackfill>, fates: seq<Fate>, results: seq<Status>)
    reads stages
  {
    && |results| <= |stages| == |fates| && (forall s <- stages :: s.Valid())
    && (forall k | 0 <= k < |results| && IsDone(results[k]) :: AllSucceeded(stages[k].ids, stages[k].succeeded))
    && (forall k | 0 <= k < |results| && NoTrouble(stages[k].ids, fates[k]) :: IsDone(results[k]))
    && (forall k | 0 <= k < |results| - 1 :: GoesOn(results[k]))
  }

  /** The next stage of a run. */
  method RunNext(stages: seq<StageBackfill>, restart: bool, fates: seq<Fate>, results: seq<Status>) returns (status: Status)
    requires Ran(stages, fates, results) && |results| < |stages| && (results != [] ==> GoesOn(results[|results| - 1]))
    modifies stages[|results|]
    ensures Ran(stages, fates, results + [status])
    ensures old(stages[|results|].succeeded) <= stages[|results|].succeeded
  {
    status := RunStage(stages[|results|], restart, fates[|results|]);
  }

  /** The loop over the stages, which stops at one that failed or aborted. */
  method RunStages(stages: seq<StageBackfill>, restart: bool, fates: seq<Fate>) returns (results: seq<Status>)
    requires Ran(stages, fates, [])
    modifies stages
    ensures Ran(stages, fates, results) && forall s <- stages :: old(s.succeeded) <= s.succeeded
    ensures |results| < |stages| ==> results != [] && !GoesOn(results[|results| - 1])
    ensures forall s <- stages | s !in stages[..|results|] :: s.checkpoint == old(s.checkpoint) && s.succeeded == old(s.succeeded)
  {
    results := [];
    for i := 0 to |stages|
      invariant |results| == i && Ran(stages, fates, results) && (results != [] ==> GoesOn(results[|results| - 1]))
      invariant forall s <- stages :: old(s.succeeded) <= s.succeeded
      invariant forall s <- stages | s !in stages[..i] :: s.checkpoint == old(s.checkpoint) && s.succeeded == old(s.succeeded)
    {
      var status := RunNext(stages, restart, fates, results);
      assert stages[..i + 1] == stages[..i] + [stages[i]];
      results := results + [status];
      if status == Failed || status == Aborted || status == Crashed {
        return;
      }
    }
  }

  /** `run_knowledge_base_backfill`: the stages in order. A run is complete only if every bill of every stage
      has succeeded, and one that meets no trouble is. */
  method RunBackfill(stages: seq<StageBackfill>, restart: bool, fates: seq<Fate>) returns (complete: bool, results: seq<Status>)
    requires |fates| == |stages| && forall s <- stages :: s.Valid()
    modifies stages
    ensures forall s <- stages :: s.Valid() && old(s.succeeded) <= s.succeeded
    ensures complete ==> forall s <- stages :: AllSucceeded(s.ids, s.succeeded)
    ensures (forall k | 0 <= k < |stages| :: NoTrouble(stages[k].ids, fates[k])) ==> complete
    // it stops early only at a stage that failed, aborted or crashed, and touches none after it
    ensures |results| <= |stages| && forall k | 0 <= k < |results| - 1 :: !results[k].Failed? && !results[k].Aborted? && !results[k].Crashed?
    ensures |results| < |stages| ==>
              results != [] && var last := results[|results| - 1]; last.Failed? || last.Aborted? || last.Crashed?
    ensures complete <==> |results| == |stages| && forall r <- results :: r == Complete || r == AlreadyComplete
    ensures forall s <- stages | s !in stages[..|results|] :: s.checkpoint == old(s.checkpoint) && s.succeeded == old(s.succeeded)
  {
    results := RunStages(stages, restart, fates);
    complete := |results| == |stages| && forall r <- results :: r == Complete || r == AlreadyComplete;
    if complete {
      forall k | 0 <= k < |stages|
        ensures AllSucceeded(stages[k].ids, stages[k].succeeded)
      {
        assert results[k] in results && IsDone(results[k]);
      }
    }
    if results != [] {
      var last := |results| - 1;
      assert NoTrouble(stages[last].ids, fates[last]) ==> IsDone(results[last]);
    }
  }

  // ---------------------------------------------------------------------------------------------
  // The blackout window
  // ---------------------------------------------------------------------------------------------

  const DAY := 86400

  /** `_blackout_seconds_left`, with times as seconds of the day: the seconds until the window ends. */
  method BlackoutSecondsLeft(now: nat, startOfDay: nat, endOfDay: nat) returns (left: nat)
    requires now < DAY && startOfDay < DAY && endOfDay < DAY
    ensures left == SecondsLeft(now, startOfDay, endOfDay)
    ensures left > 0 <==> if startOfDay < endOfDay then startOfDay <= now < endOfDay else startOfDay <= now || now < endOfDay
    ensures left > 0 ==> left <= DAY && (now + left == endOfDay || now + left == endOfDay + DAY)
  {
    var start, end := startOfDay, endOfDay;
    if end <= start {
      if now >= start {
        end := end + DAY;
      } else {
        start := start - DAY;
      }
    }
    left := if start <= now < end then end - now else 0;
  }

  /** How long after `from` the clock next shows `to`. */
  function Until(from: nat, to: nat): nat
    requires from < DAY && to < DAY
  {
    if from <= to then to - from else DAY - from + to
  }

  /** The window is as long as it takes to get from its start to its end; one that ends when it starts
      is the whole day. Inside it, what is left is its length less the time since it started. */
  function SecondsLeft(now: nat, start: nat, end: nat): nat
    requires now < DAY && start < DAY && end < DAY
  {
    var length := if start == end then DAY else Until(start, end);
    if Until(start, now) < length then length - Until(start, now) else 0
  }

  /** Waiting that long always ends on the window's end, and outside the window unless it is the whole
      day, whose wait never ends. */
  lemma WaitingEndsTheBlackout(now: nat, start: nat, end: nat)
    requires now < DAY && start < DAY && end < DAY && SecondsLeft(now, start, end) > 0
    ensures (now + SecondsLeft(now, start, end)) % DAY == end
    ensures SecondsLeft(end, start, end) == 0 <==> start != end
  {
  }
}
